/** How many entries the sub-tables of inflate_table take: one for each long code, and one more
    for each entry that is repeated when the sub-table around it grows by a bit. */
module SubTables {
  import opened Bits
  import opened Canonical

  // ----- canonical order -----

  ghost predicate IsMax(lens: seq<nat>, max: nat) {
    1 <= max <= MAX_BITS && forall b: nat :: max < b <= MAX_BITS ==> NoCode(lens, b)
  }

  ghost predicate NoCode(lens: seq<nat>, b: nat) {
    Total(lens, b) == 0
  }

  /** (b2, j2) is the code right after (b, j). */
  ghost predicate Follows(lens: seq<nat>, b: nat, j: nat, b2: nat, j2: nat) {
    && IsCode(lens, b, j) && IsCode(lens, b2, j2)
    && if b == b2 then j2 == j + 1
       else b < b2 && j + 1 == Total(lens, b) && j2 == 0 && Gap(lens, b, b2)
  }

  /** No code has a length strictly between b and b2. */
  ghost predicate Gap(lens: seq<nat>, b: nat, b2: nat) {
    forall x: nat :: b < x < b2 ==> NoCode(lens, x)
  }

  lemma {:induction false} FirstAcross(lens: seq<nat>, b: nat, b2: nat)
    requires 1 <= b < b2 && Gap(lens, b, b2)
    ensures First(lens, b2) == Shl(First(lens, b) + Total(lens, b), b2 - b)
  {
    if b + 1 < b2 {
      FirstAcross(lens, b, b2 - 1);
      assert NoCode(lens, b2 - 1);
    }
  }

  /** The number of the next code, extended by zeros where the length grows. */
  lemma {:induction false} NextNumber(lens: seq<nat>, b: nat, j: nat, b2: nat, j2: nat)
    requires Follows(lens, b, j, b2, j2)
    ensures b <= b2
    ensures First(lens, b2) + j2 == Shl(First(lens, b) + j + 1, b2 - b)
  {
    if b < b2 { FirstAcross(lens, b, b2); }
  }

  function Head(lens: seq<nat>, root: nat, b: nat, j: nat): nat
    requires root <= b
  {
    Shr(First(lens, b) + j, b - root)
  }

  /** Sum of Cnt over the lengths 1 .. b-1: where the symbols of length b start. */
  function Off(lens: seq<nat>, n: nat, b: nat): nat
    requires n <= |lens|
  {
    if b <= 1 then 0 else Off(lens, n, b - 1) + Cnt(lens, n, b - 1)
  }

  lemma {:induction false} OffStep(lens: seq<nat>, n: nat, b: nat)
    requires n < |lens|
    ensures Off(lens, n + 1, b) == Off(lens, n, b) + (if 1 <= lens[n] < b then 1 else 0)
  {
    if b > 1 { OffStep(lens, n, b - 1); }
  }

  lemma {:induction false} OffBound(lens: seq<nat>, n: nat, b: nat)
    requires n <= |lens|
    ensures Off(lens, n, b) <= n
  {
    if n == 0 {
      OffZero(lens, b);
    } else {
      OffBound(lens, n - 1, b);
      OffStep(lens, n - 1, b);
    }
  }

  lemma {:induction false} OffZero(lens: seq<nat>, b: nat)
    ensures Off(lens, 0, b) == 0
  {
    if b > 1 { OffZero(lens, b - 1); }
  }

  lemma {:induction false} OffMono(lens: seq<nat>, b: nat, b': nat)
    requires 1 <= b < b'
    ensures Off(lens, |lens|, b) + Total(lens, b) <= Off(lens, |lens|, b')
  {
    if b + 1 < b' { OffMono(lens, b, b' - 1); }
  }

  function Start(lens: seq<nat>, b: nat): nat {
    Off(lens, |lens|, b)
  }

  lemma {:induction false} StartBound(lens: seq<nat>, b: nat)
    requires b >= 1
    ensures Start(lens, b) + Total(lens, b) <= |lens|
  {
    OffBound(lens, |lens|, b + 1);
  }

  // ----- entries -----

  /** The code space taken by all codes of length up to b, in units of 2^-b. */
  function TakenSpace(lens: seq<nat>, b: nat): nat {
    First(lens, b) + Total(lens, b)
  }

  /** The number of codes longer than root, of length up to b. */
  function LongCodes(lens: seq<nat>, root: nat, b: nat): nat {
    if b <= root then 0 else LongCodes(lens, root, b - 1) + Total(lens, b)
  }

  /** The entries repeated when sub-tables grow from i to i + 1 bits, for i up to k. */
  function Repeated(lens: seq<nat>, root: nat, k: nat): nat {
    if k == 0 then 0 else Repeated(lens, root, k - 1) + Low(TakenSpace(lens, root + k), k)
  }

  /** The entries that all codes before (b, j) take. */
  function Spent(lens: seq<nat>, root: nat, b: nat, j: nat): nat
    requires root < b
  {
    LongCodes(lens, root, b - 1) + j + Repeated(lens, root, b - 1 - root)
  }

  /** The part of that which is in the sub-table of (b, j). */
  function Inside(lens: seq<nat>, root: nat, b: nat, j: nat): nat
    requires root < b
  {
    Low(First(lens, b) + j, b - root)
  }

  lemma {:induction false} LongCodesMono(lens: seq<nat>, root: nat, b: nat, b2: nat)
    requires b <= b2
    ensures LongCodes(lens, root, b) <= LongCodes(lens, root, b2)
  {
    if b < b2 { LongCodesMono(lens, root, b, b2 - 1); }
  }

  lemma {:induction false} RepeatedMono(lens: seq<nat>, root: nat, k: nat, k2: nat)
    requires k <= k2
    ensures Repeated(lens, root, k) <= Repeated(lens, root, k2)
  {
    if k < k2 { RepeatedMono(lens, root, k, k2 - 1); }
  }

  /** Between two lengths without codes nothing is taken, but sub-tables grow. */
  lemma {:induction false} LongAcross(lens: seq<nat>, root: nat, b: nat, b2: nat)
    requires root <= b < b2 && Gap(lens, b, b2)
    ensures LongCodes(lens, root, b2 - 1) == LongCodes(lens, root, b)
  {
    if b + 1 < b2 {
      LongAcross(lens, root, b, b2 - 1);
      assert NoCode(lens, b2 - 1);
    }
  }

  lemma {:induction false} InsideAcross(lens: seq<nat>, root: nat, b: nat, b2: nat, x: nat)
    requires 1 <= b < b2 && root <= b && Gap(lens, b, b2) && x == Low(TakenSpace(lens, b), b - root)
    ensures Low(First(lens, b2), b2 - root) == Shl(x, b2 - b)
  {
    FirstAcross(lens, b, b2);
    LowShl(TakenSpace(lens, b), b2 - b, b - root);
  }

  lemma {:induction false} RepeatedAcross(lens: seq<nat>, root: nat, b: nat, b2: nat, x: nat)
    requires 1 <= b < b2 && root < b && Gap(lens, b, b2) && x == Low(TakenSpace(lens, b), b - root)
    ensures Repeated(lens, root, b2 - 1 - root) == Repeated(lens, root, b - 1 - root) + Shl(x, b2 - b) - x
  {
    if b + 1 < b2 {
      RepeatedAcross(lens, root, b, b2 - 1, x);
      InsideAcross(lens, root, b, b2 - 1, x);
      assert NoCode(lens, b2 - 1);
    } else {
      assert Shl(x, 1) == 2 * x;
    }
  }

  /** From a long code to the next one; x is what the sub-table then holds, in units of the shorter code. */
  lemma {:induction false} SpentNext(lens: seq<nat>, root: nat, b: nat, j: nat, b2: nat, j2: nat, x: nat)
    requires Follows(lens, b, j, b2, j2) && root < b && x == Low(First(lens, b) + j + 1, b - root)
    ensures Spent(lens, root, b2, j2) - Inside(lens, root, b2, j2) == Spent(lens, root, b, j) + 1 - x
    ensures Inside(lens, root, b2, j2) == Shl(x, b2 - b)
  {
    if b < b2 {
      LongAcross(lens, root, b, b2);
      InsideAcross(lens, root, b, b2, x);
      RepeatedAcross(lens, root, b, b2, x);
    }
  }

  /** A code in the same sub-table as the one before it. */
  lemma {:induction false} SpentSameHead(lens: seq<nat>, root: nat, b: nat, j: nat, b2: nat, j2: nat)
    requires Follows(lens, b, j, b2, j2) && root < b && Head(lens, root, b, j) == Head(lens, root, b2, j2)
    ensures Spent(lens, root, b2, j2) - Inside(lens, root, b2, j2) == Spent(lens, root, b, j) - Inside(lens, root, b, j)
  {
    var c := First(lens, b) + j;
    NextHead(lens, root, b, j, b2, j2);
    NextLow(c, b - root);
    SpentNext(lens, root, b, j, b2, j2, Low(c + 1, b - root));
  }

  /** A code that begins a sub-table after one in another sub-table, which it finds full. */
  lemma {:induction false} SpentNewHead(lens: seq<nat>, root: nat, b: nat, j: nat, b2: nat, j2: nat)
    requires Follows(lens, b, j, b2, j2) && root < b && Head(lens, root, b, j) != Head(lens, root, b2, j2)
    ensures Spent(lens, root, b2, j2) == Spent(lens, root, b, j) - Inside(lens, root, b, j) + Pow2(b - root)
  {
    var c := First(lens, b) + j;
    NextHead(lens, root, b, j, b2, j2);
    NextLow(c, b - root);
    SpentNext(lens, root, b, j, b2, j2, 0);
    ShlZero(b2 - b);
  }

  /** Where the sub-table of a code ends. */
  lemma {:induction false} HeadEnds(lens: seq<nat>, root: nat, b: nat, j: nat, b2: nat, j2: nat)
    requires Follows(lens, b, j, b2, j2) && root < b && Head(lens, root, b, j) != Head(lens, root, b2, j2)
    ensures First(lens, b) + j + 1 == Shl(Head(lens, root, b, j) + 1, b - root)
  {
    var c := First(lens, b) + j;
    NextHead(lens, root, b, j, b2, j2);
    NextLow(c, b - root);
    SplitAt(c, b - root);
    ShlSum(Shr(c, b - root), 1, b - root);
    ShlOne(b - root);
  }

  lemma {:induction false} NextHead(lens: seq<nat>, root: nat, b: nat, j: nat, b2: nat, j2: nat)
    requires Follows(lens, b, j, b2, j2) && root < b
    ensures Head(lens, root, b2, j2) == Shr(First(lens, b) + j + 1, b - root)
  {
    var v := First(lens, b) + j + 1;
    NextNumber(lens, b, j, b2, j2);
    SplitUnique(0, v, b2 - b);
    ShlZero(b2 - b);
    ShrShr(Shl(v, b2 - b), b2 - b, b - root);
  }

  /** Counting up either stays below the next multiple of 2^n or reaches it. */
  lemma {:induction false} NextLow(c: nat, n: nat)
    ensures if Shr(c + 1, n) == Shr(c, n) then Low(c + 1, n) == Low(c, n) + 1 else
              Low(c + 1, n) == 0 && Low(c, n) + 1 == Pow2(n)
  {
    SplitAt(c, n);
    if Low(c, n) + 1 < Pow2(n) {
      SplitUnique(Low(c, n) + 1, Shr(c, n), n);
    } else {
      ShlSum(Shr(c, n), 1, n);
      ShlOne(n);
      SplitUnique(0, Shr(c, n) + 1, n);
    }
  }

  /** The first code that is longer than root. */
  lemma {:induction false} SpentFirst(lens: seq<nat>, root: nat, b: nat, j: nat, b2: nat, j2: nat)
    requires Follows(lens, b, j, b2, j2) && b <= root < b2
    ensures Spent(lens, root, b2, j2) == 0
  {
    FewerLong(lens, root, b, b2 - 1);
    NoneRepeated(lens, root, b, b2 - 1 - root);
  }

  lemma {:induction false} FewerLong(lens: seq<nat>, root: nat, b: nat, c: nat)
    requires b <= root && Gap(lens, b, c + 1)
    ensures LongCodes(lens, root, c) == 0
  {
    if c > root {
      FewerLong(lens, root, b, c - 1);
      assert NoCode(lens, c);
    }
  }

  lemma {:induction false} NoneRepeated(lens: seq<nat>, root: nat, b: nat, k: nat)
    requires 1 <= b <= root && Gap(lens, b, root + k + 1)
    ensures Repeated(lens, root, k) == 0
  {
    if k != 0 {
      NoneRepeated(lens, root, b, k - 1);
      AcrossRoot(lens, root, b, k);
    }
  }

  lemma {:induction false} AcrossRoot(lens: seq<nat>, root: nat, b: nat, k: nat)
    requires 1 <= b <= root && k > 0 && Gap(lens, b, root + k + 1)
    ensures Low(TakenSpace(lens, root + k), k) == 0
  {
    assert NoCode(lens, root + k);
    FirstAcross(lens, b, root + k);
    ShlShl(TakenSpace(lens, b), root - b, k);
    SplitUnique(0, Shl(TakenSpace(lens, b), root - b), k);
  }

  /** A sub-table of curr bits that is not filled by codes of up to root + curr bits, with left entries left. */
  lemma {:induction false} Grows(lens: seq<nat>, root: nat, curr: nat, q: nat, left: nat)
    requires 1 <= curr && 0 < left <= Pow2(curr) && TakenSpace(lens, root + curr) == Shl(q + 1, curr) - left
    ensures Repeated(lens, root, curr) == Repeated(lens, root, curr - 1) + Pow2(curr) - left
  {
    ShlSum(q, 1, curr);
    ShlOne(curr);
    SplitUnique(Pow2(curr) - left, q, curr);
  }

  /** What is known of the space taken when the code (len, j) is entered into a sub-table of curr bits. */
  ghost predicate Accounted(lens: seq<nat>, root: nat, curr: nat, used: nat, len: nat, j: nat) {
    if len <= root then used == Pow2(root)
    else && used == Pow2(root) + Spent(lens, root, len, j) - Inside(lens, root, len, j) + Pow2(curr)
         && len <= root + curr && (len < root + curr ==> Unfilled(lens, root, curr, Head(lens, root, len, j)))
  }

  /** Codes of fewer than root + curr bits do not fill the sub-table with head q. */
  ghost predicate Unfilled(lens: seq<nat>, root: nat, curr: nat, q: nat) {
    curr >= 1 && TakenSpace(lens, root + curr - 1) < Shl(q + 1, curr - 1)
  }

  /** Before a new sub-table everything taken is spent on codes. */
  lemma {:induction false} AllSpent(lens: seq<nat>, root: nat, curr: nat, used: nat, len: nat, j: nat, len2: nat,
                                    j2: nat)
    requires Follows(lens, len, j, len2, j2) && root < len2 && Accounted(lens, root, curr, used, len, j)
    requires root < len ==> Head(lens, root, len, j) != Head(lens, root, len2, j2)
    ensures used == Pow2(root) + Spent(lens, root, len2, j2)
  {
    if len <= root {
      SpentFirst(lens, root, len, j, len2, j2);
    } else {
      SpentNewHead(lens, root, len, j, len2, j2);
      if len < root + curr { Filled(lens, root, curr, len, j, len2, j2); }
    }
  }

  lemma {:induction false} Filled(lens: seq<nat>, root: nat, curr: nat, len: nat, j: nat, len2: nat, j2: nat)
    requires Follows(lens, len, j, len2, j2) && root < len < root + curr
    requires Head(lens, root, len, j) != Head(lens, root, len2, j2)
    ensures !Unfilled(lens, root, curr, Head(lens, root, len, j))
  {
    var q, k, b := Head(lens, root, len, j), len - root, root + curr - 1;
    HeadEnds(lens, root, len, j, len2, j2);
    ShlMono(Shl(q + 1, k), TakenSpace(lens, len), b - len);
    ShlShl(q + 1, k, b - len);
    if len < b { FirstGrows(lens, len, b); }
  }

  // ----- ENOUGH -----

  /** All entries, root table included, of a complete code. */
  function TableEntries(lens: seq<nat>, root: nat): nat {
    Pow2(root) + LongCodes(lens, root, MAX_BITS) + if root < MAX_BITS then
        Repeated(lens, root, MAX_BITS - 1 - root) else 0
  }

  lemma {:induction false} TakenStep(lens: seq<nat>, b: nat)
    requires b >= 2
    ensures TakenSpace(lens, b) == 2 * TakenSpace(lens, b - 1) + Total(lens, b)
  {
  }

  lemma {:induction false} RepeatedBound(lens: seq<nat>, root: nat, k: nat)
    ensures Repeated(lens, root, k) + k + 2 <= Pow2(k + 1)
  {
    if k != 0 { RepeatedBound(lens, root, k - 1); }
  }

  /** If as many entries are repeated as possible, the number of long codes has the parity of k. */
  lemma {:induction false} MostRepeated(lens: seq<nat>, root: nat, k: nat)
    requires root >= 1 && Repeated(lens, root, k) + k + 2 == Pow2(k + 1)
    ensures LongCodes(lens, root, root + k) % 2 == k % 2
  {
    if k != 0 {
      RepeatedBound(lens, root, k - 1);
      MostRepeated(lens, root, k - 1);
      TakenStep(lens, root + k);
      AllOnes(TakenSpace(lens, root + k), k);
      OneMoreOdd(LongCodes(lens, root, root + k - 1), Total(lens, root + k), TakenSpace(lens, root + k - 1), k);
    }
  }

  lemma {:induction false} OneMoreOdd(long: nat, total: nat, taken: nat, k: nat)
    requires k >= 1 && long % 2 == (k - 1) % 2 && (2 * taken + total) % 2 == 1
    ensures (long + total) % 2 == k % 2
  {
  }

  lemma {:induction false} AllOnes(v: nat, k: nat)
    requires k >= 1 && Low(v, k) + 1 == Pow2(k)
    ensures v % 2 == 1
  {
  }

  /** Space left at length b. */
  function Left(lens: seq<nat>, b: nat): int {
    Pow2(b) - TakenSpace(lens, b)
  }

  lemma {:induction false} LeftStep(lens: seq<nat>, b: nat)
    requires b >= 2
    ensures Left(lens, b) == 2 * Left(lens, b - 1) - Total(lens, b)
  {
    TakenStep(lens, b);
  }

  /** At least two long codes share each root entry that is left. */
  lemma {:induction false} ManyLong(lens: seq<nat>, root: nat, b: nat)
    requires Fits(lens) && 1 <= root < b <= MAX_BITS
    ensures LongCodes(lens, root, b) + Left(lens, b) >= 2 * Left(lens, root)
  {
    LeftStep(lens, b);
    if root + 1 < b {
      ManyLong(lens, root, b - 1);
      assert FitsAt(lens, b - 1);
    }
  }

  /** How little space up to two codes take, if not both have one bit. */
  lemma {:induction false} FewShort(lens: seq<nat>, b: nat)
    requires b >= 2 && Total(lens, 1) <= 1
    ensures LongCodes(lens, 0, b) == 0 ==> TakenSpace(lens, b) == 0
    ensures LongCodes(lens, 0, b) == 1 ==> TakenSpace(lens, b) <= Pow2(b - 1)
    ensures LongCodes(lens, 0, b) == 2 ==> TakenSpace(lens, b) <= 3 * Pow2(b - 2)
  {
    TakenStep(lens, b);
    if b > 2 {
      FewShort(lens, b - 1);
    } else {
      assert LongCodes(lens, 0, 1) == Total(lens, 1) == TakenSpace(lens, 1);
    }
  }

  /** After two codes of one bit there are no others. */
  lemma {:induction false} TwoOneBitCodes(lens: seq<nat>, b: nat)
    requires Fits(lens) && Total(lens, 1) >= 2 && 1 <= b <= MAX_BITS
    ensures LongCodes(lens, 1, b) == 0 && Left(lens, b) == 0
  {
    assert FitsAt(lens, b);
    if b > 1 {
      TwoOneBitCodes(lens, b - 1);
      LeftStep(lens, b);
    }
  }

  lemma {:induction false} LongSplit(lens: seq<nat>, root: nat, root': nat, b: nat)
    requires root <= root' <= b
    ensures LongCodes(lens, root, b) == LongCodes(lens, root, root') + LongCodes(lens, root', b)
  {
    if root' < b { LongSplit(lens, root, root', b - 1); }
  }

  lemma {:induction false} AllCodes(lens: seq<nat>, b: nat)
    ensures LongCodes(lens, 0, b) == Start(lens, b + 1)
  {
    if b != 0 { AllCodes(lens, b - 1); }
  }

  /** With at most two codes of up to root bits, many long codes are needed. */
  lemma {:induction false} FewShortManyLong(lens: seq<nat>, root: nat)
    requires Fits(lens) && Complete(lens) && 2 <= root < MAX_BITS && LongCodes(lens, root, MAX_BITS) > 0
    ensures LongCodes(lens, 0, root) <= 1 ==> LongCodes(lens, root, MAX_BITS) >= Pow2(root)
    ensures LongCodes(lens, 0, root) == 2 ==> LongCodes(lens, root, MAX_BITS) >= 2 * Pow2(root - 2)
  {
    OneOneBitCode(lens, root);
    Exhausted(lens);
    ManyLong(lens, root, MAX_BITS);
    FewShort(lens, root);
    assert Pow2(root) == 2 * Pow2(root - 1) && Pow2(root - 1) == 2 * Pow2(root - 2);
  }

  lemma {:induction false} OneOneBitCode(lens: seq<nat>, root: nat)
    requires Fits(lens) && 1 <= root < MAX_BITS && LongCodes(lens, root, MAX_BITS) > 0
    ensures Total(lens, 1) <= 1
  {
    if Total(lens, 1) >= 2 {
      TwoOneBitCodes(lens, MAX_BITS);
      LongSplit(lens, 1, root, MAX_BITS);
    }
  }

  lemma {:induction false} Exhausted(lens: seq<nat>)
    requires Complete(lens)
    ensures Left(lens, MAX_BITS) == 0
  {
    var m: nat :| m == MAX_BITS;
    assert ExhaustedAt(lens, m);
  }

  /** The parity of the number of long codes when as many entries are repeated as possible. */
  lemma {:induction false} LongParity(lens: seq<nat>, root: nat, k: nat)
    requires Complete(lens) && root >= 1 && root + k + 1 == MAX_BITS && Repeated(lens, root, k) + k + 2 == Pow2(k + 1)
    ensures LongCodes(lens, root, MAX_BITS) % 2 == k % 2
  {
    MostRepeated(lens, root, k);
    LastEven(lens);
  }

  /** Codes of the greatest length come in pairs. */
  lemma {:induction false} LastEven(lens: seq<nat>)
    requires Complete(lens)
    ensures Total(lens, MAX_BITS) % 2 == 0
  {
    Exhausted(lens);
    LeftStep(lens, MAX_BITS);
  }

  lemma {:induction false} CodesBound(lens: seq<nat>, root: nat)
    requires root <= MAX_BITS
    ensures LongCodes(lens, 0, root) + LongCodes(lens, root, MAX_BITS) <= |lens|
  {
    LongSplit(lens, 0, root, MAX_BITS);
    AllCodes(lens, MAX_BITS);
    OffBound(lens, |lens|, MAX_BITS + 1);
  }

  /** ENOUGH_LENS: a complete code of at most 286 symbols takes at most 852 entries, with a root table of 9 bits. */
  lemma {:induction false} EnoughLens(lens: seq<nat>)
    requires Complete(lens) && |lens| <= 286
    ensures TableEntries(lens, 9) <= 852
  {
    CompleteFits(lens);
    CodesBound(lens, 9);
    RepeatedBound(lens, 9, 5);
    SmallPowers();
    if LongCodes(lens, 9, MAX_BITS) > 283 {
      FewShortManyLong(lens, 9);
      if Repeated(lens, 9, 5) == 57 { LongParity(lens, 9, 5); }
    }
  }

  /** ENOUGH_DISTS: a complete code of at most 30 symbols takes at most 592 entries, with a root table of 6 bits. */
  lemma {:induction false} EnoughDists(lens: seq<nat>)
    requires Complete(lens) && |lens| <= 30
    ensures TableEntries(lens, 6) <= 592
  {
    CompleteFits(lens);
    CodesBound(lens, 6);
    RepeatedBound(lens, 6, 8);
    SmallPowers();
    if LongCodes(lens, 6, MAX_BITS) > 27 {
      FewShortManyLong(lens, 6);
    } else if Repeated(lens, 6, 8) == 502 {
      LongParity(lens, 6, 8);
    }
  }

}
