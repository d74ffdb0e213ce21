/** The hash table and the chains of earlier strings that deflate keeps for its window. */
module HashChains {
  import opened Bits
  import opened Hashing

  /** The hash of the three bytes at p. */
  ghost function HashAt(hc: Config, data: seq<byte>, p: nat): nat
    requires p + 3 <= |data|
  {
    Hash(hc, data[p], data[p + 1], data[p + 2])
  }

  /** The place of a position in prev: p & w_mask, for a window size that is a power of two. */
  function Slot(p: nat, wsize: nat): (s: nat)
    requires wsize > 0
    ensures s < wsize
  {
    if p < wsize then p else Slot(p - wsize, wsize)
  }

  /** Positions less than a window apart have different places. */
  lemma {:induction false} SlotsDiffer(p: nat, q: nat, wsize: nat)
    requires wsize > 0 && p < q < p + wsize
    ensures Slot(p, wsize) != Slot(q, wsize)
  {
    if p >= wsize { SlotsDiffer(p - wsize, q - wsize, wsize); }
  }

  /** A whole number of windows. */
  ghost predicate Whole(base: nat, wsize: nat) {
    base == 0 || (base >= wsize > 0 && Whole(base - wsize, wsize))
  }

  /** A window index and its absolute position have the same place. */
  lemma {:induction false} SlotOfIndex(base: nat, i: nat, wsize: nat)
    requires wsize > 0 && Whole(base, wsize)
    ensures Slot(base + i, wsize) == Slot(i, wsize)
  {
    if base != 0 { SlotOfIndex(base - wsize, i, wsize); }
  }

  /** x is a position that was inserted, before p, with the same hash. */
  ghost predicate Earlier(hc: Config, data: seq<byte>, ins: set<nat>, x: nat, p: nat) {
    x in ins && x < p && SameHash(hc, data, x, p)
  }

  ghost predicate SameHash(hc: Config, data: seq<byte>, x: nat, p: nat) {
    && x + 3 <= |data| && p + 3 <= |data|
    && forall h {:trigger Hashes(hc, data, x, h)} :: Hashes(hc, data, x, h) ==> Hashes(hc, data, p, h)
  }

  /** h is the hash of the string at p. */
  ghost predicate Hashes(hc: Config, data: seq<byte>, p: nat, h: nat) {
    p + 3 <= |data| && forall q {:trigger HashAt(hc, data, q)} :: q == p ==> h == HashAt(hc, data, q)
  }

  lemma {:induction false} SameHashes(hc: Config, data: seq<byte>, x: nat, p: nat, h: nat)
    requires Hashes(hc, data, x, h) && Hashes(hc, data, p, h)
    ensures SameHash(hc, data, x, p) && SameHash(hc, data, p, x)
  {
    assert h == HashAt(hc, data, x) == HashAt(hc, data, p);
  }

  /** The link of an inserted position leads to an earlier one with the same hash, or nowhere. */
  ghost predicate LinkOk(hc: Config, wsize: nat, prev: seq<nat>, base: nat, data: seq<byte>, ins: set<nat>, p: nat) {
    wsize > 0 && |prev| == wsize && (prev[Slot(p, wsize)] != 0 ==> Earlier(hc, data, ins, base + prev[Slot(p, wsize)],
          p))
  }

  /** The head of a chain is an inserted position with that hash, or there is none. */
  ghost predicate HeadOk(hc: Config, head: seq<nat>, base: nat, data: seq<byte>, ins: set<nat>, h: nat) {
    && h < |head|
    && (head[h] != 0 ==> base + head[h] in ins && Hashes(hc, data, base + head[h], h))
  }

  /** Heads and the links of the last wsize positions before and at `at` are right. */
  ghost predicate Chains(hc: Config, wsize: nat, head: seq<nat>, prev: seq<nat>, base: nat, data: seq<byte>,
                         ins: set<nat>, at: nat) {
    && |head| == Pow2(hc.bits) && |prev| == wsize > 0
    && (forall p {:trigger p in ins} :: p in ins ==> p + 3 <= |data| && p <= at)
    && (forall h {:trigger HeadOk(hc, head, base, data, ins, h)} ::
          0 <= h < |head| ==> HeadOk(hc, head, base, data, ins, h))
    && (forall p {:trigger LinkOk(hc, wsize, prev, base, data, ins, p)} ::
          p in ins && p + wsize > at ==> LinkOk(hc, wsize, prev, base, data, ins, p))
  }

  lemma {:induction false} HashesMore(hc: Config, data: seq<byte>, data': seq<byte>, p: nat, h: nat)
    requires data <= data' && p + 3 <= |data|
    ensures Hashes(hc, data, p, h) <==> Hashes(hc, data', p, h)
  {
    assert HashAt(hc, data, p) == HashAt(hc, data', p);
  }

  lemma {:induction false} SameHashMore(hc: Config, data: seq<byte>, data': seq<byte>, x: nat, p: nat)
    requires data <= data' && SameHash(hc, data, x, p)
    ensures SameHash(hc, data', x, p)
  {
    forall h | Hashes(hc, data', x, h)
      ensures Hashes(hc, data', p, h)
    {
      HashesMore(hc, data, data', x, h);
      HashesMore(hc, data, data', p, h);
    }
  }

  /** More data changes nothing. */
  lemma {:induction false} MoreData(hc: Config, wsize: nat, head: seq<nat>, prev: seq<nat>, base: nat, data: seq<byte>,
                                    data': seq<byte>, ins: set<nat>, at: nat)
    requires Chains(hc, wsize, head, prev, base, data, ins, at) && data <= data'
    ensures Chains(hc, wsize, head, prev, base, data', ins, at)
  {
    forall h | 0 <= h < |head|
      ensures HeadOk(hc, head, base, data', ins, h)
    {
      assert HeadOk(hc, head, base, data, ins, h);
      if head[h] != 0 { HashesMore(hc, data, data', base + head[h], h); }
    }
    forall p | p in ins && p + wsize > at
      ensures LinkOk(hc, wsize, prev, base, data', ins, p)
    {
      assert LinkOk(hc, wsize, prev, base, data, ins, p);
      if prev[Slot(p, wsize)] != 0 { SameHashMore(hc, data, data', base + prev[Slot(p, wsize)], p); }
    }
  }

  /** Later positions need fewer links. */
  lemma {:induction false} MoveOn(hc: Config, wsize: nat, head: seq<nat>, prev: seq<nat>, base: nat, data: seq<byte>,
                                  ins: set<nat>, at: nat, at': nat)
    requires Chains(hc, wsize, head, prev, base, data, ins, at) && at <= at'
    ensures Chains(hc, wsize, head, prev, base, data, ins, at')
  {
    forall p | p in ins && p + wsize > at'
      ensures LinkOk(hc, wsize, prev, base, data, ins, p)
    {
      assert LinkOk(hc, wsize, prev, base, data, ins, p);
    }
  }

  /** Inserting a position after all others. */
  lemma {:induction false} Insert(hc: Config, wsize: nat, head: seq<nat>, prev: seq<nat>, base: nat, data: seq<byte>,
                                  ins: set<nat>, at: nat, p: nat)
    requires Chains(hc, wsize, head, prev, base, data, ins, at) && base <= p <= at && p + 3 <= |data| && p + wsize > at
    requires forall x {:trigger x in ins} :: x in ins ==> x < p
    ensures var h := HashAt(hc, data, p);
            h < |head| && Chains(hc, wsize, head[h := p - base], prev[Slot(p, wsize) := head[h]], base, data, ins + {p},
                                 at)
  {
    var h := HashAt(hc, data, p);
    InsertHead(hc, head, base, data, ins, p);
    InsertLink(hc, wsize, head[h], prev, base, data, ins, at, p);
    var head', prev', ins' := head[h := p - base], prev[Slot(p, wsize) := head[h]], ins + {p};
    forall x | x in ins' ensures x + 3 <= |data| && x <= at { }
    assert forall g {:trigger HeadOk(hc, head', base, data, ins', g)} ::
        0 <= g < |head'| ==> HeadOk(hc, head', base, data, ins', g);
    forall x | x in ins' && x + wsize > at
      ensures LinkOk(hc, wsize, prev', base, data, ins', x)
    {
      assert LinkOk(hc, wsize, prev[Slot(p, wsize) := head[h]], base, data, ins + {p}, x);
    }
  }

  lemma {:induction false} InsertHead(hc: Config, head: seq<nat>, base: nat, data: seq<byte>, ins: set<nat>, p: nat)
    requires |head| == Pow2(hc.bits) && base <= p && p + 3 <= |data|
    requires forall h {:trigger HeadOk(hc, head, base, data, ins, h)} ::
               0 <= h < |head| ==> HeadOk(hc, head, base, data, ins, h)
    requires forall x {:trigger x in ins} :: x in ins ==> x < p
    ensures var h, ins' := HashAt(hc, data, p), ins + {p};
            && h < |head| && (head[h] != 0 ==> Earlier(hc, data, ins', base + head[h], p))
            && forall g {:trigger HeadOk(hc, head[h := p - base], base, data, ins', g)} ::
                 0 <= g < |head| ==> HeadOk(hc, head[h := p - base], base, data, ins', g)
  {
    var h, ins' := HashAt(hc, data, p), ins + {p};
    assert HeadOk(hc, head, base, data, ins, h);
    assert Hashes(hc, data, p, h);
    if head[h] != 0 { SameHashes(hc, data, base + head[h], p, h); }
    var head' := head[h := p - base];
    forall g | 0 <= g < |head|
      ensures HeadOk(hc, head', base, data, ins', g)
    {
      assert HeadOk(hc, head, base, data, ins, g);
    }
  }

  lemma {:induction false} InsertLink(hc: Config, wsize: nat, q: nat, prev: seq<nat>, base: nat, data: seq<byte>,
                                      ins: set<nat>, at: nat, p: nat)
    requires |prev| == wsize > 0 && p <= at < p + wsize && p + 3 <= |data|
    requires (q != 0 ==> Earlier(hc, data, ins + {p}, base + q, p))
    requires forall x {:trigger LinkOk(hc, wsize, prev, base, data, ins, x)} ::
               x in ins && x + wsize > at ==> LinkOk(hc, wsize, prev, base, data, ins, x)
    requires forall x {:trigger x in ins} :: x in ins ==> x < p
    ensures var prev', ins' := prev[Slot(p, wsize) := q], ins + {p};
            forall x {:trigger LinkOk(hc, wsize, prev', base, data, ins', x)} ::
                x in ins' && x + wsize > at ==> LinkOk(hc, wsize, prev', base, data, ins', x)
  {
    var prev', ins' := prev[Slot(p, wsize) := q], ins + {p};
    forall x | x in ins' && x + wsize > at
      ensures LinkOk(hc, wsize, prev', base, data, ins', x)
    {
      if x != p {
        SlotsDiffer(x, p, wsize);
        assert LinkOk(hc, wsize, prev, base, data, ins, x);
      }
    }
  }

  /** An entry of head or prev after the window has been moved down by wsize. */
  function Slid(m: nat, wsize: nat): nat {
    if m >= wsize then m - wsize else 0
  }

  ghost predicate AllSlid(s: seq<nat>, s': seq<nat>, wsize: nat) {
    |s'| == |s| && forall i :: 0 <= i < |s| ==> s'[i] == Slid(s[i], wsize)
  }

  /** Moving the window keeps the chains: positions keep their distance. */
  lemma {:induction false} Slide(hc: Config, wsize: nat, head: seq<nat>, prev: seq<nat>, head': seq<nat>,
                                 prev': seq<nat>, base: nat, data: seq<byte>, ins: set<nat>, at: nat)
    requires Chains(hc, wsize, head, prev, base, data, ins, at) && AllSlid(head, head', wsize)
    requires AllSlid(prev, prev', wsize)
    ensures Chains(hc, wsize, head', prev', base + wsize, data, ins, at)
  {
    var base' := base + wsize;
    forall h | 0 <= h < |head'|
      ensures HeadOk(hc, head', base', data, ins, h)
    {
      assert HeadOk(hc, head, base, data, ins, h);
      assert head'[h] == Slid(head[h], wsize);
    }
    forall p | p in ins && p + wsize > at
      ensures LinkOk(hc, wsize, prev', base', data, ins, p)
    {
      assert LinkOk(hc, wsize, prev, base, data, ins, p);
      assert prev'[Slot(p, wsize)] == Slid(prev[Slot(p, wsize)], wsize);
    }
  }

  /** Inserting the string at a window index with the running hash. */
  lemma {:induction false} InsertIndex(hc: Config, wsize: nat, head: seq<nat>, prev: seq<nat>, base: nat,
                                       data: seq<byte>, ins: set<nat>, at: nat, str: nat, insH: nat, c: byte)
    requires Chains(hc, wsize, head, prev, base, data, ins, at) && Whole(base, wsize) && Proper(hc)
    requires base + str <= at < base + str + wsize && base + str + 3 <= |data| && c == data[base + str + 2]
    requires (forall x {:trigger x in ins} :: x in ins ==> x < base + str)
    requires Rolls(hc, insH, data[base + str], data[base + str + 1])
    ensures var h := Update(hc, insH, c);
            && h < |head| && Rolls(hc, h, data[base + str + 1], data[base + str + 2])
            && Chains(hc, wsize, head[h := str], prev[Slot(str, wsize) := head[h]], base, data, ins + {base + str}, at)
            && (head[h] != 0 ==> Earlier(hc, data, ins + {base + str}, base + head[h], base + str))
            && Hashes(hc, data, base + str, h) && Slot(base + str, wsize) == Slot(str, wsize)
  {
    var p := base + str;
    Insert(hc, wsize, head, prev, base, data, ins, at, p);
    RollsOn(hc, insH, data[p], data[p + 1], data[p + 2]);
    SlotOfIndex(base, str, wsize);
    var h := Update(hc, insH, c);
    assert HeadOk(hc, head, base, data, ins, h) && h == HashAt(hc, data, p);
    assert Hashes(hc, data, p, h);
    if head[h] != 0 { SameHashes(hc, data, base + head[h], p, h); }
  }

  /** Following the link of a recent position. */
  lemma {:induction false} FollowLink(hc: Config, wsize: nat, head: seq<nat>, prev: seq<nat>, base: nat,
                                      data: seq<byte>, ins: set<nat>, at: nat, i: nat)
    requires Chains(hc, wsize, head, prev, base, data, ins, at) && Whole(base, wsize) && base + i in ins
    requires base + i + wsize > at
    ensures Slot(i, wsize) < |prev|
    ensures (prev[Slot(i, wsize)] != 0 ==> Earlier(hc, data, ins, base + prev[Slot(i, wsize)], base + i))
  {
    SlotOfIndex(base, i, wsize);
    assert LinkOk(hc, wsize, prev, base, data, ins, base + i);
  }

  lemma {:induction false} EarlierStill(hc: Config, data: seq<byte>, ins: set<nat>, x: nat, y: nat, p: nat)
    requires Earlier(hc, data, ins, x, y) && Earlier(hc, data, ins, y, p)
    ensures Earlier(hc, data, ins, x, p)
  {
  }

  /** Strings with the same hash that agree in two bytes agree in the third. */
  lemma {:induction false} ThirdAgrees(hc: Config, data: seq<byte>, x: nat, p: nat)
    requires Proper(hc) && SameHash(hc, data, x, p) && data[x] == data[p] && data[x + 1] == data[p + 1]
    ensures data[x + 2] == data[p + 2]
  {
    assert Hashes(hc, data, x, HashAt(hc, data, x));
    assert HashAt(hc, data, p) == HashAt(hc, data, x);
    ThirdByte(hc, data[x], data[x + 1], data[x + 2], data[p + 2]);
  }

  // ----- no inserted position is missing from its chain -----

  /** No inserted position with hash h is after the head of its chain. */
  ghost predicate HeadFull(hc: Config, head: seq<nat>, base: nat, data: seq<byte>, ins: set<nat>, h: nat) {
    h < |head| && forall x {:trigger x in ins} :: x in ins && Hashes(hc, data, x, h) ==> x <= base + head[h]
  }

  /** No inserted position with the same hash lies between p and its link. */
  ghost predicate LinkFull(hc: Config, wsize: nat, prev: seq<nat>, base: nat, data: seq<byte>, ins: set<nat>, p: nat) {
    && wsize > 0 && |prev| == wsize
    && forall x {:trigger x in ins} ::
         x in ins && x < p && SameHash(hc, data, x, p) ==> x <= base + prev[Slot(p, wsize)]
  }

  /** The chains hold all inserted positions of the window. */
  ghost predicate Full(hc: Config, wsize: nat, head: seq<nat>, prev: seq<nat>, base: nat, data: seq<byte>,
                       ins: set<nat>, at: nat) {
    && (forall h {:trigger HeadFull(hc, head, base, data, ins, h)} ::
          0 <= h < |head| ==> HeadFull(hc, head, base, data, ins, h))
    && (forall p {:trigger LinkFull(hc, wsize, prev, base, data, ins, p)} ::
          p in ins && p + wsize > at ==> LinkFull(hc, wsize, prev, base, data, ins, p))
  }

  lemma {:induction false} SameHashLess(hc: Config, data: seq<byte>, data': seq<byte>, x: nat, p: nat)
    requires data <= data' && SameHash(hc, data', x, p) && x + 3 <= |data| && p + 3 <= |data|
    ensures SameHash(hc, data, x, p)
  {
    forall h | Hashes(hc, data, x, h)
      ensures Hashes(hc, data, p, h)
    {
      HashesMore(hc, data, data', x, h);
      HashesMore(hc, data, data', p, h);
    }
  }

  lemma {:induction false} FullMore(hc: Config, wsize: nat, head: seq<nat>, prev: seq<nat>, base: nat, data: seq<byte>,
                                    data': seq<byte>, ins: set<nat>, at: nat)
    requires Chains(hc, wsize, head, prev, base, data, ins, at) && Full(hc, wsize, head, prev, base, data, ins, at)
    requires data <= data'
    ensures Full(hc, wsize, head, prev, base, data', ins, at)
  {
    forall h | 0 <= h < |head|
      ensures HeadFull(hc, head, base, data', ins, h)
    {
      assert HeadFull(hc, head, base, data, ins, h);
      forall x | x in ins && Hashes(hc, data', x, h) ensures x <= base + head[h] { HashesMore(hc, data, data', x, h); }
    }
    forall p | p in ins && p + wsize > at
      ensures LinkFull(hc, wsize, prev, base, data', ins, p)
    {
      assert LinkFull(hc, wsize, prev, base, data, ins, p);
      forall x | x in ins && x < p && SameHash(hc, data', x, p) ensures x <= base + prev[Slot(p, wsize)] {
        SameHashLess(hc, data, data', x, p);
      }
    }
  }

  lemma {:induction false} FullOn(hc: Config, wsize: nat, head: seq<nat>, prev: seq<nat>, base: nat, data: seq<byte>,
                                  ins: set<nat>, at: nat, at': nat)
    requires Full(hc, wsize, head, prev, base, data, ins, at) && at <= at'
    ensures Full(hc, wsize, head, prev, base, data, ins, at')
  {
    forall p | p in ins && p + wsize > at'
      ensures LinkFull(hc, wsize, prev, base, data, ins, p)
    {
      assert LinkFull(hc, wsize, prev, base, data, ins, p);
    }
  }

  lemma {:induction false} FullSlide(hc: Config, wsize: nat, head: seq<nat>, prev: seq<nat>, head': seq<nat>,
                                     prev': seq<nat>, base: nat, data: seq<byte>, ins: set<nat>, at: nat)
    requires Full(hc, wsize, head, prev, base, data, ins, at) && AllSlid(head, head', wsize)
    requires AllSlid(prev, prev', wsize)
    ensures Full(hc, wsize, head', prev', base + wsize, data, ins, at)
  {
    var base' := base + wsize;
    forall h | 0 <= h < |head'|
      ensures HeadFull(hc, head', base', data, ins, h)
    {
      assert HeadFull(hc, head, base, data, ins, h);
      assert head'[h] == Slid(head[h], wsize);
    }
    forall p | p in ins && p + wsize > at
      ensures LinkFull(hc, wsize, prev', base', data, ins, p)
    {
      assert LinkFull(hc, wsize, prev, base, data, ins, p);
      assert prev'[Slot(p, wsize)] == Slid(prev[Slot(p, wsize)], wsize);
    }
  }

  /** No inserted position with the hash of p is after x. */
  ghost predicate Latest(hc: Config, data: seq<byte>, ins: set<nat>, x: nat, p: nat) {
    forall y {:trigger y in ins} :: y in ins && SameHash(hc, data, y, p) ==> y <= x
  }

  lemma {:induction false} HeadLatest(hc: Config, head: seq<nat>, base: nat, data: seq<byte>, ins: set<nat>, p: nat,
                                      h: nat)
    requires HeadFull(hc, head, base, data, ins, h) && Hashes(hc, data, p, h)
    ensures Latest(hc, data, ins, base + head[h], p)
  {
    forall y | y in ins && SameHash(hc, data, y, p) ensures y <= base + head[h] {
      HashOfSame(hc, data, y, p, h);
    }
  }

  lemma {:induction false} HashOfSame(hc: Config, data: seq<byte>, x: nat, p: nat, h: nat)
    requires SameHash(hc, data, x, p) && Hashes(hc, data, p, h)
    ensures Hashes(hc, data, x, h)
  {
    assert Hashes(hc, data, x, HashAt(hc, data, x));
    assert HashAt(hc, data, p) == HashAt(hc, data, x) == h;
  }

  lemma {:induction false} FullInsert(hc: Config, wsize: nat, head: seq<nat>, prev: seq<nat>, base: nat,
                                      data: seq<byte>, ins: set<nat>, at: nat, p: nat, h: nat)
    requires Full(hc, wsize, head, prev, base, data, ins, at) && base <= p <= at && p + wsize > at
    requires |prev| == wsize > 0
    requires Hashes(hc, data, p, h) && h < |head|
    requires forall x {:trigger x in ins} :: x in ins ==> x < p
    ensures Full(hc, wsize, head[h := p - base], prev[Slot(p, wsize) := head[h]], base, data, ins + {p}, at)
    ensures Latest(hc, data, ins, base + head[h], p)
  {
    var head', prev', ins' := head[h := p - base], prev[Slot(p, wsize) := head[h]], ins + {p};
    assert HeadFull(hc, head, base, data, ins, h);
    HeadLatest(hc, head, base, data, ins, p, h);
    forall g | 0 <= g < |head'|
      ensures HeadFull(hc, head', base, data, ins', g)
    {
      assert HeadFull(hc, head, base, data, ins, g);
      OneHash(hc, data, p, g, h);
    }
    forall x | x in ins' && x + wsize > at
      ensures LinkFull(hc, wsize, prev', base, data, ins', x)
    {
      if x != p {
        SlotsDiffer(x, p, wsize);
        assert LinkFull(hc, wsize, prev, base, data, ins, x);
      }
    }
  }

  lemma {:induction false} OneHash(hc: Config, data: seq<byte>, p: nat, g: nat, h: nat)
    requires Hashes(hc, data, p, h)
    ensures Hashes(hc, data, p, g) ==> g == h
  {
    assert h == HashAt(hc, data, p);
  }

  /** Following the link of a recent position misses none with the same hash. */
  lemma {:induction false} NoneSkipped(hc: Config, wsize: nat, head: seq<nat>, prev: seq<nat>, base: nat,
                                       data: seq<byte>, ins: set<nat>, at: nat, i: nat, y: nat, p: nat)
    requires Full(hc, wsize, head, prev, base, data, ins, at) && Whole(base, wsize) && wsize > 0 && base + i in ins
    requires base + i + wsize > at && y in ins && y < base + i && |prev| == wsize
    requires SameHash(hc, data, y, p) && SameHash(hc, data, base + i, p)
    ensures y <= base + prev[Slot(i, wsize)]
  {
    SlotOfIndex(base, i, wsize);
    assert LinkFull(hc, wsize, prev, base, data, ins, base + i);
    assert Hashes(hc, data, p, HashAt(hc, data, p));
    HashOfSame(hc, data, y, p, HashAt(hc, data, p));
    HashOfSame(hc, data, base + i, p, HashAt(hc, data, p));
    SameHashes(hc, data, y, base + i, HashAt(hc, data, p));
  }
}
