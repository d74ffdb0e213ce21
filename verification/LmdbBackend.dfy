/** The storage backend: per-thread lists of LMDB transactions, in which a nested read-only
    transaction is only counted, and one recursive lock for all writers. */
module LmdbBackend {
  import opened Options

  type Thread = nat

  // ----- the data -----

  type Data = map<string, string>

  datatype Change = Set(key: string, value: string) | Erase(key: string)

  function Apply(d: Data, c: Change): Data {
    match c
    case Set(k, v) => d[k := v]
    case Erase(k) => d - {k}
  }

  /** The data after the changes, in order. */
  function Replay(base: Data, cs: seq<Change>): Data {
    if cs == [] then base else Apply(Replay(base, cs[..|cs| - 1]), cs[|cs| - 1])
  }

  // ----- transactions -----

  /** tx_entry, with the LMDB transaction it points to: the data it sees, and the changes it made. */
  datatype Entry = Entry(readOnly: bool, count: nat, view: Data, changes: seq<Change>)

  /** The recursive write lock. */
  datatype Lock = Free | Held(owner: Thread, depth: nat)

  /** Whether the thread can lock without waiting. */
  predicate CanLock(lock: Lock, t: Thread) {
    lock.Held? ==> lock.owner == t
  }

  /** How often the thread holds the lock. */
  function Depth(lock: Lock, t: Thread): nat {
    if lock.Held? && lock.owner == t then lock.depth else 0
  }

  function Acquire(lock: Lock, t: Thread): Lock {
    Held(t, Depth(lock, t) + 1)
  }

  function Release(lock: Lock, t: Thread): Lock {
    if Depth(lock, t) == 0 then lock else if lock.depth == 1 then Free else Held(t, lock.depth - 1)
  }

  /** m_txs, m_write_exclusive_lock, what LMDB has committed, and the changes that led there. */
  datatype Db = Db(txs: map<Thread, seq<Entry>>, lock: Lock, main: Data, committed: seq<Change>)

  function TxList(txs: map<Thread, seq<Entry>>, t: Thread): seq<Entry> {
    if t in txs then txs[t] else []
  }

  /** A thread whose list is empty has no list. */
  function WithList(txs: map<Thread, seq<Entry>>, t: Thread, l: seq<Entry>): map<Thread, seq<Entry>> {
    if l == [] then txs - {t} else txs[t := l]
  }

  /** The data a new transaction starts from: its parent's, unless that is read-only. */
  function StartView(l: seq<Entry>, main: Data): Data {
    if l != [] && !l[|l| - 1].readOnly then l[|l| - 1].view else main
  }

  /** The list after a begin. */
  function BeginList(l: seq<Entry>, readOnly: bool, main: Data): seq<Entry> {
    var n := |l| - 1;
    if readOnly && l != [] then
      l[n := l[n].(count := l[n].count + 1)]
    else
      l + [Entry(readOnly, if readOnly then 1 else 0, StartView(l, main), [])]
  }

  function Begin(db: Db, t: Thread, readOnly: bool): Db {
    db.(txs := WithList(db.txs, t, BeginList(TxList(db.txs, t), readOnly, db.main)),
        lock := if readOnly then db.lock else Acquire(db.lock, t))
  }

  /** Whether ending the transaction on top ends an LMDB transaction. */
  predicate Last(e: Entry) {
    if e.readOnly then e.count < 2 else e.count < 1
  }

  /** The list after pop_tx_entry. */
  function PopList(l: seq<Entry>): seq<Entry>
    requires l != []
  {
    var n := |l| - 1;
    if Last(l[n]) then l[..n] else l[n := l[n].(count := l[n].count - 1)]
  }

  /** A committed child's data and changes become its parent's. */
  function MergeList(l: seq<Entry>, e: Entry): seq<Entry> {
    var n := |l| - 1;
    if l != [] && !e.readOnly && !l[n].readOnly then
        l[n := l[n].(view := e.view, changes := l[n].changes + e.changes)] else l
  }

  /** Whether the entry's LMDB transaction is a write transaction without a parent, the list below it being l. */
  predicate TopLevel(l: seq<Entry>, e: Entry) {
    !e.readOnly && (l == [] || l[|l| - 1].readOnly)
  }

  function Commit(db: Db, t: Thread): Db {
    var l := TxList(db.txs, t);
    if l == [] then db else
    var e := l[|l| - 1];
    var rest := PopList(l);
    if !Last(e) then db.(txs := WithList(db.txs, t, rest)) else
    Db(WithList(db.txs, t, MergeList(rest, e)), Unlocked(db.lock, t, e),
       if TopLevel(rest, e) then e.view else
           db.main, if TopLevel(rest, e) then db.committed + e.changes else db.committed)
  }

  function Abort(db: Db, t: Thread): Db {
    var l := TxList(db.txs, t);
    if l == [] then db else
    var e := l[|l| - 1];
    db.(txs := WithList(db.txs, t, PopList(l)), lock := if Last(e) then Unlocked(db.lock, t, e) else db.lock)
  }

  function Unlocked(lock: Lock, t: Thread, e: Entry): Lock {
    if !e.readOnly && e.count == 0 then Release(lock, t) else lock
  }

  /** A change made through the current transaction; refused inside a read-only one. */
  function ChangeList(l: seq<Entry>, c: Change): seq<Entry> {
    var n := |l| - 1;
    if l == [] || l[n].readOnly then l else l[n := l[n].(view := Apply(l[n].view, c), changes := l[n].changes + [c])]
  }

  function Write(db: Db, t: Thread, c: Change): Db {
    db.(txs := WithList(db.txs, t, ChangeList(TxList(db.txs, t), c)))
  }

  /** lmdb_db_backend */
  class Backend {
    var txs: map<Thread, seq<Entry>>
    var lock: Lock
    var main: Data
    var committed: seq<Change>

    ghost function Value(): Db
      reads this
    {
      Db(txs, lock, main, committed)
    }

    constructor (data: Data)
      ensures Value() == Db(map[], Free, data, [])
    {
      txs, lock, main, committed := map[], Free, data, [];
    }

    /** begin_transaction, once the lock can be had. */
    method BeginTransaction(t: Thread, readOnly: bool) returns (ok: bool)
      requires readOnly || CanLock(lock, t)
      modifies this
      ensures ok && Value() == Begin(old(Value()), t, readOnly)
    {
      if !readOnly {
        lock := Acquire(lock, t);
      }
      var list := if t in txs then txs[t] else [];
      if list != [] && readOnly {
        var top := list[|list| - 1];
        list := list[|list| - 1 := top.(count := top.count + 1)];
      } else {
        var view := main;
        if list != [] && !list[|list| - 1].readOnly {
          view := list[|list| - 1].view;
        }
        list := list + [Entry(readOnly, if readOnly then 1 else 0, view, [])];
      }
      txs := txs[t := list];
      return true;
    }

    /** pop_tx_entry: the entry as it was before. */
    method PopTxEntry(t: Thread) returns (e: Option<Entry>)
      modifies this
      ensures e.None? <==> TxList(old(txs), t) == []
      ensures e.None? ==> Value() == old(Value())
      ensures e.Some? ==>
                e.value == TxList(old(txs), t)[|TxList(old(txs), t)| - 1]
                && Value() == old(Value()).(txs := WithList(old(txs), t, PopList(TxList(old(txs), t))))
    {
      if t !in txs || txs[t] == [] {
        return None;
      }
      var list := txs[t];
      var top := list[|list| - 1];
      if (top.readOnly && top.count < 2) || (!top.readOnly && top.count < 1) {
        list := list[..|list| - 1];
        if list == [] {
          txs := txs - {t};
        } else {
          txs := txs[t := list];
        }
      } else {
        txs := txs[t := list[|list| - 1 := top.(count := top.count - 1)]];
      }
      return Some(top);
    }

    /** commit_transaction */
    method CommitTransaction(t: Thread) returns (ok: bool)
      modifies this
      ensures ok <==> TxList(old(txs), t) != []
      ensures Value() == Commit(old(Value()), t)
    {
      var e := PopTxEntry(t);
      if e.None? {
        return false;
      }
      if e.value.count == 0 || (e.value.readOnly && e.value.count == 1) {
        TxnCommit(t, e.value);
        if !e.value.readOnly && e.value.count == 0 {
          lock := Release(lock, t);
        }
      }
      return true;
    }

    /** abort_transaction */
    method AbortTransaction(t: Thread)
      modifies this
      ensures Value() == Abort(old(Value()), t)
    {
      var e := PopTxEntry(t);
      if e.Some? && (e.value.count == 0 || (e.value.readOnly && e.value.count == 1)) {
        if !e.value.readOnly && e.value.count == 0 {
          lock := Release(lock, t);
        }
      }
    }

    /** What mdb_txn_commit does to the parent or to the database. */
    method TxnCommit(t: Thread, e: Entry)
      modifies this`txs, this`main, this`committed
      ensures var l := TxList(old(txs), t);
        && txs == (if t in old(txs) then old(txs)[t := MergeList(l, e)] else old(txs))
        && main == (if TopLevel(l, e) then e.view else old(main))
        && committed == (if TopLevel(l, e) then old(committed) + e.changes else old(committed))
    {
      var l := if t in txs then txs[t] else [];
      if e.readOnly {
        if t in txs {
          assert txs == txs[t := l];
        }
      } else if l != [] && !l[|l| - 1].readOnly {
        var parent := l[|l| - 1];
        txs := txs[t := l[|l| - 1 := parent.(view := e.view, changes := parent.changes + e.changes)]];
      } else {
        main, committed := e.view, committed + e.changes;
        if t in txs {
          assert txs == txs[t := l];
        }
      }
    }
  }

  // ----- facts about lists -----

  /** The accessor's stack that an entry stands for. */
  function FlattenEntry(e: Entry): seq<bool> {
    (if e.readOnly then [] else [false]) + seq(e.count, _ => true)
  }

  function Flatten(l: seq<Entry>): seq<bool> {
    if l == [] then [] else Flatten(l[..|l| - 1]) + FlattenEntry(l[|l| - 1])
  }

  /** The number of write transactions. */
  function Writers(l: seq<Entry>): nat {
    if l == [] then 0 else Writers(l[..|l| - 1]) + if l[|l| - 1].readOnly then 0 else 1
  }

  /** Only the first entry can be read-only, and then it is counted. */
  ghost predicate Shape(l: seq<Entry>) {
    forall i :: 0 <= i < |l| && l[i].readOnly ==> i == 0 && l[i].count > 0
  }

  ghost predicate HasWriter(stack: seq<bool>) {
    exists i :: 0 <= i < |stack| && !stack[i]
  }

  lemma {:induction false} FlattenWriters(l: seq<Entry>)
    ensures HasWriter(Flatten(l)) <==> Writers(l) > 0
  {
    if l != [] {
      var n := |l| - 1;
      FlattenWriters(l[..n]);
      var f := Flatten(l[..n]);
      assert Flatten(l)[..|f|] == f;
      if HasWriter(f) {
        var i :| 0 <= i < |f| && !f[i];
        assert !Flatten(l)[i];
      }
      if !l[n].readOnly {
        assert !Flatten(l)[|f|];
      }
    }
  }

  lemma {:induction false} FlattenAppend(l: seq<Entry>, e: Entry)
    ensures Flatten(l + [e]) == Flatten(l) + FlattenEntry(e)
    ensures Writers(l + [e]) == Writers(l) + if e.readOnly then 0 else 1
  {
    assert (l + [e])[..|l + [e]| - 1] == l;
  }

  lemma {:induction false} SetLast(l: seq<Entry>, e: Entry)
    requires l != []
    ensures l[|l| - 1 := e] == l[..|l| - 1] + [e]
    ensures Flatten(l[|l| - 1 := e]) == Flatten(l[..|l| - 1]) + FlattenEntry(e)
    ensures Writers(l[|l| - 1 := e]) == Writers(l[..|l| - 1]) + if e.readOnly then 0 else 1
  {
    assert l[|l| - 1 := e] == l[..|l| - 1] + [e];
    FlattenAppend(l[..|l| - 1], e);
  }

  /** A begin adds one element to the accessor's stack, whichever way it is recorded. */
  lemma {:induction false} BeginFlattens(l: seq<Entry>, readOnly: bool, main: Data)
    requires Shape(l)
    ensures var b := BeginList(l, readOnly, main);
              Shape(b) && Flatten(b) == Flatten(l) + [readOnly] && Writers(b) == Writers(l) + if readOnly then 0 else 1
  {
    var n := |l| - 1;
    if readOnly && l != [] {
      SetLast(l, l[n].(count := l[n].count + 1));
      assert FlattenEntry(l[n].(count := l[n].count + 1)) == FlattenEntry(l[n]) + [true];
    } else {
      FlattenAppend(l, Entry(readOnly, if readOnly then 1 else 0, StartView(l, main), []));
    }
  }

  /** An end removes one, and ends an LMDB write transaction exactly if that one was a writer. */
  lemma {:induction false} PopFlattens(l: seq<Entry>)
    requires Shape(l) && l != []
    ensures Shape(PopList(l))
    ensures Flatten(PopList(l)) + [!EndsWriter(l[|l| - 1])] == Flatten(l)
    ensures Writers(PopList(l)) == Writers(l) - if EndsWriter(l[|l| - 1]) then 1 else 0
  {
    var n := |l| - 1;
    var e := l[n];
    EntryPops(e);
    if !Last(e) {
      var d := e.(count := e.count - 1);
      SetLast(l, d);
      assert Flatten(l[..n]) + (FlattenEntry(d) + [true]) == Flatten(l[..n]) + FlattenEntry(d) + [true];
    }
  }

  predicate EndsWriter(e: Entry) {
    Last(e) && !e.readOnly
  }

  lemma {:induction false} EntryPops(e: Entry)
    requires e.readOnly ==> e.count > 0
    ensures if Last(e) then FlattenEntry(e) == [e.readOnly] else
              FlattenEntry(e) == FlattenEntry(e.(count := e.count - 1)) + [true]
  {
  }

  /** The stack does not depend on the data. */
  lemma {:induction false} DataFlattens(l: seq<Entry>, view: Data, changes: seq<Change>)
    requires Shape(l) && l != []
    ensures var d := l[|l| - 1 := l[|l| - 1].(view := view, changes := changes)];
              Shape(d) && Flatten(d) == Flatten(l) && Writers(d) == Writers(l)
  {
    var e := l[|l| - 1].(view := view, changes := changes);
    SetLast(l, e);
    assert FlattenEntry(e) == FlattenEntry(l[|l| - 1]);
  }

  lemma {:induction false} MergeFlattens(l: seq<Entry>, e: Entry)
    requires Shape(l)
    ensures Shape(MergeList(l, e)) && Flatten(MergeList(l, e)) == Flatten(l) && Writers(MergeList(l, e)) == Writers(l)
  {
    if l != [] { DataFlattens(l, e.view, l[|l| - 1].changes + e.changes); }
  }

  lemma {:induction false} ChangeFlattens(l: seq<Entry>, c: Change)
    requires Shape(l)
    ensures Shape(ChangeList(l, c)) && Flatten(ChangeList(l, c)) == Flatten(l)
    ensures Writers(ChangeList(l, c)) == Writers(l)
  {
    if l != [] { DataFlattens(l, Apply(l[|l| - 1].view, c), l[|l| - 1].changes + [c]); }
  }

  // ----- what write transactions see -----

  /** The changes of all open write transactions. */
  function Pending(l: seq<Entry>): seq<Change> {
    if l == [] then [] else Pending(l[..|l| - 1]) + if l[|l| - 1].readOnly then [] else l[|l| - 1].changes
  }

  /** Each write transaction sees what was committed and the changes made by itself and by those around it. */
  ghost predicate Views(base: Data, committed: seq<Change>, l: seq<Entry>) {
    forall i :: 0 <= i < |l| && !l[i].readOnly ==> l[i].view == Replay(base, committed + Pending(l[..i + 1]))
  }

  lemma {:induction false} NoWriters(l: seq<Entry>)
    requires Writers(l) == 0
    ensures Pending(l) == [] && forall i :: 0 <= i < |l| ==> l[i].readOnly
  {
    if l != [] { NoWriters(l[..|l| - 1]); }
  }

  lemma {:induction false} ViewsAppend(base: Data, committed: seq<Change>, l: seq<Entry>, e: Entry)
    requires Views(base, committed, l) && (e.readOnly || e.view == Replay(base, committed + (Pending(l) + e.changes)))
    ensures Views(base, committed, l + [e])
  {
    var r := l + [e];
    forall i | 0 <= i < |r| && !r[i].readOnly ensures r[i].view == Replay(base, committed + Pending(r[..i + 1])) {
      if i < |l| {
        assert r[..i + 1] == l[..i + 1];
      } else {
        assert r[..i + 1] == r && r[..|r| - 1] == l;
      }
    }
  }

  lemma {:induction false} ViewsPrefix(base: Data, committed: seq<Change>, l: seq<Entry>, n: nat)
    requires Views(base, committed, l) && n <= |l|
    ensures Views(base, committed, l[..n])
  {
    forall i | 0 <= i < n && !l[..n][i].readOnly ensures l[..n][i].view
        == Replay(base, committed + Pending(l[..n][..i + 1])) {
      assert l[..n][..i + 1] == l[..i + 1];
    }
  }

  lemma {:induction false} ReplayOne(base: Data, cs: seq<Change>, c: Change)
    ensures Replay(base, cs + [c]) == Apply(Replay(base, cs), c)
  {
    assert (cs + [c])[..|cs + [c]| - 1] == cs;
  }

  lemma {:induction false} ViewsTop(base: Data, committed: seq<Change>, l: seq<Entry>)
    requires Views(base, committed, l) && l != [] && !l[|l| - 1].readOnly
    ensures l[|l| - 1].view == Replay(base, committed + (Pending(l[..|l| - 1]) + l[|l| - 1].changes))
  {
    assert l[..|l| - 1 + 1] == l;
  }

  lemma {:induction false} BeginViews(base: Data, committed: seq<Change>, l: seq<Entry>, readOnly: bool, main: Data)
    requires Shape(l) && Views(base, committed, l) && main == Replay(base, committed)
    ensures Views(base, committed, BeginList(l, readOnly, main))
  {
    var n := |l| - 1;
    if readOnly && l != [] {
      RecountViews(base, committed, l, l[n].count + 1);
    } else {
      var e := Entry(readOnly, if readOnly then 1 else 0, StartView(l, main), []);
      if !readOnly {
        if l != [] && !l[n].readOnly {
          ViewsTop(base, committed, l);
          assert Pending(l) + [] == Pending(l);
        } else {
          if l != [] { OnlyReader(l); }
          assert committed + (Pending(l) + []) == committed;
        }
      }
      ViewsAppend(base, committed, l, e);
    }
  }

  /** A list that ends in a reader is that reader. */
  lemma {:induction false} OnlyReader(l: seq<Entry>)
    requires Shape(l) && l != [] && l[|l| - 1].readOnly
    ensures |l| == 1 && Pending(l) == []
  {
    assert l[..0] == [];
  }

  lemma {:induction false} RecountViews(base: Data, committed: seq<Change>, l: seq<Entry>, count: nat)
    requires Views(base, committed, l) && l != []
    ensures Views(base, committed, l[|l| - 1 := l[|l| - 1].(count := count)])
  {
    var n := |l| - 1;
    SetLast(l, l[n].(count := count));
    ViewsPrefix(base, committed, l, n);
    if !l[n].readOnly { ViewsTop(base, committed, l); }
    ViewsAppend(base, committed, l[..n], l[n].(count := count));
  }

  lemma {:induction false} PopViews(base: Data, committed: seq<Change>, l: seq<Entry>)
    requires Views(base, committed, l) && l != []
    ensures Views(base, committed, PopList(l))
  {
    var n := |l| - 1;
    if Last(l[n]) {
      ViewsPrefix(base, committed, l, n);
    } else {
      RecountViews(base, committed, l, l[n].count - 1);
    }
  }

  lemma {:induction false} ChangeViews(base: Data, committed: seq<Change>, l: seq<Entry>, c: Change)
    requires Views(base, committed, l)
    ensures Views(base, committed, ChangeList(l, c))
  {
    var n := |l| - 1;
    if l != [] && !l[n].readOnly {
      var e := l[n].(view := Apply(l[n].view, c), changes := l[n].changes + [c]);
      SetLast(l, e);
      ViewsPrefix(base, committed, l, n);
      ViewsTop(base, committed, l);
      ReplayOne(base, committed + (Pending(l[..n]) + l[n].changes), c);
      assert committed + (Pending(l[..n]) + l[n].changes) + [c] == committed + (Pending(l[..n]) + e.changes);
      ViewsAppend(base, committed, l[..n], e);
    }
  }

  lemma {:induction false} MergeViews(base: Data, committed: seq<Change>, l: seq<Entry>, e: Entry)
    requires Views(base, committed, l + [e])
    ensures Views(base, committed, MergeList(l, e))
  {
    var n := |l| - 1;
    ViewsPrefix(base, committed, l + [e], n + 1);
    assert (l + [e])[..n + 1] == l;
    if l != [] && !e.readOnly && !l[n].readOnly {
      ViewsTop(base, committed, l + [e]);
      MergeTop(base, committed, l, e);
    }
  }

  lemma {:induction false} MergeTop(base: Data, committed: seq<Change>, l: seq<Entry>, e: Entry)
    requires l != [] && !l[|l| - 1].readOnly && Views(base, committed, l)
    requires e.view == Replay(base, committed + (Pending(l) + e.changes))
    ensures Views(base, committed, l[|l| - 1 := l[|l| - 1].(view := e.view, changes := l[|l| - 1].changes + e.changes)])
  {
    var n := |l| - 1;
    var m := l[n].(view := e.view, changes := l[n].changes + e.changes);
    SetLast(l, m);
    assert committed + (Pending(l) + e.changes) == committed + (Pending(l[..n]) + m.changes);
    ViewsPrefix(base, committed, l, n);
    ViewsAppend(base, committed, l[..n], m);
  }
}
