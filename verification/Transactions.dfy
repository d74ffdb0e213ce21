/** Nested transactions over every interleaving of threads: the accessor's per-thread stacks and
    broadcasts above the backend's counted entries and write lock. */
module Transactions {
  import opened Options
  import opened LmdbBackend

  /** What the containers are told. */
  datatype Event = WriteBegin | WriteCommit | WriteAbort

  /** Where a thread stands in a call. */
  datatype Phase =
    | Idle
    | Begun(readOnly: bool)                             // the backend has begun, the stack is not pushed yet
    | Ending(commit: bool, writer: bool)                // the stack's top has been looked at
    | Closing(commit: bool, writer: bool, ended: bool)  // the backend has ended, under m_transactions_stack_lock
    | Direct(readOnly: bool)                            // the backend's own transaction, unknown to the accessor

  datatype State = State(
    db: Db,
    stacks: map<Thread, seq<bool>>,
    phases: map<Thread, Phase>,
    stackLock: Option<Thread>,
    events: seq<Event>,
    failures: nat)                                      // internal errors thrown while ending a transaction

  function Stack(s: State, t: Thread): seq<bool> {
    if t in s.stacks then s.stacks[t] else []
  }

  function PhaseOf(s: State, t: Thread): Phase {
    if t in s.phases then s.phases[t] else Idle
  }

  function Entries(s: State, t: Thread): seq<Entry> {
    TxList(s.db.txs, t)
  }

  datatype Action =
    | BackendBegin(t: Thread, readOnly: bool)
    | Push(t: Thread)
    | Peek(t: Thread, commit: bool)
    | BackendEnd(t: Thread)
    | Pop(t: Thread)
    | DirectBegin(t: Thread, readOnly: bool)
    | DirectEnd(t: Thread)
    | Modify(t: Thread, change: Change)

  /** Whether the thread can take the step now. */
  predicate Enabled(s: State, a: Action) {
    var p := PhaseOf(s, a.t);
    match a
    case BackendBegin(t, readOnly) => p.Idle? && (readOnly || CanLock(s.db.lock, t))
    case Push(t) => p.Begun? && s.stackLock.None?
    case Peek(t, commit) => p.Idle? && s.stackLock.None?
    case BackendEnd(t) => p.Ending? && s.stackLock.None?
    case Pop(t) => p.Closing?
    case DirectBegin(t, readOnly) => p.Idle? && if readOnly then Entries(s, t) == [] else CanLock(s.db.lock, t)
    case DirectEnd(t) => p.Direct?
    case Modify(t, c) => p.Idle? || p.Direct?
  }

  function Next(s: State, a: Action): State
    requires Enabled(s, a)
  {
    match a
    case BackendBegin(t, readOnly) => s.(db := Begin(s.db, t, readOnly), phases := s.phases[t := Begun(readOnly)])
    case Push(t) => AfterPush(s, t, PhaseOf(s, t).readOnly)
    case Peek(t, commit) => AfterPeek(s, t, commit)
    case BackendEnd(t) => AfterEnd(s, t, PhaseOf(s, t))
    case Pop(t) => AfterPop(s, t, PhaseOf(s, t))
    case DirectBegin(t, readOnly) => s.(db := Begin(s.db, t, readOnly), phases := s.phases[t := Direct(readOnly)])
    case DirectEnd(t) => s.(db := Commit(s.db, t), phases := s.phases[t := Idle])
    case Modify(t, c) => s.(db := Write(s.db, t, c))
  }

  predicate AnyWriter(stack: seq<bool>)
    ensures AnyWriter(stack) <==> HasWriter(stack)
  {
    exists i :: 0 <= i < |stack| && !stack[i]
  }

  /** The second part of begin_transaction. */
  function AfterPush(s: State, t: Thread, readOnly: bool): State {
    var stack := Stack(s, t);
    s.(stacks := s.stacks[t := stack + [readOnly]],
       phases := s.phases[t := Idle],
       events := if !AnyWriter(stack) && !readOnly then s.events + [WriteBegin] else s.events)
  }

  /** The first part of commit_transaction and abort_transaction, which may refuse the call. */
  function AfterPeek(s: State, t: Thread, commit: bool): State {
    var stack := Stack(s, t);
    var looked := s.(stacks := s.stacks[t := stack]);
    if stack == [] || (!commit && stack[|stack| - 1]) then looked
    else looked.(phases := s.phases[t := Ending(commit, !stack[|stack| - 1])])
  }

  function AfterEnd(s: State, t: Thread, p: Phase): State
    requires p.Ending?
  {
    s.(db := if p.commit then Commit(s.db, t) else Abort(s.db, t),
       phases := s.phases[t := Closing(p.commit, p.writer, !p.commit || Entries(s, t) != [])],
       stackLock := Some(t))
  }

  function AfterPop(s: State, t: Thread, p: Phase): State
    requires p.Closing?
  {
    var stack := Stack(s, t);
    var out := s.(phases := s.phases[t := Idle], stackLock := None);
    if stack == [] || stack[|stack| - 1] == p.writer then out.(failures := s.failures + 1) else
    var rest := stack[..|stack| - 1];
    out.(stacks := s.stacks[t := rest],
         events := if p.writer && !AnyWriter(rest) then
             s.events + [if p.commit then WriteCommit else WriteAbort] else s.events,
         failures := if p.ended then s.failures else s.failures + 1)
  }

  // ----- the program -----

  /** basic_db_accessor; its methods are the atomic sections of the calls. */
  class Accessor {
    const backend: Backend
    var stacks: map<Thread, seq<bool>>
    var phases: map<Thread, Phase>
    var stackLock: Option<Thread>
    var events: seq<Event>
    var failures: nat

    constructor (data: Data)
      ensures fresh(backend) && Value() == Start(data)
    {
      backend := new Backend(data);
      stacks, phases, stackLock, events, failures := map[], map[], None, [], 0;
    }

    ghost function Value(): State
      reads this, backend
    {
      State(backend.Value(), stacks, phases, stackLock, events, failures)
    }

    /** has_writer_tx_in_stack */
    method HasWriterTxInStack(stack: seq<bool>) returns (found: bool)
      ensures found == HasWriter(stack)
    {
      for i := 0 to |stack|
        invariant forall k :: 0 <= k < i ==> stack[k]
      {
        if !stack[i] {
          return true;
        }
      }
      return false;
    }

    /** begin_transaction, in the backend. */
    method BeginInBackend(t: Thread, readOnly: bool) returns (r: bool)
      requires Enabled(Value(), BackendBegin(t, readOnly))
      modifies this, backend
      ensures r && Value() == Next(old(Value()), BackendBegin(t, readOnly))
    {
      r := backend.BeginTransaction(t, readOnly);
      phases := phases[t := Begun(readOnly)];
    }

    /** begin_transaction, under m_transactions_stack_lock. */
    method PushBegun(t: Thread)
      requires Enabled(Value(), Action.Push(t))
      modifies this
      ensures Value() == Next(old(Value()), Action.Push(t))
    {
      var readOnly := phases[t].readOnly;
      var stack := if t in stacks then stacks[t] else [];
      var has := HasWriterTxInStack(stack);
      stacks := stacks[t := stack + [readOnly]];
      if !has && !readOnly {
        events := events + [WriteBegin];
      }
      phases := phases[t := Idle];
    }

    /** The first check of commit_transaction and abort_transaction. */
    method LookAtTop(t: Thread, commit: bool) returns (thrown: bool)
      requires Enabled(Value(), Action.Peek(t, commit))
      modifies this
      ensures Value() == Next(old(Value()), Action.Peek(t, commit))
      ensures thrown <==> PhaseOf(Value(), t).Idle?
    {
      var stack := if t in stacks then stacks[t] else [];
      stacks := stacks[t := stack];
      if stack == [] || (!commit && stack[|stack| - 1]) {
        return true;
      }
      phases := phases[t := Ending(commit, !stack[|stack| - 1])];
      return false;
    }

    /** The backend's part of commit_transaction and abort_transaction. */
    method EndInBackend(t: Thread)
      requires Enabled(Value(), BackendEnd(t))
      modifies this, backend
      ensures Value() == Next(old(Value()), BackendEnd(t))
    {
      var p := phases[t];
      stackLock := Some(t);
      var r := true;
      if p.commit {
        r := backend.CommitTransaction(t);
      } else {
        backend.AbortTransaction(t);
      }
      phases := phases[t := Closing(p.commit, p.writer, r)];
    }

    /** The rest of commit_transaction and abort_transaction. */
    method PopEnded(t: Thread)
      requires Enabled(Value(), Action.Pop(t))
      modifies this
      ensures Value() == Next(old(Value()), Action.Pop(t))
    {
      var p := phases[t];
      phases, stackLock := phases[t := Idle], None;
      var stack := if t in stacks then stacks[t] else [];
      if stack == [] || stack[|stack| - 1] == p.writer {
        failures := failures + 1;
        return;
      }
      stack := stack[..|stack| - 1];
      stacks := stacks[t := stack];
      var has := HasWriterTxInStack(stack);
      if p.writer && !has {
        events := events + [if p.commit then WriteCommit else WriteAbort];
      }
      if !p.ended {
        failures := failures + 1;
      }
    }
  }

  // ----- runs -----

  function Start(data: Data): State {
    State(Db(map[], Free, data, []), map[], map[], None, [], 0)
  }

  ghost predicate Possible(s: State, run: seq<Action>)
    decreases run
  {
    run == [] || (Enabled(s, run[0]) && Possible(Next(s, run[0]), run[1..]))
  }

  function After(s: State, run: seq<Action>): State
    requires Possible(s, run)
    decreases run
  {
    if run == [] then s else After(Next(s, run[0]), run[1..])
  }

  // ----- the invariant -----

  /** Containers are isolated from a begin until the next commit or abort. */
  predicate Isolated(events: seq<Event>) {
    events != [] && events[|events| - 1].WriteBegin?
  }

  ghost predicate Alternates(events: seq<Event>) {
    forall i :: 0 <= i < |events| ==> (events[i].WriteBegin? <==> i % 2 == 0)
  }

  /** The accessor's stack and the backend's entries, at each phase. */
  ghost predicate Agree(flat: seq<bool>, stack: seq<bool>, p: Phase) {
    match p
    case Idle => flat == stack
    case Begun(readOnly) => flat == stack + [readOnly]
    case Direct(readOnly) => flat == stack + [readOnly]
    case Ending(commit, writer) => flat == stack && stack != [] && stack[|stack| - 1] == !writer && (commit || writer)
    case Closing(commit, writer, ended) => flat + [!writer] == stack && ended && (commit || writer)
  }

  ghost predicate ThreadOk(s: State, t: Thread) {
    var l := Entries(s, t);
    && Shape(l) && Writers(l) == Depth(s.db.lock, t)
    && Agree(Flatten(l), Stack(s, t), PhaseOf(s, t))
    && (PhaseOf(s, t).Closing? <==> s.stackLock == Some(t))
  }

  ghost predicate Stacked(s: State, t: Thread) {
    HasWriter(Stack(s, t))
  }

  ghost predicate IsolationOk(s: State) {
    && Alternates(s.events)
    && (Isolated(s.events) <==> exists t :: Stacked(s, t))
    && (forall t, u :: Stacked(s, t) && Stacked(s, u) ==> t == u)
  }

  ghost predicate SeesRight(s: State, base: Data, t: Thread) {
    Views(base, s.db.committed, Entries(s, t))
  }

  ghost predicate DataOk(s: State, base: Data) {
    s.db.main == Replay(base, s.db.committed) && forall t :: SeesRight(s, base, t)
  }

  ghost predicate Threads(s: State) {
    (s.db.lock.Held? ==> s.db.lock.depth > 0) && forall t :: ThreadOk(s, t)
  }

  ghost predicate Inv(s: State, base: Data) {
    Threads(s) && IsolationOk(s) && DataOk(s, base) && s.failures == 0
  }

  // ----- steps keep the threads in order -----

  lemma {:induction false} ListsAfter(txs: map<Thread, seq<Entry>>, t: Thread, l: seq<Entry>, u: Thread)
    ensures TxList(WithList(txs, t, l), u) == if u == t then l else TxList(txs, u)
  {
  }

  /** The other threads do not notice a step that leaves them their lock depth. */
  lemma {:induction false} OthersOk(s: State, r: State, t: Thread)
    requires Threads(s)
    requires ThreadOk(r, t) && (r.db.lock.Held? ==> r.db.lock.depth > 0)
    requires forall u :: u != t ==>
               Entries(r, u) == Entries(s, u) && Stack(r, u) == Stack(s, u) && PhaseOf(r, u) == PhaseOf(s, u)
               && Depth(r.db.lock, u) == Depth(s.db.lock, u)
    requires r.stackLock == s.stackLock || (r.stackLock == Some(t) && s.stackLock == None)
             || (r.stackLock == None && s.stackLock == Some(t))
    ensures Threads(r)
  {
    forall u ensures ThreadOk(r, u) {
      if u != t {
        assert ThreadOk(s, u);
      }
    }
  }

  /** What a begin does to a thread's list and to the lock. */
  ghost predicate Started(s: State, db: Db, t: Thread, readOnly: bool) {
    && Shape(TxList(db.txs, t)) && Flatten(TxList(db.txs, t)) == Flatten(Entries(s, t)) + [readOnly]
    && Writers(TxList(db.txs, t)) == Depth(db.lock, t)
    && (db.lock.Held? ==> db.lock.depth > 0)
    && (forall u :: u != t ==> TxList(db.txs, u) == Entries(s, u) && Depth(db.lock, u) == Depth(s.db.lock, u))
  }

  lemma {:induction false} BeginStarts(s: State, t: Thread, readOnly: bool)
    requires Threads(s) && (readOnly || CanLock(s.db.lock, t))
    ensures Started(s, Begin(s.db, t, readOnly), t, readOnly)
  {
    assert ThreadOk(s, t);
    var b := BeginList(Entries(s, t), readOnly, s.db.main);
    BeginFlattens(Entries(s, t), readOnly, s.db.main);
    ListStarts(s, t, readOnly, b, if readOnly then s.db.lock else Acquire(s.db.lock, t));
  }

  lemma {:induction false} ListStarts(s: State, t: Thread, readOnly: bool, b: seq<Entry>, lock: Lock)
    requires Threads(s) && (readOnly || CanLock(s.db.lock, t))
    requires lock == if readOnly then s.db.lock else Acquire(s.db.lock, t)
    requires Shape(b) && Flatten(b) == Flatten(Entries(s, t)) + [readOnly]
    requires Writers(b) == Writers(Entries(s, t)) + if readOnly then 0 else 1
    ensures Started(s, s.db.(txs := WithList(s.db.txs, t, b), lock := lock), t, readOnly)
  {
    assert ThreadOk(s, t);
    forall u ensures TxList(WithList(s.db.txs, t, b), u) == if u == t then b else TxList(s.db.txs, u) {
      ListsAfter(s.db.txs, t, b, u);
    }
  }

  lemma {:induction false} BeginThreads(s: State, t: Thread, readOnly: bool, p: Phase)
    requires Threads(s) && PhaseOf(s, t).Idle? && (readOnly || CanLock(s.db.lock, t))
    requires (p == Begun(readOnly) || p == Direct(readOnly))
    ensures Threads(s.(db := Begin(s.db, t, readOnly), phases := s.phases[t := p]))
  {
    BeginStarts(s, t, readOnly);
    StartedThreads(s, Begin(s.db, t, readOnly), t, readOnly, p);
  }

  lemma {:induction false} StartedThreads(s: State, db: Db, t: Thread, readOnly: bool, p: Phase)
    requires Threads(s) && PhaseOf(s, t).Idle? && Started(s, db, t, readOnly)
    requires (p == Begun(readOnly) || p == Direct(readOnly))
    ensures Threads(s.(db := db, phases := s.phases[t := p]))
  {
    assert ThreadOk(s, t);
    OthersOk(s, s.(db := db, phases := s.phases[t := p]), t);
  }

  lemma {:induction false} PushThreads(s: State, t: Thread)
    requires Threads(s) && Enabled(s, Action.Push(t))
    ensures Threads(Next(s, Action.Push(t)))
  {
    assert ThreadOk(s, t);
    OthersOk(s, Next(s, Action.Push(t)), t);
  }

  lemma {:induction false} PeekThreads(s: State, t: Thread, commit: bool)
    requires Threads(s) && Enabled(s, Action.Peek(t, commit))
    ensures Threads(Next(s, Action.Peek(t, commit)))
  {
    assert ThreadOk(s, t);
    var r := Next(s, Action.Peek(t, commit));
    assert Stack(r, t) == Stack(s, t) && r.db == s.db && r.stackLock == s.stackLock;
    assert ThreadOk(r, t);
    OthersOk(s, r, t);
  }

  /** What ending the transaction on top does to a thread's list and to the lock. */
  ghost predicate Ended(s: State, db: Db, t: Thread, writer: bool) {
    && Shape(TxList(db.txs, t)) && Flatten(TxList(db.txs, t)) + [!writer] == Flatten(Entries(s, t))
    && Writers(TxList(db.txs, t)) == Depth(db.lock, t)
    && (db.lock.Held? ==> db.lock.depth > 0)
    && (forall u :: u != t ==> TxList(db.txs, u) == Entries(s, u) && Depth(db.lock, u) == Depth(s.db.lock, u))
  }

  lemma {:induction false} CommitEnds(s: State, t: Thread)
    requires Threads(s) && Entries(s, t) != []
    ensures Ended(s, Commit(s.db, t), t, EndsWriter(Entries(s, t)[|Entries(s, t)| - 1]))
  {
    assert ThreadOk(s, t);
    var l := Entries(s, t);
    var e := l[|l| - 1];
    PopFlattens(l);
    MergeFlattens(PopList(l), e);
    ReleaseDepth(s.db.lock, t);
  }

  lemma {:induction false} AbortEnds(s: State, t: Thread)
    requires Threads(s) && Entries(s, t) != []
    ensures Ended(s, Abort(s.db, t), t, EndsWriter(Entries(s, t)[|Entries(s, t)| - 1]))
  {
    assert ThreadOk(s, t);
    PopFlattens(Entries(s, t));
    ReleaseDepth(s.db.lock, t);
  }

  lemma {:induction false} ReleaseDepth(lock: Lock, t: Thread)
    requires lock.Held? ==> lock.depth > 0
    ensures Release(lock, t).Held? ==> Release(lock, t).depth > 0
    ensures forall u ::
              Depth(Release(lock, t), u) == if u == t && Depth(lock, t) > 0 then Depth(lock, t) - 1 else Depth(lock, u)
  {
  }

  /** The end of a transaction known by its stack: the entry on top is a writer's last exactly if the stack's top is a
      writer. */
  lemma {:induction false} TopMatches(l: seq<Entry>, writer: bool, below: seq<bool>)
    requires Shape(l) && Flatten(l) == below + [!writer]
    ensures l != [] && EndsWriter(l[|l| - 1]) == writer
  {
    if l != [] {
      PopFlattens(l);
      assert Flatten(l)[|Flatten(l)| - 1] == !writer;
    }
  }

  lemma {:induction false} EndThreads(s: State, t: Thread)
    requires Threads(s) && Enabled(s, BackendEnd(t))
    ensures Threads(Next(s, BackendEnd(t)))
  {
    var p := PhaseOf(s, t);
    EndingTop(s, t);
    if p.commit {
      CommitEnds(s, t);
      EndedThreads(s, Commit(s.db, t), t, p);
    } else {
      AbortEnds(s, t);
      EndedThreads(s, Abort(s.db, t), t, p);
    }
  }

  /** The backend's entry on top is the one the accessor looked at. */
  lemma {:induction false} EndingTop(s: State, t: Thread)
    requires Threads(s) && PhaseOf(s, t).Ending?
    ensures Entries(s, t) != [] && EndsWriter(Entries(s, t)[|Entries(s, t)| - 1]) == PhaseOf(s, t).writer
  {
    assert ThreadOk(s, t);
    var p, stack := PhaseOf(s, t), Stack(s, t);
    assert stack == stack[..|stack| - 1] + [!p.writer];
    TopMatches(Entries(s, t), p.writer, stack[..|stack| - 1]);
  }

  lemma {:induction false} EndedThreads(s: State, db: Db, t: Thread, p: Phase)
    requires Threads(s) && PhaseOf(s, t) == p && p.Ending? && s.stackLock.None? && Ended(s, db, t, p.writer)
    ensures Threads(s.(db := db, phases := s.phases[t := Closing(p.commit, p.writer, true)], stackLock := Some(t)))
  {
    assert ThreadOk(s, t);
    OthersOk(s, s.(db := db, phases := s.phases[t := Closing(p.commit, p.writer, true)], stackLock := Some(t)), t);
  }

  lemma {:induction false} PopThreads(s: State, t: Thread)
    requires Threads(s) && Enabled(s, Action.Pop(t))
    ensures Threads(Next(s, Action.Pop(t))) && Next(s, Action.Pop(t)).failures == s.failures
  {
    assert ThreadOk(s, t);
    var flat, stack := Flatten(Entries(s, t)), Stack(s, t);
    assert stack[..|stack| - 1] == flat;
    OthersOk(s, Next(s, Action.Pop(t)), t);
  }

  lemma {:induction false} DirectEndThreads(s: State, t: Thread)
    requires Threads(s) && Enabled(s, DirectEnd(t))
    ensures Threads(Next(s, DirectEnd(t)))
  {
    assert ThreadOk(s, t);
    var readOnly := PhaseOf(s, t).readOnly;
    TopMatches(Entries(s, t), !readOnly, Stack(s, t));
    CommitEnds(s, t);
    var r := Next(s, DirectEnd(t));
    assert Flatten(Entries(r, t)) == (Flatten(Entries(r, t)) + [readOnly])[..|Stack(s, t)|] == Stack(s, t);
    OthersOk(s, r, t);
  }

  lemma {:induction false} ModifyThreads(s: State, t: Thread, c: Change)
    requires Threads(s) && Enabled(s, Modify(t, c))
    ensures Threads(Next(s, Modify(t, c)))
  {
    assert ThreadOk(s, t);
    ChangeFlattens(Entries(s, t), c);
    OthersOk(s, Next(s, Modify(t, c)), t);
  }

  lemma {:induction false} ThreadsNext(s: State, a: Action)
    requires Threads(s) && Enabled(s, a)
    ensures Threads(Next(s, a)) && Next(s, a).failures == s.failures
  {
    match a
    case BackendBegin(t, readOnly) => BeginThreads(s, t, readOnly, Begun(readOnly));
    case Push(t) => PushThreads(s, t);
    case Peek(t, commit) => PeekThreads(s, t, commit);
    case BackendEnd(t) => EndThreads(s, t);
    case Pop(t) => PopThreads(s, t);
    case DirectBegin(t, readOnly) => BeginThreads(s, t, readOnly, Direct(readOnly));
    case DirectEnd(t) => DirectEndThreads(s, t);
    case Modify(t, c) => ModifyThreads(s, t, c);
  }

  // ----- steps keep the containers isolated exactly while somebody writes -----

  /** Unless a thread is between the backend's end and the pop, a writer on its stack means that it holds the write
      lock. */
  lemma {:induction false} StackedLocks(s: State, t: Thread)
    requires Threads(s) && Stacked(s, t) && s.stackLock != Some(t)
    ensures Depth(s.db.lock, t) > 0
  {
    assert ThreadOk(s, t);
    var stack, flat := Stack(s, t), Flatten(Entries(s, t));
    var i :| 0 <= i < |stack| && !stack[i];
    assert !flat[i];
    FlattenWriters(Entries(s, t));
  }

  /** A thread that has begun to write holds the lock. */
  lemma {:induction false} BegunLocks(s: State, t: Thread)
    requires Threads(s) && PhaseOf(s, t) == Begun(false)
    ensures Depth(s.db.lock, t) > 0
  {
    assert ThreadOk(s, t);
    var flat := Flatten(Entries(s, t));
    assert !flat[|flat| - 1];
    FlattenWriters(Entries(s, t));
  }

  lemma {:induction false} AlternatesOn(events: seq<Event>, e: Event)
    requires Alternates(events) && (e.WriteBegin? <==> !Isolated(events))
    ensures Alternates(events + [e]) && (Isolated(events + [e]) <==> e.WriteBegin?)
  {
    if events != [] { assert events[|events| - 1].WriteBegin? <==> (|events| - 1) % 2 == 0; }
  }

  lemma {:induction false} PushIsolation(s: State, t: Thread)
    requires Threads(s) && IsolationOk(s) && Enabled(s, Action.Push(t))
    ensures IsolationOk(Next(s, Action.Push(t)))
  {
    var r, stack, readOnly := Next(s, Action.Push(t)), Stack(s, t), PhaseOf(s, t).readOnly;
    StackGrows(s, r, t, readOnly);
    if !readOnly {
      BegunLocks(s, t);
      forall u | Stacked(s, u) ensures u == t {
        StackedLocks(s, u);
      }
      assert Stacked(r, t);
      if !HasWriter(stack) {
        assert !Stacked(s, t);
        AlternatesOn(s.events, WriteBegin);
      } else {
        assert Stacked(s, t);
      }
    } else if exists u :: Stacked(s, u) {
      var u :| Stacked(s, u);
      assert Stacked(r, u);
    } else {
      forall u ensures !Stacked(r, u) { assert !Stacked(s, u); }
    }
  }

  lemma {:induction false} StackGrows(s: State, r: State, t: Thread, readOnly: bool)
    requires Stack(r, t) == Stack(s, t) + [readOnly] && forall u :: u != t ==> Stack(r, u) == Stack(s, u)
    ensures Stacked(r, t) <==> Stacked(s, t) || !readOnly
    ensures forall u :: u != t ==> Stacked(r, u) == Stacked(s, u)
  {
    HasWriterOn(Stack(s, t), readOnly);
  }

  lemma {:induction false} HasWriterOn(stack: seq<bool>, readOnly: bool)
    ensures HasWriter(stack + [readOnly]) <==> HasWriter(stack) || !readOnly
  {
    var g := stack + [readOnly];
    if HasWriter(stack) {
      var i :| 0 <= i < |stack| && !stack[i];
      assert !g[i];
    }
    if !readOnly { assert !g[|stack|]; }
  }

  lemma {:induction false} PopIsolation(s: State, t: Thread)
    requires Threads(s) && IsolationOk(s) && Enabled(s, Action.Pop(t))
    ensures IsolationOk(Next(s, Action.Pop(t)))
  {
    assert ThreadOk(s, t);
    var r, stack, p := Next(s, Action.Pop(t)), Stack(s, t), PhaseOf(s, t);
    var rest := stack[..|stack| - 1];
    assert stack == rest + [!p.writer];
    StackGrows(r, s, t, !p.writer);
    if p.writer {
      assert Stacked(s, t);
      if HasWriter(rest) {
        assert Stacked(r, t);
      } else {
        AlternatesOn(s.events, if p.commit then WriteCommit else WriteAbort);
        forall u ensures !Stacked(r, u) {}
      }
    } else {
      forall u ensures Stacked(r, u) == Stacked(s, u) {}
    }
  }

  /** Steps that leave the stacks and the broadcasts alone. */
  lemma {:induction false} QuietIsolation(s: State, r: State)
    requires IsolationOk(s) && r.events == s.events && forall u :: Stack(r, u) == Stack(s, u)
    ensures IsolationOk(r)
  {
    forall u ensures Stacked(r, u) == Stacked(s, u) {}
  }

  lemma {:induction false} IsolationNext(s: State, a: Action)
    requires Threads(s) && IsolationOk(s) && Enabled(s, a)
    ensures IsolationOk(Next(s, a))
  {
    if a.Push? {
      PushIsolation(s, a.t);
    } else if a.Pop? {
      PopIsolation(s, a.t);
    } else {
      QuietIsolation(s, Next(s, a));
    }
  }

  // ----- steps lose no changes -----

  lemma {:induction false} OthersSee(s: State, r: State, base: Data, t: Thread)
    requires DataOk(s, base) && r.db.main == s.db.main && r.db.committed == s.db.committed
    requires SeesRight(r, base, t) && forall u :: u != t ==> Entries(r, u) == Entries(s, u)
    ensures DataOk(r, base)
  {
    forall u ensures SeesRight(r, base, u) {
      assert SeesRight(s, base, u);
    }
  }

  lemma {:induction false} BeginData(s: State, r: State, base: Data, t: Thread, readOnly: bool)
    requires Threads(s) && DataOk(s, base) && r.db == Begin(s.db, t, readOnly)
    ensures DataOk(r, base)
  {
    assert ThreadOk(s, t) && SeesRight(s, base, t);
    BeginViews(base, s.db.committed, Entries(s, t), readOnly, s.db.main);
    OthersSee(s, r, base, t);
  }

  lemma {:induction false} AbortData(s: State, r: State, base: Data, t: Thread)
    requires DataOk(s, base) && r.db == Abort(s.db, t)
    ensures DataOk(r, base)
  {
    assert SeesRight(s, base, t);
    if Entries(s, t) != [] {
      PopViews(base, s.db.committed, Entries(s, t));
    }
    OthersSee(s, r, base, t);
  }

  lemma {:induction false} ModifyData(s: State, r: State, base: Data, t: Thread, c: Change)
    requires DataOk(s, base) && r.db == Write(s.db, t, c)
    ensures DataOk(r, base)
  {
    assert SeesRight(s, base, t);
    ChangeViews(base, s.db.committed, Entries(s, t), c);
    OthersSee(s, r, base, t);
  }

  lemma {:induction false} CommitData(s: State, r: State, base: Data, t: Thread)
    requires Threads(s) && DataOk(s, base) && r.db == Commit(s.db, t)
    ensures DataOk(r, base)
  {
    var l := Entries(s, t);
    assert SeesRight(s, base, t);
    if l == [] {
      OthersSee(s, r, base, t);
    } else if !Last(l[|l| - 1]) {
      CommitCounts(s.db, t);
      PopViews(base, s.db.committed, l);
      OthersSee(s, r, base, t);
    } else {
      CommitMerges(s.db, t, l[..|l| - 1], l[|l| - 1]);
      EndData(s, r, base, t, l[..|l| - 1], l[|l| - 1]);
    }
  }

  /** The commit of a counted read-only transaction. */
  lemma {:induction false} CommitCounts(db: Db, t: Thread)
    requires TxList(db.txs, t) != [] && !Last(TxList(db.txs, t)[|TxList(db.txs, t)| - 1])
    ensures var c := Commit(db, t);
      && TxList(c.txs, t) == PopList(TxList(db.txs, t)) && c.main == db.main && c.committed == db.committed
      && forall u :: u != t ==> TxList(c.txs, u) == TxList(db.txs, u)
  {
  }

  /** The commit that ends an LMDB transaction. */
  lemma {:induction false} CommitMerges(db: Db, t: Thread, rest: seq<Entry>, e: Entry)
    requires var l := TxList(db.txs, t); l != [] && rest == l[..|l| - 1] && e == l[|l| - 1] && Last(e)
    ensures TxList(db.txs, t) == rest + [e]
    ensures var c := Commit(db, t);
      && TxList(c.txs, t) == MergeList(rest, e)
      && c.main == (if TopLevel(rest, e) then e.view else db.main)
      && c.committed == (if TopLevel(rest, e) then db.committed + e.changes else db.committed)
      && forall u :: u != t ==> TxList(c.txs, u) == TxList(db.txs, u)
  {
  }

  /** The end of an LMDB transaction. */
  lemma {:induction false} EndData(s: State, r: State, base: Data, t: Thread, rest: seq<Entry>, e: Entry)
    requires Threads(s) && DataOk(s, base) && Entries(s, t) == rest + [e]
    requires Entries(r, t) == MergeList(rest, e) && forall u :: u != t ==> Entries(r, u) == Entries(s, u)
    requires r.db.main == (if TopLevel(rest, e) then e.view else s.db.main)
    requires r.db.committed == (if TopLevel(rest, e) then s.db.committed + e.changes else s.db.committed)
    ensures DataOk(r, base)
  {
    if TopLevel(rest, e) {
      PublishData(s, r, base, t, rest, e);
    } else {
      assert SeesRight(s, base, t);
      MergeViews(base, s.db.committed, rest, e);
      OthersSee(s, r, base, t);
    }
  }

  /** A top-level commit makes the database what the committed changes lead to, and no other thread is writing. */
  lemma {:induction false} PublishData(s: State, r: State, base: Data, t: Thread, rest: seq<Entry>, e: Entry)
    requires Threads(s) && DataOk(s, base) && Entries(s, t) == rest + [e] && TopLevel(rest, e)
    requires r.db.main == e.view && r.db.committed == s.db.committed + e.changes && Entries(r, t) == rest
    requires forall u :: u != t ==> Entries(r, u) == Entries(s, u)
    ensures DataOk(r, base)
  {
    assert ThreadOk(s, t) && SeesRight(s, base, t);
    ReaderBelow(rest, e);
    TopLevelView(base, s.db.committed, rest, e);
    FlattenAppend(rest, e);
    forall u ensures SeesRight(r, base, u) {
      assert ThreadOk(s, u);
      NoWriters(Entries(r, u));
    }
  }

  lemma {:induction false} ReaderBelow(rest: seq<Entry>, e: Entry)
    requires Shape(rest + [e]) && TopLevel(rest, e)
    ensures Pending(rest) == [] && Writers(rest) == 0
  {
    if rest != [] {
      assert (rest + [e])[|rest| - 1] == rest[|rest| - 1];
      assert rest[..0] == [];
    }
  }

  lemma {:induction false} TopLevelView(base: Data, committed: seq<Change>, rest: seq<Entry>, e: Entry)
    requires !e.readOnly && Views(base, committed, rest + [e]) && Pending(rest) == []
    ensures e.view == Replay(base, committed + e.changes)
  {
    var l := rest + [e];
    assert l[..|l| - 1] == rest;
    ViewsTop(base, committed, l);
    assert Pending(rest) + e.changes == e.changes;
  }

  lemma {:induction false} DataNext(s: State, a: Action, base: Data)
    requires Threads(s) && DataOk(s, base) && Enabled(s, a)
    ensures DataOk(Next(s, a), base)
  {
    var r := Next(s, a);
    match a
    case BackendBegin(t, readOnly) => BeginData(s, r, base, t, readOnly);
    case BackendEnd(t) => if PhaseOf(s, t).commit { CommitData(s, r, base, t); } else { AbortData(s, r, base, t); }
    case DirectBegin(t, readOnly) => BeginData(s, r, base, t, readOnly);
    case DirectEnd(t) => CommitData(s, r, base, t);
    case Modify(t, c) => ModifyData(s, r, base, t, c);
    case _ => OthersSee(s, r, base, a.t) by { assert SeesRight(s, base, a.t); }
  }

  // ----- every run -----

  lemma {:induction false} StartInv(data: Data)
    ensures Inv(Start(data), data)
  {
    var s := Start(data);
    forall t ensures ThreadOk(s, t) && SeesRight(s, data, t) && !Stacked(s, t) {}
  }

  lemma {:induction false} InvNext(s: State, a: Action, base: Data)
    requires Inv(s, base) && Enabled(s, a)
    ensures Inv(Next(s, a), base)
  {
    ThreadsNext(s, a);
    IsolationNext(s, a);
    DataNext(s, a, base);
  }

  lemma {:induction false} InvRun(s: State, run: seq<Action>, base: Data)
    requires Inv(s, base) && Possible(s, run)
    ensures Inv(After(s, run), base)
    decreases run
  {
    if run != [] {
      InvNext(s, run[0], base);
      InvRun(Next(s, run[0]), run[1..], base);
    }
  }

  /** Over every interleaving the broadcasts alternate, containers are isolated exactly while some thread
      has a writer on its stack, and no end of a transaction fails. */
  lemma {:induction false} WriteIsolation(data: Data, run: seq<Action>)
    requires Possible(Start(data), run)
    ensures var s := After(Start(data), run);
      && Alternates(s.events) && s.failures == 0
      && (Isolated(s.events) <==> exists t :: Stacked(s, t))
      && forall t, u :: Stacked(s, t) && Stacked(s, u) ==> t == u
  {
    StartInv(data);
    InvRun(Start(data), run, data);
  }

  /** Over every interleaving each stack flattens the backend's counted entries, and the lock is held as often
      as its owner has write entries, which no other thread has. */
  lemma {:induction false} StacksFlatten(data: Data, run: seq<Action>, t: Thread)
    requires Possible(Start(data), run)
    ensures var s := After(Start(data), run);
      && Agree(Flatten(Entries(s, t)), Stack(s, t), PhaseOf(s, t))
      && Writers(Entries(s, t)) == Depth(s.db.lock, t)
      && forall u :: Writers(Entries(s, t)) > 0 && Writers(Entries(s, u)) > 0 ==> t == u
  {
    StartInv(data);
    InvRun(Start(data), run, data);
    var s := After(Start(data), run);
    assert ThreadOk(s, t);
    forall u | Writers(Entries(s, t)) > 0 && Writers(Entries(s, u)) > 0 ensures t == u {
      assert ThreadOk(s, u);
    }
  }

  /** Over every interleaving the database is what the committed changes lead to, in the order of their commits:
      no commit overwrites another. */
  lemma {:induction false} NoLostChanges(data: Data, run: seq<Action>, t: Thread)
    requires Possible(Start(data), run)
    ensures var s := After(Start(data), run);
      s.db.main == Replay(data, s.db.committed) && Views(data, s.db.committed, Entries(s, t))
  {
    StartInv(data);
    InvRun(Start(data), run, data);
    assert SeesRight(After(Start(data), run), data, t);
  }

  /** What has been committed stays committed. */
  lemma {:induction false} HistoryGrows(s: State, run: seq<Action>)
    requires Possible(s, run)
    ensures s.db.committed <= After(s, run).db.committed
    decreases run
  {
    if run != [] {
      HistoryGrows(Next(s, run[0]), run[1..]);
    }
  }

  /** An LMDB write transaction without parent is begun only when no thread has one. */
  lemma {:induction false} TopLevelAlone(s: State, t: Thread, u: Thread)
    requires Threads(s) && CanLock(s.db.lock, t) && TopLevel(Entries(s, t), Entry(false, 0, s.db.main, []))
    ensures Writers(Entries(s, u)) == 0
  {
    assert ThreadOk(s, t) && ThreadOk(s, u);
    ReaderBelowShape(Entries(s, t));
  }

  lemma {:induction false} ReaderBelowShape(l: seq<Entry>)
    requires Shape(l) && (l == [] || l[|l| - 1].readOnly)
    ensures Writers(l) == 0
  {
    if l != [] { assert l[..0] == []; }
  }

  /** The end of a nested read-only transaction leaves the write transactions, the lock and the database alone. */
  lemma {:induction false} ReadEndKeepsWriters(s: State, t: Thread, i: nat)
    requires Threads(s) && Enabled(s, BackendEnd(t)) && !PhaseOf(s, t).writer
    requires i < |Entries(s, t)| && !Entries(s, t)[i].readOnly
    ensures var r := Next(s, BackendEnd(t));
      && r.db.lock == s.db.lock && r.db.main == s.db.main && r.db.committed == s.db.committed
      && |Entries(r, t)| == |Entries(s, t)|
      && !Entries(r, t)[i].readOnly && Entries(r, t)[i].view == Entries(s, t)[i].view
      && Entries(r, t)[i].changes == Entries(s, t)[i].changes
  {
    assert ThreadOk(s, t);
    EndingTop(s, t);
  }

  /** An abort that the accessor lets through ends the LMDB write transaction on top. */
  lemma {:induction false} AbortReachesLmdb(s: State, t: Thread)
    requires Threads(s) && Enabled(s, BackendEnd(t)) && !PhaseOf(s, t).commit
    ensures var r, l := Next(s, BackendEnd(t)), Entries(s, t);
      && l != [] && !l[|l| - 1].readOnly && l[|l| - 1].count == 0
      && Entries(r, t) == l[..|l| - 1] && Depth(r.db.lock, t) == Depth(s.db.lock, t) - 1
      && r.db.main == s.db.main && r.db.committed == s.db.committed
  {
    assert ThreadOk(s, t);
    EndingTop(s, t);
  }

  // ----- nested transactions over runs -----

  /** Throughout the run the thread has more than n entries. */
  ghost predicate Above(s: State, run: seq<Action>, t: Thread, n: nat)
    requires Possible(s, run)
    decreases run
  {
    |Entries(s, t)| > n && (run == [] || Above(Next(s, run[0]), run[1..], t, n))
  }

  lemma {:induction false} WriterCounts(l: seq<Entry>, i: nat)
    requires i < |l| && !l[i].readOnly
    ensures Writers(l) > 0
  {
    if i < |l| - 1 { WriterCounts(l[..|l| - 1], i); }
  }

  /** The entries below n, the database, and that entry n is a writer. */
  ghost predicate Kept(s: State, r: State, t: Thread, n: nat) {
    && n < |Entries(s, t)| && n < |Entries(r, t)| && Entries(r, t)[..n] == Entries(s, t)[..n]
    && !Entries(r, t)[n].readOnly && r.db.main == s.db.main && r.db.committed == s.db.committed
  }

  lemma {:induction false} OwnStepKeeps(s: State, a: Action, n: nat)
    requires Threads(s) && Enabled(s, a) && n < |Entries(s, a.t)| && !Entries(s, a.t)[n].readOnly
    requires n < |Entries(Next(s, a), a.t)|
    ensures Kept(s, Next(s, a), a.t, n)
  {
    assert ThreadOk(s, a.t);
  }

  lemma {:induction false} OtherStepKeeps(s: State, a: Action, t: Thread, n: nat)
    requires Threads(s) && Enabled(s, a) && a.t != t && n < |Entries(s, t)| && !Entries(s, t)[n].readOnly
    ensures Kept(s, Next(s, a), t, n)
  {
    assert ThreadOk(s, t) && ThreadOk(s, a.t);
    WriterCounts(Entries(s, t), n);
    NoWriters(Entries(s, a.t));
  }

  /** While a write transaction is open, whatever any thread does, the entries below it and the database stay as they
      are. */
  lemma {:induction false} RunKeeps(s: State, run: seq<Action>, t: Thread, n: nat)
    requires Threads(s) && Possible(s, run) && Above(s, run, t, n) && !Entries(s, t)[n].readOnly
    ensures Threads(After(s, run)) && Kept(s, After(s, run), t, n)
    decreases run
  {
    if run != [] {
      var a := run[0];
      ThreadsNext(s, a);
      assert |Entries(Next(s, a), t)| > n;
      if a.t == t { OwnStepKeeps(s, a, n); } else { OtherStepKeeps(s, a, t, n); }
      RunKeeps(Next(s, a), run[1..], t, n);
    }
  }

  /** A write transaction: a begin, a run in which it stays open, and an end at its own level. */
  ghost predicate Bracket(s: State, t: Thread, run: seq<Action>, commit: bool) {
    && Threads(s) && Enabled(s, BackendBegin(t, false))
    && var b := Next(s, BackendBegin(t, false));
    && Possible(b, run) && Above(b, run, t, |Entries(s, t)|)
    && var e := After(b, run);
    && Enabled(e, BackendEnd(t)) && PhaseOf(e, t).writer && PhaseOf(e, t).commit == commit
    && |Entries(e, t)| == |Entries(s, t)| + 1
  }

  function BeforeEnd(s: State, t: Thread, run: seq<Action>): State
    requires Enabled(s, BackendBegin(t, false)) && Possible(Next(s, BackendBegin(t, false)), run)
  {
    After(Next(s, BackendBegin(t, false)), run)
  }

  lemma {:induction false} BracketKeeps(s: State, t: Thread, run: seq<Action>, commit: bool)
    requires Bracket(s, t, run, commit)
    ensures var e := BeforeEnd(s, t, run);
      && Threads(e) && Entries(e, t)[..|Entries(s, t)|] == Entries(s, t) && e.db.main == s.db.main
      && e.db.committed == s.db.committed
  {
    var b, n := Next(s, BackendBegin(t, false)), |Entries(s, t)|;
    ThreadsNext(s, BackendBegin(t, false));
    assert Entries(b, t)[..n] == Entries(s, t);
    RunKeeps(b, run, t, n);
  }

  /** An abort leaves the thread's transactions and the database as they were at the begin, whatever happened in
      between. */
  lemma {:induction false} AbortUndoes(s: State, t: Thread, run: seq<Action>)
    requires Bracket(s, t, run, false)
    ensures var r := Next(BeforeEnd(s, t, run), BackendEnd(t));
      Entries(r, t) == Entries(s, t) && r.db.main == s.db.main && r.db.committed == s.db.committed
  {
    BracketKeeps(s, t, run, false);
    AbortReachesLmdb(BeforeEnd(s, t, run), t);
  }

  /** A commit hands exactly what the transaction sees to the one around it, or to the database. */
  lemma {:induction false} CommitPublishes(s: State, t: Thread, run: seq<Action>)
    requires Bracket(s, t, run, true)
    ensures var e, r := BeforeEnd(s, t, run), Next(BeforeEnd(s, t, run), BackendEnd(t));
      var top := Entries(e, t)[|Entries(s, t)|];
      && Entries(r, t) == MergeList(Entries(s, t), top)
      && (if TopLevel(Entries(s, t), top) then r.db.main == top.view && r.db.committed == s.db.committed + top.changes
          else r.db.main == s.db.main && r.db.committed == s.db.committed)
  {
    BracketKeeps(s, t, run, true);
    EndingTop(BeforeEnd(s, t, run), t);
  }

  // ----- what the containers are told -----

  /** A run up to step i, that step, and the run up to the next one. */
  lemma {:induction false} UpTo(s: State, run: seq<Action>, i: nat)
    requires Possible(s, run) && i < |run|
    ensures Possible(s, run[..i]) && Possible(s, run[..i + 1]) && Enabled(After(s, run[..i]), run[i])
    ensures After(s, run[..i + 1]) == Next(After(s, run[..i]), run[i])
    decreases run
  {
    if i == 0 {
      OneStep(s, run);
    } else {
      UpTo(Next(s, run[0]), run[1..], i - 1);
      assert run[1..][..i - 1] == run[..i][1..] && run[1..][..i] == run[..i + 1][1..];
    }
  }

  lemma {:induction false} OneStep(s: State, run: seq<Action>)
    requires run != [] && Enabled(s, run[0])
    ensures Possible(s, run[..0]) && After(s, run[..0]) == s
    ensures Possible(s, run[..1]) && After(s, run[..1]) == Next(s, run[0])
  {
    var one, none := run[..1], run[..1][1..];
    assert run[..0] == [] == none;
    assert Possible(Next(s, run[0]), none) && After(Next(s, run[0]), none) == Next(s, run[0]);
  }

  /** Steps of other threads change neither a thread's phase nor its stack, and are told to nobody unless they push or
      pop. */
  lemma {:induction false} OtherPhase(s: State, a: Action, t: Thread)
    requires Enabled(s, a) && a.t != t
    ensures PhaseOf(Next(s, a), t) == PhaseOf(s, t) && Stack(Next(s, a), t) == Stack(s, t)
  {
  }

  /** The step that ends a transaction in the backend. */
  lemma {:induction false} ToClosing(s: State, r: State, a: Action)
    requires Enabled(s, a) && r == Next(s, a) && PhaseOf(r, a.t).Closing?
    ensures a == BackendEnd(a.t) && PhaseOf(s, a.t).Ending? && Stack(r, a.t) == Stack(s, a.t)
    ensures PhaseOf(r, a.t).commit == PhaseOf(s, a.t).commit && PhaseOf(r, a.t).writer == PhaseOf(s, a.t).writer
  {
  }

  /** The step that looks at the top of the stack. */
  lemma {:induction false} ToEnding(s: State, r: State, a: Action)
    requires Enabled(s, a) && r == Next(s, a) && PhaseOf(r, a.t).Ending?
    ensures a == Action.Peek(a.t, PhaseOf(r, a.t).commit)
  {
  }

  /** The thread takes no step from i up to j. */
  ghost predicate Silent(run: seq<Action>, t: Thread, i: nat, j: nat) {
    j <= |run| && forall k :: i <= k < j ==> run[k].t != t
  }

  /** The run leads from s to r in its first i steps. */
  ghost predicate Leads(s: State, run: seq<Action>, i: nat, r: State) {
    i <= |run| && forall n: nat {:trigger LeadsIn(s, run, n, r)} :: n == i ==> LeadsIn(s, run, n, r)
  }

  ghost predicate LeadsIn(s: State, run: seq<Action>, i: nat, r: State) {
    i <= |run| && Possible(s, run[..i]) && After(s, run[..i]) == r
  }

  lemma {:induction false} LeadsNowhere(s: State, run: seq<Action>, r: State)
    requires Leads(s, run, 0, r)
    ensures r == s
  {
    assert LeadsIn(s, run, 0, r);
    assert run[..0] == [];
  }

  lemma {:induction false} LeadsBack(s: State, run: seq<Action>, i: nat, r: State) returns (q: State)
    requires Possible(s, run) && 1 <= i <= |run| && Leads(s, run, i, r)
    ensures Leads(s, run, i - 1, q) && Enabled(q, run[i - 1]) && r == Next(q, run[i - 1])
  {
    assert LeadsIn(s, run, i, r);
    UpTo(s, run, i - 1);
    q := After(s, run[..i - 1]);
  }

  lemma {:induction false} LeadsInv(data: Data, run: seq<Action>, i: nat, r: State)
    requires Leads(Start(data), run, i, r)
    ensures Inv(r, data)
  {
    assert LeadsIn(Start(data), run, i, r);
    StartInv(data);
    InvRun(Start(data), run[..i], data);
  }

  /** A thread about to pop has ended its transaction in the backend by its last step, which led from q to q'. */
  lemma {:induction false} SinceEnd(s: State, run: seq<Action>, i: nat, r: State, t: Thread)
    returns (j: nat, q: State, q': State)
    requires Possible(s, run) && Leads(s, run, i, r) && PhaseOf(s, t).Idle? && PhaseOf(r, t).Closing?
    ensures j < i && run[j] == BackendEnd(t) && Silent(run, t, j + 1, i)
    ensures Leads(s, run, j, q) && Leads(s, run, j + 1, q') && Enabled(q, run[j]) && q' == Next(q, run[j])
    ensures PhaseOf(q, t).Ending? && Stack(r, t) == Stack(q, t)
    ensures PhaseOf(r, t).commit == PhaseOf(q, t).commit && PhaseOf(r, t).writer == PhaseOf(q, t).writer
    decreases i
  {
    if i == 0 { LeadsNowhere(s, run, r); }
    var b := LeadsBack(s, run, i, r);
    if run[i - 1].t == t {
      ToClosing(b, r, run[i - 1]);
      j, q, q' := i - 1, b, r;
    } else {
      OtherPhase(b, run[i - 1], t);
      j, q, q' := SinceEnd(s, run, i - 1, b, t);
    }
  }

  /** A thread about to end its transaction was asked to by its last step. */
  lemma {:induction false} SinceAsked(s: State, run: seq<Action>, i: nat, r: State, t: Thread) returns (k: nat)
    requires Possible(s, run) && Leads(s, run, i, r) && PhaseOf(s, t).Idle? && PhaseOf(r, t).Ending?
    ensures k < i && run[k] == Action.Peek(t, PhaseOf(r, t).commit) && Silent(run, t, k + 1, i)
    decreases i
  {
    if i == 0 { LeadsNowhere(s, run, r); }
    var b := LeadsBack(s, run, i, r);
    if run[i - 1].t == t {
      ToEnding(b, r, run[i - 1]);
      k := i - 1;
    } else {
      OtherPhase(b, run[i - 1], t);
      k := SinceAsked(s, run, i - 1, b, t);
    }
  }

  /** What ending the outermost write transaction did: a commit made its data the database, an abort left that alone. */
  ghost predicate Settled(before: Db, after: Db, t: Thread, commit: bool) {
    var l := TxList(before.txs, t);
    && l != [] && TopLevel(l[..|l| - 1], l[|l| - 1]) && TxList(after.txs, t) == l[..|l| - 1]
    && if commit then after.main == l[|l| - 1].view && after.committed == before.committed + l[|l| - 1].changes
       else after.main == before.main && after.committed == before.committed
  }

  lemma {:induction false} OutermostSettles(s: State, t: Thread)
    requires Threads(s) && Enabled(s, BackendEnd(t)) && PhaseOf(s, t).writer
    requires Stack(s, t) != [] && !HasWriter(Stack(s, t)[..|Stack(s, t)| - 1])
    ensures Settled(s.db, Next(s, BackendEnd(t)).db, t, PhaseOf(s, t).commit)
  {
    assert ThreadOk(s, t);
    EndingTop(s, t);
    var l, stack := Entries(s, t), Stack(s, t);
    var rest, e := l[..|l| - 1], l[|l| - 1];
    PopFlattens(l);
    assert stack[..|stack| - 1] == Flatten(rest) by { assert (Flatten(rest) + [false])[..|Flatten(rest)|]
        == Flatten(rest); }
    NoWriterBelow(rest);
  }

  lemma {:induction false} NoWriterBelow(l: seq<Entry>)
    requires !HasWriter(Flatten(l))
    ensures l == [] || l[|l| - 1].readOnly
  {
    if l != [] && !l[|l| - 1].readOnly {
      WriterFlattens(l);
    }
  }

  lemma {:induction false} WriterFlattens(l: seq<Entry>)
    requires l != [] && !l[|l| - 1].readOnly
    ensures HasWriter(Flatten(l))
  {
    FlattenWriters(l);
    WriterCounts(l, |l| - 1);
  }

  /** Over every interleaving, when a pop that leads from s to r is told to the containers: the thread was asked to
      commit or to abort, its backend then did just that with the outermost write transaction, in a step from q to q',
      and the containers are told which of the two. */
  lemma {:induction false} EndIsTold(data: Data, run: seq<Action>, i: nat, s: State, r: State)
    returns (k: nat, j: nat, q: State, q': State)
    requires Possible(Start(data), run) && i < |run| && run[i].Pop?
    requires Leads(Start(data), run, i, s) && Leads(Start(data), run, i + 1, r) && r.events != s.events
    ensures k < j < i && run[k].Peek? && run[k].t == run[i].t && run[j] == BackendEnd(run[i].t)
    ensures Silent(run, run[i].t, k + 1, j) && Silent(run, run[i].t, j + 1, i)
    ensures r.events == s.events + [if run[k].commit then WriteCommit else WriteAbort]
    ensures Leads(Start(data), run, j, q) && Leads(Start(data), run, j + 1, q')
    ensures Settled(q.db, q'.db, run[i].t, run[k].commit)
  {
    var s0, t := Start(data), run[i].t;
    SameStep(s0, run, i, s, r);
    PopIsTold(s, r, t);
    j, q, q' := SinceEnd(s0, run, i, s, t);
    k := SinceAsked(s0, run, j, q, t);
    LeadsInv(data, run, j, q);
    OutermostSettles(q, t);
  }

  lemma {:induction false} SameStep(s0: State, run: seq<Action>, i: nat, s: State, r: State)
    requires Possible(s0, run) && i < |run| && Leads(s0, run, i, s) && Leads(s0, run, i + 1, r)
    ensures Enabled(s, run[i]) && r == Next(s, run[i])
  {
    assert LeadsIn(s0, run, i, s) && LeadsIn(s0, run, i + 1, r);
    UpTo(s0, run, i);
  }

  /** What a pop tells the containers. */
  lemma {:induction false} PopIsTold(s: State, r: State, t: Thread)
    requires Enabled(s, Action.Pop(t)) && r == Next(s, Action.Pop(t)) && r.events != s.events
    ensures PhaseOf(s, t).Closing? && PhaseOf(s, t).writer && Stack(s, t) != []
    ensures !HasWriter(Stack(s, t)[..|Stack(s, t)| - 1])
    ensures r.events == s.events + [if PhaseOf(s, t).commit then WriteCommit else WriteAbort]
  {
  }

  /** Only a pop and the push of a first writer are told to the containers. */
  lemma {:induction false} BeginIsTold(s: State, a: Action)
    requires Enabled(s, a) && !a.Pop?
    ensures Next(s, a).events == s.events
            + if a.Push? && !PhaseOf(s, a.t).readOnly && !Stacked(s, a.t) then [WriteBegin] else []
  {
  }
}
