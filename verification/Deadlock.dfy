/** Transactions take rows in one global order, so they never wait for each other in a circle. */
module Deadlock {
  import opened Core
  import opened Paths
  import opened Uuids
  import opened RowLocks
  import opened Wallet
  import opened Locking
  import opened LockingInvariant

  function Class(r: Resource): int {
    match r
    case KeyLock(_) => 0
    case AccountLock(_) => 1
    case TransferLock(_) => 2
    case EventLock(_) => 3
  }

  /** Keys, then accounts by id, then the transfer row, then the event row. */
  predicate Before(r: Resource, q: Resource) {
    Class(r) < Class(q) || (r.AccountLock? && q.AccountLock? && Less(r.account, q.account))
  }

  lemma BeforeIsStrict(r: Resource, q: Resource, p: Resource)
    ensures !Before(r, r)
    ensures Before(r, q) && Before(q, p) ==> Before(r, p)
  {
    if r.AccountLock? {
      LessIsStrictTotalOrder(r.account, r.account, r.account);
    }
    if r.AccountLock? && q.AccountLock? && p.AccountLock? {
      LessIsStrictTotalOrder(r.account, q.account, p.account);
    }
  }

  /** The accounts are locked in the order lockOrder gives. */
  predicate Sorted(tx: Tx) {
    LockOrder(tx.cmd.from, tx.cmd.to) == (tx.low, tx.high)
  }

  ghost predicate AllSorted(s: State) {
    forall t :: t in s.txs ==> Sorted(s.txs[t])
  }

  lemma StatementKeepsSorted(db: Database, nextId: int, tx: Tx, id: Uuid, eventId: Uuid)
    ensures var tx' := Statement(db, nextId, tx, id, eventId).tx;
            tx'.cmd == tx.cmd && tx'.low == tx.low && tx'.high == tx.high
  {
  }

  lemma StepKeepsSorted(s: State, s': State)
    requires AllSorted(s) && Step(s, s')
    ensures AllSorted(s')
  {
    var l :| Enabled(s, l) && s' == Next(s, l);
    if l.Advance? {
      StatementKeepsSorted(s.db, s.nextId, s.txs[l.t], l.id, l.eventId);
    }
  }

  lemma {:induction false} RunKeepsSorted(trace: seq<State>, n: nat)
    requires IsRun(trace) && n < |trace|
    ensures AllSorted(trace[n])
  {
    if n > 0 {
      RunKeepsSorted(trace, n - 1);
      StepKeepsSorted(trace[n - 1], trace[n]);
    }
  }

  ghost predicate SafeState(start: Database, s: State) {
    Inv(start, s) && AllSorted(s)
  }

  /** Whatever a transaction still needs comes after everything it has. */
  lemma HeldBeforeNeed(tx: Tx, r: Resource)
    requires HeldOk(tx) && Valid(tx.cmd) && Sorted(tx) && r in tx.held && Need(tx).Some?
    ensures Before(r, Need(tx).value)
  {
    assert ShouldHold(tx, r);
  }

  /** Along a wait, the awaited row moves up the order. */
  lemma WaitsClimb(start: Database, s: State, t: nat, u: nat, v: nat)
    requires SafeState(start, s) && WaitsOn(s, t, u) && WaitsOn(s, u, v)
    ensures Before(Need(s.txs[t]).value, Need(s.txs[u]).value)
  {
    assert Facts(s.db, s.nextId, s.txs[u]);
    HeldBeforeNeed(s.txs[u], Need(s.txs[t]).value);
  }

  ghost predicate WaitPath(s: State, path: seq<nat>) {
    |path| >= 2 && forall i, j :: 0 <= i < |path| && j == i + 1 < |path| ==> WaitsOn(s, path[i], path[j])
  }

  lemma {:induction false} PathClimbs(start: Database, s: State, path: seq<nat>, k: nat)
    requires SafeState(start, s) && WaitPath(s, path) && 0 < k < |path| - 1
    ensures WaitsOn(s, path[0], path[1]) && WaitsOn(s, path[k], path[k + 1])
    ensures Before(Need(s.txs[path[0]]).value, Need(s.txs[path[k]]).value)
  {
    WaitsClimb(start, s, path[k - 1], path[k], path[k + 1]);
    if k > 1 {
      PathClimbs(start, s, path, k - 1);
      BeforeIsStrict(Need(s.txs[path[0]]).value, Need(s.txs[path[k - 1]]).value, Need(s.txs[path[k]]).value);
    }
  }

  /** The wait-for relation is acyclic. */
  lemma NoWaitCycle(start: Database, s: State, path: seq<nat>)
    requires SafeState(start, s) && WaitPath(s, path)
    ensures path[0] != path[|path| - 1]
  {
    if path[0] == path[|path| - 1] && |path| > 2 {
      var k := |path| - 2;
      PathClimbs(start, s, path, k);
      WaitsClimb(start, s, path[k], path[0], path[1]);
      BeforeIsStrict(Need(s.txs[path[0]]).value, Need(s.txs[path[k]]).value, Need(s.txs[path[0]]).value);
    }
  }

  lemma HoldingMeansUnfinished(tx: Tx, r: Resource)
    requires HeldOk(tx) && r in tx.held
    ensures !tx.pc.Done?
  {
    assert ShouldHold(tx, r);
  }

  /** Whoever has a row is unfinished. */
  lemma HolderUnfinished(start: Database, s: State, r: Resource)
    requires SafeState(start, s) && r in s.locks
    ensures s.locks[r] in s.txs && !s.txs[s.locks[r]].pc.Done? && r in s.txs[s.locks[r]].held
  {
    assert LocksOk(s.locks, s.txs, HeldBy);
    assert HeldOk(s.txs[s.locks[r]]) by {
      assert Facts(s.db, s.nextId, s.txs[s.locks[r]]);
    }
    HoldingMeansUnfinished(s.txs[s.locks[r]], r);
  }

  /** Every transaction in `visited` awaits `floor` or something before it. */
  ghost predicate AwaitUpTo(txs: map<nat, Tx>, visited: set<nat>, floor: Resource) {
    forall v :: v in visited ==>
                  && v in txs && Need(txs[v]).Some?
                  && (Need(txs[v]).value == floor || Before(Need(txs[v]).value, floor))
  }

  /** Raising the floor to a later row that t awaits shows t was not visited, and lets it be added. */
  lemma AwaitHigher(txs: map<nat, Tx>, visited: set<nat>, floor: Resource, t: nat)
    requires AwaitUpTo(txs, visited, floor) && t in txs && Need(txs[t]).Some?
    requires Before(floor, Need(txs[t]).value)
    ensures t !in visited
    ensures AwaitUpTo(txs, visited + {t}, Need(txs[t]).value)
  {
    var need := Need(txs[t]).value;
    BeforeIsStrict(need, need, need);
    forall v | v in visited
      ensures Before(Need(txs[v]).value, need)
    {
      BeforeIsStrict(Need(txs[v]).value, floor, need);
    }
  }

  lemma LiveFacts(start: Database, s: State, t: nat)
    requires SafeState(start, s) && t in s.txs && !s.txs[t].pc.Done?
    ensures HeldOk(s.txs[t]) && Valid(s.txs[t].cmd) && Sorted(s.txs[t])
    ensures Blocked(s, t) || CanProceed(s, t)
  {
    assert Facts(s.db, s.nextId, s.txs[t]);
  }

  /** Follows the waits from t, which holds `floor`, to a transaction that nothing holds up. */
  lemma {:induction false} EndOfWaits(
    start: Database, s: State, t: nat, visited: set<nat>, floor: Resource) returns (u: nat)
    requires SafeState(start, s) && t in s.txs && !s.txs[t].pc.Done?
    requires visited <= s.txs.Keys && AwaitUpTo(s.txs, visited, floor) && floor in s.txs[t].held
    ensures CanProceed(s, u)
    decreases s.txs.Keys - visited
  {
    LiveFacts(start, s, t);
    if !Blocked(s, t) {
      return t;
    }
    HeldBeforeNeed(s.txs[t], floor);
    AwaitHigher(s.txs, visited, floor, t);
    var need := Need(s.txs[t]).value;
    HolderUnfinished(start, s, need);
    u := EndOfWaits(start, s, s.locks[need], visited + {t}, need);
  }

  lemma SomeoneCanProceed(start: Database, s: State, t: nat) returns (u: nat)
    requires SafeState(start, s) && t in s.txs && !s.txs[t].pc.Done?
    ensures CanProceed(s, u)
  {
    LiveFacts(start, s, t);
    if !Blocked(s, t) {
      return t;
    }
    var need := Need(s.txs[t]).value;
    HolderUnfinished(start, s, need);
    u := EndOfWaits(start, s, s.locks[need], {}, need);
  }

  /** In every state of every run, as long as some request is unfinished, some request can take a step. */
  lemma DeadlockFree(trace: seq<State>, n: nat, t: nat)
    requires IsRun(trace) && n < |trace| && t in trace[n].txs && !trace[n].txs[t].pc.Done?
    ensures exists u :: CanProceed(trace[n], u)
    ensures forall path :: WaitPath(trace[n], path) ==> path[0] != path[|path| - 1]
  {
    RunKeepsInv(trace, n);
    RunKeepsSorted(trace, n);
    var u := SomeoneCanProceed(trace[0].db, trace[n], t);
    forall path | WaitPath(trace[n], path)
      ensures path[0] != path[|path| - 1]
    {
      NoWaitCycle(trace[0].db, trace[n], path);
    }
  }

  // ---- Every request comes to an end ----

  /** How many steps a transaction still has to take at most. */
  function StepsLeft(tx: Tx): nat {
    if tx.pc.Done? then 0
    else if tx.failure.Some? then 1
    else
      match tx.pc
      case Claim => 12
      case LockLow => 11
      case LockHigh => 10
      case ReadBalance => 9
      case Decide => 8
      case InsertTransfer => 7
      case InsertDebit => 6
      case InsertCredit => 5
      case AppendEvent => 4
      case CompleteKey => 3
      case Load => 2
      case _ => 1
  }

  /** The steps all transactions together still have to take at most, as a set of pairs. */
  function WorkLeft(txs: map<nat, Tx>): set<(nat, nat)> {
    set t, i | t in txs && 0 <= i < StepsLeft(txs[t]) :: (t, i)
  }

  lemma WorkShrinks(txs: map<nat, Tx>, t: nat, tx': Tx)
    requires t in txs && StepsLeft(tx') < StepsLeft(txs[t])
    ensures |WorkLeft(txs[t := tx'])| < |WorkLeft(txs)|
  {
    var less, more := WorkLeft(txs[t := tx']), WorkLeft(txs);
    assert (t, StepsLeft(tx')) in more && (t, StepsLeft(tx')) !in less;
    assert less <= more;
    assert more == less + (more - less);
    assert (t, StepsLeft(tx')) in more - less;
  }

  lemma StatementShrinks(db: Database, nextId: int, tx: Tx, id: Uuid, eventId: Uuid)
    requires !tx.pc.Done? && tx.failure.None? && !Committing(tx)
    ensures StepsLeft(Statement(db, nextId, tx, id, eventId).tx) < StepsLeft(tx)
  {
  }

  /** Whoever moves comes closer to its own end, and nobody else is set back. */
  lemma AdvanceShrinks(s: State, l: Label)
    requires l.Advance? && Enabled(s, l)
    ensures |WorkLeft(Next(s, l).txs)| < |WorkLeft(s.txs)|
  {
    var tx := s.txs[l.t];
    var tx' := Next(s, l).txs[l.t];
    if tx.failure.None? && !Committing(tx) {
      StatementShrinks(s.db, s.nextId, tx, l.id, l.eventId);
    }
    assert Next(s, l).txs == s.txs[l.t := tx'];
    WorkShrinks(s.txs, l.t, tx');
  }

  ghost predicate AdvanceStep(s: State, s': State) {
    exists l: Label :: l.Advance? && Enabled(s, l) && s' == Next(s, l)
  }

  /** Requests that nobody interrupts finish within a number of steps known in advance. */
  lemma {:induction false} AdvancingIsBounded(trace: seq<State>, m: nat, n: nat)
    requires m <= n < |trace| && Only(AdvanceStep, trace, m, n)
    ensures |WorkLeft(trace[n].txs)| + (n - m) <= |WorkLeft(trace[m].txs)|
  {
    if m < n {
      AdvancingIsBounded(trace, m, n - 1);
      AdvanceStepShrinks(trace[n - 1], trace[n]);
    }
  }

  lemma AdvanceStepShrinks(s: State, s': State)
    requires AdvanceStep(s, s')
    ensures |WorkLeft(s'.txs)| < |WorkLeft(s.txs)|
  {
    var l: Label :| l.Advance? && Enabled(s, l) && s' == Next(s, l);
    AdvanceShrinks(s, l);
  }

  /** And where none of them can take a step any more, every one has been answered or given up. */
  lemma RequestsFinish(trace: seq<State>, n: nat, t: nat)
    requires IsRun(trace) && n < |trace| && t in trace[n].txs
    requires forall u :: !CanProceed(trace[n], u)
    ensures trace[n].txs[t].pc.Done?
  {
    if !trace[n].txs[t].pc.Done? {
      DeadlockFree(trace, n, t);
      assert false;
    }
  }
}
