/**
 * The live-swappable connection pool as a state machine: forwarding calls that hold the read lock for
 * their whole duration, a background resizer that builds, pings and swaps in replacement pools under
 * the write lock, detached goroutines that close the replaced ones, and one shutdown.
 */
module PoolSwap {
  import opened Paths

  /** A forwarding call: under the read lock, first without and then with the pointer in hand. */
  datatype Call = Entered | Inside(pool: nat)

  /** The resizer goroutine. The write lock is held in Locked and Swapped. */
  datatype Resizer =
    | Between                 // waiting for the ticker or for done
    | Building
    | Built(pool: nat)
    | Pinged(pool: nat)
    | Locked(pool: nat)
    | Swapped(former: nat)
    | Unlocked(former: nat)
    | Exited                  // also the state of a pool without a resizer

  /** The goroutine that calls Close. */
  datatype Shutdown = Running | Stopping | Joined | ReadLocked | HasPointer(pool: nat) | Closed

  /**
   * `closes` counts the Close calls begun on each raw pool ever built; `detached` are the pools whose
   * closing goroutine has been started but has not run yet.
   */
  datatype State = State(
    closes: map<nat, nat>, current: nat, calls: map<nat, Call>, resizer: Resizer,
    detached: set<nat>, shutdown: Shutdown)

  predicate Init(s: State) {
    && s.closes == map[s.current := 0] && s.calls == map[] && s.detached == {} && s.shutdown == Running
    && (s.resizer == Between || s.resizer == Exited)
  }

  predicate WriteLocked(s: State) {
    s.resizer.Locked? || s.resizer.Swapped?
  }

  predicate ReadLockedByAny(s: State) {
    s.calls != map[] || s.shutdown == ReadLocked
  }

  datatype Label =
    | Enter(c: nat) | Fetch(c: nat) | Leave(c: nat)
    | TickFires | BuildFails | BuildSucceeds(p: nat) | PingFails | PingSucceeds
    | TakeLock | Swap | Unlock | Detach | SeeDone
    | RunDetached(p: nat)
    | Stop | Join | ReadLock | ReadPointer | CloseCurrent

  predicate Enabled(s: State, l: Label) {
    match l
    case Enter(c) => c !in s.calls && !WriteLocked(s)
    case Fetch(c) => c in s.calls && s.calls[c] == Entered
    case Leave(c) => c in s.calls && s.calls[c].Inside?
    case TickFires => s.resizer == Between
    case BuildFails => s.resizer == Building
    case BuildSucceeds(p) => s.resizer == Building && p !in s.closes
    case PingFails => s.resizer.Built? && s.resizer.pool in s.closes
    case PingSucceeds => s.resizer.Built?
    case TakeLock => s.resizer.Pinged? && !ReadLockedByAny(s)
    case Swap => s.resizer.Locked?
    case Unlock => s.resizer.Swapped?
    case Detach => s.resizer.Unlocked?
    case SeeDone => s.resizer == Between && s.shutdown != Running
    case RunDetached(p) => p in s.detached && p in s.closes
    case Stop => s.shutdown == Running
    case Join => s.shutdown == Stopping && s.resizer == Exited
    case ReadLock => s.shutdown == Joined && !WriteLocked(s)
    case ReadPointer => s.shutdown == ReadLocked
    case CloseCurrent => s.shutdown.HasPointer? && s.shutdown.pool in s.closes
  }

  function BeginClose(closes: map<nat, nat>, p: nat): map<nat, nat>
    requires p in closes
  {
    closes[p := closes[p] + 1]
  }

  function Next(s: State, l: Label): State
    requires Enabled(s, l)
  {
    match l
    case Enter(c) => s.(calls := s.calls[c := Entered])
    case Fetch(c) => s.(calls := s.calls[c := Inside(s.current)])
    case Leave(c) => s.(calls := s.calls - {c})
    case TickFires => s.(resizer := Building)
    case BuildFails => s.(resizer := Between)
    case BuildSucceeds(p) => s.(resizer := Built(p), closes := s.closes[p := 0])
    case PingFails => s.(resizer := Between, closes := BeginClose(s.closes, s.resizer.pool))
    case PingSucceeds => s.(resizer := Pinged(s.resizer.pool))
    case TakeLock => s.(resizer := Locked(s.resizer.pool))
    case Swap => s.(resizer := Swapped(s.current), current := s.resizer.pool)
    case Unlock => s.(resizer := Unlocked(s.resizer.former))
    case Detach => s.(resizer := Between, detached := s.detached + {s.resizer.former})
    case SeeDone => s.(resizer := Exited)
    case RunDetached(p) => s.(detached := s.detached - {p}, closes := BeginClose(s.closes, p))
    case Stop => s.(shutdown := Stopping)
    case Join => s.(shutdown := Joined)
    case ReadLock => s.(shutdown := ReadLocked)
    case ReadPointer => s.(shutdown := HasPointer(s.current))
    case CloseCurrent => s.(shutdown := Closed, closes := BeginClose(s.closes, s.shutdown.pool))
  }

  ghost predicate Step(s: State, s': State) {
    exists l :: Enabled(s, l) && s' == Next(s, l)
  }

  ghost predicate IsRun(trace: seq<State>) {
    && |trace| > 0 && Init(trace[0])
    && forall i, j :: 0 <= i < |trace| && j == i + 1 < |trace| ==> Step(trace[i], trace[j])
  }

  // ---- The invariant ----

  function One(b: bool): nat {
    if b then 1 else 0
  }

  /** The raw pool the resizer is responsible for, if any. */
  predicate InHand(r: Resizer, p: nat) {
    match r
    case Built(q) => p == q
    case Pinged(q) => p == q
    case Locked(q) => p == q
    case Swapped(q) => p == q
    case Unlocked(q) => p == q
    case _ => false
  }

  /** How many Close calls a raw pool has had, plus how many are still owed to it. */
  function ClosesOwed(s: State, p: nat): nat
    requires p in s.closes
  {
    s.closes[p] + One(p in s.detached) + One(InHand(s.resizer, p)) + One(p == s.current && s.shutdown != Closed)
  }

  predicate Exclusive(s: State) {
    WriteLocked(s) ==> !ReadLockedByAny(s)
  }

  predicate PastJoin(sd: Shutdown) {
    sd.Joined? || sd.ReadLocked? || sd.HasPointer? || sd.Closed?
  }

  ghost predicate Inv(s: State) {
    && s.current in s.closes && s.detached <= s.closes.Keys
    && (forall p :: InHand(s.resizer, p) ==> p in s.closes)
    && (forall p :: p in s.closes ==> ClosesOwed(s, p) == 1)
    && Exclusive(s)
    && (forall c :: c in s.calls && s.calls[c].Inside? ==> s.calls[c].pool == s.current)
    && (PastJoin(s.shutdown) ==> s.resizer == Exited)
    && (s.shutdown.HasPointer? ==> s.shutdown.pool == s.current)
  }

  lemma CallKeepsInv(s: State, l: Label)
    requires Inv(s) && Enabled(s, l) && (l.Enter? || l.Fetch? || l.Leave?)
    ensures Inv(Next(s, l))
  {
    assert forall p :: p in s.closes ==> ClosesOwed(Next(s, l), p) == ClosesOwed(s, p);
  }

  /** Building and pinging: a pool whose ping fails is closed on the spot. */
  lemma BuildKeepsInv(s: State, l: Label)
    requires Inv(s) && Enabled(s, l)
    requires l.TickFires? || l.BuildFails? || l.BuildSucceeds? || l.PingFails? || l.PingSucceeds?
    ensures Inv(Next(s, l))
  {
    forall p | p in s.closes
      ensures ClosesOwed(Next(s, l), p) == ClosesOwed(s, p)
    {
    }
  }

  /** Swapping and detaching hand the duty to close a pool from one owner to the next. */
  lemma SwapKeepsInv(s: State, l: Label)
    requires Inv(s) && Enabled(s, l)
    requires l.TakeLock? || l.Swap? || l.Unlock? || l.Detach? || l.SeeDone?
    ensures Inv(Next(s, l))
  {
    forall p | p in s.closes
      ensures ClosesOwed(Next(s, l), p) == ClosesOwed(s, p)
    {
    }
  }

  lemma ShutdownKeepsInv(s: State, l: Label)
    requires Inv(s) && Enabled(s, l)
    requires l.RunDetached? || l.Stop? || l.Join? || l.ReadLock? || l.ReadPointer? || l.CloseCurrent?
    ensures Inv(Next(s, l))
  {
    forall p | p in s.closes
      ensures ClosesOwed(Next(s, l), p) == ClosesOwed(s, p)
    {
    }
  }

  lemma NextKeepsInv(s: State, l: Label)
    requires Inv(s) && Enabled(s, l)
    ensures Inv(Next(s, l))
  {
    if l.Enter? || l.Fetch? || l.Leave? {
      CallKeepsInv(s, l);
    } else if l.RunDetached? || l.Stop? || l.Join? || l.ReadLock? || l.ReadPointer? || l.CloseCurrent? {
      ShutdownKeepsInv(s, l);
    } else if l.TakeLock? || l.Swap? || l.Unlock? || l.Detach? || l.SeeDone? {
      SwapKeepsInv(s, l);
    } else {
      BuildKeepsInv(s, l);
    }
  }

  lemma InitInv(s: State)
    requires Init(s)
    ensures Inv(s)
  {
  }

  lemma StepKeepsInv(s: State, s': State)
    requires Inv(s) && Step(s, s')
    ensures Inv(s')
  {
    var l :| Enabled(s, l) && s' == Next(s, l);
    NextKeepsInv(s, l);
  }

  lemma {:induction false} RunKeepsInv(trace: seq<State>, n: nat)
    requires IsRun(trace) && n < |trace|
    ensures Inv(trace[n])
  {
    if n == 0 {
      InitInv(trace[0]);
    } else {
      RunKeepsInv(trace, n - 1);
      StepKeepsInv(trace[n - 1], trace[n]);
    }
  }

  // ---- Over whole runs ----

  /** No forwarding call is ever inside a raw pool whose Close has begun, until shutdown closes the last one. */
  lemma CallsReachOpenPools(trace: seq<State>, n: nat, c: nat)
    requires IsRun(trace) && n < |trace| && c in trace[n].calls && trace[n].calls[c].Inside?
    ensures trace[n].calls[c].pool in trace[n].closes
    ensures trace[n].shutdown != Closed ==> trace[n].closes[trace[n].calls[c].pool] == 0
  {
    RunKeepsInv(trace, n);
    assert ClosesOwed(trace[n], trace[n].current) == 1;
  }

  /** No raw pool is ever closed twice, and after shutdown every one has been or is about to be closed, once. */
  lemma ClosedExactlyOnce(trace: seq<State>, n: nat, p: nat)
    requires IsRun(trace) && n < |trace| && p in trace[n].closes
    ensures trace[n].closes[p] <= 1
    ensures trace[n].shutdown == Closed ==> trace[n].closes[p] + One(p in trace[n].detached) == 1
    ensures trace[n].shutdown == Closed && trace[n].detached == {} ==> trace[n].closes[p] == 1
  {
    RunKeepsInv(trace, n);
    assert ClosesOwed(trace[n], p) == 1;
  }

  lemma StepAfterJoin(s: State, s': State)
    requires Inv(s) && Step(s, s') && PastJoin(s.shutdown)
    ensures PastJoin(s'.shutdown) && s'.current == s.current && s'.closes.Keys == s.closes.Keys
  {
  }

  /** Once stop has returned, no swap happens and no further pool is built. */
  lemma {:induction false} NoSwapAfterStop(trace: seq<State>, m: nat, n: nat)
    requires IsRun(trace) && m <= n < |trace| && PastJoin(trace[m].shutdown)
    ensures trace[n].current == trace[m].current && trace[n].closes.Keys == trace[m].closes.Keys
    ensures PastJoin(trace[n].shutdown)
    decreases n - m
  {
    if m < n {
      RunKeepsInv(trace, m);
      StepAfterJoin(trace[m], trace[m + 1]);
      NoSwapAfterStop(trace, m + 1, n);
    }
  }

  // ---- Shutdown comes to an end ----

  /** Steps that carry on what has begun: no new calls and no new ticks. */
  predicate Finishing(l: Label) {
    !l.Enter? && !l.TickFires?
  }

  ghost predicate FinishStep(s: State, s': State) {
    exists l :: Finishing(l) && Enabled(s, l) && s' == Next(s, l)
  }

  /** Everyone is gone and every raw pool ever built has been closed exactly once. */
  ghost predicate AllClosed(s: State) {
    && s.shutdown == Closed && s.detached == {} && s.calls == map[] && s.resizer == Exited
    && forall p :: p in s.closes ==> s.closes[p] == 1
  }

  function ResizerRank(r: Resizer): nat {
    match r
    case Exited => 0
    case Between => 1
    case Unlocked(_) => 3
    case Swapped(_) => 4
    case Locked(_) => 5
    case Pinged(_) => 6
    case Built(_) => 7
    case Building => 8
  }

  function ShutdownRank(sd: Shutdown): nat {
    match sd
    case Closed => 0
    case HasPointer(_) => 1
    case ReadLocked => 2
    case Joined => 3
    case Stopping => 4
    case Running => 5
  }

  function EnteredCalls(calls: map<nat, Call>): set<nat> {
    set c | c in calls && calls[c] == Entered
  }

  /** How many finishing steps can still be taken at most. */
  function WorkLeft(s: State): nat {
    |s.calls| + |EnteredCalls(s.calls)| + ResizerRank(s.resizer) + |s.detached| + ShutdownRank(s.shutdown)
  }

  lemma FetchShrinks(calls: map<nat, Call>, c: nat, call: Call)
    requires c in calls && calls[c] == Entered && call.Inside?
    ensures |calls[c := call]| == |calls| && |EnteredCalls(calls[c := call])| < |EnteredCalls(calls)|
  {
    assert calls[c := call].Keys == calls.Keys;
    assert EnteredCalls(calls[c := call]) == EnteredCalls(calls) - {c};
  }

  lemma LeaveShrinks(calls: map<nat, Call>, c: nat)
    requires c in calls && calls[c].Inside?
    ensures |calls - {c}| < |calls| && EnteredCalls(calls - {c}) == EnteredCalls(calls)
  {
    assert (calls - {c}).Keys == calls.Keys - {c};
  }

  lemma CallStepShrinks(s: State, l: Label)
    requires Enabled(s, l) && (l.Fetch? || l.Leave?)
    ensures WorkLeft(Next(s, l)) < WorkLeft(s)
  {
    if l.Fetch? {
      FetchShrinks(s.calls, l.c, Inside(s.current));
    } else {
      LeaveShrinks(s.calls, l.c);
    }
  }

  lemma ResizerStepShrinks(s: State, l: Label)
    requires Enabled(s, l) && (l.BuildFails? || l.BuildSucceeds? || l.PingFails? || l.PingSucceeds? || l.SeeDone?
                               || l.TakeLock? || l.Swap? || l.Unlock?)
    ensures WorkLeft(Next(s, l)) < WorkLeft(s)
  {
    assert ResizerRank(Next(s, l).resizer) < ResizerRank(s.resizer);
  }

  lemma CloserStepShrinks(s: State, l: Label)
    requires Enabled(s, l) && (l.Detach? || l.RunDetached?)
    ensures WorkLeft(Next(s, l)) < WorkLeft(s)
  {
    if l.Detach? {
      assert |s.detached + {s.resizer.former}| <= |s.detached| + 1;
    }
  }

  lemma ShutdownStepShrinks(s: State, l: Label)
    requires Enabled(s, l) && (l.Stop? || l.Join? || l.ReadLock? || l.ReadPointer? || l.CloseCurrent?)
    ensures WorkLeft(Next(s, l)) < WorkLeft(s)
  {
    assert ShutdownRank(Next(s, l).shutdown) < ShutdownRank(s.shutdown);
  }

  /** Every finishing step uses up some of the work left. */
  lemma FinishingShrinks(s: State, l: Label)
    requires Enabled(s, l) && Finishing(l)
    ensures WorkLeft(Next(s, l)) < WorkLeft(s)
  {
    if l.Fetch? || l.Leave? {
      CallStepShrinks(s, l);
    } else if l.Detach? || l.RunDetached? {
      CloserStepShrinks(s, l);
    } else if l.Stop? || l.Join? || l.ReadLock? || l.ReadPointer? || l.CloseCurrent? {
      ShutdownStepShrinks(s, l);
    } else {
      ResizerStepShrinks(s, l);
    }
  }

  lemma ResizerMovesOn(s: State)
    requires Inv(s) && s.shutdown == Stopping && s.calls == map[]
    ensures exists l :: Finishing(l) && Enabled(s, l)
  {
    var l := match s.resizer
      case Between => SeeDone
      case Building => BuildFails
      case Built(_) => PingSucceeds
      case Pinged(_) => TakeLock
      case Locked(_) => Swap
      case Swapped(_) => Unlock
      case Unlocked(_) => Detach
      case Exited => Join;
    assert Finishing(l) && Enabled(s, l);
  }

  lemma SomethingToFinish(s: State)
    requires Inv(s) && (s.shutdown != Closed || s.detached != {} || s.calls != map[])
    ensures exists l :: Finishing(l) && Enabled(s, l)
  {
    if p :| p in s.detached {
      assert Enabled(s, RunDetached(p));
    } else if s.shutdown == Running {
      assert Enabled(s, Stop);
    } else if s.calls != map[] {
      var c :| c in s.calls;
      assert Enabled(s, Fetch(c)) || Enabled(s, Leave(c));
    } else if s.shutdown == Stopping {
      ResizerMovesOn(s);
    } else if s.shutdown == Joined {
      assert Enabled(s, ReadLock);
    } else if s.shutdown == ReadLocked {
      assert Enabled(s, ReadPointer);
    } else {
      assert Enabled(s, CloseCurrent);
    }
  }

  ghost predicate NothingLeft(s: State) {
    forall l :: Finishing(l) ==> !Enabled(s, l)
  }

  /** Where nothing begun can be carried further, everything is closed. */
  lemma NothingLeftMeansClosed(s: State)
    requires Inv(s) && NothingLeft(s)
    ensures AllClosed(s)
  {
    if s.shutdown != Closed || s.detached != {} || s.calls != map[] {
      SomethingToFinish(s);
      assert false;
    }
    forall p | p in s.closes
      ensures s.closes[p] == 1
    {
      assert ClosesOwed(s, p) == 1;
    }
  }

  lemma FinishStepShrinks(s: State, s': State)
    requires FinishStep(s, s')
    ensures WorkLeft(s') < WorkLeft(s)
  {
    var l :| Finishing(l) && Enabled(s, l) && s' == Next(s, l);
    FinishingShrinks(s, l);
  }

  /** Once no new calls and ticks come in, only finitely many steps remain, no more than the work left. */
  lemma {:induction false} FinishingIsBounded(trace: seq<State>, m: nat, n: nat)
    requires m <= n < |trace| && Only(FinishStep, trace, m, n)
    ensures WorkLeft(trace[n]) + (n - m) <= WorkLeft(trace[m])
  {
    if m < n {
      FinishingIsBounded(trace, m, n - 1);
      FinishStepShrinks(trace[n - 1], trace[n]);
    }
  }

  /**
   * And where no further step is possible, the pool is closed, and with it every raw pool ever built,
   * exactly once. So shutdown never hangs, whichever way builds and pings turn out.
   */
  lemma ShutdownFinishes(trace: seq<State>, n: nat)
    requires IsRun(trace) && n < |trace| && NothingLeft(trace[n])
    ensures AllClosed(trace[n])
  {
    RunKeepsInv(trace, n);
    NothingLeftMeansClosed(trace[n]);
  }

  // ---- Until shutdown the pool can always be replaced ----

  lemma Takes(s: State, s': State, l: Label)
    requires Reaches(Step, s, s') && Enabled(s', l)
    ensures Reaches(Step, s, Next(s', l))
  {
    assert Step(s', Next(s', l));
    ReachesOn(Step, s, s', Next(s', l));
  }

  /** Calls in progress come to an end. */
  lemma {:induction false} CallsDrain(s0: State, s: State) returns (s': State)
    requires Reaches(Step, s0, s)
    ensures Reaches(Step, s0, s') && s' == s.(calls := map[])
    decreases s.calls.Keys
  {
    if s.calls == map[] {
      return s;
    }
    var c :| c in s.calls;
    var at := s;
    if s.calls[c] == Entered {
      Takes(s0, s, Fetch(c));
      at := Next(s, Fetch(c));
    }
    Takes(s0, at, Leave(c));
    var fewer := Next(at, Leave(c));
    assert fewer.calls.Keys == s.calls.Keys - {c};
    s' := CallsDrain(s0, fewer);
  }

  /** From every reachable state in which the resizer waits for its ticker, any new raw pool can be swapped in. */
  lemma AlwaysReplaceable(trace: seq<State>, n: nat, p: nat) returns (s': State)
    requires IsRun(trace) && n < |trace| && trace[n].resizer == Between && p !in trace[n].closes
    requires trace[n].shutdown == Running
    ensures Reaches(Step, trace[n], s') && s'.current == p && s'.resizer == Between && trace[n].current in s'.detached
  {
    var s := trace[n];
    ReachesItself(Step, s);
    var s0 := CallsDrain(s, s);
    Takes(s, s0, TickFires);
    var s1 := Next(s0, TickFires);
    Takes(s, s1, BuildSucceeds(p));
    var s2 := Next(s1, BuildSucceeds(p));
    Takes(s, s2, PingSucceeds);
    s' := SwapIn(s, Next(s2, PingSucceeds));
  }

  lemma SwapIn(s: State, at: State) returns (s': State)
    requires Reaches(Step, s, at) && at.resizer.Pinged? && at.calls == map[] && at.shutdown == Running
    ensures Reaches(Step, s, s') && s'.current == at.resizer.pool && s'.resizer == Between && at.current in s'.detached
  {
    Takes(s, at, TakeLock);
    var s1 := Next(at, TakeLock);
    Takes(s, s1, Swap);
    var s2 := Next(s1, Swap);
    Takes(s, s2, Unlock);
    var s3 := Next(s2, Unlock);
    Takes(s, s3, Detach);
    s' := Next(s3, Detach);
  }
}
