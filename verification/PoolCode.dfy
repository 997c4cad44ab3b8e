/**
 * The pool's own code, statement by statement, while every other goroutine does as it likes. The pool
 * keeps a log of protocol steps; each statement has to be the step it is logged as, enabled where it
 * happens, so the whole of it is a run of the swap protocol.
 */
module PoolCode {
  import opened PoolSwap

  /** Taking the given steps one after the other leads from s to s'. */
  ghost predicate Plays(s: State, steps: seq<Label>, s': State)
    decreases steps
  {
    if steps == [] then s' == s
    else
      var n := |steps| - 1;
      exists mid :: Plays(s, steps[..n], mid) && Enabled(mid, steps[n]) && s' == Next(mid, steps[n])
  }

  lemma PlaysOn(s: State, steps: seq<Label>, s': State, l: Label)
    requires Plays(s, steps, s') && Enabled(s', l)
    ensures Plays(s, steps + [l], Next(s', l))
  {
    assert (steps + [l])[..|steps|] == steps;
  }

  /** What the code leaves behind is a state the protocol's invariant covers. */
  lemma {:induction false} PlaysKeepsInv(s: State, steps: seq<Label>, s': State)
    requires Init(s) && Plays(s, steps, s')
    ensures Inv(s')
    decreases steps
  {
    if steps == [] {
      InitInv(s);
    } else {
      var n := |steps| - 1;
      var mid :| Plays(s, steps[..n], mid) && Enabled(mid, steps[n]) && s' == Next(mid, steps[n]);
      PlaysKeepsInv(s, steps[..n], mid);
      NextKeepsInv(mid, steps[n]);
    }
  }

  // ---- Whose step it is ----

  datatype Owner = Caller(c: nat) | TheResizer | Closer(p: nat) | TheShutdown

  function OwnerOf(l: Label): Owner {
    match l
    case Enter(c) => Caller(c)
    case Fetch(c) => Caller(c)
    case Leave(c) => Caller(c)
    case RunDetached(p) => Closer(p)
    case Stop => TheShutdown
    case Join => TheShutdown
    case ReadLock => TheShutdown
    case ReadPointer => TheShutdown
    case CloseCurrent => TheShutdown
    case _ => TheResizer
  }

  function StepsOf(me: Owner, log: seq<Label>): seq<Label> {
    if log == [] then []
    else StepsOf(me, log[..|log| - 1]) + if OwnerOf(log[|log| - 1]) == me then [log[|log| - 1]] else []
  }

  lemma StepsOfSnoc(me: Owner, log: seq<Label>, l: Label)
    ensures StepsOf(me, log + [l]) == StepsOf(me, log) + if OwnerOf(l) == me then [l] else []
  {
    assert (log + [l])[..|log|] == log;
  }

  /** What only the owner's own steps change. */
  predicate Untouched(me: Owner, s: State, s': State) {
    match me
    case Caller(c) => (c in s.calls <==> c in s'.calls) && (c in s.calls ==> s'.calls[c] == s.calls[c])
    case TheResizer => s'.resizer == s.resizer && s'.current == s.current && s'.closes.Keys == s.closes.Keys
    case TheShutdown => s'.shutdown == s.shutdown
    case Closer(_) => true
  }

  lemma OthersLeaveMine(me: Owner, s: State, l: Label)
    requires Enabled(s, l) && OwnerOf(l) != me
    ensures Untouched(me, s, Next(s, l))
  {
  }

  // ---- The code ----

  /** How the replacement pool fares. */
  datatype Fate = CannotBuild | PingRefused | Healthy

  function ResizeSteps(p: nat, fate: Fate): seq<Label> {
    match fate
    case CannotBuild => [BuildFails]
    case PingRefused => [BuildSucceeds(p), PingFails]
    case Healthy => [BuildSucceeds(p), PingSucceeds, TakeLock, Swap, Unlock, Detach]
  }

  lemma OneByOne(mine: seq<Label>, a: Label, b: Label, c: Label, d: Label, e: Label)
    ensures mine + [a] + [b] == mine + [a, b]
    ensures mine + [a] + [b] + [c] + [d] + [e] == mine + [a, b, c, d, e]
    ensures forall f :: mine + [a] + [b] + [c] + [d] + [e] + [f] == mine + [a, b, c, d, e, f]
  {
  }

  class Pool {
    var pool: nat                // the raw pool calls are forwarded to
    var closes: map<nat, nat>    // Close calls begun on each raw pool ever built
    var calls: map<nat, Call>    // the forwarding calls in progress
    var closing: set<nat>        // raw pools handed to a closing goroutine that has not run yet
    var resizer: Resizer
    var shutdown: Shutdown
    ghost var origin: State
    ghost var log: seq<Label>

    ghost function View(): State
      reads this
    {
      State(closes, pool, calls, resizer, closing, shutdown)
    }

    /** Everything that ever happened to this pool was a run of the protocol. */
    ghost predicate Valid()
      reads this
    {
      Init(origin) && Plays(origin, log, View())
    }

    constructor (raw: nat, elastic: bool)
      ensures Valid() && log == [] && pool == raw && resizer == if elastic then Between else Exited
    {
      pool, closes, calls, closing := raw, map[raw := 0], map[], {};
      resizer := if elastic then Between else Exited;
      shutdown := Running;
      log := [];
      origin := State(map[raw := 0], raw, map[], if elastic then Between else Exited, {}, Running);
    }

    /** The statement just executed took the pool from `at` to where it is, and is the step l. */
    ghost method Record(at: State, l: Label)
      requires Init(origin) && Plays(origin, log, at) && Enabled(at, l) && View() == Next(at, l)
      modifies this`log
      ensures Valid() && log == old(log) + [l]
      ensures StepsOf(OwnerOf(l), log) == StepsOf(OwnerOf(l), old(log)) + [l]
    {
      PlaysOn(origin, log, at, l);
      StepsOfSnoc(OwnerOf(l), log, l);
      log := log + [l];
    }

    /** The other goroutines run: whatever of the given steps are not mine and possible when their turn comes. */
    method Interleave(me: Owner, others: seq<Label>)
      requires Valid()
      modifies this
      ensures Valid() && Untouched(me, old(View()), View())
      ensures StepsOf(me, log) == StepsOf(me, old(log))
    {
      for i := 0 to |others|
        invariant Valid() && Untouched(me, old(View()), View())
        invariant StepsOf(me, log) == StepsOf(me, old(log))
      {
        var at := State(closes, pool, calls, resizer, closing, shutdown);
        if OwnerOf(others[i]) != me && Enabled(at, others[i]) {
          OthersLeaveMine(me, at, others[i]);
          var s := Next(at, others[i]);
          closes, pool, calls, resizer := s.closes, s.current, s.calls, s.resizer;
          closing, shutdown := s.detached, s.shutdown;
          StepsOfSnoc(me, log, others[i]);
          Record(at, others[i]);
        }
      }
    }

    // ---- A forwarding call, statement by statement ----

    /** mu.RLock(), which waits while a writer has the lock. */
    method RLock(c: nat, others: seq<Label>) returns (ok: bool)
      requires Valid() && c !in calls
      modifies this
      ensures Valid() && StepsOf(Caller(c), log) == StepsOf(Caller(c), old(log)) + if ok then [Enter(c)] else []
      ensures if ok then c in calls && calls[c] == Entered else c !in calls && WriteLocked(View())
    {
      Interleave(Caller(c), others);
      if resizer.Locked? || resizer.Swapped? {
        return false;
      }
      ghost var at := View();
      calls := calls[c := Entered];
      Record(at, Enter(c));
      ok := true;
    }

    method ReadPointerForCall(c: nat, others: seq<Label>) returns (used: nat)
      requires Valid() && c in calls && calls[c] == Entered
      modifies this
      ensures Valid() && StepsOf(Caller(c), log) == StepsOf(Caller(c), old(log)) + [Fetch(c)]
      ensures c in calls && calls[c] == Inside(used)
    {
      Interleave(Caller(c), others);
      ghost var at := View();
      used := pool;
      calls := calls[c := Inside(used)];
      Record(at, Fetch(c));
    }

    /** The call runs and then releases the read lock; until then its raw pool has stayed current and open. */
    method RUnlock(c: nat, used: nat, others: seq<Label>)
      requires Valid() && c in calls && calls[c] == Inside(used)
      modifies this
      ensures Valid() && StepsOf(Caller(c), log) == StepsOf(Caller(c), old(log)) + [Leave(c)]
      ensures c !in calls && used == pool && used in closes && (shutdown == Closed || closes[used] == 0)
    {
      Interleave(Caller(c), others);
      ghost var at := View();
      PlaysKeepsInv(origin, log, at);
      InsideIsOpen(at, c);
      calls := calls - {c};
      Record(at, Leave(c));
    }

    /**
     * A forwarding call: read lock, pointer, the call itself, unlock. Unless it is still waiting for the
     * lock, the raw pool it used is the current one throughout, and open until shutdown closes it.
     */
    method Forward(c: nat, others: nat -> seq<Label>) returns (finished: bool, used: nat)
      requires Valid() && c !in calls
      modifies this
      ensures Valid() && c !in calls
      ensures StepsOf(Caller(c), log)
           == StepsOf(Caller(c), old(log)) + if finished then [Enter(c), Fetch(c), Leave(c)] else []
      ensures !finished ==> WriteLocked(View())
      ensures finished ==> used == pool && used in closes && (shutdown == Closed || closes[used] == 0)
    {
      used := 0;
      finished := RLock(c, others(0));
      if finished {
        used := ReadPointerForCall(c, others(1));
        RUnlock(c, used, others(2));
      }
    }

    // ---- A resize, statement by statement ----

    /** pgxpool.NewWithConfig: a new raw pool, or an error. */
    method Build(p: nat, works: bool, others: seq<Label>)
      requires Valid() && resizer == Building && p !in closes
      modifies this
      ensures Valid() && pool == old(pool) && resizer == if works then Built(p) else Between
      ensures StepsOf(TheResizer, log)
           == StepsOf(TheResizer, old(log)) + [if works then BuildSucceeds(p) else BuildFails]
    {
      Interleave(TheResizer, others);
      ghost var at := View();
      if works {
        closes, resizer := closes[p := 0], Built(p);
        Record(at, BuildSucceeds(p));
      } else {
        resizer := Between;
        Record(at, BuildFails);
      }
    }

    /** Ping, and Close on a replacement that does not answer. */
    method PingOrClose(p: nat, answers: bool, others: seq<Label>)
      requires Valid() && resizer == Built(p)
      modifies this
      ensures Valid() && pool == old(pool) && resizer == if answers then Pinged(p) else Between
      ensures StepsOf(TheResizer, log)
           == StepsOf(TheResizer, old(log)) + [if answers then PingSucceeds else PingFails]
    {
      Interleave(TheResizer, others);
      ghost var at := View();
      if answers {
        resizer := Pinged(p);
        Record(at, PingSucceeds);
      } else {
        PlaysKeepsInv(origin, log, at);
        assert InHand(at.resizer, p);
        closes, resizer := closes[p := closes[p] + 1], Between;
        Record(at, PingFails);
      }
    }

    /** mu.Lock(), which waits while anyone has the read lock. */
    method Lock(p: nat, others: seq<Label>) returns (ok: bool)
      requires Valid() && resizer == Pinged(p)
      modifies this
      ensures Valid() && pool == old(pool) && resizer == if ok then Locked(p) else Pinged(p)
      ensures StepsOf(TheResizer, log) == StepsOf(TheResizer, old(log)) + if ok then [TakeLock] else []
      ensures !ok ==> ReadLockedByAny(View())
    {
      Interleave(TheResizer, others);
      if calls != map[] || shutdown == ReadLocked {
        return false;
      }
      ghost var at := View();
      resizer := Locked(p);
      Record(at, TakeLock);
      ok := true;
    }

    method SwapPointer(p: nat, others: seq<Label>) returns (former: nat)
      requires Valid() && resizer == Locked(p)
      modifies this
      ensures Valid() && former == old(pool) && pool == p && resizer == Swapped(former)
      ensures StepsOf(TheResizer, log) == StepsOf(TheResizer, old(log)) + [Swap]
    {
      Interleave(TheResizer, others);
      ghost var at := View();
      former := pool;
      pool, resizer := p, Swapped(former);
      Record(at, Swap);
    }

    /** mu.Unlock(). */
    method Unlock(former: nat, others: seq<Label>)
      requires Valid() && resizer == Swapped(former)
      modifies this
      ensures Valid() && pool == old(pool) && resizer == Unlocked(former)
      ensures StepsOf(TheResizer, log) == StepsOf(TheResizer, old(log)) + [PoolSwap.Unlock]
    {
      Interleave(TheResizer, others);
      ghost var at := View();
      resizer := Unlocked(former);
      Record(at, PoolSwap.Unlock);
    }

    /** Starts the goroutine that closes the former raw pool. */
    method GoClose(former: nat, others: seq<Label>)
      requires Valid() && resizer == Unlocked(former)
      modifies this
      ensures Valid() && pool == old(pool) && resizer == Between && former in closing
      ensures StepsOf(TheResizer, log) == StepsOf(TheResizer, old(log)) + [Detach]
    {
      Interleave(TheResizer, others);
      ghost var at := View();
      closing, resizer := closing + {former}, Between;
      Record(at, Detach);
    }

    /**
     * Builds and pings a replacement, swaps it in under the write lock and hands the former raw pool to a
     * closing goroutine; one that cannot be used is closed at once. It takes exactly these steps, in this
     * order, however the others interleave, or is still waiting for the lock with nothing swapped.
     */
    method Resize(p: nat, fate: Fate, others: nat -> seq<Label>) returns (finished: bool)
      requires Valid() && resizer == Building && p !in closes
      modifies this
      ensures Valid()
      ensures StepsOf(TheResizer, log)
           == StepsOf(TheResizer, old(log))
              + if finished then ResizeSteps(p, fate) else [BuildSucceeds(p), PingSucceeds]
      ensures !finished ==> resizer == Pinged(p) && ReadLockedByAny(View())
      ensures finished ==> resizer == Between
      ensures pool == if finished && fate == Healthy then p else old(pool)
      ensures finished && fate == Healthy ==> old(pool) in closing
    {
      OneByOne(StepsOf(TheResizer, log), BuildSucceeds(p), PingSucceeds, TakeLock, Swap, PoolSwap.Unlock);
      Build(p, fate != CannotBuild, others(0));
      if fate == CannotBuild {
        return true;
      }
      PingOrClose(p, fate == Healthy, others(1));
      if fate == PingRefused {
        return true;
      }
      finished := Lock(p, others(2));
      if finished {
        var former := SwapPointer(p, others(3));
        Unlock(former, others(4));
        GoClose(former, others(5));
      }
    }

    // ---- Close, statement by statement ----

    /** close(done). */
    method SignalStop()
      requires Valid() && shutdown == Running
      modifies this
      ensures Valid() && shutdown == Stopping
      ensures StepsOf(TheShutdown, log) == StepsOf(TheShutdown, old(log)) + [Stop]
    {
      ghost var at := View();
      shutdown := Stopping;
      Record(at, Stop);
    }

    /** wg.Wait(), which waits until the resizer's loop has returned. */
    method AwaitResizer(others: seq<Label>) returns (ok: bool)
      requires Valid() && shutdown == Stopping
      modifies this
      ensures Valid() && shutdown == if ok then Joined else Stopping
      ensures StepsOf(TheShutdown, log) == StepsOf(TheShutdown, old(log)) + if ok then [Join] else []
      ensures !ok ==> resizer != Exited
    {
      Interleave(TheShutdown, others);
      if resizer != Exited {
        return false;
      }
      ghost var at := View();
      shutdown := Joined;
      Record(at, Join);
      ok := true;
    }

    /** mu.RLock(), which no longer has a writer to wait for. */
    method RLockToClose(others: seq<Label>)
      requires Valid() && shutdown == Joined
      modifies this
      ensures Valid() && shutdown == ReadLocked
      ensures StepsOf(TheShutdown, log) == StepsOf(TheShutdown, old(log)) + [ReadLock]
    {
      Interleave(TheShutdown, others);
      ghost var at := View();
      PlaysKeepsInv(origin, log, at);
      shutdown := ReadLocked;
      Record(at, ReadLock);
    }

    /** Reads the pointer and releases the read lock. */
    method PointerToClose(others: seq<Label>) returns (raw: nat)
      requires Valid() && shutdown == ReadLocked
      modifies this
      ensures Valid() && shutdown == HasPointer(raw)
      ensures StepsOf(TheShutdown, log) == StepsOf(TheShutdown, old(log)) + [ReadPointer]
    {
      Interleave(TheShutdown, others);
      ghost var at := View();
      raw := pool;
      shutdown := HasPointer(raw);
      Record(at, ReadPointer);
    }

    method CloseRaw(raw: nat, others: seq<Label>)
      requires Valid() && shutdown == HasPointer(raw)
      modifies this
      ensures Valid() && shutdown == Closed && raw == pool && raw in closes && closes[raw] == 1
      ensures StepsOf(TheShutdown, log) == StepsOf(TheShutdown, old(log)) + [CloseCurrent]
    {
      Interleave(TheShutdown, others);
      ghost var at := View();
      PlaysKeepsInv(origin, log, at);
      assert ClosesOwed(at, at.current) == 1;
      closes, shutdown := closes[raw := closes[raw] + 1], Closed;
      Record(at, CloseCurrent);
    }

    /**
     * Tells the resizer to stop and waits until it has, then closes the raw pool that is current by then,
     * once. It takes exactly these steps, in this order, or is still waiting for the resizer.
     */
    method Close(others: nat -> seq<Label>) returns (finished: bool)
      requires Valid() && shutdown == Running
      modifies this
      ensures Valid()
      ensures StepsOf(TheShutdown, log)
           == StepsOf(TheShutdown, old(log))
              + if finished then [Stop, Join, ReadLock, ReadPointer, CloseCurrent] else [Stop]
      ensures !finished ==> shutdown == Stopping && resizer != Exited
      ensures finished ==> shutdown == Closed && pool in closes && closes[pool] == 1
    {
      OneByOne(StepsOf(TheShutdown, log), Stop, Join, ReadLock, ReadPointer, CloseCurrent);
      SignalStop();
      finished := AwaitResizer(others(0));
      if finished {
        RLockToClose(others(1));
        var raw := PointerToClose(others(2));
        CloseRaw(raw, others(3));
      }
    }
  }

  /** A call inside a raw pool is inside the current one, which is open until shutdown closes it. */
  lemma InsideIsOpen(s: State, c: nat)
    requires Inv(s) && c in s.calls && s.calls[c].Inside?
    ensures s.calls[c].pool == s.current && s.current in s.closes && (s.shutdown == Closed || s.closes[s.current] == 0)
  {
    assert ClosesOwed(s, s.current) == 1;
  }
}
