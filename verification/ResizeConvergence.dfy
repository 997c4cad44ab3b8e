/**
 * Under steady load sampled at a fixed interval the elastic pool reaches its limit, move by move, on a
 * schedule known in advance: upward under saturation, downward when idle.
 */
module ResizeConvergence {
  import opened Core
  import opened ResizePolicy

  /** Ticks at firstTick, firstTick + interval, ..., with the ratio sampled at each; all resizes succeed. */
  datatype Load = Load(up: bool, firstTick: int, interval: int, ratio: nat -> real)

  /** The ratio stays at or above the high watermark (up), or at or below the low one. */
  ghost predicate Steady(p: Policy, l: Load) {
    && Roomy(p) && p.hysteresis >= 1 && p.cooldown >= 0 && p.low < p.high
    && l.firstTick > 0 && l.interval > 0
    && forall k: nat :: if l.up then l.ratio(k) >= p.high else l.ratio(k) <= p.low
  }

  function TimeOf(l: Load, k: nat): int {
    if k == 0 then l.firstTick else TimeOf(l, k - 1) + l.interval
  }

  function SampleAt(l: Load, k: nat): Sample {
    Sample(l.ratio(k), TimeOf(l, k), true)
  }

  /** The loop's state after n ticks, the first of them being tick number k. */
  function Ticks(p: Policy, l: Load, c: Control, k: nat, n: nat): Control {
    if n == 0 then c else Tick(p, Ticks(p, l, c, k, n - 1), SampleAt(l, k + n - 1)).0
  }

  /** How many ticks a duration spans, rounded up. */
  function CeilDiv(a: int, b: int): int
    requires a >= 0 && b > 0
  {
    (a + b - 1) / b
  }

  lemma CeilDivIsLeast(a: int, b: int, i: int)
    requires a >= 0 && b > 0
    ensures i * b >= a <==> i >= CeilDiv(a, b)
  {
    var q := CeilDiv(a, b);
    assert q * b >= a && (q - 1) * b < a;
    if i >= q {
      assert i * b >= q * b;
    } else {
      assert i * b <= (q - 1) * b;
    }
  }

  /** The number of ticks between one move and the next. */
  ghost function Spacing(p: Policy, l: Load): (d: int)
    requires Steady(p, l)
    ensures d >= p.hysteresis >= 1
  {
    Max(p.hysteresis, CeilDiv(p.cooldown, l.interval))
  }

  function Streaks(l: Load, n: int, last: int): Memory {
    if l.up then Memory(n, 0, last) else Memory(0, n, last)
  }

  /** Where a move takes the pool from a given size. */
  function Moved(p: Policy, l: Load, size: int): int {
    if l.up then Min(size + p.step, p.maxConns) else Max(size - p.step, p.minConns)
  }

  function Limit(p: Policy, l: Load): int {
    if l.up then p.maxConns else p.minConns
  }

  /** The streak that this load lengthens. */
  function OwnStreak(l: Load, m: Memory): int {
    if l.up then m.highStreak else m.lowStreak
  }

  /** The first tick, counted from tick k, at which the cooldown no longer holds the loop back. */
  function CooldownTicks(p: Policy, l: Load, m: Memory, k: nat): (w: int)
    requires l.interval > 0
    ensures w >= 1
  {
    if m.lastResizeAt == 0 then 1
    else
      CeilDivNonNegative(Max(0, p.cooldown + m.lastResizeAt - TimeOf(l, k)), l.interval);
      1 + CeilDiv(Max(0, p.cooldown + m.lastResizeAt - TimeOf(l, k)), l.interval)
  }

  lemma CeilDivNonNegative(a: int, b: int)
    requires a >= 0 && b > 0
    ensures CeilDiv(a, b) >= 0
  {
    CeilDivIsLeast(a, b, -1);
  }

  /** How many ticks, from tick k on, the next move takes: the streak has to fill up and the cooldown to pass. */
  function FirstWait(p: Policy, l: Load, m: Memory, k: nat): (d: int)
    requires l.interval > 0
    ensures d >= 1
  {
    Max(p.hysteresis - OwnStreak(l, m), CooldownTicks(p, l, m, k))
  }

  lemma {:induction false} TicksSplit(p: Policy, l: Load, c: Control, k: nat, a: nat, b: nat)
    ensures Ticks(p, l, c, k, a + b) == Ticks(p, l, Ticks(p, l, c, k, a), k + a, b)
  {
    if b > 0 {
      TicksSplit(p, l, c, k, a, b - 1);
    }
  }

  lemma {:induction false} TimeSince(l: Load, k: nat, i: nat)
    ensures TimeOf(l, k + i) - TimeOf(l, k) == i * l.interval
  {
    if i > 0 {
      TimeSince(l, k, i - 1);
      assert i * l.interval == (i - 1) * l.interval + l.interval;
    }
  }

  lemma {:induction false} TimePositive(l: Load, k: nat)
    requires l.firstTick > 0 && l.interval > 0
    ensures TimeOf(l, k) > 0
  {
    if k > 0 {
      TimePositive(l, k - 1);
    }
  }

  /** At the i-th tick from tick k the cooldown is over exactly if i is large enough. */
  lemma CooldownOver(p: Policy, l: Load, m: Memory, k: nat, i: nat)
    requires l.interval > 0 && i >= 1
    ensures m.lastResizeAt != 0 && TimeOf(l, k + i - 1) - m.lastResizeAt < p.cooldown
            <==> i < CooldownTicks(p, l, m, k)
  {
    TimeSince(l, k, i - 1);
    var rest := Max(0, p.cooldown + m.lastResizeAt - TimeOf(l, k));
    CeilDivIsLeast(rest, l.interval, i - 1);
    assert (i - 1) * l.interval >= 0;
  }

  /** The loop after i ticks that led to no move. */
  function Held(l: Load, c: Control, i: nat): Control {
    if i == 0 then c else Control(c.size, Streaks(l, OwnStreak(l, c.memory) + i, c.memory.lastResizeAt))
  }

  /** One tick of a waiting loop: it holds until the streak is long enough and the cooldown is over. */
  lemma {:induction false} OneTick(p: Policy, l: Load, c: Control, k: nat, i: nat)
    requires Steady(p, l) && InRange(p, c.size) && c.size != Limit(p, l) && 1 <= i <= FirstWait(p, l, c.memory, k)
    ensures Tick(p, Held(l, c, i - 1), SampleAt(l, k + i - 1)).0
         == if i < FirstWait(p, l, c.memory, k) then Held(l, c, i)
            else Control(Moved(p, l, c.size), Memory(0, 0, TimeOf(l, k + i - 1)))
  {
    CooldownOver(p, l, c.memory, k, i);
    GrowIsExactUnlessItWraps(p, c.size);
  }

  /** Until the wait is over the size stands still and the streak counts the ticks. */
  lemma {:induction false} Waiting(p: Policy, l: Load, c: Control, k: nat, i: nat)
    requires Steady(p, l) && InRange(p, c.size) && c.size != Limit(p, l) && i < FirstWait(p, l, c.memory, k)
    ensures Ticks(p, l, c, k, i) == Held(l, c, i)
  {
    if i > 0 {
      Waiting(p, l, c, k, i - 1);
      OneTick(p, l, c, k, i);
    }
  }

  /** Then the pool makes exactly one move. */
  lemma {:induction false} OneMove(p: Policy, l: Load, c: Control, k: nat)
    requires Steady(p, l) && InRange(p, c.size) && c.size != Limit(p, l)
    ensures var d := FirstWait(p, l, c.memory, k);
            Ticks(p, l, c, k, d) == Control(Moved(p, l, c.size), Memory(0, 0, TimeOf(l, k + d - 1)))
  {
    var d := FirstWait(p, l, c.memory, k);
    Waiting(p, l, c, k, d - 1);
    OneTick(p, l, c, k, d);
  }

  /** Just after a move made at tick k - 1. */
  predicate Fresh(l: Load, c: Control, k: nat) {
    k > 0 && c.memory == Memory(0, 0, TimeOf(l, k - 1))
  }

  lemma CeilDivLess(a: int, b: int)
    requires a >= 0 && b > 0
    ensures CeilDiv(Max(0, a - b), b) == Max(0, CeilDiv(a, b) - 1)
  {
    var q, r := CeilDiv(a, b), CeilDiv(Max(0, a - b), b);
    CeilDivNonNegative(a, b);
    CeilDivNonNegative(Max(0, a - b), b);
    CeilDivIsLeast(a, b, r + 1);
    CeilDivIsLeast(a, b, r);
    CeilDivIsLeast(Max(0, a - b), b, r);
    CeilDivIsLeast(Max(0, a - b), b, r - 1);
    assert (r + 1) * b == r * b + b && (r - 1) * b == r * b - b;
  }

  /** After a move the next one takes max(hysteresis, ceil(cooldown / interval)) ticks. */
  lemma FreshWait(p: Policy, l: Load, c: Control, k: nat)
    requires Steady(p, l) && Fresh(l, c, k)
    ensures FirstWait(p, l, c.memory, k) == Spacing(p, l)
  {
    TimePositive(l, k - 1);
    CeilDivLess(p.cooldown, l.interval);
    assert TimeOf(l, k) == TimeOf(l, k - 1) + l.interval;
  }

  /** The size after j moves from `size`. */
  function SizeAfter(p: Policy, l: Load, size: int, j: nat): int {
    if j == 0 then size else Moved(p, l, SizeAfter(p, l, size, j - 1))
  }

  /** The number of ticks, from tick k on, after which the j-th move is complete. */
  ghost function Schedule(p: Policy, l: Load, m: Memory, k: nat, j: nat): (n: nat)
    requires Steady(p, l) && j >= 1
    ensures n >= 1
  {
    if j == 1 then FirstWait(p, l, m, k) else Schedule(p, l, m, k, j - 1) + Spacing(p, l)
  }

  lemma {:induction false} ScheduleClosedForm(p: Policy, l: Load, m: Memory, k: nat, j: nat)
    requires Steady(p, l) && j >= 1
    ensures Schedule(p, l, m, k, j) == FirstWait(p, l, m, k) + (j - 1) * Spacing(p, l)
  {
    if j > 1 {
      ScheduleClosedForm(p, l, m, k, j - 1);
      assert (j - 1) * Spacing(p, l) == (j - 2) * Spacing(p, l) + Spacing(p, l);
    }
  }

  lemma {:induction false} SizeClosedForm(p: Policy, l: Load, size: int, j: nat)
    requires Sane(p) && InRange(p, size)
    ensures SizeAfter(p, l, size, j)
         == if l.up then Min(size + j * p.step, p.maxConns) else Max(size - j * p.step, p.minConns)
  {
    if j > 0 {
      SizeClosedForm(p, l, size, j - 1);
      assert j * p.step == (j - 1) * p.step + p.step;
    }
  }

  function MovesNeeded(p: Policy, l: Load, size: int): int
    requires Sane(p) && InRange(p, size)
  {
    CeilDiv(if l.up then p.maxConns - size else size - p.minConns, p.step)
  }

  /** Fewer moves than needed leave the pool short of the limit. */
  lemma {:induction false} ShortOfLimit(p: Policy, l: Load, size: int, j: nat)
    requires Sane(p) && InRange(p, size)
    ensures InRange(p, SizeAfter(p, l, size, j))
    ensures SizeAfter(p, l, size, j) == Limit(p, l) <==> j >= MovesNeeded(p, l, size)
  {
    SizeClosedForm(p, l, size, j);
    CeilDivIsLeast(if l.up then p.maxConns - size else size - p.minConns, p.step, j);
    assert j * p.step >= 0;
  }

  lemma {:induction false} SizeInRange(p: Policy, l: Load, size: int, j: nat)
    requires Sane(p) && InRange(p, size)
    ensures InRange(p, SizeAfter(p, l, size, j))
  {
    if j > 0 {
      SizeInRange(p, l, size, j - 1);
    }
  }

  /** A pool short of its limit after j moves was short of it before the last of them. */
  lemma StillShort(p: Policy, l: Load, size: int, j: nat)
    requires Sane(p) && j >= 1 && SizeAfter(p, l, size, j) != Limit(p, l)
    ensures SizeAfter(p, l, size, j - 1) != Limit(p, l)
  {
  }

  lemma {:induction false} LimitHolds(p: Policy, l: Load, c: Control, k: nat, n: nat)
    requires Steady(p, l) && c.size == Limit(p, l)
    ensures Ticks(p, l, c, k, n).size == c.size
  {
    if n > 0 {
      LimitHolds(p, l, c, k, n - 1);
    }
  }

  // ---- From one move to the whole schedule ----

  /** A loop as a function of its state, the number of its next tick and how many ticks to run. */
  type Loop = (Control, nat, nat) -> Control

  predicate Short(p: Policy, l: Load, c: Control) {
    InRange(p, c.size) && c.size != Limit(p, l)
  }

  /** All the schedule needs to know of a loop: runs compose, each move takes its time, and the limit holds. */
  ghost predicate Paced(p: Policy, l: Load, run: Loop)
    requires Steady(p, l)
  {
    && (forall c: Control, k: nat, a: nat, b: nat, m: nat, n: nat ::
          m == k + a && n == a + b ==> run(c, k, n) == run(run(c, k, a), m, b))
    && (forall c: Control, k: nat, i: nat ::
          Short(p, l, c) && i < FirstWait(p, l, c.memory, k) ==> run(c, k, i).size == c.size)
    && (forall c: Control, k: nat, d: nat ::
          Short(p, l, c) && d == FirstWait(p, l, c.memory, k) ==>
            run(c, k, d).size == Moved(p, l, c.size) && Fresh(l, run(c, k, d), k + d))
    && (forall c: Control, k: nat, n: nat :: c.size == Limit(p, l) ==> run(c, k, n).size == Limit(p, l))
  }

  function TickLoop(p: Policy, l: Load): Loop {
    (c: Control, k: nat, n: nat) => Ticks(p, l, c, k, n)
  }

  lemma TicksArePaced(p: Policy, l: Load)
    requires Steady(p, l)
    ensures Paced(p, l, TickLoop(p, l))
  {
    forall c: Control, k: nat, a: nat, b: nat, m: nat, n: nat | m == k + a && n == a + b
      ensures Ticks(p, l, c, k, n) == Ticks(p, l, Ticks(p, l, c, k, a), m, b)
    {
      TicksSplit(p, l, c, k, a, b);
    }
    forall c: Control, k: nat, i: nat | Short(p, l, c) && i < FirstWait(p, l, c.memory, k)
      ensures Ticks(p, l, c, k, i).size == c.size
    {
      Waiting(p, l, c, k, i);
    }
    forall c: Control, k: nat, d: nat | Short(p, l, c) && d == FirstWait(p, l, c.memory, k)
      ensures Ticks(p, l, c, k, d).size == Moved(p, l, c.size) && Fresh(l, Ticks(p, l, c, k, d), k + d)
    {
      OneMove(p, l, c, k);
    }
    forall c: Control, k: nat, n: nat | c.size == Limit(p, l)
      ensures Ticks(p, l, c, k, n).size == Limit(p, l)
    {
      LimitHolds(p, l, c, k, n);
    }
  }

  /** The j-th move is complete exactly on schedule, as long as the moves before it stopped short of the limit. */
  lemma {:induction false} MovesOnSchedule(p: Policy, l: Load, run: Loop, c: Control, k: nat, j: nat)
    requires Steady(p, l) && Paced(p, l, run) && InRange(p, c.size)
    requires j >= 1 && SizeAfter(p, l, c.size, j - 1) != Limit(p, l)
    ensures var n := Schedule(p, l, c.memory, k, j);
            run(c, k, n).size == SizeAfter(p, l, c.size, j) && Fresh(l, run(c, k, n), k + n)
  {
    if j == 1 {
      assert Short(p, l, c);
    } else {
      var n := Schedule(p, l, c.memory, k, j - 1);
      var c' := run(c, k, n);
      MovesOnSchedule(p, l, run, c, k, j - 1);
      SizeInRange(p, l, c.size, j - 1);
      assert Short(p, l, c');
      FreshWait(p, l, c', k + n);
      assert run(c, k, n + Spacing(p, l)) == run(c', k + n, Spacing(p, l));
    }
  }

  /** Until the j-th move is complete, the pool is short of its limit if the moves before it left it so. */
  lemma {:induction false} NotBeforeSchedule(p: Policy, l: Load, run: Loop, c: Control, k: nat, j: nat, t: nat)
    requires Steady(p, l) && Paced(p, l, run) && InRange(p, c.size)
    requires j >= 1 && SizeAfter(p, l, c.size, j - 1) != Limit(p, l) && t < Schedule(p, l, c.memory, k, j)
    ensures run(c, k, t).size != Limit(p, l)
  {
    if j == 1 {
      assert Short(p, l, c);
    } else if t < Schedule(p, l, c.memory, k, j - 1) {
      StillShort(p, l, c.size, j - 1);
      NotBeforeSchedule(p, l, run, c, k, j - 1, t);
    } else {
      var n := Schedule(p, l, c.memory, k, j - 1);
      var c' := run(c, k, n);
      StillShort(p, l, c.size, j - 1);
      MovesOnSchedule(p, l, run, c, k, j - 1);
      SizeInRange(p, l, c.size, j - 1);
      assert Short(p, l, c');
      FreshWait(p, l, c', k + n);
      assert run(c, k, t) == run(c', k + n, t - n);
    }
  }

  lemma {:induction false} AtTheLimitFrom(p: Policy, l: Load, run: Loop, c: Control, k: nat, j: nat, t: nat)
    requires Steady(p, l) && Paced(p, l, run) && InRange(p, c.size)
    requires j >= 1 && SizeAfter(p, l, c.size, j - 1) != Limit(p, l) && SizeAfter(p, l, c.size, j) == Limit(p, l)
    requires t >= Schedule(p, l, c.memory, k, j)
    ensures run(c, k, t).size == Limit(p, l)
  {
    var n := Schedule(p, l, c.memory, k, j);
    MovesOnSchedule(p, l, run, c, k, j);
    assert run(c, k, t) == run(run(c, k, n), k + n, t - n);
  }

  /**
   * From any state of the loop at any tick, whatever its streaks and however recent its last resize, the
   * pool stands at its limit exactly from the moment the last move of the schedule is complete: after the
   * least number of moves that covers the distance, not a tick earlier, and for as long as the load lasts.
   */
  lemma {:induction false} ReachesTheLimit(p: Policy, l: Load, c: Control, k: nat, t: nat)
    requires Steady(p, l) && InRange(p, c.size) && c.size != Limit(p, l)
    ensures var g := MovesNeeded(p, l, c.size);
            && g >= 1
            && (Ticks(p, l, c, k, t).size == Limit(p, l) <==>
                  t >= FirstWait(p, l, c.memory, k) + (g - 1) * Spacing(p, l))
  {
    var g, run := MovesNeeded(p, l, c.size), TickLoop(p, l);
    TicksArePaced(p, l);
    ShortOfLimit(p, l, c.size, 0);
    ShortOfLimit(p, l, c.size, g - 1);
    ShortOfLimit(p, l, c.size, g);
    ScheduleClosedForm(p, l, c.memory, k, g);
    if t >= Schedule(p, l, c.memory, k, g) {
      AtTheLimitFrom(p, l, run, c, k, g, t);
    } else {
      NotBeforeSchedule(p, l, run, c, k, g, t);
    }
  }

  /** The policy as shipped, in seconds: watermarks 0.85 and 0.30, three ticks, 45 s cooldown, steps of 8. */
  function Shipped(minConns: int, maxConns: int): Policy {
    Policy(0.85, 0.30, 3, 45, 8, minConns, maxConns)
  }

  predicate ShippedRange(minConns: int, maxConns: int) {
    1 <= minConns < maxConns && maxConns + 7 <= MAX_INT32
  }

  /**
   * Sampled every 3 s, an elastic pool that starts at its floor and stays saturated stands at its
   * ceiling from 3 ticks for the first step of 8 connections and 15 for each further one, and not before.
   */
  lemma ShippedPoolReachesItsCeiling(minConns: int, maxConns: int, firstTick: int, ratio: nat -> real, t: nat)
    requires ShippedRange(minConns, maxConns) && firstTick > 0 && forall k: nat :: ratio(k) >= 0.85
    ensures var p, l := Shipped(minConns, maxConns), Load(true, firstTick, 3, ratio);
            var g := CeilDiv(maxConns - minConns, 8);
            && g >= 1
            && (Ticks(p, l, Control(minConns, Memory(0, 0, 0)), 0, t).size == maxConns <==> t >= 3 + (g - 1) * 15)
  {
    var p, l := Shipped(minConns, maxConns), Load(true, firstTick, 3, ratio);
    assert Spacing(p, l) == 15;
    ReachesTheLimit(p, l, Control(minConns, Memory(0, 0, 0)), 0, t);
  }

  /**
   * And back: from any size above the floor, whatever happened before, a pool that stays idle is at its
   * floor again after at most 15 ticks for each step of 8 connections, given that its last resize was no
   * later than the tick before, and stays there.
   */
  lemma ShippedPoolReturnsToItsFloor(
    minConns: int, maxConns: int, firstTick: int, ratio: nat -> real, c: Control, k: nat, t: nat)
    requires ShippedRange(minConns, maxConns) && firstTick > 0 && forall i: nat :: ratio(i) <= 0.30
    requires minConns < c.size <= maxConns && c.memory.lowStreak >= 0
    requires c.memory.lastResizeAt <= TimeOf(Load(false, firstTick, 3, ratio), k) - 3
    requires t >= CeilDiv(c.size - minConns, 8) * 15
    ensures Ticks(Shipped(minConns, maxConns), Load(false, firstTick, 3, ratio), c, k, t).size == minConns
  {
    var p, l := Shipped(minConns, maxConns), Load(false, firstTick, 3, ratio);
    var g := CeilDiv(c.size - minConns, 8);
    assert Spacing(p, l) == 15;
    assert FirstWait(p, l, c.memory, k) <= 15;
    ReachesTheLimit(p, l, c, k, t);
    assert (g - 1) * 15 + 15 == g * 15;
  }
}
