/** When the elastic pool grows or shrinks: hysteresis, cooldown and a clamped step. */
module ResizePolicy {
  import opened Core

  const MAX_INT32: int := 0x7fff_ffff

  /** The int32 that the sum or difference of two int32 values wraps around to. */
  function Wrap32(x: int): (r: int)
    ensures -0x8000_0000 <= x <= 0x7fff_ffff ==> r == x
    ensures -0x1_0000_0000 <= x <= 0xffff_ffff ==> -0x8000_0000 <= r <= 0x7fff_ffff
  {
    if x > 0x7fff_ffff then x - 0x1_0000_0000
    else if x < -0x8000_0000 then x + 0x1_0000_0000
    else x
  }

  datatype Decision = Hold | Grow | Shrink

  /** Times and durations are in one unit; instant 0 is the zero time, meaning "never". */
  datatype Policy = Policy(
    high: real, low: real, hysteresis: int, cooldown: int, step: int, minConns: int, maxConns: int)

  datatype Memory = Memory(highStreak: int, lowStreak: int, lastResizeAt: int)

  predicate Sane(p: Policy) {
    1 <= p.minConns <= p.maxConns <= MAX_INT32 && 1 <= p.step <= MAX_INT32
  }

  function Count(p: Policy, ratio: real, m: Memory): Memory {
    if ratio >= p.high then m.(highStreak := m.highStreak + 1, lowStreak := 0)
    else if ratio <= p.low then m.(lowStreak := m.lowStreak + 1, highStreak := 0)
    else m.(highStreak := 0, lowStreak := 0)
  }

  function Decide(p: Policy, ratio: real, current: int, m: Memory, now: int): (Decision, Memory) {
    var n := Count(p, ratio, m);
    if n.lastResizeAt != 0 && now - n.lastResizeAt < p.cooldown then (Hold, n)
    else if n.highStreak >= p.hysteresis && current < p.maxConns then (Grow, n.(lastResizeAt := now, highStreak := 0))
    else if n.lowStreak >= p.hysteresis && current > p.minConns then (Shrink, n.(lastResizeAt := now, lowStreak := 0))
    else (Hold, n)
  }

  function NextMaxConns(p: Policy, current: int, d: Decision): int {
    match d
    case Grow => Min(Wrap32(current + p.step), p.maxConns)
    case Shrink => Max(Wrap32(current - p.step), p.minConns)
    case Hold => current
  }

  /** The clamped step is exact unless growing overflows int32, and then it is wrong. */
  lemma GrowIsExactUnlessItWraps(p: Policy, current: int)
    requires Sane(p) && p.minConns <= current <= p.maxConns
    ensures NextMaxConns(p, current, Grow) == Min(current + p.step, p.maxConns) <==> current + p.step <= MAX_INT32
    ensures NextMaxConns(p, current, Shrink) == Max(current - p.step, p.minConns)
  {
  }

  /** Configurations whose growth never overflows: the largest size that still grows has room for a step. */
  predicate Roomy(p: Policy) {
    Sane(p) && p.maxConns - 1 + p.step <= MAX_INT32
  }

  // ---- Ticks ----

  /** One tick's input: the saturation ratio, the time, and whether a resize, if decided, succeeds. */
  datatype Sample = Sample(ratio: real, now: int, succeeds: bool)

  /** The pool's size and the loop's memory. */
  datatype Control = Control(size: int, memory: Memory)

  function Tick(p: Policy, c: Control, s: Sample): (r: (Control, Decision)) {
    if c.size <= 0 then (c, Hold)
    else
      var (d, m) := Decide(p, s.ratio, c.size, c.memory, s.now);
      var target := NextMaxConns(p, c.size, d);
      (Control(if s.succeeds then target else c.size, m), d)
  }

  /** The loop's state after the first n samples. */
  function After(p: Policy, c: Control, samples: seq<Sample>, n: nat): Control
    requires n <= |samples|
  {
    if n == 0 then c else Tick(p, After(p, c, samples, n - 1), samples[n - 1]).0
  }

  function DecisionAt(p: Policy, c: Control, samples: seq<Sample>, i: nat): Decision
    requires i < |samples|
  {
    Tick(p, After(p, c, samples, i), samples[i]).1
  }

  /** The loop: samples the pool, decides, resizes, and threads its memory from tick to tick. */
  class PoolResizer {
    const policy: Policy
    var size: int

    constructor (policy: Policy, size: int)
      ensures this.policy == policy && this.size == size
    {
      this.policy := policy;
      this.size := size;
    }

    method TickOnce(m: Memory, sample: Sample) returns (m': Memory)
      modifies this`size
      ensures Control(size, m') == Tick(policy, Control(old(size), m), sample).0
    {
      var maxConns := size;
      if maxConns <= 0 {
        return m;
      }
      var (decision, newState) := Decide(policy, sample.ratio, maxConns, m, sample.now);
      if decision == Hold {
        return newState;
      }
      var target := NextMaxConns(policy, maxConns, decision);
      if target == maxConns {
        return newState;
      }
      if sample.succeeds {
        size := target;
      }
      return newState;
    }

    method Loop(samples: seq<Sample>) returns (m: Memory)
      modifies this`size
      ensures Control(size, m) == After(policy, Control(old(size), Memory(0, 0, 0)), samples, |samples|)
    {
      m := Memory(0, 0, 0);
      for i := 0 to |samples|
        invariant Control(size, m) == After(policy, Control(old(size), Memory(0, 0, 0)), samples, i)
      {
        m := TickOnce(m, samples[i]);
      }
    }
  }

  // ---- Safety over every sequence of ticks ----

  predicate InRange(p: Policy, size: int) {
    p.minConns <= size <= p.maxConns
  }

  /** A decision other than hold strictly changes the size, and stays in range. */
  lemma DecisionMoves(p: Policy, c: Control, s: Sample)
    requires Roomy(p) && InRange(p, c.size)
    ensures var target := NextMaxConns(p, c.size, Tick(p, c, s).1);
            && InRange(p, target)
            && (Tick(p, c, s).1 == Grow ==> c.size < target)
            && (Tick(p, c, s).1 == Shrink ==> target < c.size)
  {
  }

  lemma {:induction false} SizeStaysInRange(p: Policy, c: Control, samples: seq<Sample>, n: nat)
    requires Roomy(p) && InRange(p, c.size) && n <= |samples|
    ensures InRange(p, After(p, c, samples, n).size)
  {
    if n > 0 {
      SizeStaysInRange(p, c, samples, n - 1);
      DecisionMoves(p, After(p, c, samples, n - 1), samples[n - 1]);
    }
  }

  ghost predicate AlwaysInRange(p: Policy) {
    forall c: Control, samples: seq<Sample>, n: nat ::
      InRange(p, c.size) && c.memory == Memory(0, 0, 0) && n <= |samples| ==>
        InRange(p, After(p, c, samples, n).size)
  }

  function Saturated(p: Policy, n: nat): (samples: seq<Sample>)
    ensures |samples| == n && forall i :: 0 <= i < n ==> samples[i] == Sample(p.high, i + 1, true)
  {
    seq(n, i => Sample(p.high, i + 1, true))
  }

  /** Until the streak is long enough a saturated pool only counts. */
  lemma {:induction false} StreakBuilds(p: Policy, size: int, n: nat, k: nat)
    requires Sane(p) && InRange(p, size) && size < p.maxConns && k <= n && (k == 0 || k < p.hysteresis)
    ensures After(p, Control(size, Memory(0, 0, 0)), Saturated(p, n), k) == Control(size, Memory(k, 0, 0))
  {
    if k > 0 {
      StreakBuilds(p, size, n, k - 1);
    }
  }

  function FirstGrow(p: Policy): nat {
    if p.hysteresis >= 1 then p.hysteresis else 1
  }

  /** The first move of a pool saturated from the start. */
  lemma {:induction false} SaturatedPoolGrows(p: Policy, size: int)
    requires Sane(p) && InRange(p, size) && size < p.maxConns
    ensures After(p, Control(size, Memory(0, 0, 0)), Saturated(p, FirstGrow(p)), FirstGrow(p)).size
         == NextMaxConns(p, size, Grow)
  {
    StreakBuilds(p, size, FirstGrow(p), FirstGrow(p) - 1);
  }

  /** With room above the floor, every run from every size in range stays in range if and only if p is roomy. */
  lemma InRangeExactlyIfRoomy(p: Policy)
    requires Sane(p) && p.minConns < p.maxConns
    ensures AlwaysInRange(p) <==> Roomy(p)
  {
    if Roomy(p) {
      forall c: Control, samples: seq<Sample>, n: nat |
        InRange(p, c.size) && c.memory == Memory(0, 0, 0) && n <= |samples|
        ensures InRange(p, After(p, c, samples, n).size)
      {
        SizeStaysInRange(p, c, samples, n);
      }
    } else {
      var c := Control(p.maxConns - 1, Memory(0, 0, 0));
      SaturatedPoolGrows(p, c.size);
      assert !InRange(p, After(p, c, Saturated(p, FirstGrow(p)), FirstGrow(p)).size);
    }
  }

  /** The wrap can happen: three saturated ticks take a pool that starts at such a floor to a negative size. */
  lemma GrowCanWrap()
    ensures var p := Policy(0.85, 0.30, 3, 45, 8, MAX_INT32 - 1, MAX_INT32);
            && Sane(p) && !Roomy(p)
            && After(p, Control(p.minConns, Memory(0, 0, 0)), Saturated(p, 3), 3).size < 0
  {
    SaturatedPoolGrows(Policy(0.85, 0.30, 3, 45, 8, MAX_INT32 - 1, MAX_INT32), MAX_INT32 - 1);
  }

  /** The two streaks are never both running. */
  lemma {:induction false} OneStreakAtATime(p: Policy, c: Control, samples: seq<Sample>, n: nat)
    requires n <= |samples| && c.memory == Memory(0, 0, 0)
    ensures var m := After(p, c, samples, n).memory;
            m.highStreak >= 0 && m.lowStreak >= 0 && (m.highStreak == 0 || m.lowStreak == 0)
  {
    if n > 0 {
      OneStreakAtATime(p, c, samples, n - 1);
    }
  }

  /** Instants are real ones and the clock does not go back. */
  predicate Clock(samples: seq<Sample>) {
    && (forall i :: 0 <= i < |samples| ==> samples[i].now > 0)
    && (forall i, j :: 0 <= i < j < |samples| ==> samples[i].now <= samples[j].now)
  }

  /** After a decision to resize, the loop remembers its instant or that of a later one. */
  lemma {:induction false} LastResizeRemembered(p: Policy, c: Control, samples: seq<Sample>, i: nat, n: nat)
    requires Clock(samples) && i < n <= |samples|
    requires DecisionAt(p, c, samples, i) != Hold
    ensures After(p, c, samples, n).memory.lastResizeAt >= samples[i].now
  {
    if i < n - 1 {
      LastResizeRemembered(p, c, samples, i, n - 1);
    }
  }

  /** Any two decisions to resize are at least a cooldown apart, whether or not the resizes succeeded. */
  lemma CooldownRespected(p: Policy, c: Control, samples: seq<Sample>, i: nat, j: nat)
    requires Clock(samples) && i < j < |samples|
    requires DecisionAt(p, c, samples, i) != Hold && DecisionAt(p, c, samples, j) != Hold
    ensures samples[j].now - samples[i].now >= p.cooldown
  {
    LastResizeRemembered(p, c, samples, i, j);
  }

  predicate IsHigh(p: Policy, s: Sample) {
    s.ratio >= p.high
  }

  predicate IsLow(p: Policy, s: Sample) {
    s.ratio <= p.low && s.ratio < p.high
  }

  /** A tick lengthens a streak by one unspent sample of its kind or ends it. */
  lemma TickStreaks(p: Policy, c: Control, s: Sample)
    requires c.size > 0
    ensures var (c', d) := Tick(p, c, s);
            var (m, m') := (c.memory, c'.memory);
            && (m'.highStreak == 0 || (m'.highStreak == m.highStreak + 1 && IsHigh(p, s) && d != Grow))
            && (m'.lowStreak == 0 || (m'.lowStreak == m.lowStreak + 1 && IsLow(p, s) && d != Shrink))
  {
  }

  /** The streaks count exactly the latest unspent samples of their kind. */
  lemma {:induction false} StreaksCount(p: Policy, c: Control, samples: seq<Sample>, n: nat, k: nat)
    requires c.memory == Memory(0, 0, 0) && k < n <= |samples| && After(p, c, samples, n).size > 0
    ensures var m := After(p, c, samples, n).memory;
            && m.highStreak <= n && m.lowStreak <= n
            && (n - m.highStreak <= k ==> IsHigh(p, samples[k]) && DecisionAt(p, c, samples, k) != Grow)
            && (n - m.lowStreak <= k ==> IsLow(p, samples[k]) && DecisionAt(p, c, samples, k) != Shrink)
  {
    TickStreaks(p, After(p, c, samples, n - 1), samples[n - 1]);
    if n > 1 {
      StreaksCount(p, c, samples, n - 1, if k < n - 1 then k else n - 2);
    }
  }

  /**
   * A Grow (Shrink) comes only after hysteresis consecutive high (low) samples, none of them already
   * spent on an earlier Grow (Shrink), in every configuration.
   */
  lemma ResizeNeedsAStreak(p: Policy, c: Control, samples: seq<Sample>, i: nat, k: nat)
    requires c.memory == Memory(0, 0, 0) && p.hysteresis >= 1 && k <= i < |samples| && i - p.hysteresis < k
    ensures DecisionAt(p, c, samples, i) == Grow ==>
              i + 1 >= p.hysteresis && IsHigh(p, samples[k]) && (k < i ==> DecisionAt(p, c, samples, k) != Grow)
    ensures DecisionAt(p, c, samples, i) == Shrink ==>
              i + 1 >= p.hysteresis && IsLow(p, samples[k]) && (k < i ==> DecisionAt(p, c, samples, k) != Shrink)
  {
    if DecisionAt(p, c, samples, i) != Hold {
      OneStreakAtATime(p, c, samples, i);
      if i > 0 {
        StreaksCount(p, c, samples, i, if k < i then k else i - 1);
      }
    }
  }

  // ---- Exactly when the pool is resized, and to what ----

  /** Every earlier decision to resize is at least a cooldown ago. */
  ghost predicate CooledDown(p: Policy, c: Control, samples: seq<Sample>, i: nat)
    requires i < |samples|
  {
    forall j: nat :: j < i && DecisionAt(p, c, samples, j) != Hold ==> samples[i].now - samples[j].now >= p.cooldown
  }

  /** The last hysteresis samples were all high (up) or all low, and none of them is spent. */
  ghost predicate StreakDue(p: Policy, c: Control, samples: seq<Sample>, i: nat, up: bool)
    requires i < |samples|
  {
    && i + 1 >= p.hysteresis
    && forall k: nat :: k <= i && i - p.hysteresis < k ==>
                          && (if up then IsHigh(p, samples[k]) else IsLow(p, samples[k]))
                          && (k < i ==> DecisionAt(p, c, samples, k) != if up then Grow else Shrink)
  }

  lemma TickRemembers(p: Policy, c: Control, s: Sample)
    ensures Tick(p, c, s).0.memory.lastResizeAt == if Tick(p, c, s).1 == Hold then c.memory.lastResizeAt else s.now
  {
  }

  /** What the loop remembers is a decision to resize, if there was one. */
  lemma {:induction false} LastResizeIsDecision(p: Policy, c: Control, samples: seq<Sample>, n: nat) returns (j: nat)
    requires n <= |samples| && c.memory.lastResizeAt == 0
    ensures var last := After(p, c, samples, n).memory.lastResizeAt;
            last == 0 || (j < n && DecisionAt(p, c, samples, j) != Hold && last == samples[j].now)
  {
    if n == 0 {
      return 0;
    }
    j := LastResizeIsDecision(p, c, samples, n - 1);
    TickRemembers(p, After(p, c, samples, n - 1), samples[n - 1]);
    if DecisionAt(p, c, samples, n - 1) != Hold {
      j := n - 1;
    }
  }

  lemma CooldownTest(p: Policy, c: Control, samples: seq<Sample>, i: nat)
    requires Clock(samples) && i < |samples| && c.memory.lastResizeAt == 0
    ensures var last := After(p, c, samples, i).memory.lastResizeAt;
            CooledDown(p, c, samples, i) <==> last == 0 || samples[i].now - last >= p.cooldown
  {
    var latest := LastResizeIsDecision(p, c, samples, i);
    forall j: nat | j < i && DecisionAt(p, c, samples, j) != Hold
      ensures After(p, c, samples, i).memory.lastResizeAt >= samples[j].now > 0
    {
      LastResizeRemembered(p, c, samples, j, i);
    }
  }

  /** Consecutive samples of one kind, none spent, all count. */
  lemma {:induction false} StreakGrows(p: Policy, c: Control, samples: seq<Sample>, k: nat, n: nat, up: bool)
    requires c.memory == Memory(0, 0, 0) && p.hysteresis >= 1 && k <= n <= |samples| && After(p, c, samples, n).size > 0
    requires forall j: nat :: k <= j < n ==>
                                && (if up then IsHigh(p, samples[j]) else IsLow(p, samples[j]))
                                && DecisionAt(p, c, samples, j) != if up then Grow else Shrink
    ensures var m := After(p, c, samples, n).memory; (if up then m.highStreak else m.lowStreak) >= n - k
  {
    OneStreakAtATime(p, c, samples, n);
    if k < n {
      OneStreakAtATime(p, c, samples, n - 1);
      StreakGrows(p, c, samples, k, n - 1, up);
      OneMoreSample(p, After(p, c, samples, n - 1), samples[n - 1], up);
    }
  }

  lemma OneMoreSample(p: Policy, c: Control, s: Sample, up: bool)
    requires c.size > 0 && (if up then IsHigh(p, s) else IsLow(p, s)) && Tick(p, c, s).1 != if up then Grow else Shrink
    requires p.hysteresis >= 1
    ensures var (m, m') := (c.memory, Tick(p, c, s).0.memory);
            if up then m'.highStreak == m.highStreak + 1 else m'.lowStreak == m.lowStreak + 1
  {
  }

  /** What a tick decides, given the streaks before it. */
  lemma TickDecides(p: Policy, c: Control, s: Sample, up: bool)
    requires c.size > 0 && p.hysteresis >= 1 && c.memory.highStreak >= 0 && c.memory.lowStreak >= 0
    ensures var m := c.memory;
            Tick(p, c, s).1 == (if up then Grow else Shrink)
            <==> && (m.lastResizeAt == 0 || s.now - m.lastResizeAt >= p.cooldown)
                 && (if up then c.size < p.maxConns else c.size > p.minConns)
                 && (if up then IsHigh(p, s) && m.highStreak + 1 >= p.hysteresis
                     else IsLow(p, s) && m.lowStreak + 1 >= p.hysteresis)
  {
  }

  /**
   * In every configuration and over every sequence of ticks, a pool of positive size is told to grow
   * (shrink) at a tick if and only if it is below its ceiling (above its floor), every earlier resize is
   * a cooldown ago, and the last hysteresis samples were high (low) and not spent on an earlier one.
   */
  lemma ResizesExactlyWhenDue(p: Policy, c: Control, samples: seq<Sample>, i: nat, up: bool)
    requires c.memory == Memory(0, 0, 0) && p.hysteresis >= 1 && Clock(samples) && i < |samples|
    requires After(p, c, samples, i).size > 0
    ensures var size := After(p, c, samples, i).size;
            DecisionAt(p, c, samples, i) == (if up then Grow else Shrink)
            <==> && (if up then size < p.maxConns else size > p.minConns)
                 && CooledDown(p, c, samples, i) && StreakDue(p, c, samples, i, up)
  {
    var c' := After(p, c, samples, i);
    OneStreakAtATime(p, c, samples, i);
    CooldownTest(p, c, samples, i);
    TickDecides(p, c', samples[i], up);
    if DecisionAt(p, c, samples, i) == if up then Grow else Shrink {
      DueWhenResized(p, c, samples, i, up);
    } else if StreakDue(p, c, samples, i, up) {
      StreakGrows(p, c, samples, i + 1 - p.hysteresis, i, up);
    }
  }

  lemma DueWhenResized(p: Policy, c: Control, samples: seq<Sample>, i: nat, up: bool)
    requires c.memory == Memory(0, 0, 0) && p.hysteresis >= 1 && i < |samples|
    requires DecisionAt(p, c, samples, i) == if up then Grow else Shrink
    ensures StreakDue(p, c, samples, i, up)
  {
    ResizeNeedsAStreak(p, c, samples, i, i);
    forall k: nat | k <= i && i - p.hysteresis < k
      ensures if up then IsHigh(p, samples[k]) else IsLow(p, samples[k])
      ensures k < i ==> DecisionAt(p, c, samples, k) != if up then Grow else Shrink
    {
      ResizeNeedsAStreak(p, c, samples, i, k);
    }
  }

  /** The size moves by one clamped step where a resize is decided and succeeds, and nowhere else. */
  lemma SizeFollowsDecisions(p: Policy, c: Control, samples: seq<Sample>, i: nat)
    requires Roomy(p) && InRange(p, c.size) && i < |samples|
    ensures var size, size' := After(p, c, samples, i).size, After(p, c, samples, i + 1).size;
            size' == if !samples[i].succeeds then size
                     else match DecisionAt(p, c, samples, i)
                          case Hold => size
                          case Grow => Min(size + p.step, p.maxConns)
                          case Shrink => Max(size - p.step, p.minConns)
  {
    SizeStaysInRange(p, c, samples, i);
    GrowIsExactUnlessItWraps(p, After(p, c, samples, i).size);
  }

  /** A pool that has somehow lost its size is left alone. */
  lemma NothingToResize(p: Policy, c: Control, s: Sample)
    requires c.size <= 0
    ensures Tick(p, c, s) == (c, Hold)
  {
  }

  /**
   * How large a new pool is. An elastic one starts at its floor, so that with a floor below the ceiling
   * it has room to grow; any other stands at its ceiling for good.
   */
  method NewPoolSize(minConns: int, maxConns: int, libraryDefault: int) returns (size: int, ceiling: int, elastic: bool)
    ensures elastic <==> minConns > 0
    ensures ceiling == if maxConns > 0 then maxConns else libraryDefault
    ensures size == if elastic then minConns else ceiling
  {
    ceiling := libraryDefault;
    if maxConns > 0 {
      ceiling := maxConns;
    }
    size := ceiling;
    if minConns > 0 {
      size := minConns;
    }
    elastic := minConns > 0;
  }
}
