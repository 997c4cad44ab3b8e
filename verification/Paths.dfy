/** Stretches of runs, over any step relation. */
module Paths {

  /** The path goes from s to s', one step at a time. */
  ghost predicate Leads<S(!new)>(step: (S, S) -> bool, s: S, s': S, path: seq<S>) {
    && |path| > 0 && path[0] == s && path[|path| - 1] == s'
    && forall i, j :: 0 <= i < |path| && j == i + 1 < |path| ==> step(path[i], path[j])
  }

  /** From moment m to moment n of the trace only steps of this kind are taken. */
  ghost predicate Only<S(!new)>(step: (S, S) -> bool, trace: seq<S>, m: nat, n: nat)
    requires m <= n < |trace|
  {
    m == n || (Only(step, trace, m, n - 1) && step(trace[n - 1], trace[n]))
  }

  ghost predicate Reaches<S(!new)>(step: (S, S) -> bool, s: S, s': S) {
    exists path :: Leads(step, s, s', path)
  }

  lemma ReachesItself<S(!new)>(step: (S, S) -> bool, s: S)
    ensures Reaches(step, s, s)
  {
    assert Leads(step, s, s, [s]);
  }

  lemma ReachesOn<S(!new)>(step: (S, S) -> bool, s: S, mid: S, end: S)
    requires Reaches(step, s, mid) && step(mid, end)
    ensures Reaches(step, s, end)
  {
    var path :| Leads(step, s, mid, path);
    assert Leads(step, s, end, path + [end]);
  }

  lemma Join<S(!new)>(step: (S, S) -> bool, s: S, mid: S, end: S, path: seq<S>, rest: seq<S>) returns (whole: seq<S>)
    requires Leads(step, s, mid, path) && Leads(step, mid, end, rest)
    ensures Leads(step, s, end, whole) && |path| <= |whole| && whole[|path| - 1] == mid
  {
    var m := |path| - 1;
    whole := path + rest[1..];
    forall i, j | 0 <= i < |whole| && j == i + 1 < |whole|
      ensures step(whole[i], whole[j])
    {
      if j < |path| {
        assert whole[i] == path[i] && whole[j] == path[j];
      } else {
        assert whole[i] == rest[i - m] && whole[j] == rest[j - m];
      }
    }
  }

  lemma ReachesThrough<S(!new)>(step: (S, S) -> bool, s: S, mid: S, end: S)
    requires Reaches(step, s, mid) && Reaches(step, mid, end)
    ensures Reaches(step, s, end)
  {
    var path :| Leads(step, s, mid, path);
    var rest :| Leads(step, mid, end, rest);
    var whole := Join(step, s, mid, end, path, rest);
  }
}
