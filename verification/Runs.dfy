/** Runs of a step relation: sequences of states, each a step from the one before. */
module Runs {
  /** The step from the state at `i` to the one behind it. */
  predicate IsLink<S>(next: (S, S) -> bool, path: seq<S>, i: nat)
    requires i + 1 < |path|
  {
    next(path[i], path[i + 1])
  }

  predicate IsPath<S>(next: (S, S) -> bool, path: seq<S>) {
    path != [] && forall i | 0 <= i < |path| - 1 :: IsLink(next, path, i)
  }

  predicate IsPathBetween<S(==)>(next: (S, S) -> bool, path: seq<S>, a: S, b: S) {
    IsPath(next, path) && path[0] == a && path[|path| - 1] == b
  }

  /** Some run leads from `a` to `b`. */
  ghost predicate Leads<S(!new)>(next: (S, S) -> bool, a: S, b: S) {
    exists path: seq<S> :: IsPathBetween(next, path, a, b)
  }

  lemma LeadsToItself<S(!new)>(next: (S, S) -> bool, a: S)
    ensures Leads(next, a, a)
  {
    assert IsPathBetween(next, [a], a, a);
  }

  lemma LeadsByStep<S(!new)>(next: (S, S) -> bool, a: S, b: S)
    requires next(a, b)
    ensures Leads(next, a, b)
  {
    assert IsLink(next, [a, b], 0);
    assert IsPathBetween(next, [a, b], a, b);
  }

  lemma LeadsOn<S(!new)>(next: (S, S) -> bool, a: S, b: S, c: S)
    requires Leads(next, a, b) && Leads(next, b, c)
    ensures Leads(next, a, c)
  {
    var first :| IsPathBetween(next, first, a, b);
    var second :| IsPathBetween(next, second, b, c);
    var path := first + second[1..];
    forall i | 0 <= i < |path| - 1 ensures IsLink(next, path, i) {
      if i >= |first| - 1 {
        var k := i - (|first| - 1);
        assert IsLink(next, second, k);
        assert path[i] == second[k] && path[i + 1] == second[k + 1];
      } else {
        assert IsLink(next, first, i);
      }
    }
    assert IsPathBetween(next, path, a, c);
  }

  /** All but the last state of a run, and its last step. */
  lemma PathInit<S>(next: (S, S) -> bool, path: seq<S>)
    requires IsPath(next, path) && |path| > 1
    ensures var n := |path| - 1; IsPath(next, path[..n]) && path[..n][0] == path[0] && next(path[n - 1], path[n])
  {
    var n := |path| - 1;
    assert IsLink(next, path, n - 1);
    forall i | 0 <= i < n - 1 ensures IsLink(next, path[..n], i) {
      assert IsLink(next, path, i);
    }
  }
}
