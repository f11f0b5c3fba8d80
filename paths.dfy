/**
 * Sequences of actions: running them from a state, and the order in which
 * breadth-first search meets them (shorter first, then by the successor order
 * of their actions, compared from the first action on).
 */
module Paths {
  import opened Jugs

  function Init(p: seq<Action>): seq<Action>
    requires p != []
  {
    p[..|p| - 1]
  }

  function Last(p: seq<Action>): Action
    requires p != []
  {
    p[|p| - 1]
  }

  lemma InitLast(p: seq<Action>)
    requires p != []
    ensures Init(p) + [Last(p)] == p
  {
  }

  lemma InitSnoc(p: seq<Action>, a: Action)
    ensures Init(p + [a]) == p && Last(p + [a]) == a
  {
  }

  /** The state reached from `s` by performing the actions of `path` in turn. */
  function Run(X: nat, Y: nat, s: State, path: seq<Action>): (r: State)
    ensures InBounds(X, Y, s) ==> InBounds(X, Y, r)
    decreases |path|
  {
    if path == [] then s else Apply(X, Y, Last(path), Run(X, Y, s, Init(path)))
  }

  lemma RunSnoc(X: nat, Y: nat, s: State, p: seq<Action>, a: Action)
    ensures Run(X, Y, s, p + [a]) == Apply(X, Y, a, Run(X, Y, s, p))
  {
    InitSnoc(p, a);
  }

  /** Running a concatenation runs its two parts one after the other. */
  lemma {:induction false} RunAppend(X: nat, Y: nat, s: State, p: seq<Action>, q: seq<Action>)
    ensures Run(X, Y, s, p + q) == Run(X, Y, Run(X, Y, s, p), q)
    decreases |q|
  {
    if q == [] {
      assert p + q == p;
    } else {
      assert Init(p + q) == p + Init(q) && Last(p + q) == Last(q);
      RunAppend(X, Y, s, p, Init(q));
    }
  }

  /** The puzzle (X, Y, Z) has a solution: some path from Start ends in a goal state. */
  ghost predicate Solvable(X: nat, Y: nat, Z: int) {
    exists p: seq<Action> :: IsGoal(Z, Run(X, Y, Start, p))
  }

  /** A set of states that holds Start and is closed under every action holds every reachable state. */
  lemma {:induction false} ClosedHoldsReachable(X: nat, Y: nat, states: set<State>, p: seq<Action>)
    requires Start in states
    requires forall s, a :: s in states ==> Apply(X, Y, a, s) in states
    ensures Run(X, Y, Start, p) in states
    decreases |p|
  {
    if p != [] {
      ClosedHoldsReachable(X, Y, states, Init(p));
    }
  }

  // ---------------------------------------------------------------------------
  // The order in which breadth-first search dequeues paths.

  /** Lexicographic order on paths of equal length, ranking actions by ActionOrder. */
  predicate LexLess(p: seq<Action>, q: seq<Action>)
    requires |p| == |q|
    decreases |p|
  {
    p != [] &&
    (LexLess(Init(p), Init(q)) || (Init(p) == Init(q) && Index(Last(p)) < Index(Last(q))))
  }

  /** Shortlex order: fewer actions first, then lexicographic. */
  predicate Before(p: seq<Action>, q: seq<Action>) {
    |p| < |q| || (|p| == |q| && LexLess(p, q))
  }

  predicate BeforeOrSame(p: seq<Action>, q: seq<Action>) {
    p == q || Before(p, q)
  }

  lemma {:induction false} LexIrreflexive(p: seq<Action>)
    ensures !LexLess(p, p)
    decreases |p|
  {
    if p != [] {
      LexIrreflexive(Init(p));
    }
  }

  lemma {:induction false} LexTransitive(p: seq<Action>, q: seq<Action>, r: seq<Action>)
    requires |p| == |q| == |r|
    requires LexLess(p, q) && LexLess(q, r)
    ensures LexLess(p, r)
    decreases |p|
  {
    if LexLess(Init(p), Init(q)) && LexLess(Init(q), Init(r)) {
      LexTransitive(Init(p), Init(q), Init(r));
    }
  }

  lemma {:induction false} LexTotal(p: seq<Action>, q: seq<Action>)
    requires |p| == |q|
    ensures p == q || LexLess(p, q) || LexLess(q, p)
    decreases |p|
  {
    if p != [] {
      LexTotal(Init(p), Init(q));
      if Init(p) == Init(q) && Last(p) == Last(q) {
        InitLast(p);
        InitLast(q);
      }
    }
  }

  /** A path lexicographically below another agrees with it up to some position and has an earlier action there. */
  lemma {:induction false} LexLessAt(p: seq<Action>, q: seq<Action>)
    requires |p| == |q| && LexLess(p, q)
    ensures exists k :: 0 <= k < |q| && p[..k] == q[..k] && Index(p[k]) < Index(q[k])
    decreases |p|
  {
    if LexLess(Init(p), Init(q)) {
      LexLessAt(Init(p), Init(q));
      var k :| 0 <= k < |Init(q)| && Init(p)[..k] == Init(q)[..k] && Index(Init(p)[k]) < Index(Init(q)[k]);
      assert p[..k] == Init(p)[..k] && q[..k] == Init(q)[..k];
      assert p[k] == Init(p)[k] && q[k] == Init(q)[k];
    } else {
      assert p[..|q| - 1] == Init(p);
    }
  }

  lemma BeforeIrreflexive(p: seq<Action>)
    ensures !Before(p, p)
  {
    LexIrreflexive(p);
  }

  lemma BeforeTransitive(p: seq<Action>, q: seq<Action>, r: seq<Action>)
    requires Before(p, q) && Before(q, r)
    ensures Before(p, r)
  {
    if |p| == |q| == |r| {
      LexTransitive(p, q, r);
    }
  }

  /** Shortlex is a strict total order. */
  lemma BeforeTotal(p: seq<Action>, q: seq<Action>)
    ensures p == q || Before(p, q) || Before(q, p)
  {
    if |p| == |q| {
      LexTotal(p, q);
    }
  }

  lemma BeforeAsymmetric(p: seq<Action>, q: seq<Action>)
    requires Before(p, q)
    ensures !Before(q, p) && p != q
  {
    BeforeIrreflexive(p);
    if Before(q, p) {
      BeforeTransitive(p, q, p);
    }
  }

  lemma BeforeOrSameTransitive(p: seq<Action>, q: seq<Action>, r: seq<Action>)
    requires BeforeOrSame(p, q) && BeforeOrSame(q, r)
    ensures BeforeOrSame(p, r)
  {
    if Before(p, q) && Before(q, r) {
      BeforeTransitive(p, q, r);
    }
  }

  /** Mixing the strict and the non-strict order gives the strict one. */
  lemma BeforeMixed(p: seq<Action>, q: seq<Action>, r: seq<Action>)
    requires (Before(p, q) && BeforeOrSame(q, r)) || (BeforeOrSame(p, q) && Before(q, r))
    ensures Before(p, r)
  {
    if Before(p, q) && Before(q, r) {
      BeforeTransitive(p, q, r);
    }
  }

  /** Appending the same action keeps the order. */
  lemma SnocMonotone(p: seq<Action>, q: seq<Action>, a: Action)
    requires BeforeOrSame(p, q)
    ensures BeforeOrSame(p + [a], q + [a])
  {
    InitSnoc(p, a);
    InitSnoc(q, a);
  }

  /** Extending one path is ordered after it. */
  lemma SnocAfter(p: seq<Action>, a: Action)
    ensures Before(p, p + [a])
  {
  }

  /** Paths with the same prefix are ordered by their last action. */
  lemma SnocByAction(p: seq<Action>, a: Action, b: Action)
    requires Index(a) < Index(b)
    ensures Before(p + [a], p + [b])
  {
    InitSnoc(p, a);
    InitSnoc(p, b);
  }

  /** A path one action longer whose prefix comes before p comes before every one-action extension of p. */
  lemma SnocAfterEarlierPrefix(q: seq<Action>, p: seq<Action>, a: Action)
    requires q != [] && |q| == |p| + 1
    requires Before(Init(q), p)
    ensures Before(q, p + [a])
  {
    InitSnoc(p, a);
  }

  /** The prefix of a path that comes before r comes no later than the prefix of r. */
  lemma InitMonotone(q: seq<Action>, r: seq<Action>)
    requires q != [] && r != []
    requires Before(q, r)
    ensures BeforeOrSame(Init(q), Init(r))
  {
  }

  // ---------------------------------------------------------------------------
  // Which amounts can ever be measured.

  ghost predicate MultipleOf(n: int, g: nat) {
    exists k: int :: n == g * k
  }

  lemma {:induction false} ApplyKeepsMultiples(X: nat, Y: nat, g: nat, a: Action, s: State)
    requires MultipleOf(X, g) && MultipleOf(Y, g)
    requires MultipleOf(s.x, g) && MultipleOf(s.y, g)
    ensures MultipleOf(Apply(X, Y, a, s).x, g) && MultipleOf(Apply(X, Y, a, s).y, g)
  {
    var kx :| X == g * kx;
    var ky :| Y == g * ky;
    var i :| s.x == g * i;
    var j :| s.y == g * j;
    assert 0 == g * 0;
    assert s.x + s.y == g * (i + j);
    assert s.x - (Y - s.y) == g * (i - (ky - j));
    assert s.y - (X - s.x) == g * (j - (kx - i));
  }

  /**
   * Every level reachable from Start is a multiple of any common divisor of the
   * capacities; so a target that no common divisor divides is never reached.
   */
  lemma {:induction false} ReachableLevelsAreMultiples(X: nat, Y: nat, g: nat, p: seq<Action>)
    requires MultipleOf(X, g) && MultipleOf(Y, g)
    ensures MultipleOf(Run(X, Y, Start, p).x, g) && MultipleOf(Run(X, Y, Start, p).y, g)
    decreases |p|
  {
    if p == [] {
      assert 0 == g * 0;
    } else {
      ReachableLevelsAreMultiples(X, Y, g, Init(p));
      ApplyKeepsMultiples(X, Y, g, Last(p), Run(X, Y, Start, Init(p)));
    }
  }

  /** A target larger than both capacities is never reached. */
  lemma ShortCircuitSound(X: nat, Y: nat, Z: int)
    requires Z > X && Z > Y
    ensures !Solvable(X, Y, Z)
  {
    forall p: seq<Action> ensures !IsGoal(Z, Run(X, Y, Start, p)) {
      assert InBounds(X, Y, Run(X, Y, Start, p));
    }
  }
}
