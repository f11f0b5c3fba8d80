/**
 * The cases of test/solution.test.js, derived from the contracts alone: the exact
 * traces for (2, 10, 4) and (2, 100, 96), the empty result for (2, 6, 5) and (2, 3, 5),
 * and the handler's answers to valid and invalid request bodies.
 */
module Scenarios {
  import opened Jugs
  import opened Paths
  import opened Traces
  import opened Search
  import opened Controller

  // ---------------------------------------------------------------------------
  // Showing that a given trace is the least solution, by bounding what shorter
  // and lexicographically smaller paths can reach.

  /** Every action applied to a state of `from` lands in `to`. */
  ghost predicate StepsInto(X: nat, Y: nat, from: set<State>, to: set<State>) {
    forall s, a :: s in from ==> Apply(X, Y, a, s) in to
  }

  /** layers[i + 1] holds every successor of layers[i]. */
  ghost predicate Layered(X: nat, Y: nat, layers: seq<set<State>>) {
    forall i :: 0 <= i < |layers| - 1 ==> StepsInto(X, Y, layers[i], layers[i + 1])
  }

  predicate GoalFree(Z: int, states: set<State>) {
    forall s :: s in states ==> !IsGoal(Z, s)
  }

  /** A path of length i from a state of layers[0] ends in layers[i]. */
  lemma {:induction false} RunInLayers(X: nat, Y: nat, layers: seq<set<State>>, s: State, p: seq<Action>)
    requires Layered(X, Y, layers) && |p| < |layers| && s in layers[0]
    ensures Run(X, Y, s, p) in layers[|p|]
    decreases |p|
  {
    if p != [] {
      RunInLayers(X, Y, layers, s, Init(p));
      assert StepsInto(X, Y, layers[|p| - 1], layers[|p|]);
    }
  }

  /**
   * Paths that leave the trace E at step k with an earlier action: layers[0] holds
   * where that action leads, and the last layer, where the rest of such a path of
   * E's length ends, holds no goal.
   */
  ghost predicate Detour(X: nat, Y: nat, Z: int, E: seq<Step>, k: nat, layers: seq<set<State>>)
    requires k < |E|
  {
    && |layers| == |E| - k
    && Layered(X, Y, layers)
    && GoalFree(Z, layers[|E| - k - 1])
    && forall b :: Index(b) < Index(E[k].action) ==> Apply(X, Y, b, EndState(E[..k])) in layers[0]
  }

  /** A path of E's length that departs from E at step k with an earlier action reaches no goal. */
  lemma DetourMissesGoal(X: nat, Y: nat, Z: int, E: seq<Step>, k: nat, layers: seq<set<State>>, q: seq<Action>)
    requires ValidTrace(X, Y, E) && k < |E| && Detour(X, Y, Z, E, k, layers)
    requires |q| == |E| && q[..k] == ActionsOf(E)[..k] && Index(q[k]) < Index(E[k].action)
    ensures !IsGoal(Z, Run(X, Y, Start, q))
  {
    ValidTracePrefix(X, Y, E, k);
    TraceRuns(X, Y, E[..k]);
    assert ActionsOf(E[..k]) == ActionsOf(E)[..k];
    assert q[..k + 1] == q[..k] + [q[k]];
    RunSnoc(X, Y, Start, q[..k], q[k]);
    var t := Run(X, Y, Start, q[..k + 1]);
    assert t in layers[0];
    assert q == q[..k + 1] + q[k + 1..];
    RunAppend(X, Y, Start, q[..k + 1], q[k + 1..]);
    RunInLayers(X, Y, layers, t, q[k + 1..]);
  }

  /**
   * A valid trace reaching the goal is the least solution when no shorter path
   * reaches a goal (`shorter`) and no equally long path that departs from it with
   * an earlier action does (`detours`).
   */
  lemma LeastByLayers(X: nat, Y: nat, Z: int, E: seq<Step>,
                      shorter: seq<set<State>>, detours: seq<seq<set<State>>>)
    requires E != [] && ValidTrace(X, Y, E) && IsGoal(Z, EndState(E))
    requires |shorter| == |E| && Start in shorter[0] && Layered(X, Y, shorter)
    requires forall i :: 0 <= i < |shorter| ==> GoalFree(Z, shorter[i])
    requires |detours| == |E|
    requires forall k :: 0 <= k < |E| ==> Detour(X, Y, Z, E, k, detours[k])
    ensures LeastSolution(X, Y, Z, ActionsOf(E))
  {
    var P := ActionsOf(E);
    TraceRuns(X, Y, E);
    forall q | Before(q, P) ensures !IsGoal(Z, Run(X, Y, Start, q)) {
      if |q| < |P| {
        RunInLayers(X, Y, shorter, Start, q);
        assert GoalFree(Z, shorter[|q|]);
      } else {
        LexLessAt(q, P);
        var k :| 0 <= k < |P| && q[..k] == P[..k] && Index(q[k]) < Index(P[k]);
        DetourMissesGoal(X, Y, Z, E, k, detours[k], q);
      }
    }
  }

  /** A valid, marked trace of the least solution is what the solver must return. */
  lemma LeastTraceIsResult(X: nat, Y: nat, Z: int, E: seq<Step>, steps: seq<Step>)
    requires SolverResult(X, Y, Z, steps)
    requires ValidTrace(X, Y, E) && MarkedLast(E) && LeastSolution(X, Y, Z, ActionsOf(E))
    ensures steps == E
  {
    TraceRuns(X, Y, E);
    assert Solvable(X, Y, Z) by {
      assert IsGoal(Z, Run(X, Y, Start, ActionsOf(E)));
    }
    SolverResultUnique(X, Y, Z, steps, E);
  }

  // ---------------------------------------------------------------------------
  // findSolution(2, 10, 4)

  const TwoTenFour: seq<Step> := [
    Step(1, 2, 0, FillX, false),
    Step(2, 0, 2, TransferXY, false),
    Step(3, 2, 2, FillX, false),
    Step(4, 0, 4, TransferXY, true)
  ]

  /** Levels reachable from Start in at most 0, 1, 2 and 3 actions with jugs of 2 and 10. */
  function TwoTenShorter(): seq<set<State>> {
    var L0 := {State(0, 0)};
    var L1 := L0 + {State(2, 0), State(0, 10)};
    var L2 := L1 + {State(2, 10), State(0, 2), State(2, 8)};
    var L3 := L2 + {State(2, 2), State(0, 8)};
    [L0, L1, L2, L3]
  }

  lemma TwoTenShorterOk()
    ensures Layered(2, 10, TwoTenShorter())
    ensures forall i :: 0 <= i < 4 ==> GoalFree(4, TwoTenShorter()[i])
  {
    var L := TwoTenShorter();
    assert StepsInto(2, 10, L[0], L[1]);
    assert StepsInto(2, 10, L[1], L[2]);
    assert StepsInto(2, 10, L[2], L[3]);
  }

  /** For each step of TwoTenFour, where paths departing there with an earlier action lead. */
  function TwoTenDetours(): seq<seq<set<State>>> {
    // departing at step 2 from (2, 0)
    var T1 := {State(2, 0), State(2, 10), State(0, 0)};
    var M1 := T1 + {State(0, 2), State(0, 10)};
    var M2 := M1 + {State(2, 2), State(2, 8)};
    // departing at step 4 from (2, 2)
    var T3 := {State(2, 2), State(2, 10), State(0, 2), State(2, 0)};
    [[{}, {}, {}, {}], [T1, M1, M2], [{}, {}], [T3]]
  }

  lemma TwoTenDetour1()
    ensures Detour(2, 10, 4, TwoTenFour, 1, TwoTenDetours()[1])
  {
    var D := TwoTenDetours()[1];
    assert StepsInto(2, 10, D[0], D[1]);
    assert StepsInto(2, 10, D[1], D[2]);
    assert TwoTenFour[..1] == [TwoTenFour[0]];
  }

  lemma TwoTenDetour3()
    ensures Detour(2, 10, 4, TwoTenFour, 3, TwoTenDetours()[3])
  {
    assert EndState(TwoTenFour[..3]) == State(2, 2);
  }

  /** No path departs at steps 1 and 3 with an earlier action than FillX. */
  lemma TwoTenDetourNone()
    ensures Detour(2, 10, 4, TwoTenFour, 0, TwoTenDetours()[0])
    ensures Detour(2, 10, 4, TwoTenFour, 2, TwoTenDetours()[2])
  {
  }

  lemma TwoTenFourValid()
    ensures ValidTrace(2, 10, TwoTenFour) && MarkedLast(TwoTenFour) && IsGoal(4, EndState(TwoTenFour))
  {
    var E := TwoTenFour;
    assert StepFits(2, 10, E, 0) && StepFits(2, 10, E, 1) && StepFits(2, 10, E, 2) && StepFits(2, 10, E, 3);
  }

  lemma TwoTenFourIsLeast()
    ensures ValidTrace(2, 10, TwoTenFour) && MarkedLast(TwoTenFour)
    ensures LeastSolution(2, 10, 4, ActionsOf(TwoTenFour))
  {
    var E := TwoTenFour;
    TwoTenFourValid();
    TwoTenShorterOk();
    TwoTenDetour1();
    TwoTenDetour3();
    TwoTenDetourNone();
    assert forall k :: 0 <= k < 4 ==> Detour(2, 10, 4, E, k, TwoTenDetours()[k]) by {
      forall k | 0 <= k < 4 ensures Detour(2, 10, 4, E, k, TwoTenDetours()[k]) {
        assert k == 0 || k == 1 || k == 2 || k == 3;
      }
    }
    LeastByLayers(2, 10, 4, E, TwoTenShorter(), TwoTenDetours());
  }

  /** test/solution.test.js: the solver's steps for jugs of 2 and 10 and target 4. */
  method SolveTwoTenFour() returns (steps: seq<Step>)
    ensures steps == TwoTenFour
    ensures LabelsOf(steps) ==
      ["Fill bucket X", "Transfer from bucket X to Y", "Fill bucket X", "Transfer from bucket X to Y"]
  {
    steps := FindSolution(2, 10, 4);
    TwoTenFourIsLeast();
    LeastTraceIsResult(2, 10, 4, TwoTenFour, steps);
  }

  // ---------------------------------------------------------------------------
  // findSolution(2, 100, 96)

  const TwoHundredNinetySix: seq<Step> := [
    Step(1, 0, 100, FillY, false),
    Step(2, 2, 98, TransferYX, false),
    Step(3, 0, 98, EmptyX, false),
    Step(4, 2, 96, TransferYX, true)
  ]

  /** Levels reachable from Start in at most 0, 1, 2 and 3 actions with jugs of 2 and 100. */
  function TwoHundredShorter(): seq<set<State>> {
    var L0 := {State(0, 0)};
    var L1 := L0 + {State(2, 0), State(0, 100)};
    var L2 := L1 + {State(2, 100), State(0, 2), State(2, 98)};
    var L3 := L2 + {State(2, 2), State(0, 98)};
    [L0, L1, L2, L3]
  }

  lemma TwoHundredShorterOk()
    ensures Layered(2, 100, TwoHundredShorter())
    ensures forall i :: 0 <= i < 4 ==> GoalFree(96, TwoHundredShorter()[i])
  {
    var L := TwoHundredShorter();
    assert StepsInto(2, 100, L[0], L[1]);
    assert StepsInto(2, 100, L[1], L[2]);
    assert StepsInto(2, 100, L[2], L[3]);
  }

  /** For each step of TwoHundredNinetySix, where paths departing there with an earlier action lead. */
  function TwoHundredDetours(): seq<seq<set<State>>> {
    // departing at step 1 from (0, 0) with FillX
    var T0 := {State(2, 0)};
    var N1 := T0 + {State(2, 100), State(0, 0), State(0, 2)};
    var N2 := N1 + {State(0, 100), State(2, 2)};
    var N3 := N2 + {State(2, 98), State(0, 4)};
    // departing at step 2 from (0, 100) with anything before TransferYX
    var T1 := {State(2, 100), State(0, 100), State(0, 0)};
    var P1 := T1 + {State(2, 0), State(2, 98)};
    var P2 := P1 + {State(0, 2), State(0, 98)};
    // departing at step 3 from (2, 98) with FillX or FillY
    var T2 := {State(2, 98), State(2, 100)};
    var Q1 := T2 + {State(0, 98), State(2, 0), State(0, 100)};
    // departing at step 4 from (0, 98) with anything before TransferYX
    var T3 := {State(2, 98), State(0, 100), State(0, 98), State(0, 0)};
    [[T0, N1, N2, N3], [T1, P1, P2], [T2, Q1], [T3]]
  }

  lemma TwoHundredDetour0Step(i: nat)
    requires i < 3
    ensures StepsInto(2, 100, TwoHundredDetours()[0][i], TwoHundredDetours()[0][i + 1])
  {
    var D := TwoHundredDetours()[0];
    if i == 0 {
      assert StepsInto(2, 100, D[0], D[1]);
    } else if i == 1 {
      assert StepsInto(2, 100, D[1], D[2]);
    } else {
      assert StepsInto(2, 100, D[2], D[3]);
    }
  }

  lemma TwoHundredDetour0()
    ensures Detour(2, 100, 96, TwoHundredNinetySix, 0, TwoHundredDetours()[0])
  {
    TwoHundredDetour0Step(0);
    TwoHundredDetour0Step(1);
    TwoHundredDetour0Step(2);
  }

  lemma TwoHundredDetour1()
    ensures Detour(2, 100, 96, TwoHundredNinetySix, 1, TwoHundredDetours()[1])
  {
    var D := TwoHundredDetours()[1];
    assert StepsInto(2, 100, D[0], D[1]);
    assert StepsInto(2, 100, D[1], D[2]);
    assert TwoHundredNinetySix[..1] == [TwoHundredNinetySix[0]];
  }

  lemma TwoHundredDetour2()
    ensures Detour(2, 100, 96, TwoHundredNinetySix, 2, TwoHundredDetours()[2])
  {
    var D := TwoHundredDetours()[2];
    assert StepsInto(2, 100, D[0], D[1]);
    assert EndState(TwoHundredNinetySix[..2]) == State(2, 98);
  }

  lemma TwoHundredDetour3()
    ensures Detour(2, 100, 96, TwoHundredNinetySix, 3, TwoHundredDetours()[3])
  {
    assert EndState(TwoHundredNinetySix[..3]) == State(0, 98);
  }

  lemma TwoHundredNinetySixValid()
    ensures ValidTrace(2, 100, TwoHundredNinetySix) && MarkedLast(TwoHundredNinetySix) && IsGoal(96, EndState(TwoHundredNinetySix))
  {
    var E := TwoHundredNinetySix;
    assert StepFits(2, 100, E, 0) && StepFits(2, 100, E, 1) && StepFits(2, 100, E, 2) && StepFits(2, 100, E, 3);
  }

  lemma TwoHundredNinetySixIsLeast()
    ensures ValidTrace(2, 100, TwoHundredNinetySix) && MarkedLast(TwoHundredNinetySix)
    ensures LeastSolution(2, 100, 96, ActionsOf(TwoHundredNinetySix))
  {
    var E := TwoHundredNinetySix;
    TwoHundredNinetySixValid();
    TwoHundredShorterOk();
    TwoHundredDetour0();
    TwoHundredDetour1();
    TwoHundredDetour2();
    TwoHundredDetour3();
    assert forall k :: 0 <= k < 4 ==> Detour(2, 100, 96, E, k, TwoHundredDetours()[k]) by {
      forall k | 0 <= k < 4 ensures Detour(2, 100, 96, E, k, TwoHundredDetours()[k]) {
        assert k == 0 || k == 1 || k == 2 || k == 3;
      }
    }
    LeastByLayers(2, 100, 96, E, TwoHundredShorter(), TwoHundredDetours());
  }

  /** test/solution.test.js: the solver's steps for jugs of 2 and 100 and target 96. */
  method SolveTwoHundredNinetySix() returns (steps: seq<Step>)
    ensures steps == TwoHundredNinetySix
    ensures LabelsOf(steps) ==
      ["Fill bucket Y", "Transfer from bucket Y to X", "Empty bucket X", "Transfer from bucket Y to X"]
  {
    steps := FindSolution(2, 100, 96);
    TwoHundredNinetySixIsLeast();
    LeastTraceIsResult(2, 100, 96, TwoHundredNinetySix, steps);
  }

  // ---------------------------------------------------------------------------
  // Targets the solver cannot reach.

  /** Jugs of 2 and 6 only ever hold even amounts, so 5 is out of reach. */
  lemma TwoSixFiveUnsolvable()
    ensures !Solvable(2, 6, 5)
  {
    assert 2 == 2 * 1 && 6 == 2 * 3;
    forall p: seq<Action> ensures !IsGoal(5, Run(2, 6, Start, p)) {
      ReachableLevelsAreMultiples(2, 6, 2, p);
    }
  }

  /** test/solution.test.js: no steps for jugs of 2 and 6 and target 5. */
  method SolveTwoSixFive() returns (steps: seq<Step>)
    ensures steps == []
  {
    steps := FindSolution(2, 6, 5);
    TwoSixFiveUnsolvable();
  }

  /** test/solution.test.js: no steps for jugs of 2 and 3 and target 5. */
  method SolveTwoThreeFive() returns (steps: seq<Step>)
    ensures steps == []
  {
    steps := FindSolution(2, 3, 5);
    ShortCircuitSound(2, 3, 5);
  }

  // ---------------------------------------------------------------------------
  // The handler.

  /** A valid body with a reachable target gets 200 and the solver's steps. */
  method PostTwoTenFour() returns (r: Response)
    ensures r == Response(200, SolutionSteps(TwoTenFour))
  {
    r := GetSolution(Int(2), Int(10), Int(4));
    TwoTenFourIsLeast();
    TraceRuns(2, 10, TwoTenFour);
    assert IsGoal(4, Run(2, 10, Start, ActionsOf(TwoTenFour)));
    LeastTraceIsResult(2, 10, 4, TwoTenFour, r.body.steps);
  }

  /** A target above both capacities gets 200 and "No solution possible". */
  method PostTwoThreeFive() returns (r: Response)
    ensures r == Response(200, SolutionText(NoSolutionMessage))
  {
    r := GetSolution(Int(2), Int(3), Int(5));
    ShortCircuitSound(2, 3, 5);
  }

  /** A negative capacity gets 400. */
  method PostNegative() returns (r: Response)
    ensures r == Response(400, ErrorBody(InvalidInputMessage))
  {
    r := GetSolution(Int(-1), Int(2), Int(5));
  }

  /** A string, or a null, in place of a number gets 400. */
  method PostNonNumbers() returns (r: Response, r': Response)
    ensures r == Response(400, ErrorBody(InvalidInputMessage))
    ensures r' == Response(400, ErrorBody(InvalidInputMessage))
  {
    r := GetSolution(Int(2), NonInteger, Int(5));
    r' := GetSolution(NonInteger, Int(3), Int(5));
  }
}
