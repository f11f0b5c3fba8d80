/** The step list the solver returns: numbered steps, each recording an action and the levels after it. */
module Traces {
  import opened Jugs
  import opened Paths

  /** One step of a trace; `solved` stands for the optional `status: "Solved"` field. */
  datatype Step = Step(step: nat, bucketX: nat, bucketY: nat, action: Action, solved: bool)

  function StateOf(st: Step): State {
    State(st.bucketX, st.bucketY)
  }

  /** The actions a trace performs, in order. */
  function ActionsOf(steps: seq<Step>): seq<Action> {
    seq(|steps|, i requires 0 <= i < |steps| => steps[i].action)
  }

  /** The `action` text of each step, as the solver writes it. */
  function LabelsOf(steps: seq<Step>): seq<string> {
    seq(|steps|, i requires 0 <= i < |steps| => Label(steps[i].action))
  }

  /** The state a trace leaves the jugs in: Start for the empty trace. */
  function EndState(steps: seq<Step>): State {
    if steps == [] then Start else StateOf(steps[|steps| - 1])
  }

  /**
   * Steps are numbered 1, 2, ... and each records the state its action produces
   * from the state recorded by the step before (from Start for the first step).
   */
  predicate ValidTrace(X: nat, Y: nat, steps: seq<Step>) {
    forall i :: 0 <= i < |steps| ==> StepFits(X, Y, steps, i)
  }

  /** Step i is numbered i+1 and follows from the state before it. */
  predicate StepFits(X: nat, Y: nat, steps: seq<Step>, i: nat)
    requires i < |steps|
  {
    && steps[i].step == i + 1
    && StateOf(steps[i]) == Apply(X, Y, steps[i].action, if i == 0 then Start else StateOf(steps[i - 1]))
  }

  lemma ValidTracePrefix(X: nat, Y: nat, steps: seq<Step>, k: nat)
    requires ValidTrace(X, Y, steps) && k <= |steps|
    ensures ValidTrace(X, Y, steps[..k])
  {
    forall i | 0 <= i < k ensures StepFits(X, Y, steps[..k], i) {
      assert StepFits(X, Y, steps, i);
    }
  }

  /** No step carries the "Solved" marker. */
  predicate Unmarked(steps: seq<Step>) {
    forall i :: 0 <= i < |steps| ==> !steps[i].solved
  }

  /** The last step, and only the last step, carries the "Solved" marker. */
  predicate MarkedLast(steps: seq<Step>) {
    && steps != []
    && steps[|steps| - 1].solved
    && forall i :: 0 <= i < |steps| - 1 ==> !steps[i].solved
  }

  /** The step appended when the search extends a trace by action `a`, which led to `n`. */
  function NextStep(steps: seq<Step>, a: Action, n: State): Step {
    Step(|steps| + 1, n.x, n.y, a, false)
  }

  /** Marks the last step "Solved". */
  function MarkSolved(steps: seq<Step>): (r: seq<Step>)
    requires steps != []
    ensures |r| == |steps| && r[|r| - 1].solved
    ensures forall i :: 0 <= i < |r| ==> r[i].(solved := steps[i].solved) == steps[i]
    ensures forall i :: 0 <= i < |r| - 1 ==> r[i] == steps[i]
    ensures Unmarked(steps) ==> MarkedLast(r)
  {
    steps[..|steps| - 1] + [steps[|steps| - 1].(solved := true)]
  }

  /** Marking changes neither the actions, nor the states, nor the numbering. */
  lemma MarkSolvedKeepsTrace(X: nat, Y: nat, steps: seq<Step>)
    requires steps != []
    ensures ValidTrace(X, Y, steps) ==> ValidTrace(X, Y, MarkSolved(steps))
    ensures ActionsOf(MarkSolved(steps)) == ActionsOf(steps)
    ensures EndState(MarkSolved(steps)) == EndState(steps)
  {
    var r := MarkSolved(steps);
    if ValidTrace(X, Y, steps) {
      forall i | 0 <= i < |r| ensures StepFits(X, Y, r, i) {
        assert StepFits(X, Y, steps, i);
        assert StateOf(r[i]) == StateOf(steps[i]);
        assert i > 0 ==> StateOf(r[i - 1]) == StateOf(steps[i - 1]);
      }
    }
  }

  lemma ValidTraceSnoc(X: nat, Y: nat, steps: seq<Step>, a: Action)
    requires ValidTrace(X, Y, steps)
    ensures ValidTrace(X, Y, steps + [NextStep(steps, a, Apply(X, Y, a, EndState(steps)))])
    ensures ActionsOf(steps + [NextStep(steps, a, Apply(X, Y, a, EndState(steps)))]) == ActionsOf(steps) + [a]
    ensures EndState(steps + [NextStep(steps, a, Apply(X, Y, a, EndState(steps)))]) == Apply(X, Y, a, EndState(steps))
  {
    var t := steps + [NextStep(steps, a, Apply(X, Y, a, EndState(steps)))];
    forall i | 0 <= i < |t| ensures StepFits(X, Y, t, i) {
      if i < |steps| {
        assert StepFits(X, Y, steps, i);
      }
    }
  }

  /** A valid trace stays in bounds and ends where running its actions from Start ends. */
  lemma {:induction false} TraceRuns(X: nat, Y: nat, steps: seq<Step>)
    requires ValidTrace(X, Y, steps)
    ensures Run(X, Y, Start, ActionsOf(steps)) == EndState(steps)
    ensures forall i :: 0 <= i < |steps| ==> InBounds(X, Y, StateOf(steps[i]))
    decreases |steps|
  {
    if steps != [] {
      var n := |steps| - 1;
      var prefix := steps[..n];
      ValidTracePrefix(X, Y, steps, n);
      TraceRuns(X, Y, prefix);
      assert ActionsOf(steps) == ActionsOf(prefix) + [steps[n].action];
      RunSnoc(X, Y, Start, ActionsOf(prefix), steps[n].action);
      assert StepFits(X, Y, steps, n);
      assert n > 0 ==> EndState(prefix) == StateOf(steps[n - 1]);
      assert InBounds(X, Y, EndState(prefix));
    }
  }

  /** A valid trace is determined by its actions and its markers. */
  lemma {:induction false} TraceDeterminedByActions(X: nat, Y: nat, s: seq<Step>, t: seq<Step>)
    requires ValidTrace(X, Y, s) && ValidTrace(X, Y, t)
    requires ActionsOf(s) == ActionsOf(t)
    requires forall i :: 0 <= i < |s| ==> s[i].solved == t[i].solved
    ensures s == t
    decreases |s|
  {
    assert |s| == |ActionsOf(s)| == |t|;
    if s != [] {
      var n := |s| - 1;
      ValidTracePrefix(X, Y, s, n);
      ValidTracePrefix(X, Y, t, n);
      assert ActionsOf(s[..n]) == ActionsOf(s)[..n];
      assert ActionsOf(t[..n]) == ActionsOf(t)[..n];
      TraceDeterminedByActions(X, Y, s[..n], t[..n]);
      assert s[n].action == ActionsOf(s)[n] == ActionsOf(t)[n] == t[n].action;
      assert StepFits(X, Y, s, n) && StepFits(X, Y, t, n);
      assert n > 0 ==> s[n - 1] == s[..n][n - 1] == t[..n][n - 1] == t[n - 1];
      assert StateOf(s[n]) == StateOf(t[n]);
      assert s == s[..n] + [s[n]];
    }
  }
}
