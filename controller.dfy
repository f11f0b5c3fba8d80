/**
 * The request handler getSolution: validates the three body fields, short-circuits
 * a target larger than both jugs, and otherwise runs the solver and shapes its result.
 */
module Controller {
  import opened Jugs
  import opened Paths
  import opened Traces
  import opened Search

  /** A field of the JSON body: an integer, or any value Number.isInteger rejects (string, null, fraction). */
  datatype JsonValue = Int(n: int) | NonInteger

  /** The JSON body of the response. */
  datatype Body =
    | ErrorBody(error: string)
    | SolutionText(text: string)
    | SolutionSteps(steps: seq<Step>)

  datatype Response = Response(status: nat, body: Body)

  const InvalidInputMessage := "All inputs must be positive integers"
  const NoSolutionMessage := "No solution possible"

  predicate PositiveInt(v: JsonValue) {
    v.Int? && v.n > 0
  }

  predicate AllPositive(x: JsonValue, y: JsonValue, z: JsonValue) {
    PositiveInt(x) && PositiveInt(y) && PositiveInt(z)
  }

  /** What the handler decides before any search. */
  datatype Screening = Reject | Hopeless | RunSearch(X: nat, Y: nat, Z: nat)

  /** The validation and short-circuit checks, in the handler's order. */
  function Screen(x: JsonValue, y: JsonValue, z: JsonValue): (r: Screening)
    ensures r.Reject? <==> !AllPositive(x, y, z)
    ensures r.Hopeless? <==> AllPositive(x, y, z) && z.n > x.n && z.n > y.n
    ensures r.RunSearch? ==> r == RunSearch(x.n, y.n, z.n) && r.Z > 0 && (r.Z <= r.X || r.Z <= r.Y)
  {
    if !x.Int? || !y.Int? || !z.Int? || x.n <= 0 || y.n <= 0 || z.n <= 0 then
      Reject
    else if z.n > x.n && z.n > y.n then
      Hopeless
    else
      RunSearch(x.n, y.n, z.n)
  }

  /** The short-circuit answers exactly as the search would: there is nothing to find. */
  lemma HopelessIsUnsolvable(x: JsonValue, y: JsonValue, z: JsonValue)
    requires Screen(x, y, z).Hopeless?
    ensures !Solvable(x.n, y.n, z.n)
  {
    ShortCircuitSound(x.n, y.n, z.n);
  }

  /**
   * getSolution: 400 with the fixed error for any field that is not a positive
   * integer; otherwise 200 with "No solution possible" exactly when no sequence of
   * actions measures the target, or with the solver's steps.
   */
  method GetSolution(x: JsonValue, y: JsonValue, z: JsonValue) returns (r: Response)
    ensures !AllPositive(x, y, z) <==> r == Response(400, ErrorBody(InvalidInputMessage))
    ensures AllPositive(x, y, z) ==>
      r.status == 200 && (r.body == SolutionText(NoSolutionMessage) || r.body.SolutionSteps?)
    ensures AllPositive(x, y, z) ==>
      (r.body == SolutionText(NoSolutionMessage) <==> !Solvable(x.n, y.n, z.n))
    ensures r.body.SolutionSteps? ==>
      AllPositive(x, y, z) && r.body.steps != [] && SolverResult(x.n, y.n, z.n, r.body.steps)
  {
    match Screen(x, y, z)
    case Reject =>
      r := Response(400, ErrorBody(InvalidInputMessage));
    case Hopeless =>
      HopelessIsUnsolvable(x, y, z);
      r := Response(200, SolutionText(NoSolutionMessage));
    case RunSearch(cx, cy, cz) =>
      var solution := FindSolution(cx, cy, cz);
      if |solution| == 0 {
        r := Response(200, SolutionText(NoSolutionMessage));
      } else {
        r := Response(200, SolutionSteps(solution));
      }
  }
}
