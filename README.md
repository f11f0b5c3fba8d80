# Water-jug solver: a verified model

This project models the two-jug puzzle service (`water-jug-challenge`). You have
jug X of capacity X, jug Y of capacity Y, and a target amount Z. Each action fills
a jug, empties a jug, or pours one jug into the other. The solver
`findSolution(X, Y, Z)` runs a breadth-first search over the pairs of levels. It
returns the numbered steps of a solution, with the last step marked "Solved", or
`[]` when there is none. The request handler `getSolution` validates the three
body fields and rejects a target above both capacities without searching.
Otherwise it calls the solver and wraps the result.

Modules:

- `Jugs` (jugs.dfy): levels, the six actions in the solver's fixed order, and the
  successor table `Apply`. It also counts the in-bounds states, which bounds the
  search.
- `Paths` (paths.dfy): running a sequence of actions from a state. It defines the
  order in which breadth-first search meets paths: fewer actions first, then by
  action order from the first action on. It also proves that every level that can be
  measured is a multiple of each common divisor of the capacities.
- `Traces` (traces.dfy): the step lists the solver returns. Steps are numbered
  1..n and replay from (0, 0). Only the last step carries the "Solved" marker.
- `Search` (search.dfy): `FindSolution`, the search loop as an imperative method.
  It keeps a `seq` queue and a `set` of visited states, and `EnqueueSuccessors`
  is its inner loop. The loop invariant, and the lemmas that keep it, show what
  the result is. It is the least solution in breadth-first order. The search
  returns `[]` exactly when no sequence of actions reaches the target. The loop
  terminates by a lexicographic measure. A visit adds a new state to the visited
  set, which stays within the (X+1)*(Y+1) in-bounds states. A skip of an
  already-visited entry leaves the visited set alone and shortens the queue.
- `Controller` (controller.dfy): the decisions of `getSolution`: validation, the
  short-circuit, and shaping the solver's result into a response.
- `Scenarios` (scenarios.dfy): the cases of `test/solution.test.js`. Each one
  follows from the contracts alone. The exact traces for (2, 10, 4) and
  (2, 100, 96) follow from "least solution". The lemmas list the levels that
  shorter paths, and lexicographically earlier paths of the same length, can
  reach, and none of those levels is the goal.

The solver's contract leaves no freedom: `Search.SolverResultUnique` shows that
two step lists meeting it are equal. The tie-break between equal-length solutions
is therefore fixed by the action order Fill X, Fill Y, Empty X, Empty Y, Transfer
X→Y, Transfer Y→X.

With Z = 0 the start state (0, 0) passes the goal test at line 23 while `steps`
is still empty. Line 28 then sets `.status` on `undefined`, which throws.
`FindSolution` therefore requires Z ≠ 0. `getSolution` never passes 0, because it
rejects every non-positive input.

## Model

| member | source | states |
|---|---|---|
| Jugs.Apply | src/controllers/solution.controllers.js:43-58 | Every action maps an in-bounds state to an in-bounds state. Transfers conserve the total amount. A transfer stops exactly when the source is empty or the target is full. Fill and empty leave the other jug as it was. |
| Jugs.PouredIsTransfer | src/controllers/solution.controllers.js:48-57 | The max/min expressions of the two transfers are the only results that conserve water, stay within capacity, and leave the source empty or the target full. |
| Jugs.GridSize | src/controllers/solution.controllers.js:35-40 | There are exactly (X+1)*(Y+1) in-bounds states, which bounds the visited set. |
| Paths.Run | src/controllers/solution.controllers.js:43-58 | Performing any sequence of actions from an in-bounds state stays in bounds. |
| Paths.ClosedHoldsReachable | src/controllers/solution.controllers.js:72-75 | A set that holds (0, 0) and is closed under every action holds every reachable state, so an exhausted search has seen all of them. |
| Paths.BeforeTotal | src/controllers/solution.controllers.js:61-70 | The breadth-first order on paths (shorter first, then by action order) is total. |
| Paths.BeforeTransitive | src/controllers/solution.controllers.js:61-70 | The breadth-first order on paths is transitive. |
| Paths.LexLessAt | src/controllers/solution.controllers.js:43-58 | A path that comes lexicographically before another agrees with it up to some step and has an earlier action there. |
| Paths.ReachableLevelsAreMultiples | src/controllers/solution.controllers.js:43-58 | Every level reachable from (0, 0) is a multiple of every common divisor of X and Y. |
| Paths.ShortCircuitSound | src/controllers/solution.controllers.js:93-95 | A target larger than both capacities is never reached. |
| Traces.MarkSolved | src/controllers/solution.controllers.js:23-31 | The copy keeps every step before the last unchanged and keeps the last one's fields except the marker. Its last step is marked. If no step was marked before, only the last one is marked after. |
| Traces.MarkSolvedKeepsTrace | src/controllers/solution.controllers.js:25-28 | Marking keeps the trace valid and keeps its actions and its final levels. |
| Traces.ValidTraceSnoc | src/controllers/solution.controllers.js:65-68 | Appending the step numbered `steps.length + 1` keeps a trace valid. The actions grow by one, and the trace ends at that action's successor. |
| Traces.TraceRuns | src/controllers/solution.controllers.js:43-68 | A valid trace ends where running its actions from (0, 0) ends, and every recorded step is in bounds. |
| Traces.TraceDeterminedByActions | src/controllers/solution.controllers.js:65-68 | Two valid traces with the same actions and the same markers are equal. |
| Search.UnvisitedMembers | src/controllers/solution.controllers.js:61-63 | The actions kept are exactly those whose successor has not been visited. |
| Search.EnqueueSuccessors | src/controllers/solution.controllers.js:61-70 | The queue grows by one extended entry per unvisited successor, in action order. |
| Search.ExpansionSorted | src/controllers/solution.controllers.js:61-70 | The entries enqueued after one visit are in strictly increasing breadth-first order. |
| Search.ExpansionCovers | src/controllers/solution.controllers.js:61-70 | Every unvisited successor of the visited state is enqueued with the path extended by its action. |
| Search.InitInv | src/controllers/solution.controllers.js:9-15 | The seeded queue and the empty visited set satisfy the loop invariant. |
| Search.SkipKeepsInv | src/controllers/solution.controllers.js:35-37 | Dropping an already-visited entry keeps the loop invariant. |
| Search.VisitKeepsInv | src/controllers/solution.controllers.js:39-70 | Visiting a new non-goal state and enqueuing its successors keeps the loop invariant. |
| Search.FindSolution | src/controllers/solution.controllers.js:7-76 | The result is a valid trace. It is empty exactly when no sequence of actions reaches Z. Otherwise only its last step is marked, it ends at a goal, and its actions are the least solution in breadth-first order. The loop terminates. |
| Search.LeastSolutionUnique | src/controllers/solution.controllers.js:18-20 | There is at most one least solution. |
| Search.SolverResultUnique | src/controllers/solution.controllers.js:7-76 | Two step lists that meet the solver's contract are equal, so the result is determined. |
| Search.LeastSolutionIsShortest | src/controllers/solution.controllers.js:18-20 | No goal is reached in fewer actions than the solver's trace has. |
| Controller.Screen | src/controllers/solution.controllers.js:86-95 | An input is rejected exactly when some field is not a positive integer. The short-circuit applies exactly when the fields are valid and Z exceeds both capacities. Otherwise the search runs on the three values. |
| Controller.HopelessIsUnsolvable | src/controllers/solution.controllers.js:93-95 | The short-circuit answers as the search would: there is no solution. |
| Controller.GetSolution | src/controllers/solution.controllers.js:86-105 | Status 400 with "All inputs must be positive integers" exactly for invalid input. Otherwise status 200. "No solution possible" is returned exactly when the puzzle is unsolvable. Any steps returned meet the solver's contract. |
| Scenarios.LeastByLayers | src/controllers/solution.controllers.js:43-58 | A goal-reaching trace is the least solution if bounded sets of levels rule out every shorter path and every earlier path of the same length. |
| Scenarios.SolveTwoTenFour | test/solution.test.js:14-24 | findSolution(2, 10, 4) is Fill X, Transfer X→Y, Fill X, Transfer X→Y, ending at (0, 4) and marked Solved, with exactly the action texts the test compares. |
| Scenarios.SolveTwoHundredNinetySix | test/solution.test.js:26-36 | findSolution(2, 100, 96) is Fill Y, Transfer Y→X, Empty X, Transfer Y→X, ending at (2, 96) and marked Solved, with exactly the action texts the test compares. |
| Scenarios.TwoSixFiveUnsolvable | test/solution.test.js:40-44 | Jugs of 2 and 6 never hold 5. |
| Scenarios.SolveTwoSixFive | test/solution.test.js:40-44 | findSolution(2, 6, 5) is []. |
| Scenarios.SolveTwoThreeFive | test/solution.test.js:46-50 | findSolution(2, 3, 5) is []. |
| Scenarios.PostTwoTenFour | test/solution.test.js:64-69 | A valid body with a reachable target gets status 200 and the solver's steps. |
| Scenarios.PostTwoThreeFive | src/controllers/solution.controllers.js:93-95 | A target above both capacities gets status 200 and "No solution possible". |
| Scenarios.PostNegative | test/solution.test.js:73-78 | A negative capacity gets status 400 and the fixed error. |
| Scenarios.PostNonNumbers | test/solution.test.js:80-92 | A string or a null in place of a number gets status 400 and the fixed error. |

## Left out

- The Express application, route registration, JSON body parsing and the HTTP
  transport (src/index.js, src/routes/solution.routes.js) are not part of this
  model. `Controller.GetSolution` returns the status and body it would send.
- JavaScript values in the request body are abstracted to `Int(n) | NonInteger`.
  Strings, null, booleans, fractions and missing fields all fail
  `Number.isInteger` alike. Numbers beyond 2^53 are not modelled: integers here
  are unbounded.
- The visited set's string keys `${bucketX}-${bucketY}` are modelled as pairs of
  levels. For non-negative integers the encoding is injective.
- A step's `action` field holds an `Action`. `Traces.LabelsOf` gives the exact
  text the source writes for each step. The optional `status: "Solved"` field is the boolean
  `solved`.
- Search.FindSolution: requires Z ≠ 0, because the source throws for Z = 0.
  Capacities are natural numbers: negative capacities, reachable only by calling
  the solver directly, are not modelled.
- Search.FindSolution: states termination through the loop's decreasing measure,
  not as a bound on an iteration counter in its postcondition.
- The copy at line 25 is shallow, and line 28 sets `.status` on the dequeued
  entry's last step object in place. Line 68 created that object for this entry
  alone, and the entry has no children yet because the goal test runs before any
  expansion. So no entry left in the queue holds it, and the write is not
  observable. The model copies by value.
