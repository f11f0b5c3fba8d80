/** The two jugs, their levels and the six actions that change them. */
module Jugs {

  /** Levels of jug X and jug Y (the source's bucketX and bucketY). */
  datatype State = State(x: nat, y: nat)

  /** Both jugs empty: where every search starts. */
  const Start := State(0, 0)

  datatype Action = FillX | FillY | EmptyX | EmptyY | TransferXY | TransferYX

  /** The fixed order in which the solver generates successors. */
  const ActionOrder: seq<Action> := [FillX, FillY, EmptyX, EmptyY, TransferXY, TransferYX]

  /** Position of an action in ActionOrder; the tie-break rank between equal-length paths. */
  function Index(a: Action): (i: nat)
    ensures i < |ActionOrder| && ActionOrder[i] == a
  {
    match a
    case FillX => 0
    case FillY => 1
    case EmptyX => 2
    case EmptyY => 3
    case TransferXY => 4
    case TransferYX => 5
  }

  /** The label the solver writes into each step of a trace. */
  function Label(a: Action): string {
    match a
    case FillX => "Fill bucket X"
    case FillY => "Fill bucket Y"
    case EmptyX => "Empty bucket X"
    case EmptyY => "Empty bucket Y"
    case TransferXY => "Transfer from bucket X to Y"
    case TransferYX => "Transfer from bucket Y to X"
  }

  predicate InBounds(X: nat, Y: nat, s: State) {
    s.x <= X && s.y <= Y
  }

  /** A goal state holds the wanted amount in either jug. */
  predicate IsGoal(Z: int, s: State) {
    s.x == Z || s.y == Z
  }

  function Max(a: int, b: int): int { if a < b then b else a }

  function Min(a: int, b: int): int { if a < b then a else b }

  /**
   * Pouring from a jug holding `from` into one holding `into` with capacity `cap`
   * stops exactly when the source is empty or the target is full, and loses no water.
   */
  predicate Poured(cap: nat, from: nat, into: nat, from': nat, into': nat) {
    && from' + into' == from + into
    && into <= into' <= cap
    && (from' == 0 || into' == cap)
  }

  /** The successor table: the state reached from `s` by action `a` with capacities X and Y. */
  function Apply(X: nat, Y: nat, a: Action, s: State): (r: State)
    ensures InBounds(X, Y, s) ==> InBounds(X, Y, r)
    ensures a.TransferXY? || a.TransferYX? ==> r.x + r.y == s.x + s.y
    ensures a.TransferXY? && InBounds(X, Y, s) ==> Poured(Y, s.x, s.y, r.x, r.y)
    ensures a.TransferYX? && InBounds(X, Y, s) ==> Poured(X, s.y, s.x, r.y, r.x)
    ensures a.FillX? || a.EmptyX? ==> r.y == s.y
    ensures a.FillY? || a.EmptyY? ==> r.x == s.x
  {
    match a
    case FillX => State(X, s.y)
    case FillY => State(s.x, Y)
    case EmptyX => State(0, s.y)
    case EmptyY => State(s.x, 0)
    case TransferXY => State(Max(0, s.x - (Y - s.y)), Min(Y, s.x + s.y))
    case TransferYX => State(Min(X, s.x + s.y), Max(0, s.y - (X - s.x)))
  }

  /** Pouring is determined by its three conditions: the transfer actions are the only way to meet them. */
  lemma PouredIsTransfer(X: nat, Y: nat, s: State, r: State)
    requires InBounds(X, Y, s)
    ensures Poured(Y, s.x, s.y, r.x, r.y) <==> r == Apply(X, Y, TransferXY, s)
    ensures Poured(X, s.y, s.x, r.y, r.x) <==> r == Apply(X, Y, TransferYX, s)
  {
  }

  /** Every in-bounds state: the search space of the solver. */
  ghost function Grid(X: nat, Y: nat): set<State> {
    set x: nat, y: nat | x <= X && y <= Y :: State(x, y)
  }

  ghost function Column(x: nat, Y: nat): set<State> {
    set y: nat | y <= Y :: State(x, y)
  }

  lemma {:induction false} ColumnSize(x: nat, Y: nat)
    ensures |Column(x, Y)| == Y + 1
  {
    if Y == 0 {
      assert Column(x, 0) == {State(x, 0)};
    } else {
      ColumnSize(x, Y - 1);
      assert Column(x, Y) == Column(x, Y - 1) + {State(x, Y)};
    }
  }

  lemma GridSplit(X: nat, Y: nat)
    requires X > 0
    ensures Grid(X, Y) == Grid(X - 1, Y) + Column(X, Y)
    ensures Grid(X - 1, Y) * Column(X, Y) == {}
  {
  }

  /** There are exactly (X+1)*(Y+1) in-bounds states. */
  lemma {:induction false} GridSize(X: nat, Y: nat)
    ensures |Grid(X, Y)| == (X + 1) * (Y + 1)
  {
    ColumnSize(X, Y);
    if X == 0 {
      assert Grid(0, Y) == Column(0, Y);
    } else {
      GridSize(X - 1, Y);
      GridSplit(X, Y);
      DisjointUnionSize(Grid(X - 1, Y), Column(X, Y));
      MulSucc(X - 1, Y + 1);
    }
  }

  lemma DisjointUnionSize(a: set<State>, b: set<State>)
    requires a * b == {}
    ensures |a + b| == |a| + |b|
  {
  }

  lemma MulSucc(n: nat, m: nat)
    ensures (n + 1) * m + m == (n + 2) * m
  {
  }

  lemma GridHoldsInBounds(X: nat, Y: nat, s: State)
    ensures s in Grid(X, Y) <==> InBounds(X, Y, s)
  {
  }
}
