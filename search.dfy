/**
 * The breadth-first solver findSolution: a FIFO queue of (levels, steps so far)
 * entries seeded with Start, a set of visited levels marked when an entry is
 * dequeued, and six successors per visited state generated in ActionOrder.
 */
module Search {
  import opened Jugs
  import opened Paths
  import opened Traces

  /** A queue entry: the levels reached and the steps that reached them. */
  datatype Entry = Entry(state: State, steps: seq<Step>)

  function PathOf(e: Entry): seq<Action> {
    ActionsOf(e.steps)
  }

  /** The entry enqueued for performing action `a` after entry `e`. */
  function Extend(X: nat, Y: nat, e: Entry, a: Action): Entry {
    var n := Apply(X, Y, a, e.state);
    Entry(n, e.steps + [NextStep(e.steps, a, n)])
  }

  predicate Increasing(acts: seq<Action>) {
    forall i, j :: 0 <= i < j < |acts| ==> Index(acts[i]) < Index(acts[j])
  }

  /** The actions of `acts`, in their order, whose successor of `s` has not been visited. */
  function Unvisited(X: nat, Y: nat, visited: set<State>, s: State, acts: seq<Action>): seq<Action>
    decreases |acts|
  {
    if acts == [] then []
    else
      var a := Last(acts);
      Unvisited(X, Y, visited, s, Init(acts)) + (if Apply(X, Y, a, s) in visited then [] else [a])
  }

  function Extensions(X: nat, Y: nat, e: Entry, acts: seq<Action>): seq<Entry> {
    seq(|acts|, j requires 0 <= j < |acts| => Extend(X, Y, e, acts[j]))
  }

  /** What the search appends to the queue after visiting entry `e`. */
  function Expansion(X: nat, Y: nat, visited: set<State>, e: Entry): seq<Entry> {
    Extensions(X, Y, e, Unvisited(X, Y, visited, e.state, ActionOrder))
  }

  /** Unvisited keeps exactly the actions of `acts` whose successor has not been visited. */
  lemma {:induction false} UnvisitedMembers(X: nat, Y: nat, visited: set<State>, s: State, acts: seq<Action>)
    ensures forall a :: a in Unvisited(X, Y, visited, s, acts) <==> a in acts && Apply(X, Y, a, s) !in visited
    decreases |acts|
  {
    if acts != [] {
      UnvisitedMembers(X, Y, visited, s, Init(acts));
      InitLast(acts);
      forall a ensures a in acts <==> a in Init(acts) || a == Last(acts) {
        assert acts == Init(acts) + [Last(acts)];
      }
    }
  }

  lemma UnvisitedStep(X: nat, Y: nat, visited: set<State>, s: State, i: nat)
    requires i < |ActionOrder|
    ensures Unvisited(X, Y, visited, s, ActionOrder[..i + 1]) ==
      Unvisited(X, Y, visited, s, ActionOrder[..i]) +
      (if Apply(X, Y, ActionOrder[i], s) in visited then [] else [ActionOrder[i]])
  {
    assert Init(ActionOrder[..i + 1]) == ActionOrder[..i] && Last(ActionOrder[..i + 1]) == ActionOrder[i];
  }

  lemma ExtensionsSnoc(X: nat, Y: nat, e: Entry, acts: seq<Action>, a: Action)
    ensures Extensions(X, Y, e, acts + [a]) == Extensions(X, Y, e, acts) + [Extend(X, Y, e, a)]
  {
  }

  /** The inner loop of the search: enqueue each successor of `e` that has not been visited, in ActionOrder. */
  method EnqueueSuccessors(X: nat, Y: nat, queue: seq<Entry>, visited: set<State>, e: Entry)
    returns (q: seq<Entry>)
    ensures q == queue + Expansion(X, Y, visited, e)
  {
    q := queue;
    for i := 0 to |ActionOrder|
      invariant q == queue + Extensions(X, Y, e, Unvisited(X, Y, visited, e.state, ActionOrder[..i]))
    {
      var a := ActionOrder[i];
      var next := Apply(X, Y, a, e.state);
      ghost var done := Unvisited(X, Y, visited, e.state, ActionOrder[..i]);
      UnvisitedStep(X, Y, visited, e.state, i);
      if next !in visited {
        q := q + [Extend(X, Y, e, a)];
        ExtensionsSnoc(X, Y, e, done, a);
      } else {
        assert done + [] == done;
      }
    }
    assert ActionOrder[..|ActionOrder|] == ActionOrder;
  }

  // ---------------------------------------------------------------------------
  // The search invariant.

  /** The entry's steps form an unmarked valid trace ending at the entry's levels. */
  predicate EntryOk(X: nat, Y: nat, e: Entry) {
    && ValidTrace(X, Y, e.steps)
    && EndState(e.steps) == e.state
    && Unmarked(e.steps)
    && InBounds(X, Y, e.state)
  }

  predicate QueueOk(X: nat, Y: nat, queue: seq<Entry>) {
    forall i :: 0 <= i < |queue| ==> EntryOk(X, Y, queue[i])
  }

  /** Visited states are in bounds and none is a goal (the goal test comes first). */
  predicate VisitedOk(X: nat, Y: nat, Z: int, visited: set<State>) {
    forall v :: v in visited ==> InBounds(X, Y, v) && !IsGoal(Z, v)
  }

  /** `canon` records, for each visited state, the path of the entry that visited it. */
  ghost predicate CanonOk(X: nat, Y: nat, visited: set<State>, canon: map<State, seq<Action>>) {
    && canon.Keys == visited
    && forall v :: v in canon ==> Run(X, Y, Start, canon[v]) == v
  }

  /** ... and that path comes no later than any other path to the state. */
  ghost predicate CanonLeast(X: nat, Y: nat, canon: map<State, seq<Action>>) {
    forall p :: Run(X, Y, Start, p) in canon ==> BeforeOrSame(canon[Run(X, Y, Start, p)], p)
  }

  /** Some entry of the queue was reached by exactly path p. */
  ghost predicate Queued(queue: seq<Entry>, p: seq<Action>) {
    exists i :: 0 <= i < |queue| && PathOf(queue[i]) == p
  }

  /** Every successor of a visited state is visited or waits in the queue. */
  ghost predicate ClosedUpTo(X: nat, Y: nat, visited: set<State>, canon: map<State, seq<Action>>,
                             queue: seq<Entry>) {
    forall v, a :: v in canon ==> Apply(X, Y, a, v) in visited || Queued(queue, canon[v] + [a])
  }

  predicate StartSeen(visited: set<State>, queue: seq<Entry>) {
    Start in visited || (|queue| > 0 && queue[0].steps == [])
  }

  /** Queue entries are in strictly increasing shortlex order of their paths. */
  predicate Sorted(queue: seq<Entry>) {
    forall i, j :: 0 <= i < j < |queue| ==> Before(PathOf(queue[i]), PathOf(queue[j]))
  }

  /** Every entry was enqueued by an entry whose path comes before `p`. */
  predicate ParentsBefore(queue: seq<Entry>, p: seq<Action>) {
    forall i :: 0 <= i < |queue| && queue[i].steps != [] ==> Before(Init(PathOf(queue[i])), p)
  }

  /** Every path before `p` leads to a visited state. */
  ghost predicate Frontier(X: nat, Y: nat, visited: set<State>, p: seq<Action>) {
    forall r :: Before(r, p) ==> Run(X, Y, Start, r) in visited
  }

  /**
   * What holds at the head of every iteration of the search loop.
   * `canon` maps each visited state to the path with which it was visited.
   */
  ghost predicate Inv(X: nat, Y: nat, Z: int, queue: seq<Entry>, visited: set<State>,
                      canon: map<State, seq<Action>>)
  {
    && QueueOk(X, Y, queue)
    && VisitedOk(X, Y, Z, visited)
    && CanonOk(X, Y, visited, canon)
    && CanonLeast(X, Y, canon)
    && ClosedUpTo(X, Y, visited, canon, queue)
    && StartSeen(visited, queue)
    && Sorted(queue)
    && (|queue| > 0 ==> ParentsBefore(queue, PathOf(queue[0])) && Frontier(X, Y, visited, PathOf(queue[0])))
  }

  /** A path solves the puzzle and no path before it in shortlex order does. */
  ghost predicate LeastSolution(X: nat, Y: nat, Z: int, p: seq<Action>) {
    && IsGoal(Z, Run(X, Y, Start, p))
    && forall q :: Before(q, p) ==> !IsGoal(Z, Run(X, Y, Start, q))
  }

  lemma EntryRuns(X: nat, Y: nat, e: Entry)
    requires EntryOk(X, Y, e)
    ensures Run(X, Y, Start, PathOf(e)) == e.state
    ensures |PathOf(e)| == |e.steps|
  {
    TraceRuns(X, Y, e.steps);
  }

  lemma ExtendOk(X: nat, Y: nat, e: Entry, a: Action)
    requires EntryOk(X, Y, e)
    ensures EntryOk(X, Y, Extend(X, Y, e, a))
    ensures PathOf(Extend(X, Y, e, a)) == PathOf(e) + [a]
  {
    ValidTraceSnoc(X, Y, e.steps, a);
  }

  lemma InitInv(X: nat, Y: nat, Z: int)
    ensures Inv(X, Y, Z, [Entry(Start, [])], {}, map[])
  {
    var q := [Entry(Start, [])];
    assert PathOf(q[0]) == [];
    forall p | Before(p, PathOf(q[0])) ensures false {
    }
  }

  /** A queued path that extends a visited state's path by `a` leads to that state's successor by `a`. */
  lemma QueuedIsSuccessor(X: nat, Y: nat, h: Entry, c: seq<Action>, v: State, a: Action)
    requires EntryOk(X, Y, h) && Run(X, Y, Start, c) == v && PathOf(h) == c + [a]
    ensures h.state == Apply(X, Y, a, v)
  {
    EntryRuns(X, Y, h);
    RunSnoc(X, Y, Start, c, a);
  }

  // ---------------------------------------------------------------------------
  // The entries enqueued after a visit.

  lemma {:induction false} UnvisitedIncreasing(X: nat, Y: nat, visited: set<State>, s: State, acts: seq<Action>)
    requires Increasing(acts)
    ensures Increasing(Unvisited(X, Y, visited, s, acts))
    decreases |acts|
  {
    if acts != [] {
      var init := Init(acts);
      assert Increasing(init);
      UnvisitedIncreasing(X, Y, visited, s, init);
      var u := Unvisited(X, Y, visited, s, init);
      UnvisitedMembers(X, Y, visited, s, init);
      forall i | 0 <= i < |u| ensures Index(u[i]) < Index(Last(acts)) {
        assert u[i] in init;
        var k :| 0 <= k < |init| && init[k] == u[i];
        assert acts[k] == u[i];
      }
    }
  }

  lemma ExpansionEntries(X: nat, Y: nat, visited: set<State>, h: Entry)
    requires EntryOk(X, Y, h)
    ensures QueueOk(X, Y, Expansion(X, Y, visited, h))
    ensures forall j :: 0 <= j < |Expansion(X, Y, visited, h)| ==>
      && Expansion(X, Y, visited, h)[j].steps != []
      && Init(PathOf(Expansion(X, Y, visited, h)[j])) == PathOf(h)
  {
    var acts := Unvisited(X, Y, visited, h.state, ActionOrder);
    var ex := Expansion(X, Y, visited, h);
    forall j | 0 <= j < |ex|
      ensures EntryOk(X, Y, ex[j]) && ex[j].steps != [] && Init(PathOf(ex[j])) == PathOf(h)
    {
      ExtendOk(X, Y, h, acts[j]);
      InitSnoc(PathOf(h), acts[j]);
    }
  }

  lemma ActionOrderIncreasing()
    ensures Increasing(ActionOrder)
  {
  }

  lemma ExpansionPaths(X: nat, Y: nat, visited: set<State>, h: Entry)
    requires EntryOk(X, Y, h)
    ensures |Expansion(X, Y, visited, h)| == |Unvisited(X, Y, visited, h.state, ActionOrder)|
    ensures forall j :: 0 <= j < |Expansion(X, Y, visited, h)| ==>
      PathOf(Expansion(X, Y, visited, h)[j]) == PathOf(h) + [Unvisited(X, Y, visited, h.state, ActionOrder)[j]]
  {
    var acts := Unvisited(X, Y, visited, h.state, ActionOrder);
    forall j | 0 <= j < |acts|
      ensures PathOf(Expansion(X, Y, visited, h)[j]) == PathOf(h) + [acts[j]]
    {
      ExtendOk(X, Y, h, acts[j]);
    }
  }

  lemma ExpansionSorted(X: nat, Y: nat, visited: set<State>, h: Entry)
    requires EntryOk(X, Y, h)
    ensures Sorted(Expansion(X, Y, visited, h))
  {
    var acts := Unvisited(X, Y, visited, h.state, ActionOrder);
    var ex := Expansion(X, Y, visited, h);
    ActionOrderIncreasing();
    UnvisitedIncreasing(X, Y, visited, h.state, ActionOrder);
    ExpansionPaths(X, Y, visited, h);
    forall i, j | 0 <= i < j < |ex| ensures Before(PathOf(ex[i]), PathOf(ex[j])) {
      assert Index(acts[i]) < Index(acts[j]);
      SnocByAction(PathOf(h), acts[i], acts[j]);
    }
  }

  lemma ExpansionCovers(X: nat, Y: nat, visited: set<State>, h: Entry)
    requires EntryOk(X, Y, h)
    ensures forall a :: Apply(X, Y, a, h.state) !in visited ==> Queued(Expansion(X, Y, visited, h), PathOf(h) + [a])
  {
    var acts := Unvisited(X, Y, visited, h.state, ActionOrder);
    var ex := Expansion(X, Y, visited, h);
    UnvisitedMembers(X, Y, visited, h.state, ActionOrder);
    forall a | Apply(X, Y, a, h.state) !in visited ensures Queued(ex, PathOf(h) + [a]) {
      assert ActionOrder[Index(a)] == a;
      assert a in acts;
      var j :| 0 <= j < |acts| && acts[j] == a;
      ExtendOk(X, Y, h, a);
      assert PathOf(ex[j]) == PathOf(h) + [a];
    }
  }

  // ---------------------------------------------------------------------------
  // One iteration keeps the invariant.

  /**
   * The frontier property for the next head: every path before it is visited.
   * `ph` is the path of the entry just dequeued.
   */
  lemma FrontierAdvance(X: nat, Y: nat, queue: seq<Entry>, visited: set<State>,
                        canon: map<State, seq<Action>>, ph: seq<Action>, p: seq<Action>)
    requires |queue| > 0
    requires forall r :: BeforeOrSame(r, ph) ==> Run(X, Y, Start, r) in visited
    requires forall i :: 0 <= i < |queue| && queue[i].steps != [] ==>
               BeforeOrSame(Init(PathOf(queue[i])), ph)
    requires canon.Keys == visited
    requires CanonLeast(X, Y, canon)
    requires ClosedUpTo(X, Y, visited, canon, queue)
    requires Sorted(queue)
    requires Before(p, PathOf(queue[0]))
    ensures Run(X, Y, Start, p) in visited
  {
    BeforeTotal(p, ph);
    if !BeforeOrSame(p, ph) {
      var head := PathOf(queue[0]);
      assert p != [];
      assert head != [] && queue[0].steps != [];
      InitMonotone(p, head);
      BeforeOrSameTransitive(Init(p), Init(head), ph);
      var v := Run(X, Y, Start, Init(p));
      var a := Last(p);
      var c := canon[v];
      assert BeforeOrSame(c, Init(p));
      SnocMonotone(c, Init(p), a);
      InitLast(p);
      RunSnoc(X, Y, Start, Init(p), a);
      if Apply(X, Y, a, v) !in visited {
        var i :| 0 <= i < |queue| && PathOf(queue[i]) == c + [a];
        if i > 0 {
          BeforeMixed(head, PathOf(queue[i]), p);
        } else {
          BeforeMixed(p, head, p);
        }
        BeforeAsymmetric(p, head);
        assert false;
      }
    }
  }

  /** Dequeuing an entry whose state was already visited keeps the invariant. */
  lemma SkipKeepsInv(X: nat, Y: nat, Z: int, queue: seq<Entry>, visited: set<State>,
                     canon: map<State, seq<Action>>)
    requires Inv(X, Y, Z, queue, visited, canon)
    requires |queue| > 0 && queue[0].state in visited
    ensures Inv(X, Y, Z, queue[1..], visited, canon)
  {
    var h := queue[0];
    var q' := queue[1..];
    var ph := PathOf(h);
    EntryRuns(X, Y, h);
    forall v, a | v in canon && Apply(X, Y, a, v) !in visited
      ensures Queued(q', canon[v] + [a])
    {
      var i :| 0 <= i < |queue| && PathOf(queue[i]) == canon[v] + [a];
      if i == 0 {
        QueuedIsSuccessor(X, Y, h, canon[v], v, a);
        assert false;
      }
      assert PathOf(q'[i - 1]) == canon[v] + [a];
    }
    assert h.steps == [] ==> h.state == Start;
    if |q'| > 0 {
      assert Before(ph, PathOf(q'[0]));
      forall i | 0 <= i < |q'| && q'[i].steps != []
        ensures Before(Init(PathOf(q'[i])), PathOf(q'[0]))
      {
        assert q'[i] == queue[i + 1];
        BeforeTransitive(Init(PathOf(q'[i])), ph, PathOf(q'[0]));
      }
      forall p | Before(p, PathOf(q'[0])) ensures Run(X, Y, Start, p) in visited {
        FrontierAdvance(X, Y, q', visited, canon, ph, p);
      }
    }
  }

  lemma VisitKeepsCanon(X: nat, Y: nat, visited: set<State>, canon: map<State, seq<Action>>, h: Entry)
    requires EntryOk(X, Y, h) && h.state !in visited
    requires CanonOk(X, Y, visited, canon) && CanonLeast(X, Y, canon)
    requires Frontier(X, Y, visited, PathOf(h))
    ensures CanonOk(X, Y, visited + {h.state}, canon[h.state := PathOf(h)])
    ensures CanonLeast(X, Y, canon[h.state := PathOf(h)])
  {
    var ph := PathOf(h);
    var canon' := canon[h.state := ph];
    EntryRuns(X, Y, h);
    forall p | Run(X, Y, Start, p) in canon'
      ensures BeforeOrSame(canon'[Run(X, Y, Start, p)], p)
    {
      if Run(X, Y, Start, p) == h.state {
        BeforeTotal(p, ph);
      }
    }
  }

  lemma QueuedAppend(a: seq<Entry>, b: seq<Entry>, p: seq<Action>)
    requires Queued(a, p) || Queued(b, p)
    ensures Queued(a + b, p)
  {
    if Queued(a, p) {
      var i :| 0 <= i < |a| && PathOf(a[i]) == p;
      assert (a + b)[i] == a[i];
    } else {
      var j :| 0 <= j < |b| && PathOf(b[j]) == p;
      assert (a + b)[|a| + j] == b[j];
    }
  }

  lemma QueuedTail(queue: seq<Entry>, p: seq<Action>)
    requires Queued(queue, p) && PathOf(queue[0]) != p
    ensures Queued(queue[1..], p)
  {
    var i :| 0 <= i < |queue| && PathOf(queue[i]) == p;
    assert queue[1..][i - 1] == queue[i];
  }

  lemma VisitKeepsClosure(X: nat, Y: nat, queue: seq<Entry>, visited: set<State>,
                          canon: map<State, seq<Action>>)
    requires |queue| > 0 && EntryOk(X, Y, queue[0]) && queue[0].state !in visited
    requires CanonOk(X, Y, visited, canon) && ClosedUpTo(X, Y, visited, canon, queue)
    ensures ClosedUpTo(X, Y, visited + {queue[0].state}, canon[queue[0].state := PathOf(queue[0])],
                       queue[1..] + Expansion(X, Y, visited + {queue[0].state}, queue[0]))
  {
    var h := queue[0];
    var s := h.state;
    var ph := PathOf(h);
    var V' := visited + {s};
    var canon' := canon[s := ph];
    var rest := queue[1..];
    var ex := Expansion(X, Y, V', h);
    ExpansionCovers(X, Y, V', h);
    forall v, a | v in canon' && Apply(X, Y, a, v) !in V'
      ensures Queued(rest + ex, canon'[v] + [a])
    {
      if v == s {
        QueuedAppend(rest, ex, ph + [a]);
      } else {
        assert PathOf(h) != canon[v] + [a] by {
          if PathOf(h) == canon[v] + [a] {
            QueuedIsSuccessor(X, Y, h, canon[v], v, a);
          }
        }
        QueuedTail(queue, canon[v] + [a]);
        QueuedAppend(rest, ex, canon[v] + [a]);
      }
    }
  }

  lemma VisitKeepsSorted(X: nat, Y: nat, queue: seq<Entry>, ex: seq<Entry>)
    requires |queue| > 0 && Sorted(queue) && ParentsBefore(queue, PathOf(queue[0]))
    requires Sorted(ex)
    requires forall j :: 0 <= j < |ex| ==> ex[j].steps != [] && Init(PathOf(ex[j])) == PathOf(queue[0])
    ensures Sorted(queue[1..] + ex)
  {
    var ph := PathOf(queue[0]);
    var rest := queue[1..];
    var q' := rest + ex;
    forall i, j | 0 <= i < j < |q'| ensures Before(PathOf(q'[i]), PathOf(q'[j])) {
      if j < |rest| {
        assert q'[i] == queue[i + 1] && q'[j] == queue[j + 1];
      } else if i >= |rest| {
        assert q'[i] == ex[i - |rest|] && q'[j] == ex[j - |rest|];
      } else {
        var e := queue[i + 1];
        var f := ex[j - |rest|];
        assert q'[i] == e && q'[j] == f;
        var pf := PathOf(f);
        assert pf == ph + [Last(pf)] by {
          InitLast(pf);
        }
        if e.steps != [] && |PathOf(e)| == |ph| + 1 {
          SnocAfterEarlierPrefix(PathOf(e), ph, Last(pf));
        }
      }
    }
  }

  lemma VisitKeepsFrontier(X: nat, Y: nat, queue: seq<Entry>, visited: set<State>,
                           canon: map<State, seq<Action>>, ex: seq<Entry>)
    requires |queue| > 0 && EntryOk(X, Y, queue[0]) && queue[0].state !in visited
    requires Sorted(queue) && ParentsBefore(queue, PathOf(queue[0]))
    requires Frontier(X, Y, visited, PathOf(queue[0]))
    requires forall j :: 0 <= j < |ex| ==> ex[j].steps != [] && Init(PathOf(ex[j])) == PathOf(queue[0])
    requires |queue[1..] + ex| > 0
    requires CanonOk(X, Y, visited + {queue[0].state}, canon) && CanonLeast(X, Y, canon)
    requires ClosedUpTo(X, Y, visited + {queue[0].state}, canon, queue[1..] + ex)
    requires Sorted(queue[1..] + ex)
    ensures ParentsBefore(queue[1..] + ex, PathOf((queue[1..] + ex)[0]))
    ensures Frontier(X, Y, visited + {queue[0].state}, PathOf((queue[1..] + ex)[0]))
  {
    var h := queue[0];
    var ph := PathOf(h);
    var V' := visited + {h.state};
    var rest := queue[1..];
    var q' := rest + ex;
    var head := PathOf(q'[0]);
    EntryRuns(X, Y, h);
    assert Before(ph, head) by {
      if |rest| > 0 {
        assert q'[0] == queue[1];
      } else {
        assert q'[0] == ex[0];
        InitLast(head);
        SnocAfter(ph, Last(head));
      }
    }
    forall i | 0 <= i < |q'| && q'[i].steps != []
      ensures BeforeOrSame(Init(PathOf(q'[i])), ph)
      ensures Before(Init(PathOf(q'[i])), head)
    {
      if i < |rest| {
        assert q'[i] == queue[i + 1];
      } else {
        assert q'[i] == ex[i - |rest|];
      }
      BeforeMixed(Init(PathOf(q'[i])), ph, head);
    }
    forall p | Before(p, head) ensures Run(X, Y, Start, p) in V' {
      FrontierAdvance(X, Y, q', V', canon, ph, p);
    }
  }

  lemma QueueOkConcat(X: nat, Y: nat, a: seq<Entry>, b: seq<Entry>)
    requires QueueOk(X, Y, a) && QueueOk(X, Y, b)
    ensures QueueOk(X, Y, a + b)
  {
    forall i | 0 <= i < |a + b| ensures EntryOk(X, Y, (a + b)[i]) {
      if i < |a| {
        assert (a + b)[i] == a[i];
      } else {
        assert (a + b)[i] == b[i - |a|];
      }
    }
  }

  lemma VisitKeepsQueue(X: nat, Y: nat, queue: seq<Entry>, visited: set<State>)
    requires |queue| > 0 && QueueOk(X, Y, queue)
    ensures QueueOk(X, Y, queue[1..] + Expansion(X, Y, visited, queue[0]))
  {
    assert EntryOk(X, Y, queue[0]);
    ExpansionEntries(X, Y, visited, queue[0]);
    assert QueueOk(X, Y, queue[1..]) by {
      forall i | 0 <= i < |queue| - 1 ensures EntryOk(X, Y, queue[1..][i]) {
        assert queue[1..][i] == queue[i + 1];
      }
    }
    QueueOkConcat(X, Y, queue[1..], Expansion(X, Y, visited, queue[0]));
  }

  /** Dequeuing an unvisited, non-goal entry, visiting it and enqueuing its successors keeps the invariant. */
  lemma VisitKeepsInv(X: nat, Y: nat, Z: int, queue: seq<Entry>, visited: set<State>,
                      canon: map<State, seq<Action>>)
    requires Inv(X, Y, Z, queue, visited, canon)
    requires |queue| > 0 && queue[0].state !in visited && !IsGoal(Z, queue[0].state)
    ensures Inv(X, Y, Z,
                queue[1..] + Expansion(X, Y, visited + {queue[0].state}, queue[0]),
                visited + {queue[0].state},
                canon[queue[0].state := PathOf(queue[0])])
  {
    var h := queue[0];
    var V' := visited + {h.state};
    var canon' := canon[h.state := PathOf(h)];
    var ex := Expansion(X, Y, V', h);
    var q' := queue[1..] + ex;
    assert EntryOk(X, Y, h);
    VisitKeepsQueue(X, Y, queue, V');
    assert VisitedOk(X, Y, Z, V');
    ExpansionEntries(X, Y, V', h);
    ExpansionSorted(X, Y, V', h);
    VisitKeepsCanon(X, Y, visited, canon, h);
    VisitKeepsClosure(X, Y, queue, visited, canon);
    VisitKeepsSorted(X, Y, queue, ex);
    assert StartSeen(V', q') by {
      assert h.steps == [] ==> h.state == Start;
    }
    if |q'| > 0 {
      VisitKeepsFrontier(X, Y, queue, visited, canon', ex);
    }
  }

  /** Cardinality of a subset. */
  lemma SubsetSize(a: set<State>, b: set<State>)
    requires a <= b
    ensures |a| <= |b|
  {
    assert b == a + (b - a);
  }

  // ---------------------------------------------------------------------------
  // The solver.

  /**
   * findSolution(X, Y, Z): the steps of the shortlex-least path from empty jugs to
   * a state holding Z in either jug, the last step marked "Solved"; no steps when
   * no path reaches such a state.
   */
  method FindSolution(X: nat, Y: nat, Z: int) returns (steps: seq<Step>)
    requires Z != 0
    ensures SolverResult(X, Y, Z, steps)
  {
    var queue := [Entry(Start, [])];
    var visited: set<State> := {};
    ghost var canon: map<State, seq<Action>> := map[];
    InitInv(X, Y, Z);
    GridSize(X, Y);
    while |queue| > 0
      invariant Inv(X, Y, Z, queue, visited, canon)
      invariant visited <= Grid(X, Y) && |visited| <= (X + 1) * (Y + 1)
      decreases (X + 1) * (Y + 1) - |visited|, |queue|
    {
      var e := queue[0];
      ghost var before := queue;
      queue := queue[1..];
      if IsGoal(Z, e.state) {
        EntryRuns(X, Y, e);
        assert e.steps != [];
        steps := MarkSolved(e.steps);
        MarkSolvedKeepsTrace(X, Y, e.steps);
        assert IsGoal(Z, Run(X, Y, Start, ActionsOf(steps)));
        return;
      }
      if e.state in visited {
        SkipKeepsInv(X, Y, Z, before, visited, canon);
        continue;
      }
      VisitKeepsInv(X, Y, Z, before, visited, canon);
      GridHoldsInBounds(X, Y, e.state);
      visited := visited + {e.state};
      canon := canon[e.state := PathOf(e)];
      SubsetSize(visited, Grid(X, Y));
      queue := EnqueueSuccessors(X, Y, queue, visited, e);
    }
    forall v, a | v in visited ensures Apply(X, Y, a, v) in visited {
      assert !Queued(queue, canon[v] + [a]);
    }
    forall p ensures !IsGoal(Z, Run(X, Y, Start, p)) {
      ClosedHoldsReachable(X, Y, visited, p);
    }
    steps := [];
  }

  /**
   * What FindSolution promises about the steps it returns: a valid trace, empty
   * exactly when the puzzle has no solution, and otherwise marked on its last
   * step only, ending at a goal, with the least solution as its actions.
   */
  ghost predicate SolverResult(X: nat, Y: nat, Z: int, steps: seq<Step>) {
    && ValidTrace(X, Y, steps)
    && (steps == [] <==> !Solvable(X, Y, Z))
    && (steps != [] ==> MarkedLast(steps) && IsGoal(Z, EndState(steps)))
    && (steps != [] ==> LeastSolution(X, Y, Z, ActionsOf(steps)))
  }

  /** There is at most one least solution. */
  lemma LeastSolutionUnique(X: nat, Y: nat, Z: int, p: seq<Action>, q: seq<Action>)
    requires LeastSolution(X, Y, Z, p) && LeastSolution(X, Y, Z, q)
    ensures p == q
  {
    BeforeTotal(p, q);
  }

  /** The solver's contract leaves no choice: two results that meet it are the same steps. */
  lemma SolverResultUnique(X: nat, Y: nat, Z: int, s: seq<Step>, t: seq<Step>)
    requires SolverResult(X, Y, Z, s) && SolverResult(X, Y, Z, t)
    ensures s == t
  {
    if s != [] {
      LeastSolutionUnique(X, Y, Z, ActionsOf(s), ActionsOf(t));
      assert |s| == |ActionsOf(s)| == |ActionsOf(t)| == |t|;
      TraceDeterminedByActions(X, Y, s, t);
    }
  }

  /** A least solution is a shortest one. */
  lemma LeastSolutionIsShortest(X: nat, Y: nat, Z: int, p: seq<Action>, q: seq<Action>)
    requires LeastSolution(X, Y, Z, p) && IsGoal(Z, Run(X, Y, Start, q))
    ensures |p| <= |q|
  {
    assert |q| < |p| ==> Before(q, p);
  }
}
