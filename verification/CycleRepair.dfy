/**
 Why the cycle search also reports acyclic groups, and the marking that avoids it.

 The first pass marks a node when it is pushed, so a node can finish before one it points to. When
 nodes are marked as they are expanded instead, the finish order is consistent on every graph.
 */
module CycleRepair {
  import opened RecordGraph
  import opened CycleSearch

  /** Three records: 0 points to 1 and 2, and 1 points to 2. */
  const TRIANGLE := Graph(3, {(0, 1), (0, 2), (1, 2)})

  lemma {:induction false} PopExpanded(g: Graph, visited: set<nat>, rest: seq<Visit>, u: nat, finished: seq<nat>)
    ensures Traverse(g, visited, rest + [Visit(u, true)], finished) == Traverse(g, visited, rest, finished + [u])
  {
    assert (rest + [Visit(u, true)])[..|rest|] == rest;
  }

  lemma {:induction false} PopNew(g: Graph, visited: set<nat>, rest: seq<Visit>, u: nat, finished: seq<nat>)
    ensures var pushed := Fresh(g, u, visited, g.n);
            Traverse(g, visited, rest + [Visit(u, false)], finished)
            == Traverse(g, visited + Elements(pushed), rest + [Visit(u, true)] + Unexpanded(pushed), finished)
  {
    assert (rest + [Visit(u, false)])[..|rest|] == rest;
  }

  lemma {:induction false} PopNone(g: Graph, visited: set<nat>, finished: seq<nat>)
    ensures Traverse(g, visited, [], finished) == (visited, finished)
  {
  }

  /** Node 0 pushes 2 and then 1 on top of it; by then nothing is left to push. */
  predicate PushesBoth(g: Graph) {
    var all: set<nat> := {0, 1, 2};
    g.n == 3 && Fresh(g, 0, {0}, 3) == [2, 1] && Fresh(g, 1, all, 3) == [] && Fresh(g, 2, all, 3) == []
  }

  lemma {:induction false} PushedSets()
    ensures var all: set<nat> := {0, 1, 2};
            && {0} + Elements([2, 1]) == all && all + Elements([]) == all
            && Unexpanded([2, 1]) == [Visit(2, false), Visit(1, false)] && Unexpanded([]) == []
  {
    assert 1 in Elements([2, 1]) && 2 in Elements([2, 1]);
  }

  lemma {:induction false} TraverseBoth(g: Graph)
    requires PushesBoth(g)
    ensures Traverse(g, {0}, [Visit(0, false)], []) == ({0, 1, 2}, [1, 2, 0])
  {
    PushedSets();
    hide Fresh, Traverse, Unexpanded, Elements;
    var all: set<nat> := {0, 1, 2};
    var zero, two := Visit(0, true), Visit(2, false);
    PopNew(g, {0}, [], 0, []);
    assert [] + [Visit(0, false)] == [Visit(0, false)];
    assert [] + [zero] + [two, Visit(1, false)] == [zero, two] + [Visit(1, false)];
    PopNew(g, all, [zero, two], 1, []);
    assert [zero, two] + [Visit(1, true)] + [] == [zero, two] + [Visit(1, true)];
    PopExpanded(g, all, [zero, two], 1, []);
    assert [zero, two] == [zero] + [two] && [] + [1 as nat] == [1];
    PopNew(g, all, [zero], 2, [1]);
    assert [zero] + [Visit(2, true)] + [] == [zero] + [Visit(2, true)];
    PopExpanded(g, all, [zero], 2, [1]);
    assert [zero] == [] + [zero] && [1 as nat] + [2] == [1, 2];
    PopExpanded(g, all, [], 0, [1, 2]);
    assert [1 as nat, 2] + [0] == [1, 2, 0];
    PopNone(g, all, [1, 2, 0]);
  }

  /** The node pushed last finishes first, and node 0 last. */
  lemma {:induction false} FinishBoth(g: Graph)
    requires PushesBoth(g)
    ensures FinishOrder(g) == [1, 2, 0]
  {
    TraverseBoth(g);
    hide Traverse;
    var all: set<nat>, order: seq<nat> := {0, 1, 2}, [1, 2, 0];
    assert {} + {0} == {0};
    assert FinishFrom(g, 3, all, order) == order;
    assert FinishFrom(g, 2, all, order) == order;
    assert FinishFrom(g, 1, all, order) == order;
  }

  lemma {:induction false} TrianglePushes()
    ensures PushesBoth(TRIANGLE)
  {
  }

  /** Every edge goes up, so a walk never comes down. */
  lemma {:induction false} TriangleClimbs(p: seq<nat>)
    requires Walk(TRIANGLE, {}, p)
    ensures p[0] <= p[|p| - 1]
  {
    if |p| > 1 {
      assert Walk(TRIANGLE, {}, p[1..]);
      TriangleClimbs(p[1..]);
      assert Edge(TRIANGLE, p[0], p[1]);
    }
  }

  /** No cycle anywhere, yet the search as written reports one. */
  lemma {:induction false} AcyclicGraphReported()
    ensures forall v :: !OnCycle(TRIANGLE, v)
    ensures !FinishConsistent(TRIANGLE, FinishOrder(TRIANGLE))
    ensures {1, 2} in ReportedOf(TRIANGLE, Components(TRIANGLE, FinishOrder(TRIANGLE), |FinishOrder(TRIANGLE)|, {}))
  {
    var g, order: seq<nat> := TRIANGLE, [1, 2, 0];
    TrianglePushes();
    FinishBoth(g);
    forall v | OnCycle(g, v) ensures false {
      var w :| Edge(g, v, w) && Reach(g, w, v);
      var p :| Links(g, {}, p, w, v);
      TriangleClimbs(p);
    }
    TriangleComponents();
    var c: set<nat> := {1, 2};
    ReportedOfMembers(g, Components(g, order, 3, {}), c);
    assert c in Components(g, order, 3, {}) && |c| == 2;
    if FinishConsistent(g, order) {
      FinishOrderCovers(g);
      ExactIffConsistent(g, order);
      assert Mutual(g, 2, 1);
      var p :| Links(g, {}, p, 2, 1);
      TriangleClimbs(p);
    }
  }

  lemma {:induction false} TriangleComponents()
    ensures var order: seq<nat> := [1, 2, 0];
            var first: set<nat> := {0};
            var second: set<nat> := {1, 2};
            Components(TRIANGLE, order, 3, {}) == [first, second]
  {
    var g, order: seq<nat> := TRIANGLE, [1, 2, 0];
    var first: set<nat>, second: set<nat> := {0}, {1, 2};
    assert Component(g, {}, 0) == first by {
      ReachSelf(g, {}, 0);
      forall v | v in Component(g, {}, 0) ensures v == 0 {
        var p :| Links(g, {}, p, v, 0);
        TriangleClimbs(p);
      }
    }
    assert Component(g, first, 2) == second by {
      ReachSelf(g, first, 2);
      ReachStep(g, first, 1, 2, 2);
      forall v | v in Component(g, first, 2) ensures v in second { ReachEnds(g, first, v, 2); }
    }
    assert {} + first == first;
    assert Components(g, order, 1, first + second) == [];
    assert Components(g, order, 2, first) == [second];
  }

  // ----- marking at expansion -----

  /**
   What holds throughout when nodes are marked as they are expanded: everything stacked above an
   expanded entry is reachable from it, no edge of a finished node leads to an unvisited one, an
   expanded entry's unvisited neighbours wait above it, and what is finished is consistent.
   */
  ghost predicate Expanding(g: Graph, visited: set<nat>, stack: seq<Visit>, finished: seq<nat>) {
    && NoRepeats(finished)
    && (forall v :: v in finished ==> v in visited && v < g.n)
    && (forall v :: v in visited ==> v in finished || Open(stack, v))
    && (forall i :: 0 <= i < |stack| ==> stack[i].node < g.n)
    && (forall i :: 0 <= i < |stack| && stack[i].expanded ==> stack[i].node in visited && stack[i].node !in finished)
    && (forall i, j :: 0 <= i < j < |stack| && stack[i].expanded ==>
          Reach(g, stack[i].node, stack[j].node) && (stack[j].expanded ==> stack[i].node != stack[j].node))
    && (forall u, v :: u in finished && Edge(g, u, v) ==> v in visited)
    && (forall i, v :: 0 <= i < |stack| && stack[i].expanded && Edge(g, stack[i].node, v) ==>
          v in visited || WaitsAbove(stack, i, v))
    && FinishConsistent(g, finished)
  }

  ghost predicate Open(stack: seq<Visit>, v: nat) {
    exists i :: 0 <= i < |stack| && stack[i] == Visit(v, true)
  }

  ghost predicate WaitsAbove(stack: seq<Visit>, i: nat, v: nat) {
    exists j :: i < j < |stack| && stack[j].node == v
  }

  /** The finished node reaches only finished nodes, or shares its component with an open one. */
  lemma {:induction false} FinishExpanded(g: Graph, visited: set<nat>, rest: seq<Visit>, u: nat, finished: seq<nat>)
    requires Expanding(g, visited, rest + [Visit(u, true)], finished)
    ensures FinishConsistent(g, finished + [u])
  {
    var stack, done := rest + [Visit(u, true)], finished + [u];
    assert stack[|rest|] == Visit(u, true);
    forall j, y | 0 <= j < |done| && Reach(g, done[j], y) && y !in done[..j + 1]
      ensures exists z :: z !in done[..j + 1] && Mutual(g, done[j], z)
    {
      if j < |finished| {
        assert done[..j + 1] == finished[..j + 1];
      } else {
        assert done[..j + 1] == done;
        var p :| Links(g, {}, p, u, y);
        var i := Leaves(g, Elements(done), p);
        assert Edge(g, p[i], p[i + 1]);
        assert p[i + 1] in visited by {
          if p[i] == u { assert !WaitsAbove(stack, |rest|, p[i + 1]); }
        }
        var k :| 0 <= k < |stack| && stack[k] == Visit(p[i + 1], true);
        assert Reach(g, stack[k].node, stack[|rest|].node);
        WalkParts(g, {}, p, i + 1);
        assert Mutual(g, u, p[i + 1]);
      }
    }
  }

  lemma {:induction false} FinishKeeps(g: Graph, visited: set<nat>, rest: seq<Visit>, u: nat, finished: seq<nat>)
    requires Expanding(g, visited, rest + [Visit(u, true)], finished)
    ensures Expanding(g, visited, rest, finished + [u])
  {
    FinishExpanded(g, visited, rest, u, finished);
    hide FinishConsistent, Reach;
    var stack := rest + [Visit(u, true)];
    assert stack[|rest|] == Visit(u, true) && forall i :: 0 <= i < |rest| ==> stack[i] == rest[i];
    forall v | v in visited ensures v in finished + [u] || Open(rest, v) {
      if v !in finished && v != u {
        var i :| 0 <= i < |stack| && stack[i] == Visit(v, true);
        assert rest[i] == Visit(v, true);
      }
    }
    forall i, v | 0 <= i < |rest| && rest[i].expanded && Edge(g, rest[i].node, v)
      ensures v in visited || WaitsAbove(rest, i, v)
    {
      if v !in visited { RestWaits(rest, u, true, i, v); }
    }
    forall x, v | x in finished + [u] && Edge(g, x, v) ensures v in visited {
      if x !in finished { assert !WaitsAbove(stack, |rest|, v); }
    }
  }

  lemma {:induction false} RestWaits(rest: seq<Visit>, u: nat, expanded: bool, i: nat, v: nat)
    requires i < |rest| && v != u && WaitsAbove(rest + [Visit(u, expanded)], i, v)
    ensures WaitsAbove(rest, i, v)
  {
    var stack := rest + [Visit(u, expanded)];
    var j :| i < j < |stack| && stack[j].node == v;
    assert rest[j].node == v;
  }

  lemma {:induction false} SkipKeeps(g: Graph, visited: set<nat>, rest: seq<Visit>, u: nat, finished: seq<nat>)
    requires Expanding(g, visited, rest + [Visit(u, false)], finished) && u in visited
    ensures Expanding(g, visited, rest, finished)
  {
    hide FinishConsistent, Reach;
    var stack := rest + [Visit(u, false)];
    assert forall i :: 0 <= i < |rest| ==> stack[i] == rest[i];
    forall v | v in visited ensures v in finished || Open(rest, v) {
      if v !in finished {
        var i :| 0 <= i < |stack| && stack[i] == Visit(v, true);
        assert rest[i] == Visit(v, true);
      }
    }
    forall i, v | 0 <= i < |rest| && rest[i].expanded && Edge(g, rest[i].node, v)
      ensures v in visited || WaitsAbove(rest, i, v)
    {
      if v !in visited { RestWaits(rest, u, false, i, v); }
    }
  }

  /** The stack after expanding `u`. */
  function Expanded(g: Graph, visited: set<nat>, rest: seq<Visit>, u: nat): seq<Visit> {
    rest + [Visit(u, true)] + Unexpanded(Fresh(g, u, visited + {u}, g.n))
  }

  lemma {:induction false} ExpandReaches(g: Graph, visited: set<nat>, rest: seq<Visit>, u: nat, finished: seq<nat>)
    requires Expanding(g, visited, rest + [Visit(u, false)], finished) && u !in visited
    ensures var stack := Expanded(g, visited, rest, u);
            && (forall i :: 0 <= i < |stack| ==> stack[i].node < g.n)
            && forall i, j :: 0 <= i < j < |stack| && stack[i].expanded ==>
              Reach(g, stack[i].node, stack[j].node) && (stack[j].expanded ==> stack[i].node != stack[j].node)
  {
    var pushed := Fresh(g, u, visited + {u}, g.n);
    var was, stack := rest + [Visit(u, false)], Expanded(g, visited, rest, u);
    assert was[|rest|] == Visit(u, false) && stack[|rest|] == Visit(u, true);
    assert forall i :: 0 <= i < |rest| ==> was[i] == rest[i] == stack[i];
    assert forall i :: |rest| < i < |stack| ==> stack[i] == Visit(pushed[i - |rest| - 1], false);
    forall i, j | 0 <= i < j < |stack| && stack[i].expanded
      ensures Reach(g, stack[i].node, stack[j].node)
    {
      if j > |rest| {
        var v := stack[j].node;
        ReachSelf(g, {}, v);
        ReachStep(g, {}, u, v, v);
        if i < |rest| {
          assert Reach(g, was[i].node, was[|rest|].node);
          ReachTrans(g, {}, stack[i].node, u, v);
        }
      } else {
        assert Reach(g, was[i].node, was[j].node);
      }
    }
  }

  lemma {:induction false} ExpandWaits(g: Graph, visited: set<nat>, rest: seq<Visit>, u: nat, finished: seq<nat>,
      i: nat, v: nat)
    requires Expanding(g, visited, rest + [Visit(u, false)], finished) && u !in visited
    requires i < |Expanded(g, visited, rest, u)| && Expanded(g, visited, rest, u)[i].expanded
    requires Edge(g, Expanded(g, visited, rest, u)[i].node, v) && v !in visited + {u}
    ensures WaitsAbove(Expanded(g, visited, rest, u), i, v)
  {
    hide FinishConsistent, Reach;
    var pushed := Fresh(g, u, visited + {u}, g.n);
    var was, stack := rest + [Visit(u, false)], Expanded(g, visited, rest, u);
    if i < |rest| {
      assert was[i] == rest[i] == stack[i];
      var j :| i < j < |was| && was[j].node == v;
      assert stack[j].node == v;
    } else {
      FreshHolds(g, u, visited + {u}, g.n, v);
      var k :| 0 <= k < |pushed| && pushed[k] == v;
      assert stack[|rest| + 1 + k].node == v;
    }
  }

  lemma {:induction false} ExpandKeeps(g: Graph, visited: set<nat>, rest: seq<Visit>, u: nat, finished: seq<nat>)
    requires Expanding(g, visited, rest + [Visit(u, false)], finished) && u !in visited
    ensures Expanding(g, visited + {u}, Expanded(g, visited, rest, u), finished)
  {
    hide FinishConsistent, Reach, WaitsAbove, Edge;
    var was, stack := rest + [Visit(u, false)], Expanded(g, visited, rest, u);
    forall i, v | 0 <= i < |stack| && stack[i].expanded && Edge(g, stack[i].node, v) && v !in visited + {u}
      ensures WaitsAbove(stack, i, v)
    {
      ExpandWaits(g, visited, rest, u, finished, i, v);
    }
    ExpandReaches(g, visited, rest, u, finished);
    assert was[|rest|] == Visit(u, false) && stack[|rest|] == Visit(u, true);
    assert forall i :: 0 <= i < |rest| ==> was[i] == stack[i];
    assert forall i :: |rest| < i < |stack| ==> !stack[i].expanded;
    hide Expanded, Fresh;
    forall v | v in visited + {u} ensures v in finished || Open(stack, v) {
      if v in visited && v !in finished {
        var i :| 0 <= i < |was| && was[i] == Visit(v, true);
        assert stack[i] == Visit(v, true);
      }
    }
  }

  lemma {:induction false} FreshHolds(g: Graph, u: nat, visited: set<nat>, i: nat, v: nat)
    requires i <= g.n && v < i && Edge(g, u, v) && v !in visited
    ensures v in Fresh(g, u, visited, i)
  {
    if v < i - 1 { FreshHolds(g, u, visited, i - 1, v); }
  }

  lemma {:induction false} StartKeeps(g: Graph, visited: set<nat>, start: nat, finished: seq<nat>)
    requires start < g.n && Expanding(g, visited, [], finished)
    ensures Expanding(g, visited, [Visit(start, false)], finished)
  {
    forall v | v in visited ensures v in finished { assert !Open([], v); }
  }

  lemma {:induction false} TopEntry(g: Graph, visited: set<nat>, stack: seq<Visit>, finished: seq<nat>)
    requires stack != [] && Expanding(g, visited, stack, finished)
    ensures stack[|stack| - 1].node < g.n
    ensures Pending(stack) == Pending(stack[..|stack| - 1]) + if stack[|stack| - 1].expanded then 0 else 1
  {
  }

  /** The first pass from one start node, marking nodes as they are expanded. */
  method ExpandFrom(g: Graph, start: nat, visited0: set<nat>, finished0: seq<nat>)
    returns (visited: set<nat>, finished: seq<nat>)
    requires start < g.n && Expanding(g, visited0, [], finished0)
    ensures Expanding(g, visited, [], finished) && visited0 + {start} <= visited
  {
    hide *;
    visited, finished := visited0, finished0;
    var stack := [Visit(start, false)];
    StartKeeps(g, visited, start, finished);
    while stack != []
      invariant Expanding(g, visited, stack, finished) && visited0 <= visited
      invariant start in visited || stack == [Visit(start, false)]
      decreases Unvisited(g, visited), Pending(stack), |stack|
    {
      var current, rest := stack[|stack| - 1], stack[..|stack| - 1];
      assert stack == rest + [current];
      TopEntry(g, visited, stack, finished);
      if current.expanded {
        FinishKeeps(g, visited, rest, current.node, finished);
        stack, finished := rest, finished + [current.node];
      } else if current.node in visited {
        SkipKeeps(g, visited, rest, current.node, finished);
        stack := rest;
      } else {
        ExpandKeeps(g, visited, rest, current.node, finished);
        ExpandVisits(g, visited, current.node);
        visited, stack := visited + {current.node}, Expanded(g, visited, rest, current.node);
      }
    }
  }

  lemma {:induction false} ExpandVisits(g: Graph, visited: set<nat>, u: nat)
    requires u < g.n && u !in visited
    ensures Unvisited(g, visited + {u}) < Unvisited(g, visited)
  {
    assert u in Unvisited(g, visited);
  }

  /** With nodes marked at expansion the search reports exactly the cyclic strongly connected components. */
  method RepairedCycleComponents(g: Graph) returns (cycles: seq<set<nat>>)
    ensures forall v :: OnCycle(g, v) ==> exists c :: c in cycles && Catches(g, c, v)
    ensures forall c :: c in cycles ==> StronglyConnected(g, c)
    ensures forall c, v :: c in cycles && v in c ==> OnCycle(g, v)
  {
    var visited: set<nat>, order: seq<nat> := {}, [];
    for start := 0 to g.n
      invariant Expanding(g, visited, [], order)
      invariant forall v :: 0 <= v < start ==> v in visited
    {
      if start !in visited {
        visited, order := ExpandFrom(g, start, visited, order);
      }
    }
    forall v | 0 <= v < g.n ensures v in order { assert !Open([], v); }
    forall i | 0 <= i < |order| ensures order[i] < g.n { assert order[i] in order; }
    cycles := SecondPass(g, order);
    SearchMeaning(g, order, cycles);
  }
}
