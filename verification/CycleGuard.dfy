/**
 Which branch of the first pass spoils the finish order: the test that skips a neighbour because
 it is marked also skips one that was pushed and is still waiting to be expanded.
 */
module CycleGuard {
  import opened RecordGraph
  import opened CycleSearch
  import opened CycleRepair

  /** Expanding `u` skips no neighbour that waits on the stack. */
  predicate SkipsNone(g: Graph, rest: seq<Visit>, u: nat) {
    forall i :: 0 <= i < |rest| && !rest[i].expanded ==> !Edge(g, u, rest[i].node)
  }

  /** No expansion of the traversal from this stack skips a waiting neighbour. */
  predicate NeverSkips(g: Graph, visited: set<nat>, stack: seq<Visit>)
    decreases Unvisited(g, visited), Pending(stack), |stack|
  {
    if stack == [] then true
    else
      var rest, top := stack[..|stack| - 1], stack[|stack| - 1];
      if top.expanded then NeverSkips(g, visited, rest)
      else
        var pushed := Fresh(g, top.node, visited, g.n);
        ExpandShrinks(g, visited, rest, top.node);
        assert stack == rest + [Visit(top.node, false)];
        && SkipsNone(g, rest, top.node)
        && NeverSkips(g, visited + Elements(pushed), rest + [Visit(top.node, true)] + Unexpanded(pushed))
  }

  predicate NeverSkipsFrom(g: Graph, start: nat, visited: set<nat>, finished: seq<nat>)
    requires start <= g.n
    decreases g.n - start
  {
    if start == g.n then true
    else if start in visited then NeverSkipsFrom(g, start + 1, visited, finished)
    else
      var (seen, done) := Traverse(g, visited + {start}, [Visit(start, false)], finished);
      NeverSkips(g, visited + {start}, [Visit(start, false)]) && NeverSkipsFrom(g, start + 1, seen, done)
  }

  /** The first pass never skips a neighbour that waits on the stack. */
  predicate NeverSkipsWaiting(g: Graph) {
    NeverSkipsFrom(g, 0, {}, [])
  }

  /**
   What holds as long as nothing waiting is skipped: expanded entries reach all above them, and the
   edges of finished and expanded nodes lead to finished or expanded ones, or to entries above.
   */
  ghost predicate Unskipped(g: Graph, visited: set<nat>, stack: seq<Visit>, finished: seq<nat>) {
    && Tracks(g, visited, stack, finished)
    && (forall i, j :: 0 <= i < j < |stack| && stack[i].expanded ==> Reach(g, stack[i].node, stack[j].node))
    && (forall u, v :: u in finished && Edge(g, u, v) ==> v in finished || Open(stack, v))
    && (forall i, v :: 0 <= i < |stack| && stack[i].expanded && Edge(g, stack[i].node, v) ==>
          v in finished || Open(stack, v) || WaitsAbove(stack, i, v))
    && FinishConsistent(g, finished)
  }

  lemma {:induction false} UnskippedFinish(g: Graph, visited: set<nat>, rest: seq<Visit>, u: nat, finished: seq<nat>)
    requires Unskipped(g, visited, rest + [Visit(u, true)], finished)
    ensures FinishConsistent(g, finished + [u])
  {
    var stack, done := rest + [Visit(u, true)], finished + [u];
    assert stack[|rest|] == Visit(u, true);
    forall j, y | 0 <= j < |done| && Reach(g, done[j], y) && y !in done[..j + 1]
      ensures exists z :: z !in done[..j + 1] && Mutual(g, done[j], z)
    {
      if j < |finished| {
        assert done[..j + 1] == finished[..j + 1];
      } else {
        assert done[..j + 1] == done;
        var p :| Links(g, {}, p, u, y);
        var i := Leaves(g, Elements(done), p);
        assert Edge(g, p[i], p[i + 1]);
        assert Open(stack, p[i + 1]) by {
          if p[i] == u { assert !WaitsAbove(stack, |rest|, p[i + 1]); }
        }
        var k :| 0 <= k < |stack| && stack[k] == Visit(p[i + 1], true);
        assert Reach(g, stack[k].node, stack[|rest|].node);
        WalkParts(g, {}, p, i + 1);
        assert Mutual(g, u, p[i + 1]);
      }
    }
  }

  lemma {:induction false} OpenBelow(rest: seq<Visit>, u: nat, v: nat)
    ensures Open(rest + [Visit(u, true)], v) ==> v == u || Open(rest, v)
  {
    var stack := rest + [Visit(u, true)];
    if Open(stack, v) && v != u {
      var i :| 0 <= i < |stack| && stack[i] == Visit(v, true);
      assert rest[i] == Visit(v, true);
    }
  }

  lemma {:induction false} FinishKeepsUnskipped(g: Graph, visited: set<nat>, rest: seq<Visit>, u: nat,
      finished: seq<nat>)
    requires Unskipped(g, visited, rest + [Visit(u, true)], finished)
    ensures Unskipped(g, visited, rest, finished + [u])
  {
    UnskippedFinish(g, visited, rest, u, finished);
    var stack := rest + [Visit(u, true)];
    FinishTracks(g, visited, stack, finished);
    assert stack[..|stack| - 1] == rest;
    assert stack[|rest|] == Visit(u, true) && forall i :: 0 <= i < |rest| ==> stack[i] == rest[i];
    hide FinishConsistent, Reach, Tracks, Open;
    forall v ensures Open(stack, v) ==> v == u || Open(rest, v) { OpenBelow(rest, u, v); }
    forall i, v | 0 <= i < |rest| && rest[i].expanded && Edge(g, rest[i].node, v)
      ensures v in finished + [u] || Open(rest, v) || WaitsAbove(rest, i, v)
    {
      if v !in finished && v != u && !Open(stack, v) { RestWaits(rest, u, true, i, v); }
    }
    forall x, v | x in finished + [u] && Edge(g, x, v) ensures v in finished + [u] || Open(rest, v) {
      if x !in finished { assert !WaitsAbove(stack, |rest|, v); }
    }
  }

  /** The stack after expanding `u`, its unmarked neighbours on top. */
  function Pushed(g: Graph, visited: set<nat>, rest: seq<Visit>, u: nat): seq<Visit> {
    rest + [Visit(u, true)] + Unexpanded(Fresh(g, u, visited, g.n))
  }

  lemma {:induction false} PushedReaches(g: Graph, visited: set<nat>, rest: seq<Visit>, u: nat, finished: seq<nat>)
    requires Unskipped(g, visited, rest + [Visit(u, false)], finished)
    ensures var stack := Pushed(g, visited, rest, u);
            forall i, j :: 0 <= i < j < |stack| && stack[i].expanded ==> Reach(g, stack[i].node, stack[j].node)
  {
    var pushed := Fresh(g, u, visited, g.n);
    var was, stack := rest + [Visit(u, false)], Pushed(g, visited, rest, u);
    assert was[|rest|] == Visit(u, false) && stack[|rest|] == Visit(u, true);
    assert forall i :: 0 <= i < |rest| ==> was[i] == rest[i] == stack[i];
    assert forall i :: |rest| < i < |stack| ==> stack[i] == Visit(pushed[i - |rest| - 1], false);
    forall i, j | 0 <= i < j < |stack| && stack[i].expanded ensures Reach(g, stack[i].node, stack[j].node) {
      if j > |rest| {
        var v := stack[j].node;
        ReachSelf(g, {}, v);
        ReachStep(g, {}, u, v, v);
        if i < |rest| {
          assert Reach(g, was[i].node, was[|rest|].node);
          ReachTrans(g, {}, stack[i].node, u, v);
        }
      } else {
        assert Reach(g, was[i].node, was[j].node);
      }
    }
  }

  lemma {:induction false} OpenAfter(g: Graph, visited: set<nat>, rest: seq<Visit>, u: nat, v: nat)
    requires v == u || Open(rest + [Visit(u, false)], v)
    ensures Open(Pushed(g, visited, rest, u), v)
  {
    var was, stack := rest + [Visit(u, false)], Pushed(g, visited, rest, u);
    assert stack[|rest|] == Visit(u, true);
    if v != u {
      var i :| 0 <= i < |was| && was[i] == Visit(v, true);
      assert stack[i] == was[i];
    }
  }

  /** Every neighbour of an expanded entry is accounted for, the guard excluding waiting ones below. */
  lemma {:induction false} PushedAccounts(g: Graph, visited: set<nat>, rest: seq<Visit>, u: nat, finished: seq<nat>,
      i: nat, v: nat)
    requires Unskipped(g, visited, rest + [Visit(u, false)], finished) && SkipsNone(g, rest, u)
    requires i < |Pushed(g, visited, rest, u)| && Pushed(g, visited, rest, u)[i].expanded
    requires Edge(g, Pushed(g, visited, rest, u)[i].node, v)
    ensures v in finished || Open(Pushed(g, visited, rest, u), v) || WaitsAbove(Pushed(g, visited, rest, u), i, v)
  {
    var was, stack := rest + [Visit(u, false)], Pushed(g, visited, rest, u);
    if v == u || Open(was, v) {
      OpenAfter(g, visited, rest, u, v);
    } else if i < |rest| {
      assert was[i] == rest[i] == stack[i];
      if v !in finished { StillAbove(g, visited, rest, u, i, v); }
    } else {
      OnlyTop(g, visited, rest, u, i);
      TopAccounts(g, visited, rest, u, finished, v);
    }
  }

  lemma {:induction false} OnlyTop(g: Graph, visited: set<nat>, rest: seq<Visit>, u: nat, i: nat)
    requires |rest| <= i < |Pushed(g, visited, rest, u)| && Pushed(g, visited, rest, u)[i].expanded
    ensures i == |rest| && Pushed(g, visited, rest, u)[i].node == u
  {
  }

  lemma {:induction false} StillAbove(g: Graph, visited: set<nat>, rest: seq<Visit>, u: nat, i: nat, v: nat)
    requires WaitsAbove(rest + [Visit(u, false)], i, v)
    ensures WaitsAbove(Pushed(g, visited, rest, u), i, v)
  {
    var was, stack := rest + [Visit(u, false)], Pushed(g, visited, rest, u);
    var j :| i < j < |was| && was[j].node == v;
    assert stack[j].node == v;
  }

  lemma {:induction false} TopAccounts(g: Graph, visited: set<nat>, rest: seq<Visit>, u: nat, finished: seq<nat>,
      v: nat)
    requires Tracks(g, visited, rest + [Visit(u, false)], finished)
    requires SkipsNone(g, rest, u) && Edge(g, u, v) && v != u && !Open(rest + [Visit(u, false)], v)
    ensures v in finished || WaitsAbove(Pushed(g, visited, rest, u), |rest|, v)
  {
    var pushed := Fresh(g, u, visited, g.n);
    var was, stack := rest + [Visit(u, false)], Pushed(g, visited, rest, u);
    forall k | 0 <= k < |was| ensures was[k].node != v {
      assert was[k] == Visit(was[k].node, was[k].expanded);
      assert k < |rest| ==> was[k] == rest[k];
    }
    if v !in visited {
      FreshHolds(g, u, visited, g.n, v);
      var k :| 0 <= k < |pushed| && pushed[k] == v;
      assert stack[|rest| + 1 + k].node == v;
    }
  }

  lemma {:induction false} ExpandKeepsUnskipped(g: Graph, visited: set<nat>, rest: seq<Visit>, u: nat,
      finished: seq<nat>)
    requires Unskipped(g, visited, rest + [Visit(u, false)], finished) && SkipsNone(g, rest, u)
    ensures Unskipped(g, visited + Elements(Fresh(g, u, visited, g.n)), Pushed(g, visited, rest, u), finished)
  {
    var stack := Pushed(g, visited, rest, u);
    ExpandTracks(g, visited, rest, u, finished);
    PushedReaches(g, visited, rest, u, finished);
    forall i, v | 0 <= i < |stack| && stack[i].expanded && Edge(g, stack[i].node, v)
      ensures v in finished || Open(stack, v) || WaitsAbove(stack, i, v)
    {
      PushedAccounts(g, visited, rest, u, finished, i, v);
    }
    forall x, v | x in finished && Edge(g, x, v) ensures v in finished || Open(stack, v) {
      if v !in finished { OpenAfter(g, visited, rest, u, v); }
    }
  }

  lemma {:induction false} TraverseUnskipped(g: Graph, visited: set<nat>, stack: seq<Visit>, finished: seq<nat>)
    requires Unskipped(g, visited, stack, finished) && NeverSkips(g, visited, stack)
    ensures var (seen, done) := Traverse(g, visited, stack, finished); visited <= seen && Unskipped(g, seen, [], done)
    decreases Unvisited(g, visited), Pending(stack), |stack|
  {
    hide Unskipped, SkipsNone, Fresh, Unvisited, Pending;
    if stack != [] {
      var rest, top := stack[..|stack| - 1], stack[|stack| - 1];
      assert stack == rest + [top];
      if top.expanded {
        FinishKeepsUnskipped(g, visited, rest, top.node, finished);
        PendingExpanded(rest, top);
        TraverseUnskipped(g, visited, rest, finished + [top.node]);
      } else {
        ExpandKeepsUnskipped(g, visited, rest, top.node, finished);
        ExpandShrinks(g, visited, rest, top.node);
        TraverseUnskipped(g, visited + Elements(Fresh(g, top.node, visited, g.n)), Pushed(g, visited, rest, top.node),
            finished);
      }
    }
  }

  lemma {:induction false} StartUnskipped(g: Graph, visited: set<nat>, start: nat, finished: seq<nat>)
    requires start < g.n && start !in visited && Unskipped(g, visited, [], finished)
    ensures Unskipped(g, visited + {start}, [Visit(start, false)], finished)
  {
    var stack := [Visit(start, false)];
    assert forall v :: !Open([], v) && !OnStack([], v);
    assert OnStack(stack, start) by { assert stack[0].node == start; }
    forall v | v in visited ensures v in finished || OnStack(stack, v) { assert v in finished || OnStack([], v); }
  }

  lemma {:induction false} FinishFromUnskipped(g: Graph, start: nat, visited: set<nat>, finished: seq<nat>)
    requires start <= g.n && Unskipped(g, visited, [], finished) && NeverSkipsFrom(g, start, visited, finished)
    ensures FinishConsistent(g, FinishFrom(g, start, visited, finished))
    decreases g.n - start
  {
    hide NeverSkips, Traverse, FinishConsistent, Tracks, Reach;
    if start < g.n {
      if start in visited {
        FinishFromUnskipped(g, start + 1, visited, finished);
      } else {
        StartUnskipped(g, visited, start, finished);
        TraverseUnskipped(g, visited + {start}, [Visit(start, false)], finished);
        var (seen, done) := Traverse(g, visited + {start}, [Visit(start, false)], finished);
        FinishFromUnskipped(g, start + 1, seen, done);
      }
    }
  }

  /**
   Main result: while the test only skips neighbours that were expanded or finished, the finish
   order is consistent and the search exact; whatever it reports wrongly, a skipped waiting
   neighbour caused it.
   */
  lemma {:induction false} NoSkipIsExact(g: Graph)
    requires NeverSkipsWaiting(g)
    ensures FinishConsistent(g, FinishOrder(g)) && Exact(g, FinishOrder(g))
  {
    assert Unskipped(g, {}, [], []);
    FinishFromUnskipped(g, 0, {}, []);
    FinishOrderCovers(g);
    ExactIffConsistent(g, FinishOrder(g));
  }

  // ----- a skip that does no harm -----

  /** Node 0 points to 1 and 2, which point to each other. */
  const PAIR := Graph(3, {(0, 1), (0, 2), (1, 2), (2, 1)})

  lemma {:induction false} PairPushes()
    ensures PushesBoth(PAIR)
  {
  }

  lemma {:induction false} PairSkips()
    ensures !NeverSkipsWaiting(PAIR)
  {
    var zero, two, one := Visit(0, true), Visit(2, false), Visit(1, false);
    var all: set<nat> := {0, 1, 2};
    PairPushes();
    PushedSets();
    assert [] + [zero] + [two, one] == [zero, two, one];
    assert {} + {0} == {0};
    assert [zero, two, one][..2] == [zero, two];
    assert Edge(PAIR, 1, [zero, two][1].node) && !SkipsNone(PAIR, [zero, two], 1);
    assert !NeverSkips(PAIR, all, [zero, two, one]);
    assert [Visit(0, false)][..0] == [];
    assert !NeverSkips(PAIR, {0}, [Visit(0, false)]);
  }

  lemma {:induction false} PairStays(p: seq<nat>)
    requires Walk(PAIR, {}, p) && p[0] != 0
    ensures p[|p| - 1] != 0
  {
    if |p| > 1 {
      assert Edge(PAIR, p[0], p[1]);
      assert Walk(PAIR, {}, p[1..]);
      PairStays(p[1..]);
    }
  }

  /** Not every such skip does harm: here the two nodes share a component and the search is exact. */
  lemma {:induction false} HarmlessSkip()
    ensures !NeverSkipsWaiting(PAIR) && FinishConsistent(PAIR, FinishOrder(PAIR))
  {
    PairSkips();
    PairPushes();
    FinishBoth(PAIR);
    var order: seq<nat> := [1, 2, 0];
    ReachSelf(PAIR, {}, 1);
    ReachSelf(PAIR, {}, 2);
    ReachStep(PAIR, {}, 1, 2, 2);
    ReachStep(PAIR, {}, 2, 1, 1);
    assert order[..1] == [1] && order[..2] == [1, 2] && order[..3] == order;
    forall j, y | 0 <= j < |order| && Reach(PAIR, order[j], y) && y !in order[..j + 1]
      ensures exists z :: z !in order[..j + 1] && Mutual(PAIR, order[j], z)
    {
      ReachEnds(PAIR, {}, order[j], y);
      var p :| Links(PAIR, {}, p, order[j], y);
      if j == 0 {
        assert 2 !in order[..1] && Mutual(PAIR, 1, 2);
      } else if j == 1 {
        PairStays(p);
      }
    }
  }
}
