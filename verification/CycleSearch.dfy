/** The two-pass search for cyclic components of a record relation graph. */
module CycleSearch {
  import opened RecordGraph

  /** A stack entry of the first pass: a node, and whether its neighbours were already pushed. */
  datatype Visit = Visit(node: nat, expanded: bool)

  function Elements(s: seq<nat>): set<nat> {
    set v | v in s
  }

  /** The unvisited neighbours of `u` below `i`, highest first. */
  function Fresh(g: Graph, u: nat, visited: set<nat>, i: nat): (vs: seq<nat>)
    requires i <= g.n
    ensures forall k :: 0 <= k < |vs| ==> vs[k] < i && vs[k] !in visited && Edge(g, u, vs[k])
    ensures forall j, k :: 0 <= j < k < |vs| ==> vs[j] > vs[k]
  {
    if i == 0 then []
    else if Edge(g, u, i - 1) && i - 1 !in visited then [i - 1] + Fresh(g, u, visited, i - 1)
    else Fresh(g, u, visited, i - 1)
  }

  function Unexpanded(vs: seq<nat>): seq<Visit> {
    seq(|vs|, k requires 0 <= k < |vs| => Visit(vs[k], false))
  }

  function Unvisited(g: Graph, visited: set<nat>): set<nat> {
    set v | 0 <= v < g.n && v !in visited
  }

  function Pending(stack: seq<Visit>): nat {
    if stack == [] then 0
    else Pending(stack[..|stack| - 1]) + if stack[|stack| - 1].expanded then 0 else 1
  }

  /** Expanding a node either visits something new or leaves one pending entry fewer. */
  lemma {:induction false} ExpandShrinks(g: Graph, visited: set<nat>, rest: seq<Visit>, u: nat)
    ensures var pushed := Fresh(g, u, visited, g.n);
            var stack := rest + [Visit(u, true)] + Unexpanded(pushed);
            var left := Unvisited(g, visited + Elements(pushed));
            || left < Unvisited(g, visited)
            || (left == Unvisited(g, visited) && Pending(stack) < Pending(rest + [Visit(u, false)]))
  {
    var pushed := Fresh(g, u, visited, g.n);
    if pushed == [] {
      assert rest + [Visit(u, true)] + Unexpanded(pushed) == rest + [Visit(u, true)];
      assert (rest + [Visit(u, true)])[..|rest|] == rest == (rest + [Visit(u, false)])[..|rest|];
      assert Unvisited(g, visited + Elements(pushed)) == Unvisited(g, visited);
    } else {
      assert pushed[0] in Unvisited(g, visited) && pushed[0] in Elements(pushed);
    }
  }

  /** The first pass from a given stack: nodes are marked visited when they are pushed. */
  function Traverse(g: Graph, visited: set<nat>, stack: seq<Visit>, finished: seq<nat>): (set<nat>, seq<nat>)
    decreases Unvisited(g, visited), Pending(stack), |stack|
  {
    if stack == [] then (visited, finished)
    else
      var rest, top := stack[..|stack| - 1], stack[|stack| - 1];
      if top.expanded then Traverse(g, visited, rest, finished + [top.node])
      else
        var pushed := Fresh(g, top.node, visited, g.n);
        ExpandShrinks(g, visited, rest, top.node);
        assert stack == rest + [Visit(top.node, false)];
        Traverse(g, visited + Elements(pushed), rest + [Visit(top.node, true)] + Unexpanded(pushed), finished)
  }

  function FinishFrom(g: Graph, start: nat, visited: set<nat>, finished: seq<nat>): seq<nat>
    requires start <= g.n
    decreases g.n - start
  {
    if start == g.n then finished
    else if start in visited then FinishFrom(g, start + 1, visited, finished)
    else
      var (seen, done) := Traverse(g, visited + {start}, [Visit(start, false)], finished);
      FinishFrom(g, start + 1, seen, done)
  }

  /** The finish order the first pass computes. */
  function FinishOrder(g: Graph): seq<nat> {
    FinishFrom(g, 0, {}, [])
  }

  // ----- the first pass lists every node once -----

  ghost predicate NoRepeats(s: seq<nat>) {
    forall i, j :: 0 <= i < j < |s| ==> s[i] != s[j]
  }

  /** The visited nodes are those on the stack and those finished, each in one place. */
  ghost predicate Tracks(g: Graph, visited: set<nat>, stack: seq<Visit>, finished: seq<nat>) {
    && NoRepeats(finished)
    && (forall i, j :: 0 <= i < j < |stack| ==> stack[i].node != stack[j].node)
    && (forall i :: 0 <= i < |stack| ==> stack[i].node in visited && stack[i].node !in finished)
    && (forall v :: v in finished ==> v in visited)
    && (forall v :: v in visited ==> v < g.n && (v in finished || OnStack(stack, v)))
  }

  ghost predicate OnStack(stack: seq<Visit>, v: nat) {
    exists i :: 0 <= i < |stack| && stack[i].node == v
  }

  lemma {:induction false} ExpandTracks(g: Graph, visited: set<nat>, rest: seq<Visit>, u: nat, finished: seq<nat>)
    requires Tracks(g, visited, rest + [Visit(u, false)], finished)
    ensures var pushed := Fresh(g, u, visited, g.n);
            Tracks(g, visited + Elements(pushed), rest + [Visit(u, true)] + Unexpanded(pushed), finished)
  {
    var pushed := Fresh(g, u, visited, g.n);
    StackTracks(g, visited, rest + [Visit(u, false)], pushed, finished, rest + [Visit(u, true)] + Unexpanded(pushed));
  }

  lemma {:induction false} StackTracks(
    g: Graph, visited: set<nat>, old_: seq<Visit>, pushed: seq<nat>, finished: seq<nat>, new_: seq<Visit>)
    requires Tracks(g, visited, old_, finished) && |new_| == |old_| + |pushed|
    requires forall k :: 0 <= k < |pushed| ==> pushed[k] < g.n && pushed[k] !in visited
    requires NoRepeats(pushed)
    requires forall i :: 0 <= i < |old_| ==> new_[i].node == old_[i].node
    requires forall i :: |old_| <= i < |new_| ==> new_[i].node == pushed[i - |old_|]
    ensures Tracks(g, visited + Elements(pushed), new_, finished)
  {
    forall v | v in visited + Elements(pushed) ensures v < g.n && (v in finished || OnStack(new_, v)) {
      if v in visited {
        if v !in finished {
          var i :| 0 <= i < |old_| && old_[i].node == v;
          assert new_[i].node == v;
        }
      } else {
        var k :| 0 <= k < |pushed| && pushed[k] == v;
        assert new_[|old_| + k].node == v;
      }
    }
    forall i, j | 0 <= i < j < |new_| ensures new_[i].node != new_[j].node {
      if i < |old_| <= j { assert old_[i].node in visited; }
    }
  }

  lemma {:induction false} FinishTracks(g: Graph, visited: set<nat>, stack: seq<Visit>, finished: seq<nat>)
    requires stack != [] && Tracks(g, visited, stack, finished)
    ensures Tracks(g, visited, stack[..|stack| - 1], finished + [stack[|stack| - 1].node])
  {
    var rest, u := stack[..|stack| - 1], stack[|stack| - 1].node;
    forall v | v in visited ensures v < g.n && (v in finished + [u] || OnStack(rest, v)) {
      if v !in finished && v != u {
        var i :| 0 <= i < |stack| && stack[i].node == v;
        assert rest[i].node == v;
      }
    }
  }

  lemma {:induction false} TraverseTracks(g: Graph, visited: set<nat>, stack: seq<Visit>, finished: seq<nat>)
    requires Tracks(g, visited, stack, finished)
    ensures var (seen, done) := Traverse(g, visited, stack, finished);
            visited <= seen && Tracks(g, seen, [], done)
    decreases Unvisited(g, visited), Pending(stack), |stack|
  {
    if stack != [] {
      var rest, top := stack[..|stack| - 1], stack[|stack| - 1];
      if top.expanded {
        FinishTracks(g, visited, stack, finished);
        TraverseTracks(g, visited, rest, finished + [top.node]);
      } else {
        assert stack == rest + [Visit(top.node, false)];
        ExpandTracks(g, visited, rest, top.node, finished);
        ExpandShrinks(g, visited, rest, top.node);
        var pushed := Fresh(g, top.node, visited, g.n);
        TraverseTracks(g, visited + Elements(pushed), rest + [Visit(top.node, true)] + Unexpanded(pushed), finished);
      }
    }
  }

  lemma {:induction false} FinishFromCovers(g: Graph, start: nat, visited: set<nat>, finished: seq<nat>)
    requires start <= g.n && Tracks(g, visited, [], finished)
    requires forall v :: 0 <= v < start ==> v in visited
    ensures Covering(g, FinishFrom(g, start, visited, finished))
    decreases g.n - start
  {
    if start == g.n {
      forall i | 0 <= i < |finished| ensures finished[i] < g.n {
        assert finished[i] in visited;
      }
    } else if start in visited {
      FinishFromCovers(g, start + 1, visited, finished);
    } else {
      var stack := [Visit(start, false)];
      assert OnStack(stack, start) by { assert stack[0].node == start; }
      TraverseTracks(g, visited + {start}, stack, finished);
      var (seen, done) := Traverse(g, visited + {start}, stack, finished);
      FinishFromCovers(g, start + 1, seen, done);
    }
  }

  /** The first pass finishes every node exactly once, so no real cycle is ever missed. */
  lemma {:induction false} FinishOrderCovers(g: Graph)
    ensures Covering(g, FinishOrder(g))
  {
    FinishFromCovers(g, 0, {}, []);
  }

  // ----- the passes as the program runs them -----

  lemma {:induction false} FreshStep(g: Graph, u: nat, visited: set<nat>, i: nat)
    requires i < g.n
    ensures var below, all := Fresh(g, u, visited, i), Fresh(g, u, visited, i + 1);
            if Edge(g, u, i) && i !in visited then
              && Elements(all) == {i} + Elements(below)
              && Unexpanded(all) == [Visit(i, false)] + Unexpanded(below)
            else all == below
  {
  }

  /** Marks and pushes the unvisited neighbours of `u`, highest first. */
  method PushNeighbours(g: Graph, u: nat, visited0: set<nat>, stack0: seq<Visit>)
    returns (visited: set<nat>, stack: seq<Visit>)
    ensures visited == visited0 + Elements(Fresh(g, u, visited0, g.n))
    ensures stack == stack0 + Unexpanded(Fresh(g, u, visited0, g.n))
  {
    visited, stack := visited0, stack0;
    var i: nat := g.n;
    while i > 0
      invariant i <= g.n
      invariant forall v :: 0 <= v < i ==> (v in visited <==> v in visited0)
      invariant visited + Elements(Fresh(g, u, visited0, i)) == visited0 + Elements(Fresh(g, u, visited0, g.n))
      invariant stack + Unexpanded(Fresh(g, u, visited0, i)) == stack0 + Unexpanded(Fresh(g, u, visited0, g.n))
    {
      hide Fresh, Elements, Unexpanded, Edge;
      i := i - 1;
      FreshStep(g, u, visited0, i);
      if Edge(g, u, i) && i !in visited {
        visited := visited + {i};
        stack := stack + [Visit(i, false)];
      }
    }
  }

  /** The first pass from one start node. */
  method TraverseFrom(g: Graph, start: nat, visited0: set<nat>, finished0: seq<nat>)
    returns (visited: set<nat>, finished: seq<nat>)
    ensures (visited, finished) == Traverse(g, visited0 + {start}, [Visit(start, false)], finished0)
  {
    visited, finished := visited0 + {start}, finished0;
    var stack := [Visit(start, false)];
    while stack != []
      invariant Traverse(g, visited, stack, finished)
             == Traverse(g, visited0 + {start}, [Visit(start, false)], finished0)
      decreases Unvisited(g, visited), Pending(stack), |stack|
    {
      hide Unvisited, Elements, Unexpanded, Fresh, Pending;
      var current, rest := stack[|stack| - 1], stack[..|stack| - 1];
      assert stack == rest + [current];
      if current.expanded {
        stack, finished := rest, finished + [current.node];
        PendingExpanded(rest, current);
      } else {
        ExpandShrinks(g, visited, rest, current.node);
        visited, stack := PushNeighbours(g, current.node, visited, rest + [Visit(current.node, true)]);
      }
    }
  }

  lemma {:induction false} PendingExpanded(rest: seq<Visit>, top: Visit)
    requires top.expanded
    ensures Pending(rest + [top]) == Pending(rest)
  {
    assert (rest + [top])[..|rest|] == rest;
  }

  /** The whole first pass. */
  method FirstPass(g: Graph) returns (finished: seq<nat>)
    ensures finished == FinishOrder(g)
  {
    finished := [];
    var visited := {};
    for start := 0 to g.n
      invariant FinishFrom(g, start, visited, finished) == FinishOrder(g)
    {
      if start !in visited {
        visited, finished := TraverseFrom(g, start, visited, finished);
      }
    }
  }

  /** A set that holds `s` and every untaken predecessor of its members holds the component of `s`. */
  lemma {:induction false} ClosedHoldsWalk(g: Graph, taken: set<nat>, c: set<nat>, p: seq<nat>)
    requires Walk(g, taken, p) && p[|p| - 1] in c
    requires forall u, v :: v in c && Edge(g, u, v) && u !in taken ==> u in c
    ensures p[0] in c
  {
    if |p| > 1 {
      assert Walk(g, taken, p[1..]);
      ClosedHoldsWalk(g, taken, c, p[1..]);
      assert Edge(g, p[0], p[1]);
    }
  }

  /** Marks and pushes the predecessors of `u` that no component has taken yet, highest first. */
  method PushPredecessors(g: Graph, taken: set<nat>, u: nat, marked0: set<nat>, stack0: seq<nat>)
    returns (marked: set<nat>, stack: seq<nat>)
    requires Elements(stack0) <= marked0 && NoRepeats(stack0)
    ensures marked == marked0 + set v | 0 <= v < g.n && Edge(g, v, u) && v !in taken
    ensures NoRepeats(stack) && Elements(stack) == Elements(stack0) + (marked - marked0)
  {
    marked, stack := marked0, stack0;
    var i: nat := g.n;
    while i > 0
      invariant i <= g.n
      invariant marked == marked0 + set v | i <= v < g.n && Edge(g, v, u) && v !in taken
      invariant NoRepeats(stack) && Elements(stack) == Elements(stack0) + (marked - marked0)
    {
      i := i - 1;
      if Edge(g, i, u) && i !in taken && i !in marked {
        assert i !in Elements(stack);
        marked := marked + {i};
        ghost var before := stack;
        stack := stack + [i];
        assert Elements(stack) == Elements(before) + {i};
      }
    }
  }

  /** The marked nodes are those collected and those on the stack, and every untaken predecessor is marked. */
  ghost predicate Searching(g: Graph, taken: set<nat>, s: nat, found: set<nat>, stack: seq<nat>, marked: set<nat>) {
    && marked == found + Elements(stack) && found !! Elements(stack) && NoRepeats(stack)
    && s in marked && marked <= Component(g, taken, s)
    && forall u, v :: v in found && Edge(g, u, v) && u !in taken ==> u in marked
  }

  lemma {:induction false} SearchStep(
    g: Graph, taken: set<nat>, s: nat, found: set<nat>, rest: seq<nat>, u: nat, marked: set<nat>,
    stack': seq<nat>, marked': set<nat>)
    requires Searching(g, taken, s, found, rest + [u], marked)
    requires marked' == marked + set v | 0 <= v < g.n && Edge(g, v, u) && v !in taken
    requires NoRepeats(stack') && Elements(stack') == Elements(rest) + (marked' - marked)
    ensures Searching(g, taken, s, found + {u}, stack', marked')
    ensures u in Component(g, taken, s) && u !in found
  {
    hide Component;
    assert (rest + [u])[|rest|] == u;
    assert Elements(rest + [u]) == Elements(rest) + {u};
    assert u !in Elements(rest) by {
      assert forall i :: 0 <= i < |rest| ==> (rest + [u])[i] == rest[i];
    }
    forall v | 0 <= v < g.n && Edge(g, v, u) && v !in taken ensures v in Component(g, taken, s) {
      PredecessorJoins(g, taken, s, u, v);
    }
  }

  lemma {:induction false} PredecessorJoins(g: Graph, taken: set<nat>, s: nat, u: nat, v: nat)
    requires u in Component(g, taken, s) && Edge(g, v, u) && v !in taken
    ensures v in Component(g, taken, s)
  {
    ReachStep(g, taken, v, u, s);
  }

  lemma {:induction false} SearchDone(g: Graph, taken: set<nat>, s: nat, found: set<nat>, marked: set<nat>)
    requires Searching(g, taken, s, found, [], marked)
    ensures found == Component(g, taken, s)
  {
    forall v | v in Component(g, taken, s) ensures v in found {
      var p :| Links(g, taken, p, v, s);
      ClosedHoldsWalk(g, taken, found, p);
    }
  }

  lemma {:induction false} SearchStart(g: Graph, taken: set<nat>, s: nat)
    requires s < g.n && s !in taken
    ensures Searching(g, taken, s, {}, [s], {s})
  {
    ReachSelf(g, taken, s);
  }

  lemma {:induction false} SearchTop(
    g: Graph, taken: set<nat>, s: nat, found: set<nat>, rest: seq<nat>, u: nat, marked: set<nat>)
    requires Searching(g, taken, s, found, rest + [u], marked)
    ensures Elements(rest) <= marked && NoRepeats(rest)
  {
    assert forall i :: 0 <= i < |rest| ==> (rest + [u])[i] == rest[i];
  }

  /** One component of the second pass: a backward search that marks nodes as it pushes them. */
  method Collect(g: Graph, taken: set<nat>, s: nat) returns (component: set<nat>)
    requires s < g.n && s !in taken
    ensures component == Component(g, taken, s)
  {
    hide *;
    component := {};
    ghost var whole := Component(g, taken, s);
    var stack: seq<nat>, marked: set<nat> := [s], {s};
    SearchStart(g, taken, s);
    while stack != []
      invariant Searching(g, taken, s, component, stack, marked)
      decreases |whole - component|
    {
      var current, rest := stack[|stack| - 1], stack[..|stack| - 1];
      assert stack == rest + [current];
      ghost var before := marked;
      SearchTop(g, taken, s, component, rest, current, marked);
      marked, stack := PushPredecessors(g, taken, current, marked, rest);
      SearchStep(g, taken, s, component, rest, current, before, stack, marked);
      CardinalityShrinks(whole - (component + {current}), whole - component);
      component := component + {current};
    }
    SearchDone(g, taken, s, component, marked);
  }

  lemma {:induction false} CardinalityShrinks(a: set<nat>, b: set<nat>)
    requires a < b
    ensures |a| < |b|
  {
    assert b == a + (b - a);
    assert b - a != {};
  }

  ghost function ReportedOf(g: Graph, comps: seq<set<nat>>): seq<set<nat>> {
    if comps == [] then []
    else (if Reported(g, comps[0]) then [comps[0]] else []) + ReportedOf(g, comps[1..])
  }

  lemma {:induction false} ReportedOfStep(g: Graph, order: seq<nat>, k: nat, taken: set<nat>)
    requires 0 < k <= |order| && Covering(g, order)
    ensures order[k - 1] < g.n
    ensures order[k - 1] in taken ==> Components(g, order, k, taken) == Components(g, order, k - 1, taken)
    ensures order[k - 1] !in taken ==>
      var c := Component(g, taken, order[k - 1]);
      ReportedOf(g, Components(g, order, k, taken))
      == (if Reported(g, c) then [c] else []) + ReportedOf(g, Components(g, order, k - 1, taken + c))
  {
    var c := Component(g, taken, order[k - 1]);
    var rest := Components(g, order, k - 1, taken + c);
    assert ([c] + rest)[1..] == rest;
  }

  /** The second pass, over any finish order. */
  method SecondPass(g: Graph, order: seq<nat>) returns (cycles: seq<set<nat>>)
    requires Covering(g, order)
    ensures cycles == ReportedOf(g, Components(g, order, |order|, {}))
  {
    hide *;
    cycles := [];
    var taken: set<nat>, k: nat := {}, |order|;
    while k > 0
      invariant k <= |order|
      invariant cycles + ReportedOf(g, Components(g, order, k, taken))
             == ReportedOf(g, Components(g, order, |order|, {}))
    {
      ReportedOfStep(g, order, k, taken);
      k := k - 1;
      if order[k] !in taken {
        var component := Collect(g, taken, order[k]);
        if Reported(g, component) {
          cycles := cycles + [component];
        }
        taken := taken + component;
      }
    }
    ReportedOfNone(g, order, taken);
  }

  lemma {:induction false} ReportedOfNone(g: Graph, order: seq<nat>, taken: set<nat>)
    ensures ReportedOf(g, Components(g, order, 0, taken)) == []
  {
  }

  lemma {:induction false} ReportedOfMembers(g: Graph, comps: seq<set<nat>>, c: set<nat>)
    ensures c in ReportedOf(g, comps) <==> c in comps && Reported(g, c)
  {
    if comps != [] { ReportedOfMembers(g, comps[1..], c); }
  }

  /**
   The search as written: every cycle is caught with its whole strongly connected component, and
   the components reported are exactly the cyclic strongly connected ones whenever the order in
   which the first pass finished the nodes is consistent - and only then.
   */
  method CycleComponents(g: Graph) returns (cycles: seq<set<nat>>)
    ensures forall v :: OnCycle(g, v) ==> exists c :: c in cycles && Catches(g, c, v)
    ensures (forall c :: c in cycles ==> StronglyConnected(g, c)) <==> FinishConsistent(g, FinishOrder(g))
    ensures FinishConsistent(g, FinishOrder(g)) ==> forall c, v :: c in cycles && v in c ==> OnCycle(g, v)
  {
    var order := FirstPass(g);
    FinishOrderCovers(g);
    cycles := SecondPass(g, order);
    SearchMeaning(g, order, cycles);
  }

  lemma {:induction false} SearchMeaning(g: Graph, order: seq<nat>, cycles: seq<set<nat>>)
    requires Covering(g, order) && cycles == ReportedOf(g, Components(g, order, |order|, {}))
    ensures forall v :: OnCycle(g, v) ==> exists c :: c in cycles && Catches(g, c, v)
    ensures (forall c :: c in cycles ==> StronglyConnected(g, c)) <==> FinishConsistent(g, order)
    ensures FinishConsistent(g, order) ==> forall c, v :: c in cycles && v in c ==> OnCycle(g, v)
  {
    var comps := Components(g, order, |order|, {});
    forall c ensures c in cycles <==> c in comps && Reported(g, c) {
      ReportedOfMembers(g, comps, c);
    }
    forall v | OnCycle(g, v) ensures exists c :: c in cycles && Catches(g, c, v) {
      NoCycleMissed(g, order, v);
    }
    ExactIffConsistent(g, order);
    forall c | c in comps && !Reported(g, c) ensures StronglyConnected(g, c) {
      UnreportedIsSingle(g, order, c);
    }
    if FinishConsistent(g, order) {
      forall c, v | c in cycles && v in c ensures OnCycle(g, v) {
        NoFalseCycle(g, order, c, v);
      }
    }
  }
}
