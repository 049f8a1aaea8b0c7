/** Record relation graphs: nodes `0 .. n`, in the sorted order of their identifiers. */
module RecordGraph {
  datatype Graph = Graph(n: nat, edges: set<(nat, nat)>)

  predicate Edge(g: Graph, u: nat, v: nat) {
    u < g.n && v < g.n && (u, v) in g.edges
  }

  /** A walk from its first to its last node that stays outside `avoid`. */
  ghost predicate Walk(g: Graph, avoid: set<nat>, p: seq<nat>) {
    && |p| > 0
    && (forall i :: 0 <= i < |p| ==> p[i] < g.n && p[i] !in avoid)
    && (forall i :: 0 <= i < |p| - 1 ==> Edge(g, p[i], p[i + 1]))
  }

  ghost predicate Links(g: Graph, avoid: set<nat>, p: seq<nat>, u: nat, v: nat) {
    Walk(g, avoid, p) && p[0] == u && p[|p| - 1] == v
  }

  ghost predicate ReachAvoiding(g: Graph, avoid: set<nat>, u: nat, v: nat) {
    exists p :: Links(g, avoid, p, u, v)
  }

  ghost predicate Reach(g: Graph, u: nat, v: nat) {
    ReachAvoiding(g, {}, u, v)
  }

  /** Two nodes of one strongly connected component. */
  ghost predicate Mutual(g: Graph, u: nat, v: nat) {
    Reach(g, u, v) && Reach(g, v, u)
  }

  lemma {:induction false} ReachSelf(g: Graph, avoid: set<nat>, u: nat)
    requires u < g.n && u !in avoid
    ensures ReachAvoiding(g, avoid, u, u)
  {
    assert Links(g, avoid, [u], u, u);
  }

  lemma {:induction false} ReachStep(g: Graph, avoid: set<nat>, u: nat, v: nat, w: nat)
    requires Edge(g, u, v) && u !in avoid && ReachAvoiding(g, avoid, v, w)
    ensures ReachAvoiding(g, avoid, u, w)
  {
    var p :| Links(g, avoid, p, v, w);
    var q := [u] + p;
    assert forall i :: 0 <= i < |q| - 1 ==> Edge(g, q[i], q[i + 1]) by {
      forall i | 0 <= i < |q| - 1 ensures Edge(g, q[i], q[i + 1]) {
        if i > 0 { assert q[i] == p[i - 1] && q[i + 1] == p[i]; }
      }
    }
    assert Links(g, avoid, q, u, w);
  }

  lemma {:induction false} ReachTrans(g: Graph, avoid: set<nat>, u: nat, v: nat, w: nat)
    requires ReachAvoiding(g, avoid, u, v) && ReachAvoiding(g, avoid, v, w)
    ensures ReachAvoiding(g, avoid, u, w)
  {
    var p :| Links(g, avoid, p, u, v);
    WalkThen(g, avoid, p, w);
  }

  lemma {:induction false} WalkThen(g: Graph, avoid: set<nat>, p: seq<nat>, w: nat)
    requires Walk(g, avoid, p) && ReachAvoiding(g, avoid, p[|p| - 1], w)
    ensures ReachAvoiding(g, avoid, p[0], w)
  {
    if |p| > 1 {
      assert Walk(g, avoid, p[1..]);
      WalkThen(g, avoid, p[1..], w);
      ReachStep(g, avoid, p[0], p[1], w);
    }
  }

  /** Any node on a walk reaches its end, and the start reaches it. */
  lemma {:induction false} WalkParts(g: Graph, avoid: set<nat>, p: seq<nat>, i: nat)
    requires Walk(g, avoid, p) && i < |p|
    ensures ReachAvoiding(g, avoid, p[0], p[i]) && ReachAvoiding(g, avoid, p[i], p[|p| - 1])
  {
    assert Links(g, avoid, p[..i + 1], p[0], p[i]);
    assert Links(g, avoid, p[i..], p[i], p[|p| - 1]);
  }

  lemma {:induction false} ReachWeaken(g: Graph, a: set<nat>, b: set<nat>, u: nat, v: nat)
    requires ReachAvoiding(g, b, u, v) && a <= b
    ensures ReachAvoiding(g, a, u, v)
  {
    var p :| Links(g, b, p, u, v);
    assert Links(g, a, p, u, v);
  }

  lemma {:induction false} ReachEnds(g: Graph, avoid: set<nat>, u: nat, v: nat)
    requires ReachAvoiding(g, avoid, u, v)
    ensures u < g.n && v < g.n && u !in avoid && v !in avoid
  {
    var p :| Links(g, avoid, p, u, v);
  }

  /** A walk that starts inside a set and ends outside leaves it along some edge. */
  lemma {:induction false} Leaves(g: Graph, inside: set<nat>, p: seq<nat>) returns (i: nat)
    requires Walk(g, {}, p) && p[0] in inside && p[|p| - 1] !in inside
    ensures i < |p| - 1 && p[i] in inside && p[i + 1] !in inside
  {
    if p[1] !in inside {
      i := 0;
    } else {
      assert Walk(g, {}, p[1..]);
      i := Leaves(g, inside, p[1..]);
      i := i + 1;
    }
  }

  // ----- the second pass -----

  /** What the second pass collects from `s`: the nodes outside `taken` that reach it. */
  ghost function Component(g: Graph, taken: set<nat>, s: nat): set<nat> {
    set v | 0 <= v < g.n && ReachAvoiding(g, taken, v, s)
  }

  /** The components found while walking `order[..k]` backwards. */
  ghost function Components(g: Graph, order: seq<nat>, k: nat, taken: set<nat>): seq<set<nat>>
    requires k <= |order|
  {
    if k == 0 then []
    else if order[k - 1] in taken then Components(g, order, k - 1, taken)
    else
      var c := Component(g, taken, order[k - 1]);
      [c] + Components(g, order, k - 1, taken + c)
  }

  /** A finish order lists every node exactly once. */
  predicate Covering(g: Graph, order: seq<nat>) {
    && (forall i :: 0 <= i < |order| ==> order[i] < g.n)
    && (forall v :: 0 <= v < g.n ==> v in order)
    && (forall i, j :: 0 <= i < j < |order| ==> order[i] != order[j])
  }

  /** The set is a union of strongly connected components. */
  ghost predicate Whole(g: Graph, s: set<nat>) {
    forall u, v :: u in s && Mutual(g, u, v) ==> v in s
  }

  /** A component grown around whole components takes in whole components. */
  lemma {:induction false} ComponentWhole(g: Graph, taken: set<nat>, s: nat)
    requires Whole(g, taken)
    ensures Whole(g, Component(g, taken, s)) && Whole(g, taken + Component(g, taken, s))
  {
    var c := Component(g, taken, s);
    forall u, v | u in c && Mutual(g, u, v) ensures v in c {
      var p :| Links(g, {}, p, v, u);
      ReachEnds(g, taken, u, s);
      forall i | 0 <= i < |p| ensures p[i] !in taken {
        WalkParts(g, {}, p, i);
        ReachTrans(g, {}, u, v, p[i]);
        assert Mutual(g, p[i], u);
      }
      assert Links(g, taken, p, v, u);
      ReachTrans(g, taken, v, u, s);
      ReachEnds(g, {}, v, u);
    }
  }

  ghost predicate Disjoint(comps: seq<set<nat>>, taken: set<nat>) {
    && (forall i :: 0 <= i < |comps| ==> comps[i] !! taken)
    && (forall i, j :: 0 <= i < j < |comps| ==> comps[i] !! comps[j])
  }

  /**
   For any covering order the components partition the nodes and each holds whole strongly
   connected components, so no real cycle is split or missed.
   */
  lemma {:induction false} ComponentsPartition(g: Graph, order: seq<nat>, k: nat, taken: set<nat>)
    requires Covering(g, order) && k <= |order| && Whole(g, taken)
    requires forall i :: k <= i < |order| ==> order[i] in taken
    ensures var comps := Components(g, order, k, taken);
            && Disjoint(comps, taken)
            && (forall i :: 0 <= i < |comps| ==> comps[i] != {} && Whole(g, comps[i]))
            && (forall v :: 0 <= v < g.n ==> v in taken || exists i :: 0 <= i < |comps| && v in comps[i])
  {
    if k == 0 {
      forall v | 0 <= v < g.n ensures v in taken {
        assert v in order;
        var i :| 0 <= i < |order| && order[i] == v;
      }
    } else {
      var s := order[k - 1];
      if s in taken {
        ComponentsPartition(g, order, k - 1, taken);
      } else {
        var c := Component(g, taken, s);
        ReachSelf(g, taken, s);
        assert s in c;
        ComponentWhole(g, taken, s);
        assert c !! taken by {
          forall v | v in c ensures v !in taken { ReachEnds(g, taken, v, s); }
        }
        ComponentsPartition(g, order, k - 1, taken + c);
        hide Component, Whole, Covering;
        var rest := Components(g, order, k - 1, taken + c);
        var comps := [c] + rest;
        assert forall i :: 0 < i < |comps| ==> comps[i] == rest[i - 1];
        forall v | 0 <= v < g.n && v !in taken ensures exists i :: 0 <= i < |comps| && v in comps[i] {
          if v in c { assert v in comps[0]; } else {
            var i :| 0 <= i < |rest| && v in rest[i];
            assert v in comps[i + 1];
          }
        }
      }
    }
  }

  // ----- exactness -----

  ghost predicate StronglyConnected(g: Graph, c: set<nat>) {
    forall u, v :: u in c && v in c ==> Mutual(g, u, v)
  }

  /** Every reported component is strongly connected. */
  ghost predicate Exact(g: Graph, order: seq<nat>) {
    forall c :: c in Components(g, order, |order|, {}) ==> StronglyConnected(g, c)
  }

  /**
   A node that reaches something not yet finished has a companion in its own strongly
   connected component that is not yet finished either.
   */
  ghost predicate FinishConsistent(g: Graph, order: seq<nat>) {
    forall j, y :: 0 <= j < |order| && Reach(g, order[j], y) && y !in order[..j + 1] ==>
      exists z :: z !in order[..j + 1] && Mutual(g, order[j], z)
  }

  lemma {:induction false} Later(g: Graph, order: seq<nat>, j: nat, z: nat) returns (i: nat)
    requires Covering(g, order) && j < |order| && z < g.n && z !in order[..j + 1]
    ensures j < i < |order| && order[i] == z
  {
    forall m | 0 <= m <= j ensures order[m] in order[..j + 1] {
      assert order[..j + 1][m] == order[m];
    }
    assert z in order;
    i :| 0 <= i < |order| && order[i] == z;
  }

  /** In a consistent order, whoever still reaches the start is in its component. */
  lemma {:induction false} StartReachesBack(g: Graph, order: seq<nat>, k: nat, taken: set<nat>, j: nat)
    requires Covering(g, order) && FinishConsistent(g, order) && Whole(g, taken)
    requires 0 < k <= |order| && forall i :: k <= i < |order| ==> order[i] in taken
    requires j < k && order[j] !in taken && Reach(g, order[j], order[k - 1])
    ensures Mutual(g, order[j], order[k - 1])
    decreases k - j
  {
    var v, s := order[j], order[k - 1];
    if j == k - 1 {
      ReachSelf(g, {}, v);
    } else {
      assert s !in order[..j + 1];
      var z :| z !in order[..j + 1] && Mutual(g, v, z);
      ReachEnds(g, {}, v, z);
      var i := Later(g, order, j, z);
      assert z !in taken by { if z in taken { assert Mutual(g, z, v); } }
      assert i < k;
      ReachTrans(g, {}, z, v, s);
      StartReachesBack(g, order, k, taken, i);
      ReachTrans(g, {}, v, z, s);
      ReachTrans(g, {}, s, z, v);
    }
  }

  lemma {:induction false} ComponentExact(g: Graph, order: seq<nat>, k: nat, taken: set<nat>)
    requires Covering(g, order) && FinishConsistent(g, order) && Whole(g, taken)
    requires 0 < k <= |order| && forall i :: k <= i < |order| ==> order[i] in taken
    requires order[k - 1] !in taken
    ensures StronglyConnected(g, Component(g, taken, order[k - 1]))
  {
    var s := order[k - 1];
    var c := Component(g, taken, s);
    forall u | u in c ensures Mutual(g, u, s) {
      ReachEnds(g, taken, u, s);
      ReachWeaken(g, {}, taken, u, s);
      assert u in order;
      var j :| 0 <= j < |order| && order[j] == u;
      StartReachesBack(g, order, k, taken, j);
    }
    forall u, v | u in c && v in c ensures Mutual(g, u, v) {
      ReachTrans(g, {}, u, s, v);
      ReachTrans(g, {}, v, s, u);
    }
  }

  lemma {:induction false} StartCollected(g: Graph, order: seq<nat>, k: nat, taken: set<nat>)
    requires Covering(g, order) && k < |order| && order[k] !in taken
    ensures order[k] in Component(g, taken, order[k])
  {
    ReachSelf(g, taken, order[k]);
  }

  lemma {:induction false} ConsistentIsExact(g: Graph, order: seq<nat>, k: nat, taken: set<nat>)
    requires Covering(g, order) && FinishConsistent(g, order) && Whole(g, taken) && k <= |order|
    requires forall i :: k <= i < |order| ==> order[i] in taken
    ensures forall c :: c in Components(g, order, k, taken) ==> StronglyConnected(g, c)
  {
    hide Component, Whole, StronglyConnected, FinishConsistent, Covering;
    if k > 0 {
      var s := order[k - 1];
      if s in taken {
        ConsistentIsExact(g, order, k - 1, taken);
      } else {
        ComponentExact(g, order, k, taken);
        ComponentWhole(g, taken, s);
        StartCollected(g, order, k - 1, taken);
        ConsistentIsExact(g, order, k - 1, taken + Component(g, taken, s));
      }
    }
  }

  /** While nothing reachable from `order[j]` is taken, an exact search meets its component first. */
  lemma {:induction false} ExactFinds(g: Graph, order: seq<nat>, k: nat, taken: set<nat>, j: nat, y: nat)
    requires Covering(g, order) && j < k <= |order|
    requires forall i :: k <= i < |order| ==> order[i] in taken
    requires forall c :: c in Components(g, order, k, taken) ==> StronglyConnected(g, c)
    requires Reach(g, order[j], y) && y !in order[..j + 1]
    requires forall x :: x in taken ==> !Reach(g, order[j], x)
    ensures exists z :: z !in order[..j + 1] && Mutual(g, order[j], z)
    decreases k
  {
    var u, s := order[j], order[k - 1];
    if k == j + 1 {
      ReachEnds(g, {}, u, y);
      var i := Later(g, order, j, y);
    } else if s in taken {
      ExactFinds(g, order, k - 1, taken, j, y);
    } else {
      var c := Component(g, taken, s);
      assert Components(g, order, k, taken) == [c] + Components(g, order, k - 1, taken + c);
      assert c in Components(g, order, k, taken);
      ReachSelf(g, taken, s);
      if x :| x in c && Reach(g, u, x) {
        WholeWayIn(g, taken, u, x, s);
        assert s !in order[..j + 1];
        assert Mutual(g, u, s);
      } else {
        ExactFinds(g, order, k - 1, taken + c, j, y);
      }
    }
  }

  /** If nothing reachable from `u` is taken, whatever `u` reaches in a component draws `u` into it. */
  lemma {:induction false} WholeWayIn(g: Graph, taken: set<nat>, u: nat, x: nat, s: nat)
    requires Reach(g, u, x) && ReachAvoiding(g, taken, x, s)
    requires forall z :: z in taken ==> !Reach(g, u, z)
    ensures u in Component(g, taken, s)
  {
    var p :| Links(g, {}, p, u, x);
    forall i | 0 <= i < |p| ensures p[i] !in taken {
      WalkParts(g, {}, p, i);
    }
    assert Links(g, taken, p, u, x);
    ReachTrans(g, taken, u, x, s);
  }

  /** The reported components are the strongly connected ones exactly for consistent finish orders. */
  lemma {:induction false} ExactIffConsistent(g: Graph, order: seq<nat>)
    requires Covering(g, order)
    ensures Exact(g, order) <==> FinishConsistent(g, order)
  {
    if FinishConsistent(g, order) { ConsistentIsExact(g, order, |order|, {}); }
    if Exact(g, order) {
      forall j, y | 0 <= j < |order| && Reach(g, order[j], y) && y !in order[..j + 1]
        ensures exists z :: z !in order[..j + 1] && Mutual(g, order[j], z)
      {
        ExactFinds(g, order, |order|, {}, j, y);
      }
    }
  }

  // ----- the cycles reported -----

  predicate SelfLoop(g: Graph, c: set<nat>) {
    exists v :: v in c && Edge(g, v, v)
  }

  /** A component is reported when it has several members or its one member points to itself. */
  predicate Reported(g: Graph, c: set<nat>) {
    |c| > 1 || SelfLoop(g, c)
  }

  ghost predicate OnCycle(g: Graph, v: nat) {
    exists w :: Edge(g, v, w) && Reach(g, w, v)
  }

  /** The component reports the cycle through `v`, and with it all of `v`'s strongly connected component. */
  ghost predicate Catches(g: Graph, c: set<nat>, v: nat) {
    v in c && Reported(g, c) && forall w :: Mutual(g, v, w) ==> w in c
  }

  /** Whatever the finish order, every node on a cycle is reported together with its whole component. */
  lemma {:induction false} NoCycleMissed(g: Graph, order: seq<nat>, v: nat)
    requires Covering(g, order) && OnCycle(g, v)
    ensures exists c :: c in Components(g, order, |order|, {}) && Catches(g, c, v)
  {
    var comps := Components(g, order, |order|, {});
    ComponentsPartition(g, order, |order|, {});
    var i :| 0 <= i < |comps| && v in comps[i];
    WholeCatches(g, comps[i], v);
  }

  lemma {:induction false} WholeCatches(g: Graph, c: set<nat>, v: nat)
    requires v in c && Whole(g, c) && OnCycle(g, v)
    ensures Catches(g, c, v)
  {
    var w :| Edge(g, v, w) && Reach(g, w, v);
    ReachSelf(g, {}, w);
    ReachStep(g, {}, v, w, w);
    assert Mutual(g, v, w);
    if w != v { SubsetSize({v, w}, c); }
  }

  lemma {:induction false} SubsetSize(a: set<nat>, b: set<nat>)
    requires a <= b
    ensures |a| <= |b|
  {
    assert b == a + (b - a);
  }

  /** In an exact search every member of a reported component really lies on a cycle. */
  lemma {:induction false} NoFalseCycle(g: Graph, order: seq<nat>, c: set<nat>, v: nat)
    requires Covering(g, order) && FinishConsistent(g, order)
    requires c in Components(g, order, |order|, {}) && Reported(g, c) && v in c
    ensures OnCycle(g, v)
    ensures forall w :: w in c <==> Mutual(g, v, w)
  {
    ExactIffConsistent(g, order);
    ComponentsPartition(g, order, |order|, {});
    assert Mutual(g, v, v);
    if forall w :: w in c ==> w == v {
      assert c == {v};
      ReachEnds(g, {}, v, v);
      ReachSelf(g, {}, v);
    } else {
      var w :| w in c && w != v;
      assert Mutual(g, v, w);
      MutualOnCycle(g, v, w);
    }
  }

  lemma {:induction false} UnreportedIsSingle(g: Graph, order: seq<nat>, c: set<nat>)
    requires Covering(g, order) && c in Components(g, order, |order|, {}) && !Reported(g, c)
    ensures StronglyConnected(g, c)
  {
    ComponentsPartition(g, order, |order|, {});
    var v :| v in c;
    assert c == {v} by {
      if w :| w in c && w != v { SubsetSize({v, w}, c); }
    }
    ComponentNodes(g, order, |order|, {}, c);
    ReachSelf(g, {}, v);
  }

  lemma {:induction false} ComponentNodes(g: Graph, order: seq<nat>, k: nat, taken: set<nat>, c: set<nat>)
    requires k <= |order| && c in Components(g, order, k, taken)
    ensures forall v :: v in c ==> v < g.n
  {
    if order[k - 1] in taken {
      ComponentNodes(g, order, k - 1, taken, c);
    } else if c != Component(g, taken, order[k - 1]) {
      ComponentNodes(g, order, k - 1, taken + Component(g, taken, order[k - 1]), c);
    }
  }

  /** Every edge leads to a node that finished earlier. */
  predicate EdgesFinishEarlier(g: Graph, order: seq<nat>) {
    forall i, j :: 0 <= i < |order| && 0 <= j < |order| && Edge(g, order[j], order[i]) ==> i < j
  }

  lemma {:induction false} WalkFinishesEarlier(g: Graph, order: seq<nat>, p: seq<nat>, j: nat)
    requires Covering(g, order) && EdgesFinishEarlier(g, order)
    requires Walk(g, {}, p) && j < |order| && p[0] == order[j]
    ensures p[|p| - 1] in order[..j + 1]
  {
    if |p| == 1 {
      assert order[..j + 1][j] == p[0];
    } else {
      assert Edge(g, p[0], p[1]) && p[1] in order;
      var i :| 0 <= i < |order| && order[i] == p[1];
      assert Walk(g, {}, p[1..]);
      WalkFinishesEarlier(g, order, p[1..], i);
      assert order[..i + 1] <= order[..j + 1];
    }
  }

  /** Two different nodes of one strongly connected component lie on a cycle. */
  lemma {:induction false} MutualOnCycle(g: Graph, v: nat, w: nat)
    requires Mutual(g, v, w) && v != w
    ensures OnCycle(g, v)
  {
    var p :| Links(g, {}, p, v, w);
    assert Walk(g, {}, p[1..]);
    assert Links(g, {}, p[1..], p[1], w);
    ReachTrans(g, {}, p[1], w, v);
    assert Edge(g, v, p[1]);
  }

  ghost predicate Silent(g: Graph, order: seq<nat>) {
    forall c :: c in Components(g, order, |order|, {}) ==> !Reported(g, c)
  }

  lemma {:induction false} EarlierIsSilent(g: Graph, order: seq<nat>)
    requires Covering(g, order) && (forall v :: !OnCycle(g, v)) && EdgesFinishEarlier(g, order)
    ensures Silent(g, order)
  {
    forall j, y | 0 <= j < |order| && Reach(g, order[j], y) ensures y in order[..j + 1] {
      var p :| Links(g, {}, p, order[j], y);
      WalkFinishesEarlier(g, order, p, j);
    }
    assert FinishConsistent(g, order);
    ComponentsPartition(g, order, |order|, {});
    hide FinishConsistent, Covering;
    forall c | c in Components(g, order, |order|, {}) ensures !Reported(g, c) {
      if Reported(g, c) {
        var v :| v in c;
        NoFalseCycle(g, order, c, v);
      }
    }
  }

  lemma {:induction false} SilentIsEarlier(g: Graph, order: seq<nat>, i: nat, j: nat)
    requires Covering(g, order) && (forall v :: !OnCycle(g, v)) && FinishConsistent(g, order)
    requires i < |order| && j < |order| && Edge(g, order[j], order[i])
    ensures i < j
  {
    ReachSelf(g, {}, order[i]);
    ReachStep(g, {}, order[j], order[i], order[i]);
    assert !OnCycle(g, order[j]);
    if i > j {
      assert order[i] !in order[..j + 1] && Reach(g, order[j], order[i]);
      var z :| z !in order[..j + 1] && Mutual(g, order[j], z);
      assert order[..j + 1][j] == order[j];
      MutualOnCycle(g, order[j], z);
    }
  }

  /** On an acyclic graph the search stays silent exactly when every edge leads to an earlier finish. */
  lemma {:induction false} AcyclicVerdict(g: Graph, order: seq<nat>)
    requires Covering(g, order) && forall v :: !OnCycle(g, v)
    ensures Silent(g, order) <==> EdgesFinishEarlier(g, order)
  {
    if EdgesFinishEarlier(g, order) { EarlierIsSilent(g, order); }
    if Silent(g, order) {
      assert Exact(g, order) by {
        forall c | c in Components(g, order, |order|, {}) ensures StronglyConnected(g, c) {
          UnreportedIsSingle(g, order, c);
        }
      }
      ExactIffConsistent(g, order);
      forall i, j | 0 <= i < |order| && 0 <= j < |order| && Edge(g, order[j], order[i]) ensures i < j {
        SilentIsEarlier(g, order, i, j);
      }
    }
  }
}
