/**
 The exact condition under which a policy keeps the stage rule in all runs, a policy that
 loads and breaks it, and one that keeps it although its graph looks unsafe edge by edge.
 */
module StageVerdict {
  import opened Prelude
  import opened GateModel
  import opened GateTimeline
  import opened CascadeContract
  import opened GateReplay
  import opened GateWriters
  import opened GateHistories
  import opened GateSteps
  import opened GateRuns
  import opened GateVerdict
  import opened StageGraph
  import opened StageReach

  /** Every GateRef of a policy that loads has a mode that is not the retrospective one. */
  lemma {:induction false} OrdinaryModes(p: Policy, n: nat) returns (modes: seq<Option<Mode>>)
    requires Loads(p) && n <= |p.contracts|
    ensures |modes| == n
    ensures forall h :: 0 <= h < n ==> modes[h] in p.contracts[h] && !IsRetrospective(p, h, modes[h])
  {
    if n == 0 {
      modes := [];
    } else {
      modes := OrdinaryModes(p, n - 1);
      var mode := OrdinaryMode(p, n - 1);
      modes := modes + [mode];
    }
  }

  lemma {:induction false} OrdinaryMode(p: Policy, g: nat) returns (mode: Option<Mode>)
    requires Loads(p) && g < |p.contracts|
    ensures mode in p.contracts[g] && !IsRetrospective(p, g, mode)
  {
    assert ModesOk(p.contracts[g]);
    var (h, m) := p.retrospective.value;
    if g == h {
      mode :| mode in p.contracts[g] && mode != Some(m);
    } else {
      if None in p.contracts[g] { mode := None; } else { mode :| mode in p.contracts[g]; }
    }
  }

  /** The roles the chosen modes require. */
  function RolesFor(p: Policy, modes: seq<Option<Mode>>): set<Role>
    requires |modes| <= |p.contracts| && forall h :: 0 <= h < |modes| ==> modes[h] in p.contracts[h]
  {
    set h, r | 0 <= h < |modes| && r in p.contracts[h][modes[h]].required :: r
  }

  /** The run that starts at `now` and takes these steps ends at position `q`. */
  ghost predicate Visits(p: Policy, now: Time, steps: seq<Step>, q: Position) {
    Stands(Run(p, NewState(p, now), steps), q)
  }

  lemma {:induction false} PositionUnique(s: State, q: Position, r: Position)
    requires Stands(s, q) && Stands(s, r)
    ensures q == r
  {
    assert forall g :: 0 <= g < |s.records| ==> (g < q.approved <==> s.records[g].status == Approved);
    var m := Min(q.approved, r.approved);
    assert m < |s.records| ==> (m < q.approved <==> s.records[m].status == Approved);
  }

  /** The search finds exactly the positions that runs from a new project visit. */
  lemma {:induction false} ReachedExactly(p: Policy, q: Position)
    requires Loads(p)
    ensures q in Reached(p, |p.owner|) <==> exists now, steps :: Visits(p, now, steps, q)
  {
    LoadsShape(p);
    hide Stands, Loads, ClearAt, PolicyOk, Reached, ReachedBy, FirstApproved, Sound;
    if q in Reached(p, |p.owner|) {
      if ClearAt(p, At(0, 0)) {
        var modes := OrdinaryModes(p, |p.owner|);
        RolesForFit(p, modes);
        ReachedRounds(p, |p.owner|);
        var now, steps, log := Realise(p, modes, RolesFor(p, modes), |Positions(p, |p.owner|)|, q, MAX_TIME);
        assert Visits(p, now, steps, q);
      } else {
        ReachedRounds(p, |p.owner|);
        NowhereToGo(p, |p.owner|, |Positions(p, |p.owner|)|);
        StartStands(p);
        assert Visits(p, 0, [], q);
      }
    }
    if now, steps :| Visits(p, now, steps, q) {
      var log, k := NewProjectRun(p, now, steps);
      var s := Run(p, NewState(p, now), steps);
      assert Stands(s, At(s.stage, k)) by { StandsAt(s, k); }
      PositionUnique(s, q, At(s.stage, k));
    }
  }

  lemma {:induction false} LoadsShape(p: Policy)
    requires Loads(p)
    ensures PolicyOk(p) && |p.owner| == |p.contracts|
  {
  }

  lemma {:induction false} ReachedRounds(p: Policy, limit: nat)
    ensures Reached(p, limit) == ReachedBy(p, limit, |Positions(p, limit)|)
  {
  }

  lemma {:induction false} RolesForFit(p: Policy, modes: seq<Option<Mode>>)
    requires |modes| <= |p.contracts|
    requires forall h :: 0 <= h < |modes| ==> modes[h] in p.contracts[h] && !IsRetrospective(p, h, modes[h])
    ensures Chosen(p, modes, RolesFor(p, modes))
  {
  }

  lemma {:induction false} StandsAt(s: State, k: nat)
    requires FirstApproved(s.records, k)
    ensures Stands(s, At(s.stage, k))
  {
  }

  lemma {:induction false} StartStands(p: Policy)
    ensures Stands(Run(p, NewState(p, 0), []), At(0, 0))
  {
  }

  /** A first stage that is not clear stops every command. */
  lemma {:induction false} NowhereToGo(p: Policy, limit: nat, n: nat)
    requires !ClearAt(p, At(0, 0))
    ensures ReachedBy(p, limit, n) == {At(0, 0)}
  {
    if n > 0 { NowhereToGo(p, limit, n - 1); }
  }

  /** The validator accepts every document any run can save. */
  ghost predicate AllRunsPass(p: Policy)
    requires PolicyOk(p)
  {
    forall now, steps :: ReplayOk(p, Run(p, NewState(p, now), steps))
  }

  lemma {:induction false} SafeRunsPass(p: Policy)
    requires PolicyOk(p) && StageSafe(p)
    ensures AllRunsPass(p)
  {
    hide StageSafe, ReplayOk, PolicyOk;
    forall now, steps ensures ReplayOk(p, Run(p, NewState(p, now), steps)) {
      var k := RunsKeepReplay(p, now, steps);
    }
  }

  lemma {:induction false} PassingIsSafe(p: Policy)
    requires Loads(p) && PolicyOk(p) && AllRunsPass(p)
    ensures StageSafe(p)
  {
    forall q | q in Reached(p, |p.owner|) ensures ClearAt(p, q) {
      hide Reached, ClearAt, Loads, PolicyOk, ReplayOk, Visits;
      ReachedExactly(p, q);
      var now, steps :| Visits(p, now, steps, q);
      VisitedIsClear(p, now, steps, q);
    }
  }

  /**
   Main theorem: every state of every run of a policy passes the complete replay check if and
   only if every position its commands reach is clear, which a finite search decides.
   */
  lemma {:induction false} StageSafeIsExact(p: Policy)
    requires Loads(p)
    ensures StageSafe(p) <==> AllRunsPass(p)
  {
    LoadsShape(p);
    hide StageSafe, AllRunsPass, Loads, PolicyOk;
    if StageSafe(p) { SafeRunsPass(p); }
    if AllRunsPass(p) { PassingIsSafe(p); }
  }

  lemma {:induction false} VisitedIsClear(p: Policy, now: Time, steps: seq<Step>, q: Position)
    requires PolicyOk(p) && Visits(p, now, steps, q) && ReplayOk(p, Run(p, NewState(p, now), steps))
    ensures ClearAt(p, q)
  {
    AcceptedIsClear(p, Run(p, NewState(p, now), steps), q);
  }

  lemma {:induction false} AcceptedIsClear(p: Policy, s: State, q: Position)
    requires PolicyOk(p) && ReplayOk(p, s) && Stands(s, q)
    ensures ClearAt(p, q)
  {
    StageRuleIsClear(p, s, q.approved);
  }

  // ----- two policies that load -----

  /** One Gate with an ordinary and a retrospective mode, then the release Gate. */
  function TwoGates(stages: nat, owner: seq<nat>, edges: seq<seq<Edge>>): Policy {
    var ordinary := RoleContract(["idea.card", "paper.draft"], [], {});
    var imported := RoleContract(["paper.draft"], ["idea.card"], {});
    Policy(stages, owner, edges,
           [map[Some("normal") := ordinary, Some("import") := imported],
            map[None := RoleContract(["paper.final"], [], {})]],
           1, Some((0, "import")))
  }

  lemma {:induction false} TwoGatesLoad(stages: nat, owner: seq<nat>, edges: seq<seq<Edge>>)
    requires 0 < stages == |edges| && |owner| == 2 && owner[0] < owner[1] < stages
    requires forall c, i :: 0 <= c < |edges| && 0 <= i < |edges[c]| ==>
          EdgeOk(TwoGates(stages, owner, edges), edges[c][i])
    requires forall c, i, j :: 0 <= c < |edges| && 0 <= i < j < |edges[c]| ==> edges[c][i].to != edges[c][j].to
    ensures Loads(TwoGates(stages, owner, edges))
  {
    var p := TwoGates(stages, owner, edges);
    assert ContractOk(RoleContract(["idea.card", "paper.draft"], [], {}));
    assert ContractOk(RoleContract(["paper.draft"], ["idea.card"], {}));
    assert ContractOk(RoleContract(["paper.final"], [], {}));
    assert Some("normal") in p.contracts[0] && "normal" != "import";
  }

  /** A checkpoint edge passes the destination of the first Gate. */
  function SkippingPolicy(): Policy {
    TwoGates(3, [0, 1], [[Edge(1, Some(0)), Edge(2, None)], [], []])
  }

  lemma {:induction false} SkippingPolicyLoads()
    ensures Loads(SkippingPolicy())
  {
    TwoGatesLoad(3, [0, 1], [[Edge(1, Some(0)), Edge(2, None)], [], []]);
  }

  lemma {:induction false} SkippingEdges()
    ensures var p := SkippingPolicy();
            && p.stages == 3 && |p.owner| == 2 && ClearAt(p, At(0, 0)) && !ClearAt(p, At(2, 0))
            && Checkpoints(p, At(0, 0), At(2, 0))
  {
    var p := SkippingPolicy();
    assert p.edges[0][0] == Edge(1, Some(0)) && p.edges[0][1] == Edge(2, None);
    assert Open(p.edges[0][1], 0);
  }

  /** One checkpoint from a new project, onto a stage that is not clear. */
  lemma {:induction false} UnclearCheckpoint(p: Policy, q: Position) returns (steps: seq<Step>)
    requires PolicyOk(p) && ClearAt(p, At(0, 0)) && Checkpoints(p, At(0, 0), q) && !ClearAt(p, q)
    ensures |steps| == 1 && !StageReached(p, Run(p, NewState(p, 0), steps))
  {
    hide PolicyOk, Ready, Stands, ClearAt, Checkpoints, Exec, StageReached;
    NewProjectReady(p, 0);
    var s := Run(p, NewState(p, 0), []);
    RunNone(p, NewState(p, 0));
    ReadyShape(p, s, [], {}, 1);
    var step, log := CheckpointWorks(p, s, [], {}, At(0, 0), q, 1);
    RunOne(p, s, step);
    ReadyShape(p, Exec(p, s, step.command, step.clock).value, log, {}, 3);
    NotClearIsRefused(p, Exec(p, s, step.command, step.clock).value, q);
    steps := [step];
  }

  /** It loads, and after one checkpoint the validator rejects the state the writer just saved. */
  lemma {:induction false} SkippingPolicyBreaks()
    ensures var p := SkippingPolicy();
            && Loads(p) && !StageSafe(p)
            && exists now, steps :: |steps| == 1 && !StageReached(p, Run(p, NewState(p, now), steps))
  {
    hide Loads, PolicyOk, ClearAt, Checkpoints, StageReached, Run, StageSafe;
    var p := SkippingPolicy();
    SkippingPolicyLoads();
    SkippingEdges();
    LoadsShape(p);
    var steps := UnclearCheckpoint(p, At(2, 0));
    assert !StageReached(p, Run(p, NewState(p, 0), steps));
    BadMoveIsUnsafe(p, At(2, 0));
  }

  lemma {:induction false} RunNone(p: Policy, s: State)
    ensures Run(p, s, []) == s
  {
  }

  lemma {:induction false} NotClearIsRefused(p: Policy, s: State, q: Position)
    requires PolicyOk(p) && |s.records| == |p.owner| && Stands(s, q) && !ClearAt(p, q)
    ensures !StageReached(p, s)
  {
    StageRuleIsClear(p, s, q.approved);
  }

  lemma {:induction false} BadMoveIsUnsafe(p: Policy, q: Position)
    requires PolicyOk(p) && ClearAt(p, At(0, 0)) && Moves(p, At(0, 0), q) && !ClearAt(p, q)
    requires q.stage < p.stages && q.approved <= |p.owner|
    ensures !StageSafe(p)
  {
    RoundsKeep(p, |p.owner|, |Positions(p, |p.owner|)|);
    ReachedOnward(p, |p.owner|, At(0, 0), q);
  }

  /** A set of clear positions that holds the start and is closed under moves shows a policy safe. */
  lemma {:induction false} SafeBySet(p: Policy, r: set<Position>, n: nat)
    requires At(0, 0) in r && forall a, b :: a in r && Moves(p, a, b) ==> b in r
    ensures ReachedBy(p, |p.owner|, n) <= r
  {
    hide Moves, ClearAt, Positions;
    if n > 0 { SafeBySet(p, r, n - 1); }
  }

  /** An edge that would pass a Gate leaves from a stage no command ever reaches. */
  function DetourPolicy(): Policy {
    TwoGates(4, [0, 3], [[Edge(3, Some(0))], [Edge(3, None)], [], []])
  }

  lemma {:induction false} DetourMoves(a: Position, b: Position)
    requires a in {At(0, 0), At(3, 1), At(3, 2)} && Moves(DetourPolicy(), a, b)
    ensures b in {At(0, 0), At(3, 1), At(3, 2)}
  {
    var p := DetourPolicy();
    assert p.edges[0] == [Edge(3, Some(0))] && p.edges[3] == [];
    assert FirstEdge(p.edges[0], 0) == Some(3) && FirstEdge(p.edges[3], 1) == None;
  }

  lemma {:induction false} DetourClear()
    ensures var p := DetourPolicy();
            ClearAt(p, At(0, 0)) && ClearAt(p, At(3, 1)) && ClearAt(p, At(3, 2)) && !GraphSafe(p)
  {
    var p := DetourPolicy();
    assert p.edges[0][0] == Edge(3, Some(0)) && p.edges[1][0] == Edge(3, None);
    assert Open(p.edges[1][0], 0) && Clear(p, 0, 1) && !Clear(p, 0, 3);
  }

  lemma {:induction false} DetourPolicyLoads()
    ensures Loads(DetourPolicy())
  {
    TwoGatesLoad(4, [0, 3], [[Edge(3, Some(0))], [Edge(3, None)], [], []]);
  }

  lemma {:induction false} DetourReached(n: nat)
    ensures ReachedBy(DetourPolicy(), |DetourPolicy().owner|, n) <= {At(0, 0), At(3, 1), At(3, 2)}
  {
    var r := {At(0, 0), At(3, 1), At(3, 2)};
    forall a, b | a in r && Moves(DetourPolicy(), a, b) ensures b in r { DetourMoves(a, b); }
    hide Moves, DetourPolicy, ReachedBy;
    SafeBySet(DetourPolicy(), r, n);
  }

  /** It loads and is safe, although the condition edge by edge fails: that one is not necessary. */
  lemma {:induction false} DetourPolicyIsSafe()
    ensures var p := DetourPolicy(); Loads(p) && StageSafe(p) && !GraphSafe(p)
  {
    hide Loads, DetourPolicy, ClearAt, GraphSafe, ReachedBy, Positions;
    DetourPolicyLoads();
    DetourClear();
    DetourReached(|Positions(DetourPolicy(), |DetourPolicy().owner|)|);
  }
}
