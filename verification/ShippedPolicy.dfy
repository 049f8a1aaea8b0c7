/** The policy the repository ships: its graph is safe, and its retrospective approval can break a binding. */
module ShippedPolicy {
  import opened Prelude
  import opened GateModel
  import opened GateReplay
  import opened GateWriters
  import opened GateRuns
  import opened GateSteps
  import opened StageGraph
  import opened StageReach
  import opened StageVerdict
  import opened GateBindings
  import opened GateWaivers

  const RETROSPECTIVE: Mode := "retrospective_revision_import"

  const HISTORICAL: seq<Role> := [
    "experiment_results.experiment_matrix",
    "experiment_results.run_registry",
    "experiment_results.decision_log",
    "experiment_results.analysis_registry",
    "experiment_results.artifact_manifest"]

  const LEDGER: Role := "experiment_results.claim_ledger"
  const GAP: Role := "experiment_results.provenance_gap_record"
  const MANUSCRIPT: Role := "paper.manuscript"

  function ClaimModes(historical: seq<Role>, ledger: Role, gap: Role,
      manuscript: Role): map<Option<Mode>, RoleContract> {
    map[
      Some("normal") := RoleContract(historical + [ledger], [], {}),
      Some(RETROSPECTIVE) := RoleContract([manuscript, ledger, gap], historical, {manuscript})]
  }

  function ClaimContracts(): map<Option<Mode>, RoleContract> {
    ClaimModes(HISTORICAL, LEDGER, GAP, MANUSCRIPT)
  }

  function SubmissionContract(): RoleContract {
    RoleContract(
      ["paper.manuscript", "paper.claim_map", "paper.change_map", "paper.bibliography_provenance",
          "paper.compilation_log",
       "paper.rendered_output", "paper.render_inspection_record", "paper.submission_checklist"],
      [], {"paper.manuscript"})
  }

  function RebuttalContract(): RoleContract {
    RoleContract(
      ["revision.revised_manuscript", "revision.review_map", "revision.change_log", "revision.response_document",
       "revision.manuscript_diff", "revision.verification_records", "revision.rendered_output",
       "revision.release_checklist"],
      [], {})
  }

  /** Stages idea to revision, the five GateRefs in order, the release Gate's first target fourth. */
  function Shipped(): Policy {
    Policy(
      6, [0, 2, 3, 4, 5],
      [[Edge(1, None), Edge(2, Some(0))],
       [Edge(0, None), Edge(2, Some(0))],
       [Edge(0, None), Edge(1, None), Edge(3, Some(1))],
       [Edge(0, None), Edge(1, None), Edge(2, None), Edge(4, Some(2))],
       [Edge(1, None), Edge(2, None), Edge(3, None), Edge(5, Some(3))],
       [Edge(0, None), Edge(1, None), Edge(2, None), Edge(3, None), Edge(4, None)]],
      [map[None := RoleContract(["idea.idea_card", "literature.evidence_base"], [], {})],
       map[None := RoleContract(["method.approval_package"], [], {})],
       ClaimContracts(),
       map[None := SubmissionContract()],
       map[None := RebuttalContract()]],
      3, Some((2, RETROSPECTIVE)))
  }

  lemma {:induction false} SubmissionOk()
    ensures ContractOk(SubmissionContract())
  {
    var r := SubmissionContract().required;
    assert SubmissionContract().required + SubmissionContract().optional == r;
    assert |r[0]| == 16 && |r[1]| == 15 && |r[2]| == 16 && |r[3]| == 29;
    assert |r[4]| == 21 && |r[5]| == 21 && |r[6]| == 30 && |r[7]| == 26;
    assert r[0][6] == 'm' && r[2][6] == 'c';
    assert r[4][6] == 'c' && r[5][6] == 'r';
  }

  lemma {:induction false} RebuttalOk()
    ensures ContractOk(RebuttalContract())
  {
    var r := RebuttalContract().required;
    assert RebuttalContract().required + RebuttalContract().optional == r;
    assert |r[0]| == 27 && |r[1]| == 19 && |r[2]| == 19 && |r[3]| == 26;
    assert |r[4]| == 24 && |r[5]| == 29 && |r[6]| == 24 && |r[7]| == 26;
    assert r[1][9] == 'r' && r[2][9] == 'c';
    assert r[3][11] == 's' && r[7][11] == 'l';
    assert r[4][9] == 'm' && r[6][9] == 'r';
  }

  lemma {:induction false} HistoricalOk()
    ensures Distinct(HISTORICAL)
  {
    var r := HISTORICAL;
    assert |r[0]| == 36 && |r[1]| == 31 && |r[2]| == 31 && |r[3]| == 36 && |r[4]| == 36;
    assert r[0][19] == 'e' && r[3][19] == 'a' && r[4][19] == 'a' && r[3][20] == 'n' && r[4][20] == 'r';
    assert r[1][19] == 'r' && r[2][19] == 'd';
  }

  lemma {:induction false} HistoricalShape()
    ensures forall x :: x in HISTORICAL ==> |x| == 36 || (|x| == 31 && x[19] != 'c')
  {
    var r := HISTORICAL;
    assert |r[0]| == 36 && |r[1]| == 31 && |r[2]| == 31 && |r[3]| == 36 && |r[4]| == 36;
    assert r[1][19] == 'r' && r[2][19] == 'd';
  }

  /** The historical roles differ from the ones required with them. */
  lemma {:induction false} ClaimModesOk(h: seq<Role>, ledger: Role, gap: Role, paper: Role)
    requires Distinct(h) && forall x :: x in h ==> |x| == 36 || (|x| == 31 && x[19] != 'c')
    requires |ledger| == 31 && ledger[19] == 'c' && |gap| == 40 && |paper| == 16
    ensures forall m :: m in ClaimModes(h, ledger, gap, paper) ==> ContractOk(ClaimModes(h, ledger, gap, paper)[m])
  {
    DistinctParts(h, [ledger]);
    DistinctParts([paper, ledger, gap], h);
    assert (h + [ledger]) + [] == h + [ledger];
    assert paper in [paper, ledger, gap];
    assert ContractOk(RoleContract(h + [ledger], [], {})) && ContractOk(RoleContract([paper, ledger, gap], h, {paper}));
  }

  lemma {:induction false} WordLengths()
    ensures |LEDGER| == 31 && |GAP| == 40 && |MANUSCRIPT| == 16 && LEDGER[19] == 'c'
  {
  }

  lemma {:induction false} ClaimOk()
    ensures forall m :: m in ClaimContracts() ==> ContractOk(ClaimContracts()[m])
  {
    hide Distinct, ContractOk, ClaimModes;
    HistoricalOk();
    HistoricalShape();
    WordLengths();
    ClaimModesOk(HISTORICAL, LEDGER, GAP, MANUSCRIPT);
  }

  lemma {:induction false} ShippedLoads()
    ensures Loads(Shipped())
  {
    var p := Shipped();
    SubmissionOk();
    RebuttalOk();
    ClaimOk();
    SmallOk();
    hide ContractOk, ClaimContracts, SubmissionContract, RebuttalContract;
    ClaimShape();
    EdgesLoad();
  }

  lemma {:induction false} SmallOk()
    ensures ContractOk(RoleContract(["idea.idea_card", "literature.evidence_base"], [], {}))
    ensures ContractOk(RoleContract(["method.approval_package"], [], {}))
  {
  }

  lemma {:induction false} ClaimShape()
    ensures ClaimContracts().Keys == {Some("normal"), Some(RETROSPECTIVE)} && "normal" != RETROSPECTIVE
    ensures ClaimContracts()[Some("normal")].optional == []
    ensures SubmissionContract().optional == [] && RebuttalContract().optional == []
  {
    assert |"normal"| == 6 && |RETROSPECTIVE| == 29;
  }

  lemma {:induction false} EdgesLoad()
    ensures var p := Shipped();
            (forall c, i :: 0 <= c < |p.edges| && 0 <= i < |p.edges[c]| ==> EdgeOk(p, p.edges[c][i]))
            && forall c, i, j :: 0 <= c < |p.edges| && 0 <= i < j < |p.edges[c]| ==>
                  p.edges[c][i].to != p.edges[c][j].to
  {
  }

  /** The shipped policy loads, and no run ever fails the complete replay check. */
  lemma {:induction false} ShippedRunsPass()
    ensures Loads(Shipped()) && ShippedGraph(Shipped()) && AllRunsPass(Shipped())
  {
    ShippedLoads();
    ShippedGraphIsSafe(Shipped());
    hide Loads, Shipped, ShippedGraph, StageSafe;
    StageSafeIsExact(Shipped());
  }

  lemma {:induction false} ClaimPassable()
    ensures Passable(Shipped(), 2)
  {
    var p := Shipped();
    var n := |p.owner|;
    ShippedClear(p, 0, 0);
    ShippedClear(p, 1, 2);
    ShippedClear(p, 2, 3);
    ShippedClear(p, 3, 4);
    assert Approves(p, At(0, 0), At(2, 1)) && Approves(p, At(2, 1), At(3, 2)) && Approves(p, At(3, 2), At(4, 3)) by {
      assert FirstEdge(p.edges[0], 0) == Some(2) && FirstEdge(p.edges[2], 1) == Some(3)
          && FirstEdge(p.edges[3], 2) == Some(4);
    }
    hide Shipped, ReachedBy, Approves;
    RoundsKeep(p, n, |Positions(p, n)|);
    ReachedOnward(p, n, At(0, 0), At(2, 1));
    ReachedOnward(p, n, At(2, 1), At(3, 2));
    ReachedOnward(p, n, At(3, 2), At(4, 3));
    assert ClearAt(p, At(4, 3)) && At(4, 3) in Reached(p, n);
  }

  /** Its retrospective mode can waive the experiment matrix, so some run breaks an approved binding. */
  lemma {:induction false} ShippedBindingBreaks() returns (now: Time, steps: seq<Step>)
    ensures PolicyOk(Shipped()) && !BindingsOk(Shipped(), Run(Shipped(), NewState(Shipped(), now), steps))
  {
    var role := "experiment_results.experiment_matrix";
    ShippedLoads();
    ClaimPassable();
    MatrixAvoidable(role);
    hide Loads, Passable, Avoidable;
    now, steps := WaivableBreaks(Shipped(), role);
  }

  lemma {:induction false} MatrixAvoidable(role: Role)
    requires role == "experiment_results.experiment_matrix"
    ensures role in ClaimContracts()[Some(RETROSPECTIVE)].optional && Avoidable(Shipped(), 2, role)
  {
    assert HISTORICAL[0] == role;
    assert |role| == 36 && |"idea.idea_card"| == 14 && |"literature.evidence_base"| == 24
        && |"method.approval_package"| == 23;
    var p := Shipped();
    assert None in p.contracts[0] && None in p.contracts[1];
  }
}
