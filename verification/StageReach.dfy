/**
 Commands reach every position the search of `StageGraph` finds, so its condition is exact:
 a policy keeps the stage rule in all runs if and only if the search meets clear positions only.
 */
module StageReach {
  import opened Prelude
  import opened GateModel
  import opened GateTimeline
  import opened CascadeContract
  import opened GateReplay
  import opened GateWriters
  import opened GateHistories
  import opened GateCascades
  import opened GateSteps
  import opened GateRuns
  import opened GateVerdict
  import opened GateBindings
  import opened StageGraph

  const PLAIN: Defense := Defense(["evidence"], [], [], ["condition"])

  function Steady(t: Time): Clock {
    _ => t
  }

  /** Every command finds the document as it needs it, with exactly these roles registered. */
  ghost predicate Ready(p: Policy, s: State, log: seq<Event>, roles: set<Role>, t: Time) {
    && PolicyOk(p) && Sound(p, s, log) && BindingsOk(p, s)
    && s.life.status == Active && s.registry.Keys == roles && AllBefore(s, t)
  }

  /** The document stands at position `q`. */
  ghost predicate Stands(s: State, q: Position) {
    s.stage == q.stage && FirstApproved(s.records, q.approved)
  }

  /** A mode for each of the first GateRefs, none retrospective, whose required roles are listed. */
  ghost predicate Chosen(p: Policy, modes: seq<Option<Mode>>, roles: set<Role>) {
    && |modes| <= |p.contracts|
    && forall h :: 0 <= h < |modes| ==> ModeFits(p, h, modes[h], roles)
  }

  ghost predicate ModeFits(p: Policy, h: nat, mode: Option<Mode>, roles: set<Role>)
    requires h < |p.contracts|
  {
    && mode in p.contracts[h] && !IsRetrospective(p, h, mode)
    && forall r :: r in p.contracts[h][mode].required ==> r in roles
  }

  // ----- stamps -----

  lemma {:induction false} StampAtMost(s: State, now: Time, t: Time) returns (u: Time)
    requires AllBefore(s, t) && now <= t <= MAX_TIME
    ensures NextTimestamp(s, now) == Some(u) && u <= t && AllBefore(s, u)
  {
    hide NextTimestamp, AllBefore;
    NextTimestampLeast(s, now);
    LaterStill(s, t, MAX_TIME);
    u := NextTimestamp(s, now).value;
    if u > t { LaterStill(s, t, u - 1); }
  }

  lemma {:induction false} WriteWorks(s: State, clock: Clock, t: Time)
    requires AllBefore(s, t) && clock(|s.records| + 1) <= t <= MAX_TIME
    ensures Write(s, clock).Ok? && AllBefore(Write(s, clock).value, t + 1)
    ensures Write(s, clock).value == s.(updated := Write(s, clock).value.updated)
  {
    var u := StampAtMost(s, clock(|s.records| + 1), t);
    hide NextTimestamp;
  }

  lemma {:induction false} PushBefore(s: State, g: nat, d: Decision, t: Time)
    requires g < |s.records| && AllBefore(s, t) && d.at <= t
    ensures AllBefore(Tick(Push(s, g, d)), t + 1) && AllBefore(Push(s, g, d), t + 1)
  {
  }

  lemma {:induction false} MoveBefore(s: State, to: nat, trigger: Trigger, at: Time, t: Time)
    requires AllBefore(s, t) && at < t
    ensures AllBefore(MoveStage(s, to, trigger, at), t)
  {
  }

  lemma {:induction false} RegisterBefore(s: State, role: Role, artifact: string, r: Revision, t: Time)
    requires AllBefore(s, t) && r.at <= t
    ensures AllBefore(s.(registry := AppendRevision(s.registry, role, artifact, r)), t + 1)
  {
  }

  // ----- approve -----

  lemma {:induction false} ReadyShape(p: Policy, s: State, log: seq<Event>, roles: set<Role>, t: Time)
    requires Ready(p, s, log, roles, t)
    ensures |s.records| == |p.owner| == |p.contracts| && s.stage < p.stages == |p.edges|
    ensures Sound(p, s, log) && RegistryOk(s.registry) && RecordsOk(p, s.registry, s.records)
    ensures Mid(p, s, log, s.nextId) && Settled(p, s, log)
  {
  }

  lemma {:induction false} RefsAvailable(p: Policy, reg: map<Role, Artifact>, g: nat, mode: Option<Mode>)
    requires PolicyOk(p) && RegistryOk(reg) && g < |p.contracts| && ModeFits(p, g, mode, reg.Keys)
    ensures GateRefs(reg, p.contracts[g][mode], {}).Some?
  {
    assert ContractOk(p.contracts[g][mode]);
    CurrentMember(reg, p.contracts[g][mode]);
  }

  lemma {:induction false} ApproveRuns(p: Policy, s: State, a: Position, b: Position, mode: Option<Mode>, t: Time)
    requires PolicyOk(p) && |s.records| == |p.owner| && s.stage < p.stages && BindingsOk(p, s)
    requires s.life.status == Active && AllBefore(s, t) && t < MAX_TIME && Stands(s, a) && Approves(p, a, b)
    requires mode in p.contracts[a.approved] && GateRefs(s.registry, p.contracts[a.approved][mode], {}).Some?
    requires IsRetrospective(p, a.approved, mode) ==>
               Absent(p.contracts[a.approved][mode].optional,
                      RolesOf(GateRefs(s.registry, p.contracts[a.approved][mode], {}).value)) != []
    ensures var r := ExecApprove(p, s, a.approved, mode, "reason", PLAIN, {}, Steady(t));
            r.Ok? && AllBefore(r.value, t + 2) && r.value.registry == s.registry && r.value.life == s.life
  {
    PlainOk();
    FirstsApproved(p, s.records, a.approved);
    hide BindingsOk, GateRefs, NextTimestamp, Write, AllBefore, Absent, PolicyOk, DefenseOk, FirstApproved, Push;
    var g := a.approved;
    var u := StampAtMost(s, t, t);
    var refs := GateRefs(s.registry, p.contracts[g][mode], {}).value;
    var d := ApproveDecision(p, s, g, mode, "reason", PLAIN, refs, u);
    PushBefore(s, g, d, t);
    var s1 := Tick(Push(s, g, d));
    var to := ApprovalDestination(p, s.stage, g).value;
    ApprovedWrites(s1, to, d.id, u, t);
    PushKeeps(s, g, d);
  }

  lemma {:induction false} PlainOk()
    ensures DefenseOk(PLAIN)
  {
  }

  lemma {:induction false} FirstsApproved(p: Policy, records: seq<GateRecord>, k: nat)
    requires FirstApproved(records, k) && k < |records|
    ensures records[k].status != Approved && forall h :: 0 <= h < k ==> records[h].status == Approved
  {
  }

  lemma {:induction false} PushKeeps(s: State, g: nat, d: Decision)
    requires g < |s.records|
    ensures Tick(Push(s, g, d)) == s.(records := Tick(Push(s, g, d)).records, nextId := Tick(Push(s, g, d)).nextId)
    ensures |Push(s, g, d).records| == |s.records|
  {
  }

  lemma {:induction false} ApprovedWrites(s1: State, to: Option<nat>, id: Id, u: Time, t: Time)
    requires AllBefore(s1, t + 1) && u <= t < MAX_TIME
    ensures var r := Write(AdvanceStage(s1, to, id, u), Steady(t));
            r.Ok? && AllBefore(r.value, t + 2) && r.value.registry == s1.registry && r.value.life == s1.life
  {
    hide Write, AllBefore;
    if to.Some? { MoveBefore(s1, to.value, ByApprove(id), u, t + 1); }
    WriteWorks(AdvanceStage(s1, to, id, u), Steady(t), t + 1);
  }

  lemma {:induction false} SteadyReads(t: Time)
    ensures forall i: nat :: Steady(t)(i) == t
  {
  }

  // ----- reopen -----

  lemma {:induction false} CascadeWorks(s: State, g: nat, k: nat, root: Id, first: Time, t: Time)
    requires k <= |s.records| && AllBefore(s, t) && first <= t && t + k <= MAX_TIME
    ensures var r := CascadeDown(s, g, k, root, "reason", PLAIN, Steady(first));
            r.Some? && AllBefore(r.value, t + k) && |r.value.records| == |s.records|
    decreases k
  {
    hide NextTimestamp, AllBefore, Push;
    if k <= g + 1 {
      LaterStill(s, t, t + k);
    } else {
      var j := k - 1;
      if s.records[j].status != Approved {
        CascadeWorks(s, g, j, root, first, t);
        LaterStill(CascadeDown(s, g, j, root, "reason", PLAIN, Steady(first)).value, t + j, t + k);
      } else {
        var u := StampAtMost(s, first, t);
        var d := CascadeDecision(s, j, g, root, "reason", PLAIN, u);
        PushBefore(s, j, d, t);
        PushKeeps(s, j, d);
        CascadeWorks(Tick(Push(s, j, d)), g, j, root, first, t + 1);
      }
    }
  }

  lemma {:induction false} ReopenRecords(p: Policy, s: State, g: nat, t: Time)
    requires g < |s.records| == |p.owner| && s.records[g].status == Approved
    requires AllBefore(s, t) && t + |p.owner| + 1 <= MAX_TIME
    ensures var r := RecordReopen(p, s, g, "reason", PLAIN, Steady(t));
            r.Ok? && AllBefore(r.value, t + |p.owner| + 1)
  {
    hide NextTimestamp, AllBefore, Push, CascadeDown;
    var n := |p.owner|;
    TickBefore(s, t);
    CascadeWorks(Tick(s), g, n, s.nextId, t, t);
    var s2 := CascadeDown(Tick(s), g, n, s.nextId, "reason", PLAIN, Steady(t)).value;
    var u := StampAtMost(s2, t, t + n);
    var d := RootDecision(s2, g, s.nextId, "reason", PLAIN, u);
    PushBefore(s2, g, d, t + n);
    PushKeeps(s2, g, d);
    if Push(s2, g, d).stage > p.owner[g] {
      MoveBefore(Push(s2, g, d), p.owner[g], ByReopen(s.nextId), u, t + n + 1);
    }
  }

  lemma {:induction false} TickBefore(s: State, t: Time)
    requires AllBefore(s, t)
    ensures AllBefore(Tick(s), t)
  {
  }

  lemma {:induction false} ReopenRuns(p: Policy, s: State, g: nat, t: Time)
    requires g < |s.records| == |p.owner| && s.records[g].status == Approved && s.life.status == Active
    requires AllBefore(s, t) && t + |p.owner| + 1 <= MAX_TIME
    ensures var r := ExecReopen(p, s, g, "reason", PLAIN, Steady(t));
            r.Ok? && AllBefore(r.value, t + |p.owner| + 2)
  {
    hide RecordReopen, AllBefore, DefenseOk, Write;
    PlainOk();
    ReopenRecords(p, s, g, t);
    WriteWorks(RecordReopen(p, s, g, "reason", PLAIN, Steady(t)).value, Steady(t), t + |p.owner| + 1);
  }

  // ----- checkpoint -----

  /** An approved GateRef has what a checkpoint through it asks for. */
  lemma {:induction false} TriggerWorks(p: Policy, s: State, e: Edge)
    requires PolicyOk(p) && |s.records| == |p.owner| && EdgeOk(p, e) && RegistryOk(s.registry)
    requires RecordsOk(p, s.registry, s.records)
    requires e.gate.Some? ==> s.records[e.gate.value].status == Approved
    ensures CheckpointTrigger(p, s, e, {}).Ok?
  {
    if e.gate.Some? {
      var g := e.gate.value;
      var rec := s.records[g];
      assert RecordOk(p, s.registry, g, rec);
      var d := rec.history[|rec.history| - 1];
      assert DecisionOk(p, s.registry, g, rec.history, |rec.history| - 1);
      var c := p.contracts[g][d.mode];
      assert ContractOk(c);
      CurrentMember(s.registry, c);
      forall role | role in c.required ensures role in s.registry {
        var i :| 0 <= i < |d.refs| && RolesOf(d.refs)[i] == role;
        assert d.refs[i] in d.refs;
      }
    }
  }

  /** Each destination has one edge, and the search finds it. */
  lemma {:induction false} FindEdgeFinds(edges: seq<Edge>, i: nat)
    requires i < |edges| && forall x, y :: 0 <= x < y < |edges| ==> edges[x].to != edges[y].to
    ensures FindEdge(edges, edges[i].to) == Some(edges[i])
  {
    if i > 0 {
      assert edges[0].to != edges[i].to;
      assert edges[1..][i - 1] == edges[i];
      FindEdgeFinds(edges[1..], i - 1);
    }
  }

  lemma {:induction false} CheckpointRuns(p: Policy, s: State, to: nat, e: Edge, t: Time)
    requires PolicyOk(p) && |s.records| == |p.owner| && s.stage < p.stages && BindingsOk(p, s)
    requires s.life.status == Active && AllBefore(s, t) && t < MAX_TIME && to != s.stage
    requires FindEdge(p.edges[s.stage], to) == Some(e) && CheckpointTrigger(p, s, e, {}).Ok?
    ensures var r := ExecCheckpoint(p, s, Some(to), {}, Steady(t));
            && r.Ok? && AllBefore(r.value, t + 2)
            && r.value.registry == s.registry && r.value.life == s.life && r.value.stage == to
  {
    hide BindingsOk, NextTimestamp, Write, AllBefore, PolicyOk, CheckpointTrigger, FindEdge;
    var u := StampAtMost(s, t, t);
    var trigger := CheckpointTrigger(p, s, e, {}).value;
    CheckpointBefore(s, to, trigger, u, t);
    WriteWorks(MoveStage(s, to, trigger, u).(checkpoint := Some(u)), Steady(t), t + 1);
  }

  lemma {:induction false} CheckpointBefore(s: State, to: nat, trigger: Trigger, u: Time, t: Time)
    requires AllBefore(s, t) && u <= t
    ensures AllBefore(MoveStage(s, to, trigger, u).(checkpoint := Some(u)), t + 1)
  {
  }

  // ----- register -----

  lemma {:induction false} RegisterRuns(p: Policy, s: State, role: Role, t: Time)
    requires PolicyOk(p) && |s.records| == |p.owner| && BindingsOk(p, s) && s.life.status == Active
    requires role !in s.registry && AllBefore(s, t) && t < MAX_TIME && !FrozenRole(p, s, role)
    ensures var r := ExecRegister(p, s, role, "artifact", "source", "snapshot", "hash", 0, Steady(t));
            && r.Ok? && AllBefore(r.value, t + 2) && r.value.life == s.life && r.value.stage == s.stage
            && r.value.records == s.records && r.value.registry.Keys == s.registry.Keys + {role}
  {
    hide BindingsOk, NextTimestamp, Write, AllBefore, PolicyOk, FrozenRole;
    var u := StampAtMost(s, t, t);
    var r := Revision(1, "source", "snapshot", "hash", 0, u);
    RegisterBefore(s, role, "artifact", r, t);
    WriteWorks(s.(registry := AppendRevision(s.registry, role, "artifact", r)), Steady(t), t + 1);
  }

  // ----- one move, one command -----

  /** The commands of one move, checked by the invariants of the run. */
  lemma {:induction false} ReadyAfter(p: Policy, s: State, log: seq<Event>, c: Command, clock: Clock,
      roles: set<Role>, t: Time)
    returns (log': seq<Event>)
    requires Sound(p, s, log) && BindingsOk(p, s) && Exec(p, s, c, clock).Ok? && !Disturbs(s, c)
    requires var s' := Exec(p, s, c, clock).value;
             s'.life.status == Active && s'.registry.Keys == roles && AllBefore(s', t)
    ensures Ready(p, Exec(p, s, c, clock).value, log', roles, t)
  {
    hide Sound, BindingsOk, Exec, AllBefore, Disturbs;
    SoundShape(p, s, log);
    log' := ExecSound(p, s, log, c, clock);
    ExecBindings(p, s, log, c, clock);
  }

  lemma {:induction false} ClearIsAllowed(p: Policy, s: State, q: Position)
    requires PolicyOk(p) && |s.records| == |p.owner| && Stands(s, q) && ClearAt(p, q)
    ensures StageReached(p, s)
  {
    StageRuleIsClear(p, s, q.approved);
  }

  lemma {:induction false} ApproveWorks(p: Policy, s: State, log: seq<Event>, roles: set<Role>, a: Position,
      b: Position, mode: Option<Mode>, t: Time) returns (step: Step, log': seq<Event>)
    requires PolicyOk(p) && |s.records| == |p.owner| == |p.contracts| && s.stage < p.stages
    requires Ready(p, s, log, roles, t) && Stands(s, a) && ClearAt(p, a) && Approves(p, a, b) && t < MAX_TIME
    requires ModeFits(p, a.approved, mode, roles)
    ensures var r := Exec(p, s, step.command, step.clock);
            r.Ok? && Ready(p, r.value, log', roles, t + 2) && Stands(r.value, b)
  {
    hide Sound, BindingsOk, AllBefore, PolicyOk, ExecApprove, StageReached, ClearAt, FirstApproved, RegistryOk;
    hide Approves;
    ReadyShape(p, s, log, roles, t);
    ClearIsAllowed(p, s, a);
    ApprovesBelow(p, a, b);
    AnyRetained(p, s.registry, a.approved, mode, roles);
    ApproveRuns(p, s, a, b, mode, t);
    ApproveMoves(p, s, a.approved, mode, "reason", PLAIN, {}, Steady(t), a.approved);
    var s' := ExecApprove(p, s, a.approved, mode, "reason", PLAIN, {}, Steady(t)).value;
    ApprovesOnce(p, a, b, At(s'.stage, a.approved + 1));
    step := Step(CmdApprove(a.approved, mode, "reason", PLAIN, {}), Steady(t));
    log' := ReadyAfter(p, s, log, step.command, step.clock, roles, t + 2);
  }

  lemma {:induction false} ApprovesBelow(p: Policy, a: Position, b: Position)
    requires Approves(p, a, b)
    ensures a.approved < |p.owner| && b.approved == a.approved + 1
  {
  }

  lemma {:induction false} ApprovesOnce(p: Policy, a: Position, b: Position, c: Position)
    requires Approves(p, a, b) && Approves(p, a, c)
    ensures b == c
  {
  }

  lemma {:induction false} AnyRetained(p: Policy, reg: map<Role, Artifact>, g: nat, mode: Option<Mode>,
      roles: set<Role>)
    requires PolicyOk(p) && RegistryOk(reg) && g < |p.contracts| && reg.Keys == roles && ModeFits(p, g, mode, roles)
    ensures GateRefs(reg, p.contracts[g][mode], {}).Some?
  {
    RefsAvailable(p, reg, g, mode);
  }

  lemma {:induction false} ReopenWorks(p: Policy, s: State, log: seq<Event>, roles: set<Role>, a: Position,
      b: Position, t: Time)
    returns (step: Step, log': seq<Event>)
    requires PolicyOk(p) && |s.records| == |p.owner| == |p.contracts| && s.stage < p.stages
    requires Ready(p, s, log, roles, t) && Stands(s, a) && ClearAt(p, a) && Reopens(p, a, b)
    requires t + |p.owner| + 1 <= MAX_TIME
    ensures var r := Exec(p, s, step.command, step.clock);
            r.Ok? && Ready(p, r.value, log', roles, t + |p.owner| + 2) && Stands(r.value, b)
  {
    hide Ready, Sound, BindingsOk, AllBefore, PolicyOk, StageReached, ClearAt, FirstApproved, Mid, Settled, ExecReopen;
    hide RegistryOk, RecordsOk;
    ReadyShape(p, s, log, roles, t);
    ReadyRest(p, s, log, roles, t);
    ClearIsAllowed(p, s, a);
    ReopenLands(p, s, log, a.approved, b.approved, t);
    step := Step(CmdReopen(b.approved, "reason", PLAIN), Steady(t));
    log' := ReadyAfter(p, s, log, step.command, step.clock, roles, t + |p.owner| + 2);
  }

  lemma {:induction false} ReopenLands(p: Policy, s: State, log: seq<Event>, k: nat, g: nat, t: Time)
    requires Mid(p, s, log, s.nextId) && Settled(p, s, log) && |s.records| == |p.owner| && FirstApproved(s.records, k)
    requires g < k && s.life.status == Active && AllBefore(s, t) && t + |p.owner| + 1 <= MAX_TIME
    ensures var r := ExecReopen(p, s, g, "reason", PLAIN, Steady(t));
            && r.Ok? && AllBefore(r.value, t + |p.owner| + 2)
            && FirstApproved(r.value.records, g) && r.value.stage == Min(s.stage, p.owner[g])
            && r.value.registry == s.registry && r.value.life == s.life
  {
    FirstIsApproved(s.records, g, k);
    PlainOk();
    hide AllBefore, FirstApproved, RecordReopen, DefenseOk, Mid, Settled, ExecReopen, NamesReopen;
    ReopenRuns(p, s, g, t);
    ReopenStands(p, s, g, Steady(t));
    ReopenMoves(p, s, log, g, "reason", PLAIN, Steady(t), k);
    var _ := RecordReopenSound(p, s, log, g, "reason", PLAIN, Steady(t));
  }

  lemma {:induction false} FirstIsApproved(records: seq<GateRecord>, g: nat, k: nat)
    requires FirstApproved(records, k) && g < k
    ensures g < |records| && records[g].status == Approved
  {
  }

  lemma {:induction false} ReopenStands(p: Policy, s: State, g: nat, clock: Clock)
    requires |s.records| == |p.owner| && ExecReopen(p, s, g, "reason", PLAIN, clock).Ok?
    ensures var s', r := ExecReopen(p, s, g, "reason", PLAIN, clock).value,
          RecordReopen(p, s, g, "reason", PLAIN, clock);
            r.Ok? && s' == r.value.(updated := s'.updated)
  {
    hide RecordReopen, NextTimestamp, DefenseOk;
  }

  lemma {:induction false} CheckpointWorks(p: Policy, s: State, log: seq<Event>, roles: set<Role>, a: Position,
      b: Position, t: Time)
    returns (step: Step, log': seq<Event>)
    requires PolicyOk(p) && |s.records| == |p.owner| == |p.contracts| && s.stage < p.stages
    requires Ready(p, s, log, roles, t) && Stands(s, a) && ClearAt(p, a) && Checkpoints(p, a, b) && a != b
    requires t < MAX_TIME
    ensures var r := Exec(p, s, step.command, step.clock);
            r.Ok? && Ready(p, r.value, log', roles, t + 2) && Stands(r.value, b)
  {
    hide Ready, Sound, BindingsOk, AllBefore, PolicyOk, StageReached, ClearAt, FirstApproved, FindEdge;
    hide CheckpointTrigger;
    hide RegistryOk, RecordsOk, Mid, Settled, ExecCheckpoint, Moves, Checkpoints;
    ReadyShape(p, s, log, roles, t);
    CheckpointsSame(p, a, b);
    var e := OpenEdge(p, s, a, b);
    ClearIsAllowed(p, s, a);
    ReadyRest(p, s, log, roles, t);
    CheckpointRuns(p, s, b.stage, e, t);
    CheckpointMoves(p, s, Some(b.stage), {}, Steady(t), a.approved);
    step := Step(CmdCheckpoint(Some(b.stage), {}), Steady(t));
    log' := ReadyAfter(p, s, log, step.command, step.clock, roles, t + 2);
  }

  lemma {:induction false} CheckpointsSame(p: Policy, a: Position, b: Position)
    requires Checkpoints(p, a, b)
    ensures b.approved == a.approved
  {
  }

  lemma {:induction false} ReadyRest(p: Policy, s: State, log: seq<Event>, roles: set<Role>, t: Time)
    requires Ready(p, s, log, roles, t)
    ensures BindingsOk(p, s) && s.life.status == Active && s.registry.Keys == roles && AllBefore(s, t)
  {
    hide Sound, BindingsOk, AllBefore;
  }

  /** The edge a checkpoint takes is the one its destination names, and it may take it. */
  lemma {:induction false} OpenEdge(p: Policy, s: State, a: Position, b: Position) returns (e: Edge)
    requires PolicyOk(p) && |s.records| == |p.owner| && RegistryOk(s.registry) && RecordsOk(p, s.registry, s.records)
    requires Stands(s, a) && Checkpoints(p, a, b)
    ensures FindEdge(p.edges[a.stage], b.stage) == Some(e) && CheckpointTrigger(p, s, e, {}).Ok?
  {
    var i :| 0 <= i < |p.edges[a.stage]| && p.edges[a.stage][i].to == b.stage && Open(p.edges[a.stage][i], a.approved);
    e := p.edges[a.stage][i];
    FindEdgeFinds(p.edges[a.stage], i);
    assert EdgeOk(p, e);
    hide RecordsOk, RegistryOk, FindEdge, CheckpointTrigger;
    OpenIsApproved(p, s.records, e, a.approved);
    TriggerWorks(p, s, e);
  }

  lemma {:induction false} OpenIsApproved(p: Policy, records: seq<GateRecord>, e: Edge, k: nat)
    requires |records| == |p.owner| && FirstApproved(records, k) && EdgeOk(p, e) && Open(e, k)
    ensures e.gate.Some? ==> records[e.gate.value].status == Approved
  {
  }

  /** Whatever the search does in one round, one command does. */
  lemma {:induction false} MoveWorks(p: Policy, s: State, log: seq<Event>, modes: seq<Option<Mode>>, roles: set<Role>,
      a: Position, b: Position, t: Time) returns (steps: seq<Step>, log': seq<Event>)
    requires PolicyOk(p) && |s.records| == |p.owner| == |p.contracts| && s.stage < p.stages
    requires Ready(p, s, log, roles, t) && Stands(s, a) && ClearAt(p, a) && Moves(p, a, b)
    requires t + |p.owner| + 1 <= MAX_TIME
    requires Chosen(p, modes, roles) && b.approved <= |modes|
    ensures |steps| <= 1
    ensures var s' := Run(p, s, steps); Ready(p, s', log', roles, t + |p.owner| + 2) && Stands(s', b)
  {
    hide Ready, Stands, ClearAt, Approves, Reopens, Checkpoints, PolicyOk, Exec, ModeFits;
    if a == b {
      steps, log' := [], log;
      ReadyLater(p, s, log, roles, t, t + |p.owner| + 2);
    } else {
      var step;
      var late := t + 2;
      if Approves(p, a, b) {
        ApprovesBelow(p, a, b);
        step, log' := ApproveWorks(p, s, log, roles, a, b, modes[a.approved], t);
      } else if Reopens(p, a, b) {
        step, log' := ReopenWorks(p, s, log, roles, a, b, t);
        late := t + |p.owner| + 2;
      } else {
        step, log' := CheckpointWorks(p, s, log, roles, a, b, t);
      }
      steps := [step];
      RunOne(p, s, step);
      ReadyLater(p, Exec(p, s, step.command, step.clock).value, log', roles, late, t + |p.owner| + 2);
    }
  }

  lemma {:induction false} ReadyLater(p: Policy, s: State, log: seq<Event>, roles: set<Role>, t: Time, u: Time)
    requires Ready(p, s, log, roles, t) && t <= u
    ensures Ready(p, s, log, roles, u)
  {
    hide Sound, BindingsOk, AllBefore;
    LaterStill(s, t, u);
  }

  lemma {:induction false} RunOne(p: Policy, s: State, step: Step)
    requires PolicyOk(p) && |s.records| == |p.owner| && s.stage < p.stages && Exec(p, s, step.command, step.clock).Ok?
    ensures Run(p, s, [step]) == Exec(p, s, step.command, step.clock).value
  {
    hide Exec, PolicyOk;
    assert [step][..0] == [];
    assert Run(p, s, []) == s;
  }

  lemma {:induction false} RunConcat(p: Policy, s: State, a: seq<Step>, b: seq<Step>)
    ensures Run(p, s, a + b) == Run(p, Run(p, s, a), b)
  {
    hide After;
    if b == [] {
      assert a + b == a;
    } else {
      var init := b[..|b| - 1];
      assert (a + b)[..|a + b| - 1] == a + init;
      RunConcat(p, s, a, init);
    }
  }

  /** With nothing approved, nothing is frozen and nothing waived. */
  lemma {:induction false} NothingApproved(p: Policy, s: State, role: Role)
    requires PolicyOk(p) && FirstApproved(s.records, 0)
    ensures !FrozenRole(p, s, role) && !WaivedSomewhere(s, role)
  {
  }

  lemma {:induction false} RegisterWorks(p: Policy, s: State, log: seq<Event>, roles: set<Role>, q: Position,
      role: Role, t: Time) returns (step: Step, log': seq<Event>)
    requires PolicyOk(p) && |s.records| == |p.owner| == |p.contracts| && s.stage < p.stages
    requires Ready(p, s, log, roles, t) && Stands(s, q) && q.approved == 0 && ClearAt(p, q) && t < MAX_TIME
    requires role !in roles
    ensures var r := Exec(p, s, step.command, step.clock);
            r.Ok? && Ready(p, r.value, log', roles + {role}, t + 2) && Stands(r.value, q)
  {
    hide Ready, Sound, BindingsOk, AllBefore, PolicyOk, StageReached, ClearAt, FirstApproved, ExecRegister, FrozenRole;
    hide WaivedSomewhere;
    ReadyShape(p, s, log, roles, t);
    ReadyRest(p, s, log, roles, t);
    ClearIsAllowed(p, s, q);
    NothingApproved(p, s, role);
    RegisterRuns(p, s, role, t);
    step := Step(CmdRegister(role, "artifact", "source", "snapshot", "hash", 0), Steady(t));
    log' := ReadyAfter(p, s, log, step.command, step.clock, roles + {role}, t + 2);
  }

  // ----- runs -----

  /** A new project, begun early enough, registers any roles before anything else. */
  lemma {:induction false} RegisterAll(p: Policy, roles: set<Role>, t: Time)
    returns (now: Time, steps: seq<Step>, log: seq<Event>)
    requires PolicyOk(p) && ClearAt(p, At(0, 0)) && t <= MAX_TIME
    ensures var s := Run(p, NewState(p, now), steps); Ready(p, s, log, roles, t) && Stands(s, At(0, 0))
    decreases |roles|
  {
    hide Ready, Stands, ClearAt, PolicyOk, Exec;
    if roles == {} {
      now, steps, log := t - 1, [], [];
      NewProjectReady(p, now);
    } else {
      var role :| role in roles;
      var rest := roles - {role};
      now, steps, log := RegisterAll(p, rest, t - 2);
      var s := Run(p, NewState(p, now), steps);
      ReadyShape(p, s, log, rest, t - 2);
      var step;
      step, log := RegisterWorks(p, s, log, rest, At(0, 0), role, t - 2);
      RunOne(p, s, step);
      RunConcat(p, NewState(p, now), steps, [step]);
      steps := steps + [step];
      assert rest + {role} == roles;
    }
  }

  lemma {:induction false} NothingBound(p: Policy, now: Time)
    requires PolicyOk(p)
    ensures BindingsOk(p, NewState(p, now))
  {
  }

  lemma {:induction false} NewProjectReady(p: Policy, now: Time)
    requires PolicyOk(p)
    ensures var s := Run(p, NewState(p, now), []); Ready(p, s, [], {}, now + 1) && Stands(s, At(0, 0))
  {
    NewStateSound(p, now);
    NothingBound(p, now);
    hide Sound, BindingsOk;
  }

  /** Every position of the search is reached by a run that ends before any given time. */
  lemma {:induction false} Realise(p: Policy, modes: seq<Option<Mode>>, roles: set<Role>, n: nat, q: Position, t: Time)
    returns (now: Time, steps: seq<Step>, log: seq<Event>)
    requires PolicyOk(p) && ClearAt(p, At(0, 0)) && Chosen(p, modes, roles) && t <= MAX_TIME
    requires q in ReachedBy(p, |modes|, n)
    ensures var s := Run(p, NewState(p, now), steps); Ready(p, s, log, roles, t) && Stands(s, q)
    decreases n
  {
    hide Ready, ClearAt, PolicyOk, Exec, Chosen, Stands, Moves, Positions;
    if n == 0 {
      now, steps, log := RegisterAll(p, roles, t);
    } else if q in ReachedBy(p, |modes|, n - 1) {
      now, steps, log := Realise(p, modes, roles, n - 1, q, t);
    } else {
      var a :| a in ReachedBy(p, |modes|, n - 1) && ClearAt(p, a) && Moves(p, a, q);
      PositionsMember(p, |modes|, q);
      var early := t - |p.owner| - 2;
      now, steps, log := Realise(p, modes, roles, n - 1, a, early);
      var s := Run(p, NewState(p, now), steps);
      ReadyShape(p, s, log, roles, early);
      var more;
      more, log := MoveWorks(p, s, log, modes, roles, a, q, early);
      RunConcat(p, NewState(p, now), steps, more);
      steps := steps + more;
    }
  }
}
