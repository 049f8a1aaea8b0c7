/** What each state-changing command does to the state document. */
module GateWriters {
  import opened Prelude
  import opened GateModel
  import opened GateTimeline
  import opened GateReplay

  datatype Error =
    | BadArguments | UnknownGate | BadMode | Inactive | BindingDrift | AlreadyApproved | NotApproved
    | MissingPrerequisite | WrongStage | MissingArtifact | NothingWaived | BadTransition
    | BadLifecycle | OtherArtifact | Frozen | Exhausted | StageRule

  datatype Command =
    | CmdApprove(g: nat, mode: Option<Mode>, reason: string, defense: Defense, dirty: set<Role>)
    | CmdReopen(g: nat, reason: string, defense: Defense)
    | CmdLifecycle(action: LifeAction, affected: Option<nat>, reason: string, defense: Defense)
    | CmdCheckpoint(stage: Option<nat>, dirty: set<Role>)
    | CmdRegister(role: Role, artifact: string, source: string, snapshot: string, hash: string, size: nat)

  const CASCADE_REASON := "Automatically invalidated because an upstream Gate was reopened: "

  // ----- lookups -----

  function Current(a: Artifact): Revision
    requires |a.revisions| > 0
  {
    a.revisions[|a.revisions| - 1]
  }

  /** Bind the current artifact of every applicable role, in order. */
  function Gather(reg: map<Role, Artifact>, roles: seq<Role>, mandatory: bool, dirty: set<Role>): Option<seq<Ref>> {
    if roles == [] then Some([])
    else
      var last := roles[|roles| - 1];
      match Gather(reg, roles[..|roles| - 1], mandatory, dirty)
      case None => None
      case Some(refs) =>
        if last !in reg then (if mandatory then None else Some(refs))
        else if |reg[last].revisions| == 0 || last in dirty then None
        else Some(refs + [Ref(last, reg[last].id, Current(reg[last]))])
  }

  /** `gate_artifact_refs`: required roles must be present, optional ones may be absent. */
  function GateRefs(reg: map<Role, Artifact>, c: RoleContract, dirty: set<Role>): Option<seq<Ref>> {
    match (Gather(reg, c.required, true, dirty), Gather(reg, c.optional, false, dirty))
    case (Some(a), Some(b)) => Some(a + b)
    case _ => None
  }

  function LatestApproval(h: seq<Decision>): Option<Decision> {
    if h == [] then None
    else if h[|h| - 1].action == Approve then Some(h[|h| - 1])
    else LatestApproval(h[..|h| - 1])
  }

  function FirstEdge(edges: seq<Edge>, g: nat): Option<nat> {
    if edges == [] then None
    else if edges[0].gate == Some(g) then Some(edges[0].to)
    else FirstEdge(edges[1..], g)
  }

  function FindEdge(edges: seq<Edge>, to: nat): Option<Edge> {
    if edges == [] then None
    else if edges[0].to == to then Some(edges[0])
    else FindEdge(edges[1..], to)
  }

  // ----- bindings of approved Gates -----

  function Strict(refs: seq<Ref>, mutable: set<Role>): seq<Ref> {
    if refs == [] then []
    else
      var last := refs[|refs| - 1];
      Strict(refs[..|refs| - 1], mutable) + (if last.role in mutable then [] else [last])
  }

  predicate OnlyAt(refs: seq<Ref>, i: nat, role: Role) {
    forall k :: 0 <= k < |refs| ==> (refs[k].role == role <==> k == i)
  }

  /** Exactly one reference of the role in each list, with one artifact identity. */
  predicate SameIdentity(a: seq<Ref>, b: seq<Ref>, role: Role) {
    exists i, j :: 0 <= i < |a| && 0 <= j < |b| && OnlyAt(a, i, role) && OnlyAt(b, j, role)
      && a[i].artifact == b[j].artifact
  }

  /** The latest approval of an approved Gate still binds the registry's current revisions. */
  predicate BindingOk(p: Policy, reg: map<Role, Artifact>, g: nat, rec: GateRecord)
    requires g < |p.contracts|
  {
    rec.status == Approved ==>
      match LatestApproval(rec.history)
      case None => true
      case Some(d) =>
        d.refs == [] || (
          && d.mode in p.contracts[g]
          && var c := p.contracts[g][d.mode];
          && var current := GateRefs(reg, c, {});
          && current.Some?
          && multiset(Strict(current.value, c.mutable)) == multiset(Strict(d.refs, c.mutable))
          && forall m :: m in c.mutable ==> SameIdentity(d.refs, current.value, m))
  }

  predicate BindingsOk(p: Policy, s: State)
    requires PolicyOk(p)
  {
    |s.records| == |p.owner| && forall g :: 0 <= g < |s.records| ==> BindingOk(p, s.registry, g, s.records[g])
  }

  /** `role_is_bound_by_approved_gate`: some approved Gate's exact approval freezes the role. */
  predicate FrozenRole(p: Policy, s: State, role: Role)
    requires PolicyOk(p)
  {
    exists g :: 0 <= g < |s.records| && g < |p.contracts| && s.records[g].status == Approved
      && Freezes(p.contracts[g], LatestApproval(s.records[g].history), role)
  }

  predicate Freezes(contracts: map<Option<Mode>, RoleContract>, approval: Option<Decision>, role: Role) {
    && approval.Some?
    && !(approval.value.mode in contracts && role in contracts[approval.value.mode].mutable)
    && role in RolesOf(approval.value.refs)
  }

  // ----- mutations shared by the commands -----

  /** Append a decision to one Gate's history. */
  function Push(s: State, g: nat, d: Decision): State
    requires g < |s.records|
  {
    s.(records := s.records[g := GateRecord(d.next, Some(d.id), s.records[g].history + [d])])
  }

  /** Draw a fresh decision identifier. */
  function Tick(s: State): State {
    s.(nextId := s.nextId + 1)
  }

  /** `record_stage_transition`. */
  function MoveStage(s: State, to: nat, trigger: Trigger, at: Time): State {
    s.(transitions := s.transitions + [Transition(s.stage, to, trigger, at)], stage := to)
  }

  /** `write_mutated_state`: the last stamp of a command, then one atomic replace. */
  ghost function Write(s: State, clock: Clock): Result<State, Error> {
    match NextTimestamp(s, clock(|s.records| + 1))
    case None => Err(Exhausted)
    case Some(t) => Ok(s.(updated := t))
  }

  function CascadeDecision(s: State, j: nat, g: nat, root: Id, reason: string, defense: Defense, t: Time): Decision
    requires j < |s.records|
  {
    Decision(s.nextId, Reopen, Approved, Reopened, CASCADE_REASON + reason, t, LatestRefs(s.records[j].history),
             defense, Some(Cascade(g, root, reason)), None, [])
  }

  /** Reopen every approved GateRef after `g` and below `k`, last first. */
  ghost function CascadeDown(s: State, g: nat, k: nat, root: Id, reason: string, defense: Defense, clock: Clock)
    : Option<State>
    requires k <= |s.records|
    decreases k
  {
    if k <= g + 1 then Some(s)
    else
      var j := k - 1;
      if s.records[j].status != Approved then CascadeDown(s, g, j, root, reason, defense, clock)
      else
        match NextTimestamp(s, clock(j))
        case None => None
        case Some(t) =>
          CascadeDown(Tick(Push(s, j, CascadeDecision(s, j, g, root, reason, defense, t))),
                      g, j, root, reason, defense, clock)
  }

  function RootDecision(s: State, g: nat, id: Id, reason: string, defense: Defense, t: Time): Decision
    requires g < |s.records|
  {
    Decision(id, Reopen, Approved, Reopened, reason, t, LatestRefs(s.records[g].history), defense, None, None, [])
  }

  function ReturnToOwner(p: Policy, s: State, g: nat, id: Id, t: Time): State
    requires g < |p.owner|
  {
    if s.stage > p.owner[g] then MoveStage(s, p.owner[g], ByReopen(id), t) else s
  }

  /** `_record_gate_reopen`: the cascade first, then the root, then the return to its stage. */
  ghost function RecordReopen(p: Policy, s: State, g: nat, reason: string, defense: Defense, clock: Clock)
    : Result<State, Error>
    requires g < |s.records| == |p.owner|
  {
    if s.records[g].status != Approved then Err(NotApproved)
    else
      match CascadeDown(Tick(s), g, |s.records|, s.nextId, reason, defense, clock)
      case None => Err(Exhausted)
      case Some(s') =>
        match NextTimestamp(s', clock(g))
        case None => Err(Exhausted)
        case Some(t) =>
          if g < |s'.records| then
            Ok(ReturnToOwner(p, Push(s', g, RootDecision(s', g, s.nextId, reason, defense, t)), g, s.nextId, t))
          else Err(UnknownGate)
  }

  // ----- the commands -----

  ghost function ExecReopen(p: Policy, s: State, g: nat, reason: string, defense: Defense, clock: Clock)
    : Result<State, Error>
    requires |s.records| == |p.owner|
  {
    if reason == "" || !DefenseOk(defense) then Err(BadArguments)
    else if g >= |s.records| then Err(UnknownGate)
    else if s.life.status != Active then Err(Inactive)
    else
      match RecordReopen(p, s, g, reason, defense, clock)
      case Err(e) => Err(e)
      case Ok(s') => Write(s', clock)
  }

  /** `gate_approval_destination`: the destination unlocked here, `None` at the owner stage. */
  function ApprovalDestination(p: Policy, stage: nat, g: nat): Result<Option<nat>, Error>
    requires stage < |p.edges| && g < |p.owner|
  {
    match FirstEdge(p.edges[stage], g)
    case Some(to) => Ok(Some(to))
    case None => if stage == p.owner[g] then Ok(None) else Err(WrongStage)
  }

  predicate IsRetrospective(p: Policy, g: nat, mode: Option<Mode>) {
    mode.Some? && p.retrospective == Some((g, mode.value))
  }

  function ApproveDecision(p: Policy, s: State, g: nat, mode: Option<Mode>, reason: string, defense: Defense,
                           refs: seq<Ref>, t: Time): Decision
    requires g < |s.records| && g < |p.contracts| && mode in p.contracts[g]
  {
    Decision(s.nextId, Approve, s.records[g].status, Approved, reason, t, refs, defense, None, mode,
             if IsRetrospective(p, g, mode) then Absent(p.contracts[g][mode].optional, RolesOf(refs)) else [])
  }

  function AdvanceStage(s: State, to: Option<nat>, id: Id, t: Time): State {
    if to.Some? && to.value > s.stage then MoveStage(s, to.value, ByApprove(id), t) else s
  }

  ghost function ExecApprove(p: Policy, s: State, g: nat, mode: Option<Mode>, reason: string, defense: Defense,
                             dirty: set<Role>, clock: Clock): Result<State, Error>
    requires PolicyOk(p) && |s.records| == |p.owner| && s.stage < p.stages
  {
    if reason == "" || !DefenseOk(defense) then Err(BadArguments)
    else if g >= |s.records| then Err(UnknownGate)
    else if mode !in p.contracts[g] then Err(BadMode)
    else if s.life.status != Active then Err(Inactive)
    else if !BindingsOk(p, s) then Err(BindingDrift)
    else if s.records[g].status == Approved then Err(AlreadyApproved)
    else if exists h :: 0 <= h < g && s.records[h].status != Approved then Err(MissingPrerequisite)
    else
      match ApprovalDestination(p, s.stage, g)
      case Err(e) => Err(e)
      case Ok(to) =>
        match (NextTimestamp(s, clock(g)), GateRefs(s.registry, p.contracts[g][mode], dirty))
        case (None, _) => Err(Exhausted)
        case (_, None) => Err(MissingArtifact)
        case (Some(t), Some(refs)) =>
          var d := ApproveDecision(p, s, g, mode, reason, defense, refs, t);
          if IsRetrospective(p, g, mode) && d.waived == [] then Err(NothingWaived)
          else Write(AdvanceStage(Tick(Push(s, g, d)), to, d.id, t), clock)
  }

  function CurrentRefs(reg: map<Role, Artifact>): set<Ref> {
    set r | r in reg && |reg[r].revisions| > 0 :: Ref(r, reg[r].id, Current(reg[r]))
  }

  function LifePush(s: State, d: LifeDecision): State {
    Tick(s.(life := Lifecycle(d.next, Some(d.id), s.life.history + [d])))
  }

  ghost function ExecLifecycle(p: Policy, s: State, action: LifeAction, affected: Option<nat>, reason: string,
                               defense: Defense, clock: Clock): Result<State, Error>
    requires PolicyOk(p) && |s.records| == |p.owner| && s.stage < p.stages
  {
    if reason == "" || !DefenseOk(defense) then Err(BadArguments)
    else if action != Resume && !BindingsOk(p, s) then Err(BindingDrift)
    else
      match LifeNext(s.life.status, action)
      case None => Err(BadLifecycle)
      case Some(next) =>
        if action == Complete && s.records[p.release].status != Approved then Err(NotApproved)
        else if affected.Some? && action != Resume then Err(BadArguments)
        else if s.life.status == Completed && affected.None? then Err(BadArguments)
        else if affected.Some? && affected.value >= |s.records| then Err(UnknownGate)
        else
          match (if affected.Some? then RecordReopen(p, s, affected.value, reason, defense, clock) else Ok(s))
          case Err(e) => Err(e)
          case Ok(s') =>
            match NextTimestamp(s', clock(|s.records|))
            case None => Err(Exhausted)
            case Some(t) =>
              var d := LifeDecision(s'.nextId, action, s.life.status, next, reason, defense, t, s'.stage,
                                    CurrentRefs(s'.registry),
                                    if affected.Some? then Some((affected.value, s.nextId)) else None);
              Write(LifePush(s', d), clock)
  }

  /** The trigger a checkpoint needs to take one edge, if it may take it at all. */
  function CheckpointTrigger(p: Policy, s: State, e: Edge, dirty: set<Role>): Result<Trigger, Error>
    requires PolicyOk(p) && |s.records| == |p.owner|
  {
    if e.gate.None? then Ok(ByCheckpoint)
    else if e.gate.value >= |s.records| then Err(UnknownGate)
    else
      var rec := s.records[e.gate.value];
      if rec.status != Approved || rec.history == [] then Err(BadTransition)
      else
        var latest := rec.history[|rec.history| - 1];
        if latest.action != Approve || rec.latest != Some(latest.id) then Err(BadTransition)
        else if latest.mode !in p.contracts[e.gate.value] then Err(BadMode)
        else if GateRefs(s.registry, p.contracts[e.gate.value][latest.mode], dirty).None? then Err(MissingArtifact)
        else Ok(ByApprove(latest.id))
  }

  ghost function ExecCheckpoint(p: Policy, s: State, stage: Option<nat>, dirty: set<Role>, clock: Clock)
    : Result<State, Error>
    requires PolicyOk(p) && |s.records| == |p.owner| && s.stage < p.stages
  {
    if s.life.status != Active then Err(Inactive)
    else if !BindingsOk(p, s) then Err(BindingDrift)
    else
      match NextTimestamp(s, clock(0))
      case None => Err(Exhausted)
      case Some(t) =>
        if stage.None? || stage.value == s.stage then Write(s.(checkpoint := Some(t)), clock)
        else
          match FindEdge(p.edges[s.stage], stage.value)
          case None => Err(BadTransition)
          case Some(e) =>
            match CheckpointTrigger(p, s, e, dirty)
            case Err(error) => Err(error)
            case Ok(trigger) => Write(MoveStage(s, stage.value, trigger, t).(checkpoint := Some(t)), clock)
  }

  predicate SameContent(r: Revision, source: string, hash: string, size: nat) {
    r.source == source && r.hash == hash && r.size == size
  }

  function AppendRevision(reg: map<Role, Artifact>, role: Role, artifact: string, r: Revision): map<Role, Artifact> {
    reg[role := Artifact(artifact, (if role in reg then reg[role].revisions else []) + [r])]
  }

  ghost function ExecRegister(p: Policy, s: State, role: Role, artifact: string, source: string, snapshot: string,
                              hash: string, size: nat, clock: Clock): Result<State, Error>
    requires PolicyOk(p) && |s.records| == |p.owner|
  {
    if s.life.status != Active then Err(Inactive)
    else if !BindingsOk(p, s) then Err(BindingDrift)
    else if role in s.registry && s.registry[role].id != artifact then Err(OtherArtifact)
    else if role in s.registry && |s.registry[role].revisions| > 0
            && SameContent(Current(s.registry[role]), source, hash, size) then Ok(s)
    else
      match NextTimestamp(s, clock(0))
      case None => Err(Exhausted)
      case Some(t) =>
        if FrozenRole(p, s, role) then Err(Frozen)
        else
          var n := if role in s.registry then |s.registry[role].revisions| else 0;
          var r := Revision(n + 1, source, snapshot, hash, size, t);
          Write(s.(registry := AppendRevision(s.registry, role, artifact, r)), clock)
  }

  /** A whole command: it refuses a document that breaks the stage rule before it does anything. */
  ghost function Exec(p: Policy, s: State, c: Command, clock: Clock): Result<State, Error>
    requires PolicyOk(p) && |s.records| == |p.owner| && s.stage < p.stages
  {
    if !StageReached(p, s) then Err(StageRule)
    else
      match c
      case CmdApprove(g, mode, reason, defense, dirty) => ExecApprove(p, s, g, mode, reason, defense, dirty, clock)
      case CmdReopen(g, reason, defense) => ExecReopen(p, s, g, reason, defense, clock)
      case CmdLifecycle(action, affected, reason, defense) =>
        ExecLifecycle(p, s, action, affected, reason, defense, clock)
      case CmdCheckpoint(stage, dirty) => ExecCheckpoint(p, s, stage, dirty, clock)
      case CmdRegister(role, artifact, source, snapshot, hash, size) =>
        ExecRegister(p, s, role, artifact, source, snapshot, hash, size, clock)
  }

  /** `new_state`. */
  function NewState(p: Policy, now: Time): State {
    State(now, now, 0, seq(|p.owner|, i => GateRecord(Pending, None, [])), [], Lifecycle(Active, None, []), None,
        map[], 0)
  }
}
