/**
 The project as an object: the saved document, the copy a command is working on, and the
 global list of Gate decisions.  Each command loads, mutates the copy and saves once.
 */
module GateMachine {
  import opened Prelude
  import opened Maxima
  import opened GateModel
  import opened GateTimeline
  import opened CascadeContract
  import opened GateReplay
  import opened GateWriters
  import opened GateHistories
  import opened GateSteps
  import opened GateRuns
  import opened GateVerdict

  lemma {:induction false} LatestIs(ts: set<Time>, m: Time)
    requires m in ts && forall t :: t in ts ==> t <= m
    ensures Latest(ts) == m
  {
  }

  class Project {
    const policy: Policy
    var disk: State
    var state: State
    ghost var log: seq<Event>

    /** The saved document is sound: it passes the replay check of the histories. */
    ghost predicate Valid()
      reads this
    {
      Sound(policy, disk, log)
    }

    /** `researchctl init`. */
    constructor (p: Policy, now: Time)
      requires PolicyOk(p)
      ensures Valid() && policy == p && disk == NewState(p, now)
    {
      policy := p;
      disk := NewState(p, now);
      state := NewState(p, now);
      log := [];
      NewStateSound(p, now);
    }

    /** Every timestamp of the nested state, gathered field by field. */
    method CollectTimes() returns (recorded: set<Time>)
      ensures recorded == Recorded(state)
    {
      recorded := {state.created, state.updated};
      if state.checkpoint.Some? { recorded := recorded + {state.checkpoint.value}; }
      ghost var head := recorded;
      for i := 0 to |state.transitions|
        invariant recorded == head + (set j | 0 <= j < i :: state.transitions[j].at)
      {
        recorded := recorded + {state.transitions[i].at};
      }
      ghost var moved := recorded;
      for g := 0 to |state.records|
        invariant recorded == moved
                  + (set h, j | 0 <= h < g && 0 <= j < |state.records[h].history| :: state.records[h].history[j].at)
      {
        var history := state.records[g].history;
        ghost var earlier := recorded;
        for i := 0 to |history|
          invariant recorded == earlier + (set j | 0 <= j < i :: history[j].at)
        {
          recorded := recorded + {history[i].at};
        }
      }
      ghost var decided := recorded;
      for i := 0 to |state.life.history|
        invariant recorded == decided + (set j | 0 <= j < i :: state.life.history[j].at)
      {
        recorded := recorded + {state.life.history[i].at};
      }
      recorded := recorded + RegisteredTimes(state.registry);
    }

    /** `next_state_timestamp`: collect every recorded timestamp, then go past the maximum. */
    method NextStateTimestamp(now: Time) returns (r: Option<Time>)
      ensures r == NextTimestamp(state, now)
    {
      var recorded := CollectTimes();
      assert state.created in recorded;
      hide Recorded;
      var m := Greatest(recorded, state.created);
      LatestIs(recorded, m);
      if m + 1 > MAX_TIME { return None; }
      return Some(if now < m + 1 then m + 1 else now);
    }

    function RegisteredTimes(reg: map<Role, Artifact>): set<Time> {
      set r, i | r in reg && 0 <= i < |reg[r].revisions| :: reg[r].revisions[i].at
    }

    method Greatest(ts: set<Time>, seed: Time) returns (m: Time)
      requires seed in ts
      ensures m in ts && forall t :: t in ts ==> t <= m
    {
      m := seed;
      var rest := ts;
      while exists t :: t in rest
        invariant rest <= ts && m in ts
        invariant forall t :: t in ts && t !in rest ==> t <= m
        decreases |rest|
      {
        var t :| t in rest;
        if m < t { m := t; }
        rest := rest - {t};
      }
    }

    /** `write_mutated_state`: stamp the copy and replace the saved document. */
    method WriteMutatedState(clock: Clock) returns (r: Result<(), Error>)
      modifies this`state, this`disk
      ensures match Write(old(state), clock)
              case Ok(s) => r == Ok(()) && disk == s
              case Err(e) => r == Err(e) && disk == old(disk)
    {
      var t := NextStateTimestamp(clock(|state.records| + 1));
      if t.None? { return Err(Exhausted); }
      state := state.(updated := t.value);
      disk := state;
      return Ok(());
    }

    /** `_cascade_reopen_downstream_gates`: reopen approved later GateRefs, last first. */
    method CascadeReopen(g: nat, root: Id, reason: string, defense: Defense, clock: Clock) returns (ok: bool)
      requires g < |state.records|
      modifies this`state
      ensures CascadeDown(old(state), g, |old(state).records|, root, reason, defense, clock)
              == if ok then Some(state) else None
    {
      var k := |state.records|;
      while g + 1 < k
        invariant g < k <= |state.records|
        invariant CascadeDown(old(state), g, |old(state).records|, root, reason, defense, clock)
                  == CascadeDown(state, g, k, root, reason, defense, clock)
      {
        k := k - 1;
        if state.records[k].status == Approved {
          var t := NextStateTimestamp(clock(k));
          if t.None? { return false; }
          var d := CascadeDecision(state, k, g, root, reason, defense, t.value);
          state := Tick(Push(state, k, d));
        }
      }
      return true;
    }

    /** `_record_gate_reopen`. */
    method RecordGateReopen(g: nat, reason: string, defense: Defense, clock: Clock) returns (r: Result<Id, Error>)
      requires g < |state.records| == |policy.owner|
      modifies this`state
      ensures match RecordReopen(policy, old(state), g, reason, defense, clock)
              case Ok(s) => r == Ok(old(state).nextId) && state == s
              case Err(e) => r == Err(e)
    {
      ghost var before := state;
      if state.records[g].status != Approved { return Err(NotApproved); }
      var id := state.nextId;
      state := Tick(state);
      var ok := CascadeReopen(g, id, reason, defense, clock);
      if !ok { return Err(Exhausted); }
      SameCount(Tick(before), g, |before.records|, id, reason, defense, clock);
      var t := NextStateTimestamp(clock(g));
      if t.None? { return Err(Exhausted); }
      state := Push(state, g, RootDecision(state, g, id, reason, defense, t.value));
      if state.stage > policy.owner[g] {
        state := MoveStage(state, policy.owner[g], ByReopen(id), t.value);
      }
      return Ok(id);
    }

    /** `gate_artifact_refs` for one list of roles. */
    method GatherRoles(roles: seq<Role>, mandatory: bool, dirty: set<Role>) returns (r: Option<seq<Ref>>)
      ensures r == Gather(state.registry, roles, mandatory, dirty)
    {
      var references: seq<Ref> := [];
      var failed := false;
      for i := 0 to |roles|
        invariant (if failed then None else Some(references)) == Gather(state.registry, roles[..i], mandatory, dirty)
      {
        assert roles[..i + 1][..i] == roles[..i];
        var role := roles[i];
        if role !in state.registry {
          if mandatory { failed := true; }
        } else if |state.registry[role].revisions| == 0 || role in dirty {
          failed := true;
        } else {
          references := references + [Ref(role, state.registry[role].id, Current(state.registry[role]))];
        }
      }
      assert roles[..|roles|] == roles;
      return if failed then None else Some(references);
    }

    /** `gate approve`. */
    method Approve(g: nat, mode: Option<Mode>, reason: string, defense: Defense, dirty: set<Role>, clock: Clock)
      returns (r: Result<(), Error>)
      requires Valid()
      modifies this
      ensures Valid()
      ensures match ExecApprove(policy, old(disk), g, mode, reason, defense, dirty, clock)
              case Ok(s) => r == Ok(()) && disk == s
              case Err(e) => r == Err(e) && disk == old(disk)
    {
      hide Logged, RecordsOk, PrerequisitesThen, LifecycleOk, StageHistoryOk, RegistryOk, Settled, NoneBefore;
      hide AllBefore;
      hide BindingOk, DefenseOk, Recorded, Absent;
      if reason == "" || !DefenseOk(defense) { return Err(BadArguments); }
      state := disk;
      if g >= |state.records| { return Err(UnknownGate); }
      if mode !in policy.contracts[g] { return Err(BadMode); }
      if state.life.status != Active { return Err(Inactive); }
      if !BindingsOk(policy, state) { return Err(BindingDrift); }
      if state.records[g].status == Approved { return Err(AlreadyApproved); }
      for h := 0 to g
        invariant state == disk && disk == old(disk) && log == old(log)
        invariant forall x :: 0 <= x < h ==> state.records[x].status == Approved
      {
        if state.records[h].status != Approved { return Err(MissingPrerequisite); }
      }
      var to := ApprovalDestination(policy, state.stage, g);
      if to.Err? { return Err(to.error); }
      var t := NextStateTimestamp(clock(g));
      if t.None? { return Err(Exhausted); }
      var c := policy.contracts[g][mode];
      var required := GatherRoles(c.required, true, dirty);
      var optional := GatherRoles(c.optional, false, dirty);
      if required.None? || optional.None? { return Err(MissingArtifact); }
      var d := ApproveDecision(policy, state, g, mode, reason, defense, required.value + optional.value, t.value);
      if IsRetrospective(policy, g, mode) && d.waived == [] { return Err(NothingWaived); }
      state := Tick(Push(state, g, d));
      if to.value.Some? && to.value.value > state.stage {
        state := MoveStage(state, to.value.value, ByApprove(d.id), t.value);
      }
      r := WriteMutatedState(clock);
      if r.Ok? { log := ApproveSound(policy, old(disk), log, g, mode, reason, defense, dirty, clock); }
    }

    /** `gate reopen`. */
    method Reopen(g: nat, reason: string, defense: Defense, clock: Clock) returns (r: Result<(), Error>)
      requires Valid()
      modifies this
      ensures Valid()
      ensures match ExecReopen(policy, old(disk), g, reason, defense, clock)
              case Ok(s) => r == Ok(()) && disk == s && ReopenEffect(policy, old(disk), s, g, old(disk).nextId)
              case Err(e) => r == Err(e) && disk == old(disk)
    {
      if reason == "" || !DefenseOk(defense) { return Err(BadArguments); }
      state := disk;
      if g >= |state.records| { return Err(UnknownGate); }
      if state.life.status != Active { return Err(Inactive); }
      var done := RecordGateReopen(g, reason, defense, clock);
      if done.Err? { return Err(done.error); }
      r := WriteMutatedState(clock);
      if r.Ok? {
        var _ := RecordReopenSound(policy, old(disk), log, g, reason, defense, clock);
        log := ReopenSound(policy, old(disk), log, g, reason, defense, clock);
      }
    }

    /** `lifecycle terminate|complete|reopen`. */
    method LifecycleChange(action: LifeAction, affected: Option<nat>, reason: string, defense: Defense, clock: Clock)
      returns (r: Result<(), Error>)
      requires Valid()
      modifies this
      ensures Valid()
      ensures match ExecLifecycle(policy, old(disk), action, affected, reason, defense, clock)
              case Ok(s) => r == Ok(()) && disk == s
              case Err(e) => r == Err(e) && disk == old(disk)
    {
      hide Logged, RecordsOk, PrerequisitesThen, LifecycleOk, StageHistoryOk, RegistryOk, Settled, NoneBefore;
      hide AllBefore;
      hide BindingOk, DefenseOk, Recorded, Absent;
      if reason == "" || !DefenseOk(defense) { return Err(BadArguments); }
      state := disk;
      if action != Resume && !BindingsOk(policy, state) { return Err(BindingDrift); }
      var next := LifeNext(state.life.status, action);
      if next.None? { return Err(BadLifecycle); }
      if action == Complete && state.records[policy.release].status != Approved { return Err(NotApproved); }
      if affected.Some? && action != Resume { return Err(BadArguments); }
      if state.life.status == Completed && affected.None? { return Err(BadArguments); }
      if affected.Some? && affected.value >= |state.records| { return Err(UnknownGate); }
      var linked: Option<(nat, Id)> := None;
      if affected.Some? {
        var done := RecordGateReopen(affected.value, reason, defense, clock);
        if done.Err? { return Err(done.error); }
        linked := Some((affected.value, done.value));
        ReopenKeepsRest(policy, old(disk), log, affected.value, reason, defense, clock);
      }
      var t := NextStateTimestamp(clock(|disk.records|));
      if t.None? { return Err(Exhausted); }
      var d := LifeDecision(state.nextId, action, state.life.status, next.value, reason, defense, t.value, state.stage,
                            CurrentRefs(state.registry), linked);
      state := LifePush(state, d);
      r := WriteMutatedState(clock);
      if r.Ok? { log := LifecycleSound(policy, old(disk), log, action, affected, reason, defense, clock); }
    }

    /** `checkpoint`. */
    method Checkpoint(stage: Option<nat>, dirty: set<Role>, clock: Clock) returns (r: Result<(), Error>)
      requires Valid()
      modifies this
      ensures Valid()
      ensures match ExecCheckpoint(policy, old(disk), stage, dirty, clock)
              case Ok(s) => r == Ok(()) && disk == s
              case Err(e) => r == Err(e) && disk == old(disk)
    {
      hide Logged, RecordsOk, PrerequisitesThen, LifecycleOk, StageHistoryOk, RegistryOk, Settled, NoneBefore;
      hide AllBefore;
      hide BindingOk, DefenseOk, Recorded, Absent;
      state := disk;
      if state.life.status != Active { return Err(Inactive); }
      if !BindingsOk(policy, state) { return Err(BindingDrift); }
      var t := NextStateTimestamp(clock(0));
      if t.None? { return Err(Exhausted); }
      if stage.Some? && stage.value != state.stage {
        var e := FindEdge(policy.edges[state.stage], stage.value);
        if e.None? { return Err(BadTransition); }
        var trigger := CheckpointTrigger(policy, state, e.value, dirty);
        if trigger.Err? { return Err(trigger.error); }
        state := MoveStage(state, stage.value, trigger.value, t.value);
      }
      state := state.(checkpoint := Some(t.value));
      r := WriteMutatedState(clock);
      if r.Ok? { CheckpointSound(policy, old(disk), log, stage, dirty, clock); }
    }

    /** `artifact register`. */
    method Register(role: Role, artifact: string, source: string, snapshot: string, hash: string, size: nat,
        clock: Clock)
      returns (r: Result<(), Error>)
      requires Valid()
      modifies this
      ensures Valid()
      ensures match ExecRegister(policy, old(disk), role, artifact, source, snapshot, hash, size, clock)
              case Ok(s) => r == Ok(()) && disk == s
              case Err(e) => r == Err(e) && disk == old(disk)
    {
      hide Logged, RecordsOk, PrerequisitesThen, LifecycleOk, StageHistoryOk, RegistryOk, Settled, NoneBefore;
      hide AllBefore;
      hide BindingOk, DefenseOk, Recorded, Absent;
      state := disk;
      if state.life.status != Active { return Err(Inactive); }
      if !BindingsOk(policy, state) { return Err(BindingDrift); }
      if role in state.registry && state.registry[role].id != artifact { return Err(OtherArtifact); }
      var revisions := if role in state.registry then state.registry[role].revisions else [];
      if |revisions| > 0 && SameContent(revisions[|revisions| - 1], source, hash, size) { return Ok(()); }
      var t := NextStateTimestamp(clock(0));
      if t.None? { return Err(Exhausted); }
      if FrozenRole(policy, state, role) { return Err(Frozen); }
      var revision := Revision(|revisions| + 1, source, snapshot, hash, size, t.value);
      state := state.(registry := state.registry[role := Artifact(artifact, revisions + [revision])]);
      r := WriteMutatedState(clock);
      if r.Ok? { RegisterSound(policy, old(disk), log, role, artifact, source, snapshot, hash, size, clock); }
    }

    /** One whole command: the stage rule is checked before anything else is done. */
    method Perform(c: Command, clock: Clock) returns (r: Result<(), Error>)
      requires Valid()
      modifies this
      ensures Valid()
      ensures match Exec(policy, old(disk), c, clock)
              case Ok(s) => r == Ok(()) && disk == s
              case Err(e) => r == Err(e) && disk == old(disk)
    {
      hide Sound, StageReached, ExecApprove, ExecReopen, ExecLifecycle, ExecCheckpoint, ExecRegister;
      SoundShape(policy, disk, log);
      if !StageReached(policy, disk) { return Err(StageRule); }
      match c
      case CmdApprove(g, mode, reason, defense, dirty) => r := Approve(g, mode, reason, defense, dirty, clock);
      case CmdReopen(g, reason, defense) => r := Reopen(g, reason, defense, clock);
      case CmdLifecycle(action, affected, reason, defense) =>
        r := LifecycleChange(action, affected, reason, defense, clock);
      case CmdCheckpoint(stage, dirty) => r := Checkpoint(stage, dirty, clock);
      case CmdRegister(role, artifact, source, snapshot, hash, size) =>
        r := Register(role, artifact, source, snapshot, hash, size, clock);
    }

    /** In every state the object can be in, the validator accepts the saved histories. */
    lemma {:induction false} ValidIsAccepted()
      requires Valid()
      ensures HistoryOk(policy, disk)
    {
      SoundIsAccepted(policy, disk, log);
    }
  }

  lemma {:induction false} SameCount(s: State, g: nat, k: nat, root: Id, reason: string, defense: Defense, clock: Clock)
    requires k <= |s.records| && CascadeDown(s, g, k, root, reason, defense, clock).Some?
    ensures |CascadeDown(s, g, k, root, reason, defense, clock).value.records| == |s.records|
    decreases k
  {
    if k > g + 1 {
      var j := k - 1;
      if s.records[j].status != Approved {
        SameCount(s, g, j, root, reason, defense, clock);
      } else {
        var t := NextTimestamp(s, clock(j)).value;
        SameCount(Tick(Push(s, j, CascadeDecision(s, j, g, root, reason, defense, t))), g, j, root, reason, defense,
            clock);
      }
    }
  }

  lemma {:induction false} ReopenKeepsRest(p: Policy, s: State, log: seq<Event>, g: nat, reason: string,
      defense: Defense, clock: Clock)
    requires Sound(p, s, log) && g < |s.records| && reason != "" && DefenseOk(defense)
    requires RecordReopen(p, s, g, reason, defense, clock).Ok?
    ensures ReopenEffect(p, s, RecordReopen(p, s, g, reason, defense, clock).value, g, s.nextId)
  {
    var _ := RecordReopenSound(p, s, log, g, reason, defense, clock);
  }
}
