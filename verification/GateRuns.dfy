/** Every run of the commands, from a new project, keeps the replay check. */
module GateRuns {
  import opened Prelude
  import opened GateModel
  import opened GateTimeline
  import opened CascadeContract
  import opened CheckerAgreement
  import opened GateReplay
  import opened GateWriters
  import opened GateHistories
  import opened GateCascades
  import opened GateSteps

  // ----- lifecycle -----

  lemma {:induction false} CurrentRefsRetained(reg: map<Role, Artifact>, t: Time)
    requires RegistryOk(reg)
    ensures forall r :: r in CurrentRefs(reg) ==> Retained(reg, r)
    ensures CurrentRefs(reg) == {} ==> NothingRegisteredBefore(reg, t)
  {
    forall r | r in CurrentRefs(reg) ensures Retained(reg, r) {
      assert ArtifactOk(reg[r.role]);
      CurrentRetained(reg, r);
    }
    assert forall x :: x in reg && |reg[x].revisions| > 0 ==> Ref(x, reg[x].id, Current(reg[x])) in CurrentRefs(reg);
  }

  lemma {:induction false} LifeHistoryAppend(p: Policy, records: seq<GateRecord>, reg: map<Role, Artifact>,
                                             life: Lifecycle, d: LifeDecision)
    requires p.release < |records| && LifecycleOk(p, records, reg, life)
    requires LifeDecisionOk(p, records, reg, life.history + [d], |life.history|)
    requires forall i :: 0 <= i < |life.history| ==> life.history[i].id != d.id
    requires forall g, k :: 0 <= g < |records| && 0 <= k < |records[g].history| ==> records[g].history[k].id != d.id
    ensures LifecycleOk(p, records, reg, Lifecycle(d.next, Some(d.id), life.history + [d]))
  {
    var h := life.history + [d];
    forall i | 0 <= i < |h| ensures LifeDecisionOk(p, records, reg, h, i) {
      if i < |life.history| {
        assert LifeDecisionOk(p, records, reg, life.history, i);
        assert h[i] == life.history[i];
        if i > 0 { assert h[i - 1] == life.history[i - 1]; }
      }
    }
  }

  /** A lifecycle decision drawn from the current state. */
  ghost predicate LifeStep(p: Policy, s: State, d: LifeDecision) {
    && p.release < |s.records|
    && d.id == s.nextId && AllBefore(s, d.at) && s.created <= d.at
    && d.previous == s.life.status && LifeNext(d.previous, d.action) == Some(d.next)
    && d.reason != "" && DefenseOk(d.defense) && d.stage == s.stage && d.refs == CurrentRefs(s.registry)
    && (d.action == Complete ==> s.records[p.release].status == Approved)
    && (match d.linked
        case Some(link) => d.action == Resume && NamesReopen(s.records, link.0, link.1)
        case None => !(d.previous == Completed && d.action == Resume))
  }

  lemma {:induction false} LifeStepOk(p: Policy, s: State, log: seq<Event>, d: LifeDecision)
    requires Mid(p, s, log, s.nextId) && LifeStep(p, s, d)
    ensures LifecycleOk(p, s.records, s.registry, Lifecycle(d.next, Some(d.id), s.life.history + [d]))
  {
    hide StageHistoryOk, PrerequisitesThen;
    var h := s.life.history + [d];
    CurrentRefsRetained(s.registry, d.at);
    if d.action == Complete {
      assert RecordOk(p, s.registry, p.release, s.records[p.release]);
      StatusAtEnd(s.records[p.release].history, d.at);
    }
    assert LifeDecisionOk(p, s.records, s.registry, h, |s.life.history|);
    forall g, k | 0 <= g < |s.records| && 0 <= k < |s.records[g].history| ensures s.records[g].history[k].id != d.id {
      RecordedId(s.records, s.life, log, s.nextId, g, k);
    }
    LifeHistoryAppend(p, s.records, s.registry, s.life, d);
  }

  lemma {:induction false} RecordedId(records: seq<GateRecord>, life: Lifecycle, log: seq<Event>, b: nat, g: nat,
      k: nat)
    requires Logged(records, life, log, b) && g < |records| && k < |records[g].history|
    ensures Event(g, records[g].history[k]) in log && records[g].history[k].id < b
  {
    ProjMember(log, g, records[g].history[k]);
    assert EventBelow(Event(g, records[g].history[k]), |records|, b);
  }

  lemma {:induction false} LifePushMid(p: Policy, s: State, log: seq<Event>, d: LifeDecision)
    requires Mid(p, s, log, s.nextId) && LifeStep(p, s, d)
    ensures Mid(p, LifePush(s, d), log, s.nextId + 1)
  {
    LifeStepOk(p, s, log, d);
    MidWiden(p, s, log, s.nextId, s.nextId + 1);
    hide StageHistoryOk, PrerequisitesThen, RecordsOk, RegistryOk, LifecycleOk;
  }

  lemma {:induction false} LifecycleTail(p: Policy, s: State, log: seq<Event>, d: LifeDecision, clock: Clock)
    requires Mid(p, s, log, s.nextId) && Settled(p, s, log) && LifeStep(p, s, d)
    requires Write(LifePush(s, d), clock).Ok?
    ensures Sound(p, Write(LifePush(s, d), clock).value, log)
  {
    hide Mid, LifeStep, CascadesOk, PrerequisitesNow, Write, Sound;
    LifePushMid(p, s, log, d);
    WriteSound(p, LifePush(s, d), log, clock);
  }

  lemma {:induction false} LifecycleSound(p: Policy, s: State, log: seq<Event>, action: LifeAction,
      affected: Option<nat>, reason: string, defense: Defense, clock: Clock) returns (log': seq<Event>)
    requires Sound(p, s, log) && ExecLifecycle(p, s, action, affected, reason, defense, clock).Ok?
    ensures Sound(p, ExecLifecycle(p, s, action, affected, reason, defense, clock).value, log')
  {
    hide Logged, RecordsOk, PrerequisitesThen, LifecycleOk, StageHistoryOk, RegistryOk, CascadesOk, BindingsOk;
    hide NoneBefore, NamesReopen, CurrentRefs, RecordReopen, Write, PrerequisitesNow, DefenseOk;
    var s' := s;
    log' := log;
    if affected.Some? {
      log' := RecordReopenSound(p, s, log, affected.value, reason, defense, clock);
      s' := RecordReopen(p, s, affected.value, reason, defense, clock).value;
    }
    NextTimestampLeast(s', clock(|s.records|));
    var t := NextTimestamp(s', clock(|s.records|)).value;
    var next := LifeNext(s.life.status, action).value;
    var d := LifeDecision(s'.nextId, action, s.life.status, next, reason, defense, t, s'.stage,
                          CurrentRefs(s'.registry), if affected.Some? then Some((affected.value, s.nextId)) else None);
    assert LifeStep(p, s', d);
    LifecycleTail(p, s', log', d, clock);
  }

  // ----- checkpoint -----

  /** A Gate-controlled edge is triggered by the approval that is the Gate's latest decision. */
  lemma {:induction false} TriggerIsApproval(p: Policy, s: State, e: Edge, dirty: set<Role>)
    requires PolicyOk(p) && |s.records| == |p.owner| && e.gate.Some? && CheckpointTrigger(p, s, e, dirty).Ok?
    ensures var g := e.gate.value;
            && g < |s.records| && s.records[g].history != []
            && var h := s.records[g].history;
            && h[|h| - 1].action == Approve
            && CheckpointTrigger(p, s, e, dirty) == Ok(ByApprove(h[|h| - 1].id))
  {
  }

  lemma {:induction false} CheckpointMove(p: Policy, s: State, log: seq<Event>, to: nat, e: Edge, dirty: set<Role>,
      t: Time)
    requires Mid(p, s, log, s.nextId) && AllBefore(s, t)
    requires FindEdge(p.edges[s.stage], to) == Some(e) && CheckpointTrigger(p, s, e, dirty).Ok?
    ensures Mid(p, MoveStage(s, to, CheckpointTrigger(p, s, e, dirty).value, t), log, s.nextId)
  {
    hide Logged, PrerequisitesThen, LifecycleOk, RegistryOk, RecordsOk, StageHistoryOk;
    FindEdgeIn(p.edges[s.stage], to);
    var i :| 0 <= i < |p.edges[s.stage]| && p.edges[s.stage][i] == e;
    assert EdgeOk(p, p.edges[s.stage][i]);
    assert HasEdge(p, s.stage, to, e.gate);
    if e.gate.None? {
      MovedByCheckpoint(p, s, to, t);
      MidMove(p, s, log, s.nextId, to, ByCheckpoint, t);
    } else {
      TriggerIsApproval(p, s, e, dirty);
      hide CheckpointTrigger, FindEdge, PolicyOk;
      ApproveMove(p, s, log, s.nextId, e.gate.value, to, t);
    }
  }

  lemma {:induction false} MovedByCheckpoint(p: Policy, s: State, to: nat, t: Time)
    requires PolicyOk(p) && |s.records| == |p.owner| && HasEdge(p, s.stage, to, None)
    ensures TransitionOk(p, s.records, Transition(s.stage, to, ByCheckpoint, t))
  {
  }

  lemma {:induction false} MidCheckpoint(p: Policy, s: State, log: seq<Event>, b: nat, t: Time)
    requires Mid(p, s, log, b) && s.created <= t
    ensures Mid(p, s.(checkpoint := Some(t)), log, b)
  {
    hide Logged, RecordsOk, PrerequisitesThen, LifecycleOk, StageHistoryOk, RegistryOk;
  }

  lemma {:induction false} CheckpointSound(p: Policy, s: State, log: seq<Event>, stage: Option<nat>, dirty: set<Role>,
                                           clock: Clock)
    requires Sound(p, s, log) && ExecCheckpoint(p, s, stage, dirty, clock).Ok?
    ensures Sound(p, ExecCheckpoint(p, s, stage, dirty, clock).value, log)
  {
    hide Logged, RecordsOk, PrerequisitesThen, LifecycleOk, StageHistoryOk, RegistryOk, CascadesOk, BindingsOk;
    NextTimestampLeast(s, clock(0));
    var t := NextTimestamp(s, clock(0)).value;
    var s1 := s;
    if stage.Some? && stage.value != s.stage {
      var e := FindEdge(p.edges[s.stage], stage.value).value;
      CheckpointMove(p, s, log, stage.value, e, dirty, t);
      s1 := MoveStage(s, stage.value, CheckpointTrigger(p, s, e, dirty).value, t);
    }
    MidCheckpoint(p, s1, log, s.nextId, t);
    WriteSound(p, s1.(checkpoint := Some(t)), log, clock);
  }

  // ----- register -----

  /** A reference retained before a registration is retained after it. */
  lemma {:induction false} RetainedAfter(reg: map<Role, Artifact>, role: Role, artifact: string, r: Revision, ref: Ref)
    requires RegistryOk(reg) && Retained(reg, ref)
    requires role in reg ==> reg[role].id == artifact && r.number == |reg[role].revisions| + 1
    ensures Retained(AppendRevision(reg, role, artifact, r), ref)
  {
    var reg' := AppendRevision(reg, role, artifact, r);
    var i :| 0 <= i < |reg[ref.role].revisions| && reg[ref.role].revisions[i] == ref.revision;
    assert reg'[ref.role].revisions[i] == ref.revision;
    assert ArtifactOk(reg[ref.role]);
  }

  lemma {:induction false} RecordOkAfter(p: Policy, reg: map<Role, Artifact>, reg': map<Role, Artifact>, g: nat,
      rec: GateRecord)
    requires g < |p.contracts| && RecordOk(p, reg, g, rec)
    requires forall ref :: Retained(reg, ref) ==> Retained(reg', ref)
    ensures RecordOk(p, reg', g, rec)
  {
    hide Retained, ApprovalOk, TransitionShape, DefenseOk;
    forall i | 0 <= i < |rec.history| ensures DecisionOk(p, reg', g, rec.history, i) {
      assert DecisionOk(p, reg, g, rec.history, i);
    }
  }

  lemma {:induction false} LifecycleOkAfter(p: Policy, records: seq<GateRecord>, reg: map<Role, Artifact>,
                                            reg': map<Role, Artifact>, life: Lifecycle)
    requires p.release < |records| && LifecycleOk(p, records, reg, life)
    requires forall ref :: Retained(reg, ref) ==> Retained(reg', ref)
    requires forall i :: 0 <= i < |life.history| && NothingRegisteredBefore(reg, life.history[i].at) ==>
               NothingRegisteredBefore(reg', life.history[i].at)
    ensures LifecycleOk(p, records, reg', life)
  {
    hide Retained, NamesReopen, NothingRegisteredBefore, DefenseOk, LifeIdsFresh;
    forall i | 0 <= i < |life.history| ensures LifeDecisionOk(p, records, reg', life.history, i) {
      assert LifeDecisionOk(p, records, reg, life.history, i);
    }
  }

  lemma {:induction false} RegistryOkAfter(reg: map<Role, Artifact>, role: Role, artifact: string, r: Revision)
    requires RegistryOk(reg)
    requires role in reg ==> forall i :: 0 <= i < |reg[role].revisions| ==> reg[role].revisions[i].at < r.at
    requires r.number == (if role in reg then |reg[role].revisions| else 0) + 1
    ensures RegistryOk(AppendRevision(reg, role, artifact, r))
  {
    var reg' := AppendRevision(reg, role, artifact, r);
    forall x | x in reg' ensures ArtifactOk(reg'[x]) {
      if x in reg { assert ArtifactOk(reg[x]); }
    }
  }

  lemma {:induction false} NoneBeforeAfter(s: State, role: Role, artifact: string, r: Revision, t: Time)
    requires NoneBefore(s, t) && t <= r.at
    ensures NoneBefore(s.(registry := AppendRevision(s.registry, role, artifact, r)), t)
  {
  }

  lemma {:induction false} RegisterMid(p: Policy, s: State, log: seq<Event>, role: Role, artifact: string, r: Revision)
    requires Mid(p, s, log, s.nextId) && AllBefore(s, r.at)
    requires role in s.registry ==> s.registry[role].id == artifact
    requires r.number == (if role in s.registry then |s.registry[role].revisions| else 0) + 1
    ensures Mid(p, s.(registry := AppendRevision(s.registry, role, artifact, r)), log, s.nextId)
  {
    RegistryOkAfter(s.registry, role, artifact, r);
    NoneBeforeAfter(s, role, artifact, r, s.created);
    RegisterQuiet(p, s, role, artifact, r);
    hide Logged, PrerequisitesThen, StageHistoryOk, LifecycleOk, RegistryOk, NoneBefore, RecordOk, AppendRevision;
    hide AllBefore;
    var reg' := AppendRevision(s.registry, role, artifact, r);
    forall ref | Retained(s.registry, ref) ensures Retained(reg', ref) {
      RetainedAfter(s.registry, role, artifact, r, ref);
    }
    forall g | 0 <= g < |s.records| ensures RecordOk(p, reg', g, s.records[g]) {
      RecordOkAfter(p, s.registry, reg', g, s.records[g]);
    }
    LifecycleOkAfter(p, s.records, s.registry, reg', s.life);
  }

  /** A registration is later than every lifecycle decision, so none gains evidence from it. */
  lemma {:induction false} RegisterQuiet(p: Policy, s: State, role: Role, artifact: string, r: Revision)
    requires AllBefore(s, r.at)
    ensures forall i :: 0 <= i < |s.life.history| && NothingRegisteredBefore(s.registry, s.life.history[i].at) ==>
              NothingRegisteredBefore(AppendRevision(s.registry, role, artifact, r), s.life.history[i].at)
  {
  }

  lemma {:induction false} RegisterSound(p: Policy, s: State, log: seq<Event>, role: Role, artifact: string,
      source: string, snapshot: string, hash: string, size: nat, clock: Clock)
    requires Sound(p, s, log) && ExecRegister(p, s, role, artifact, source, snapshot, hash, size, clock).Ok?
    ensures Sound(p, ExecRegister(p, s, role, artifact, source, snapshot, hash, size, clock).value, log)
  {
    hide Logged, RecordsOk, PrerequisitesThen, LifecycleOk, StageHistoryOk, RegistryOk, CascadesOk, BindingsOk;
    hide FrozenRole;
    NextTimestampLeast(s, clock(0));
    if NextTimestamp(s, clock(0)).Some? {
      var t := NextTimestamp(s, clock(0)).value;
      var n := if role in s.registry then |s.registry[role].revisions| else 0;
      var r := Revision(n + 1, source, snapshot, hash, size, t);
      RegisterMid(p, s, log, role, artifact, r);
      WriteSound(p, s.(registry := AppendRevision(s.registry, role, artifact, r)), log, clock);
    }
  }

  // ----- runs -----

  lemma {:induction false} ExecSound(p: Policy, s: State, log: seq<Event>, c: Command, clock: Clock)
    returns (log': seq<Event>)
    requires Sound(p, s, log) && Exec(p, s, c, clock).Ok?
    ensures Sound(p, Exec(p, s, c, clock).value, log')
  {
    hide Logged, RecordsOk, PrerequisitesThen, LifecycleOk, StageHistoryOk, RegistryOk, Settled;
    match c
    case CmdApprove(g, mode, reason, defense, dirty) =>
      log' := ApproveSound(p, s, log, g, mode, reason, defense, dirty, clock);
    case CmdReopen(g, reason, defense) =>
      log' := ReopenSound(p, s, log, g, reason, defense, clock);
    case CmdLifecycle(action, affected, reason, defense) =>
      log' := LifecycleSound(p, s, log, action, affected, reason, defense, clock);
    case CmdCheckpoint(stage, dirty) =>
      CheckpointSound(p, s, log, stage, dirty, clock);
      log' := log;
    case CmdRegister(role, artifact, source, snapshot, hash, size) =>
      RegisterSound(p, s, log, role, artifact, source, snapshot, hash, size, clock);
      log' := log;
  }

  /** A command and the clock readings it happens to get. */
  datatype Step = Step(command: Command, clock: Clock)

  /** The saved state after one more command; a failed command saves nothing. */
  ghost function After(p: Policy, s: State, step: Step): State {
    if PolicyOk(p) && |s.records| == |p.owner| && s.stage < p.stages then
      match Exec(p, s, step.command, step.clock)
      case Ok(s') => s'
      case Err(_) => s
    else s
  }

  ghost function Run(p: Policy, s: State, steps: seq<Step>): State {
    if steps == [] then s else After(p, Run(p, s, steps[..|steps| - 1]), steps[|steps| - 1])
  }

  lemma {:induction false} NewStateSound(p: Policy, now: Time)
    requires PolicyOk(p)
    ensures Sound(p, NewState(p, now), [])
  {
    var s := NewState(p, now);
    assert forall g :: 0 <= g < |s.records| ==> RecordOk(p, s.registry, g, s.records[g]);
  }

  lemma {:induction false} RunSound(p: Policy, s: State, log: seq<Event>, steps: seq<Step>) returns (log': seq<Event>)
    requires Sound(p, s, log)
    ensures Sound(p, Run(p, s, steps), log')
  {
    hide Logged, RecordsOk, PrerequisitesThen, LifecycleOk, StageHistoryOk, RegistryOk, Settled;
    if steps == [] {
      log' := log;
    } else {
      log' := RunSound(p, s, log, steps[..|steps| - 1]);
      var before, last := Run(p, s, steps[..|steps| - 1]), steps[|steps| - 1];
      if Exec(p, before, last.command, last.clock).Ok? {
        log' := ExecSound(p, before, log', last.command, last.clock);
      }
    }
  }
}
