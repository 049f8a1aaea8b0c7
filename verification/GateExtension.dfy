/** A run only ever extends the recorded histories, and always with later entries. */
module GateExtension {
  import opened Prelude
  import opened GateModel
  import opened GateTimeline
  import opened GateReplay
  import opened GateWriters
  import opened GateRuns

  /** Every entry of `h` beyond `n` is later than everything recorded in `s`. */
  ghost predicate NewDecisions(s: State, h: seq<Decision>, n: nat) {
    forall i :: n <= i < |h| ==> AllBefore(s, h[i].at)
  }

  ghost predicate HistoryExtends(s: State, h: seq<Decision>, h': seq<Decision>) {
    h <= h' && NewDecisions(s, h', |h|)
  }

  /** `s'` keeps every Gate decision and stage transition of `s`; whatever it adds is later. */
  ghost predicate Extends(s: State, s': State) {
    && |s'.records| == |s.records|
    && (forall g :: 0 <= g < |s.records| ==> HistoryExtends(s, s.records[g].history, s'.records[g].history))
    && s.transitions <= s'.transitions
    && (forall i :: |s.transitions| <= i < |s'.transitions| ==> AllBefore(s, s'.transitions[i].at))
    && (forall t :: AllBefore(s', t) ==> AllBefore(s, t))
  }

  lemma {:induction false} ExtendsRefl(s: State)
    ensures Extends(s, s)
  {
  }

  lemma {:induction false} HistoryTrans(s: State, s': State, h: seq<Decision>, h': seq<Decision>, h'': seq<Decision>)
    requires forall t :: AllBefore(s', t) ==> AllBefore(s, t)
    requires HistoryExtends(s, h, h') && HistoryExtends(s', h', h'')
    ensures HistoryExtends(s, h, h'')
  {
    hide AllBefore;
    forall i | |h| <= i < |h''| ensures AllBefore(s, h''[i].at) {
      if i < |h'| { assert h''[i] == h'[i]; }
    }
  }

  lemma {:induction false} ExtendsTrans(s: State, s': State, s'': State)
    requires Extends(s, s') && Extends(s', s'')
    ensures Extends(s, s'')
  {
    hide AllBefore, HistoryExtends;
    forall g | 0 <= g < |s.records| ensures HistoryExtends(s, s.records[g].history, s''.records[g].history) {
      HistoryTrans(s, s', s.records[g].history, s'.records[g].history, s''.records[g].history);
    }
    forall i | |s.transitions| <= i < |s''.transitions| ensures AllBefore(s, s''.transitions[i].at) {
      if i < |s'.transitions| { assert s''.transitions[i] == s'.transitions[i]; }
    }
  }

  lemma {:induction false} PushMonotone(s: State, g: nat, d: Decision, t: Time)
    requires g < |s.records| && AllBefore(Push(s, g, d), t)
    ensures AllBefore(s, t) && d.at < t
  {
    var s' := Push(s, g, d);
    assert s'.records[g].history[|s.records[g].history|] == d;
    forall k, i | 0 <= k < |s.records| && 0 <= i < |s.records[k].history| ensures s.records[k].history[i].at < t {
      assert s'.records[k].history[i] == s.records[k].history[i];
    }
  }

  /** A decision, and possibly a stage move, stamped later than the whole state. */
  lemma {:induction false} ExtendsPush(s: State, s': State, g: nat, d: Decision)
    requires g < |s.records| && AllBefore(s, d.at)
    requires s' == Push(s, g, d) || s' == Tick(Push(s, g, d))
    ensures Extends(s, s')
  {
    forall t | AllBefore(s', t) ensures AllBefore(s, t) {
      assert AllBefore(Push(s, g, d), t);
      PushMonotone(s, g, d, t);
    }
  }

  lemma {:induction false} ExtendsMove(s: State, s1: State, to: nat, trigger: Trigger, t: Time)
    requires Extends(s, s1) && AllBefore(s, t)
    ensures Extends(s, MoveStage(s1, to, trigger, t))
  {
    var s' := MoveStage(s1, to, trigger, t);
    assert s'.transitions == s1.transitions + [Transition(s1.stage, to, trigger, t)];
    forall u | AllBefore(s', u) ensures AllBefore(s1, u) {
      forall i | 0 <= i < |s1.transitions| ensures s1.transitions[i].at < u { assert s'.transitions[i].at < u; }
    }
    hide AllBefore, HistoryExtends;
  }

  lemma {:induction false} ExtendsWrite(s: State, s1: State, clock: Clock)
    requires Extends(s, s1) && Write(s1, clock).Ok?
    ensures Extends(s, Write(s1, clock).value)
  {
    NextTimestampLeast(s1, clock(|s1.records| + 1));
    var s' := Write(s1, clock).value;
    forall u | AllBefore(s', u) ensures AllBefore(s1, u) { }
    hide AllBefore, HistoryExtends, NextTimestamp;
  }

  lemma {:induction false} CascadeDownExtends(s: State, g: nat, k: nat, root: Id, reason: string, defense: Defense,
      clock: Clock)
    requires k <= |s.records| && CascadeDown(s, g, k, root, reason, defense, clock).Some?
    ensures Extends(s, CascadeDown(s, g, k, root, reason, defense, clock).value)
    decreases k
  {
    hide Extends, AllBefore;
    if k <= g + 1 {
      ExtendsRefl(s);
    } else {
      var j := k - 1;
      if s.records[j].status != Approved {
        CascadeDownExtends(s, g, j, root, reason, defense, clock);
      } else {
        NextTimestampLeast(s, clock(j));
        var t := NextTimestamp(s, clock(j)).value;
        var d := CascadeDecision(s, j, g, root, reason, defense, t);
        var s1 := Tick(Push(s, j, d));
        ExtendsPush(s, s1, j, d);
        CascadeDownExtends(s1, g, j, root, reason, defense, clock);
        ExtendsTrans(s, s1, CascadeDown(s1, g, j, root, reason, defense, clock).value);
      }
    }
  }

  lemma {:induction false} TickExtends(s: State)
    ensures Extends(s, Tick(s))
  {
  }

  lemma {:induction false} CountKept(s: State, s': State)
    requires Extends(s, s')
    ensures |s'.records| == |s.records|
    ensures forall t :: AllBefore(s', t) ==> AllBefore(s, t)
  {
  }

  lemma {:induction false} RecordReopenExtends(p: Policy, s: State, g: nat, reason: string, defense: Defense,
      clock: Clock)
    requires g < |s.records| == |p.owner| && RecordReopen(p, s, g, reason, defense, clock).Ok?
    ensures Extends(s, RecordReopen(p, s, g, reason, defense, clock).value)
  {
    hide Extends, AllBefore, CascadeDown, NextTimestamp;
    var s1 := Tick(s);
    TickExtends(s);
    CascadeDownExtends(s1, g, |s.records|, s.nextId, reason, defense, clock);
    var s2 := CascadeDown(s1, g, |s.records|, s.nextId, reason, defense, clock).value;
    ExtendsTrans(s, s1, s2);
    CountKept(s, s2);
    NextTimestampLeast(s2, clock(g));
    var t := NextTimestamp(s2, clock(g)).value;
    var d := RootDecision(s2, g, s.nextId, reason, defense, t);
    var s3 := Push(s2, g, d);
    ExtendsPush(s2, s3, g, d);
    ExtendsTrans(s, s2, s3);
    if s3.stage > p.owner[g] { ExtendsMove(s, s3, p.owner[g], ByReopen(s.nextId), t); }
  }

  lemma {:induction false} ApproveExtends(p: Policy, s: State, g: nat, mode: Option<Mode>, reason: string,
      defense: Defense, dirty: set<Role>, clock: Clock)
    requires PolicyOk(p) && |s.records| == |p.owner| && s.stage < p.stages
    requires ExecApprove(p, s, g, mode, reason, defense, dirty, clock).Ok?
    ensures Extends(s, ExecApprove(p, s, g, mode, reason, defense, dirty, clock).value)
  {
    hide Extends, AllBefore, NextTimestamp, Write, BindingsOk, GateRefs, Absent, DefenseOk;
    NextTimestampLeast(s, clock(g));
    var t := NextTimestamp(s, clock(g)).value;
    var refs := GateRefs(s.registry, p.contracts[g][mode], dirty).value;
    var d := ApproveDecision(p, s, g, mode, reason, defense, refs, t);
    var to := ApprovalDestination(p, s.stage, g).value;
    var s1 := Tick(Push(s, g, d));
    ExtendsPush(s, s1, g, d);
    if to.Some? && to.value > s1.stage { ExtendsMove(s, s1, to.value, ByApprove(d.id), t); }
    ExtendsWrite(s, AdvanceStage(s1, to, d.id, t), clock);
  }

  lemma {:induction false} OtherFields(s: State, s1: State, s2: State)
    requires Extends(s, s1) && s2.records == s1.records && s2.transitions == s1.transitions
    requires forall u :: AllBefore(s2, u) ==> AllBefore(s1, u)
    ensures Extends(s, s2)
  {
    hide AllBefore, HistoryExtends;
  }

  lemma {:induction false} LifePushExtends(s: State, s1: State, d: LifeDecision)
    requires Extends(s, s1)
    ensures Extends(s, LifePush(s1, d))
  {
    var s2 := LifePush(s1, d);
    forall u | AllBefore(s2, u) ensures AllBefore(s1, u) {
      forall i | 0 <= i < |s1.life.history| ensures s1.life.history[i].at < u { assert s2.life.history[i].at < u; }
    }
    hide Extends;
    OtherFields(s, s1, s2);
  }

  lemma {:induction false} LifecycleExtends(p: Policy, s: State, action: LifeAction, affected: Option<nat>,
      reason: string, defense: Defense, clock: Clock)
    requires PolicyOk(p) && |s.records| == |p.owner| && s.stage < p.stages
    requires ExecLifecycle(p, s, action, affected, reason, defense, clock).Ok?
    ensures Extends(s, ExecLifecycle(p, s, action, affected, reason, defense, clock).value)
  {
    hide Extends, AllBefore, NextTimestamp, Write, BindingsOk, RecordReopen, LifePush, DefenseOk;
    var s1 := s;
    ExtendsRefl(s);
    if affected.Some? {
      RecordReopenExtends(p, s, affected.value, reason, defense, clock);
      s1 := RecordReopen(p, s, affected.value, reason, defense, clock).value;
    }
    var d := LifeDecision(s1.nextId, action, s.life.status, LifeNext(s.life.status, action).value, reason, defense,
                          NextTimestamp(s1, clock(|s.records|)).value, s1.stage, CurrentRefs(s1.registry),
                          if affected.Some? then Some((affected.value, s.nextId)) else None);
    LifePushExtends(s, s1, d);
    ExtendsWrite(s, LifePush(s1, d), clock);
  }

  lemma {:induction false} CheckpointExtends(p: Policy, s: State, stage: Option<nat>, dirty: set<Role>, clock: Clock)
    requires PolicyOk(p) && |s.records| == |p.owner| && s.stage < p.stages
    requires ExecCheckpoint(p, s, stage, dirty, clock).Ok?
    ensures Extends(s, ExecCheckpoint(p, s, stage, dirty, clock).value)
  {
    hide Extends, NextTimestamp, Write, BindingsOk, GateRefs;
    NextTimestampLeast(s, clock(0));
    var t := NextTimestamp(s, clock(0)).value;
    var s1 := s;
    ExtendsRefl(s);
    if stage.Some? && stage.value != s.stage {
      var trigger := CheckpointTrigger(p, s, FindEdge(p.edges[s.stage], stage.value).value, dirty).value;
      s1 := MoveStage(s, stage.value, trigger, t);
      ExtendsMove(s, s, stage.value, trigger, t);
    }
    CheckpointMonotone(s, s1, t);
    ExtendsWrite(s, s1.(checkpoint := Some(t)), clock);
  }

  lemma {:induction false} CheckpointMonotone(s: State, s1: State, t: Time)
    requires Extends(s, s1) && AllBefore(s, t)
    requires s1 == s || exists to, trigger :: s1 == MoveStage(s, to, trigger, t)
    ensures Extends(s, s1.(checkpoint := Some(t)))
  {
    var s2 := s1.(checkpoint := Some(t));
    forall u | AllBefore(s2, u) ensures AllBefore(s, u) {
      assert t < u;
      if s1 != s { assert forall i :: 0 <= i < |s.transitions| ==> s.transitions[i] == s2.transitions[i]; }
      LaterThan(s, t, u);
    }
    hide AllBefore, HistoryExtends;
  }

  lemma {:induction false} LaterThan(s: State, t: Time, u: Time)
    requires AllBefore(s, t) && t <= u
    ensures AllBefore(s, u)
  {
  }

  lemma {:induction false} RegisterExtends(p: Policy, s: State, role: Role, artifact: string, source: string,
      snapshot: string, hash: string, size: nat, clock: Clock)
    requires PolicyOk(p) && |s.records| == |p.owner|
    requires ExecRegister(p, s, role, artifact, source, snapshot, hash, size, clock).Ok?
    ensures Extends(s, ExecRegister(p, s, role, artifact, source, snapshot, hash, size, clock).value)
  {
    hide Extends, NextTimestamp, Write, BindingsOk, FrozenRole;
    ExtendsRefl(s);
    if NextTimestamp(s, clock(0)).Some? {
      var n := if role in s.registry then |s.registry[role].revisions| else 0;
      var r := Revision(n + 1, source, snapshot, hash, size, NextTimestamp(s, clock(0)).value);
      var s1 := s.(registry := AppendRevision(s.registry, role, artifact, r));
      forall u | AllBefore(s1, u) && (role in s.registry ==> s.registry[role].id == artifact) ensures AllBefore(s, u) {
        forall x, i | x in s.registry && 0 <= i < |s.registry[x].revisions| ensures s.registry[x].revisions[i].at < u {
          assert s1.registry[x].revisions[i] == s.registry[x].revisions[i];
        }
      }
      hide AllBefore, AppendRevision;
      if role !in s.registry || s.registry[role].id == artifact {
        OtherFields(s, s, s1);
        if Write(s1, clock).Ok? { ExtendsWrite(s, s1, clock); }
      }
    }
  }

  lemma {:induction false} AfterExtends(p: Policy, s: State, step: Step)
    ensures Extends(s, After(p, s, step))
  {
    hide Extends, ExecApprove, ExecLifecycle, ExecCheckpoint, ExecRegister, RecordReopen, Write, PolicyOk, DefenseOk;
    ExtendsRefl(s);
    if PolicyOk(p) && |s.records| == |p.owner| && s.stage < p.stages && Exec(p, s, step.command, step.clock).Ok? {
      var clock := step.clock;
      match step.command
      case CmdApprove(g, mode, reason, defense, dirty) => ApproveExtends(p, s, g, mode, reason, defense, dirty, clock);
      case CmdReopen(g, reason, defense) =>
        RecordReopenExtends(p, s, g, reason, defense, clock);
        ExtendsWrite(s, RecordReopen(p, s, g, reason, defense, clock).value, clock);
      case CmdLifecycle(action, affected, reason, defense) =>
        LifecycleExtends(p, s, action, affected, reason, defense, clock);
      case CmdCheckpoint(stage, dirty) => CheckpointExtends(p, s, stage, dirty, clock);
      case CmdRegister(role, artifact, source, snapshot, hash, size) =>
        RegisterExtends(p, s, role, artifact, source, snapshot, hash, size, clock);
    }
  }

  /** Main result: every later state of a run extends every earlier one. */
  lemma {:induction false} RunExtends(p: Policy, s: State, steps: seq<Step>)
    ensures Extends(s, Run(p, s, steps))
  {
    hide Extends, After;
    if steps == [] {
      ExtendsRefl(s);
    } else {
      var init := steps[..|steps| - 1];
      RunExtends(p, s, init);
      AfterExtends(p, Run(p, s, init), steps[|steps| - 1]);
      ExtendsTrans(s, Run(p, s, init), Run(p, s, steps));
    }
  }
}
