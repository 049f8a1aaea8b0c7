/**
 Which policies let some run break the bindings of an approved Gate: those in which a
 retrospective approval can leave out a role that nothing approved before it requires.
 */
module GateWaivers {
  import opened Prelude
  import opened GateModel
  import opened GateTimeline
  import opened CascadeContract
  import opened GateReplay
  import opened GateWriters
  import opened GateHistories
  import opened GateSteps
  import opened GateRuns
  import opened GateBindings
  import opened StageGraph
  import opened StageReach
  import opened StageVerdict

  /** Each GateRef before `g` has a mode that does not require this role. */
  predicate Avoidable(p: Policy, g: nat, role: Role)
    requires g <= |p.contracts|
  {
    forall h :: 0 <= h < g ==> SomeModeWithout(p.contracts[h], role)
  }

  predicate SomeModeWithout(contracts: map<Option<Mode>, RoleContract>, role: Role) {
    exists mode :: mode in contracts && role !in contracts[mode].required
  }

  /** Commands reach a clear position past GateRef `g`. */
  predicate Passable(p: Policy, g: nat) {
    exists q :: q in Reached(p, |p.owner|) && q.approved > g && ClearAt(p, q)
  }

  /** The retrospective approval can be recorded while this role is missing. */
  predicate Waivable(p: Policy, role: Role)
    requires Loads(p)
  {
    var (g, m) := p.retrospective.value;
    role in p.contracts[g][Some(m)].optional && Avoidable(p, g, role) && Passable(p, g)
  }

  /** Every state of every run keeps each approved Gate bound to current revisions. */
  ghost predicate BindingsHold(p: Policy)
    requires PolicyOk(p)
  {
    forall now, steps :: BindingsOk(p, Run(p, NewState(p, now), steps))
  }

  // ----- a broken binding was waivable -----

  lemma {:induction false} BoundIsRegistered(p: Policy, s: State, log: seq<Event>, g: nat, role: Role)
    requires Sound(p, s, log) && g < |s.records| && s.records[g].status == Approved
    requires LatestApproval(s.records[g].history).Some?
    requires role in RolesOf(LatestApproval(s.records[g].history).value.refs)
    ensures role in s.registry
  {
    var h := s.records[g].history;
    assert RecordOk(p, s.registry, g, s.records[g]);
    assert DecisionOk(p, s.registry, g, h, |h| - 1);
    var refs := h[|h| - 1].refs;
    var i :| 0 <= i < |refs| && RolesOf(refs)[i] == role;
    assert refs[i] in refs;
  }

  /** A role that a current binding waived is optional, and not registered. */
  lemma {:induction false} WaivedIsUnregistered(p: Policy, reg: map<Role, Artifact>, g: nat, d: Decision, role: Role)
    requires PolicyOk(p) && RegistryOk(reg) && g < |p.contracts| && ApprovalOk(p, g, d) && role in d.waived
    requires Agrees(reg, p.contracts[g][d.mode], d.refs)
    ensures p.retrospective.Some? && p.retrospective.value.0 == g && d.mode == Some(p.retrospective.value.1)
    ensures role in p.contracts[g][d.mode].optional && role !in reg
  {
    var c := p.contracts[g][d.mode];
    assert ContractOk(c);
    AbsentMember(c.optional, RolesOf(d.refs), role);
    assert RoleAgrees(reg, c, d.refs, role);
    DistinctParts(c.required, c.optional);
    forall i | 0 <= i < |d.refs|
      ensures d.refs[i].role in RolesOf(d.refs)
    {
      assert RolesOf(d.refs)[i] in RolesOf(d.refs);
    }
  }

  lemma {:induction false} SoundRecord(p: Policy, s: State, log: seq<Event>, g: nat)
    requires Sound(p, s, log) && g < |s.records|
    ensures |s.records| == |p.contracts| && RegistryOk(s.registry) && RecordOk(p, s.registry, g, s.records[g])
  {
  }

  lemma {:induction false} WaivedIsMissing(p: Policy, s: State, log: seq<Event>, g: nat, role: Role)
    requires PolicyOk(p) && Sound(p, s, log) && BindingsOk(p, s) && g < |s.records| == |p.contracts|
    requires WaivedBy(s.records[g], role)
    ensures p.retrospective.Some? && p.retrospective.value.0 == g && Some(p.retrospective.value.1) in p.contracts[g]
    ensures role in p.contracts[g][Some(p.retrospective.value.1)].optional && role !in s.registry
  {
    var rec := s.records[g];
    assert BindingOk(p, s.registry, g, rec);
    hide Sound, BindingsOk, RecordOk, BindingOk, PolicyOk, Agrees, ApprovalOk, Binds;
    SoundRecord(p, s, log, g);
    LatestApprovalOk(p, s.registry, g, rec);
    BindingIsAgreement(p, s.registry, g, rec);
    WaivedIsUnregistered(p, s.registry, g, LatestApproval(rec.history).value, role);
  }

  lemma {:induction false} MissingIsAvoided(p: Policy, s: State, log: seq<Event>, k: nat, g: nat, role: Role)
    requires PolicyOk(p) && Sound(p, s, log) && FirstApproved(s.records, k) && g <= k <= |s.records| == |p.contracts|
    requires role !in s.registry
    ensures Avoidable(p, g, role)
  {
    forall h | 0 <= h < g ensures SomeModeWithout(p.contracts[h], role) {
      hide Sound, RecordOk, PolicyOk, ApprovalOk;
      SoundRecord(p, s, log, h);
      LatestApprovalOk(p, s.registry, h, s.records[h]);
      var d := LatestApproval(s.records[h].history).value;
      if role in p.contracts[h][d.mode].required { BoundIsRegistered(p, s, log, h, role); }
      assert role !in p.contracts[h][d.mode].required;
    }
  }

  /** The run that first breaks a binding shows the role it registered to be waivable. */
  lemma {:induction false} DisturbedIsWaivable(p: Policy, s: State, log: seq<Event>, k: nat, role: Role)
    requires Loads(p) && PolicyOk(p) && Sound(p, s, log) && BindingsOk(p, s)
    requires |s.records| == |p.owner| == |p.contracts|
    requires FirstApproved(s.records, k) && At(s.stage, k) in Reached(p, |p.owner|) && StageReached(p, s)
    requires WaivedSomewhere(s, role)
    ensures Waivable(p, role)
  {
    var g :| 0 <= g < |s.records| && WaivedBy(s.records[g], role);
    WaivedIsMissing(p, s, log, g, role);
    assert g < k;
    hide Sound, BindingsOk, PolicyOk, Reached, FirstApproved;
    CountBounded(s.records, k);
    MissingIsAvoided(p, s, log, k, g, role);
    StageRuleIsClear(p, s, k);
    assert ClearAt(p, At(s.stage, k));
  }

  lemma {:induction false} BreakIsWaivable(p: Policy, now: Time, steps: seq<Step>) returns (role: Role)
    requires Loads(p) && PolicyOk(p) && !BindingsOk(p, Run(p, NewState(p, now), steps))
    ensures Waivable(p, role)
  {
    hide Loads, PolicyOk, BindingsOk, Sound, FirstApproved, Reached, Exec, Waivable, WaivedSomewhere, StageReached;
    if steps == [] {
      NothingBound(p, now);
      assert false;
    } else {
      var init, last := steps[..|steps| - 1], steps[|steps| - 1];
      var before := Run(p, NewState(p, now), init);
      if !BindingsOk(p, before) {
        role := BreakIsWaivable(p, now, init);
      } else {
        var log, k := NewProjectRun(p, now, init);
        SoundShape(p, before, log);
        LoadsShape(p);
        assert Exec(p, before, last.command, last.clock).Ok?;
        ExecBindings(p, before, log, last.command, last.clock);
        role := last.command.role;
        ExecIsClear(p, before, last.command, last.clock);
        DisturbedIsWaivable(p, before, log, k, role);
      }
    }
  }

  lemma {:induction false} ExecIsClear(p: Policy, s: State, c: Command, clock: Clock)
    requires PolicyOk(p) && |s.records| == |p.owner| && s.stage < p.stages && Exec(p, s, c, clock).Ok?
    ensures StageReached(p, s)
  {
  }

  // ----- a waivable role breaks a binding -----

  /** Whoever gets past GateRef `g` first crosses it from a position where none after it was ever approved. */
  predicate Crosses(p: Policy, g: nat, a: Position, b: Position) {
    a in Reached(p, g) && a.approved == g && ClearAt(p, a) && Approves(p, a, b)
  }

  lemma {:induction false} WithinOrAcross(p: Policy, g: nat, n: nat, q: Position)
    requires p.stages > 0 && q in ReachedBy(p, |p.owner|, n)
    ensures || q in Reached(p, g)
            || (exists a :: Crosses(p, g, a, q))
            || (exists a, b :: Crosses(p, g, a, b) && ClearAt(p, b))
  {
    hide Reached, ClearAt, Approves, Reopens, Checkpoints, Positions;
    if n == 0 {
      ReachedRounds(p, g);
      RoundsKeep(p, g, |Positions(p, g)|);
    } else if q in ReachedBy(p, |p.owner|, n - 1) {
      WithinOrAcross(p, g, n - 1, q);
    } else {
      var a :| a in ReachedBy(p, |p.owner|, n - 1) && ClearAt(p, a) && Moves(p, a, q);
      PositionsMember(p, |p.owner|, q);
      WithinOrAcross(p, g, n - 1, a);
      if a in Reached(p, g) {
        ReachedBounded(p, g, a);
        MoveAcross(p, g, a, q);
        if q.approved <= g { ReachedOnward(p, g, a, q); } else { assert Crosses(p, g, a, q); }
      }
    }
  }

  lemma {:induction false} ReachedBounded(p: Policy, g: nat, q: Position)
    requires p.stages > 0 && q in Reached(p, g)
    ensures q.approved <= g
  {
    ReachedInside(p, g, |Positions(p, g)|);
    PositionsMember(p, g, q);
  }

  lemma {:induction false} MoveAcross(p: Policy, g: nat, a: Position, b: Position)
    requires Moves(p, a, b) && a.approved <= g
    ensures b.approved <= g || (a.approved == g && Approves(p, a, b))
  {
  }

  lemma {:induction false} Crossing(p: Policy, g: nat) returns (a: Position, b: Position)
    requires p.stages > 0 && Passable(p, g)
    ensures Crosses(p, g, a, b) && ClearAt(p, b)
  {
    hide Reached, ClearAt, Crosses;
    var q :| q in Reached(p, |p.owner|) && q.approved > g && ClearAt(p, q);
    ReachedRounds(p, |p.owner|);
    WithinOrAcross(p, g, |Positions(p, |p.owner|)|, q);
    if q in Reached(p, g) {
      ReachedBounded(p, g, q);
      assert false;
    } else if x :| Crosses(p, g, x, q) {
      a, b := x, q;
    } else {
      a, b :| Crosses(p, g, a, b) && ClearAt(p, b);
    }
  }

  lemma {:induction false} AvoidingMode(p: Policy, h: nat, role: Role) returns (mode: Option<Mode>)
    requires h < |p.contracts| && p.retrospective.Some? && h < p.retrospective.value.0
    requires SomeModeWithout(p.contracts[h], role)
    ensures mode in p.contracts[h] && !IsRetrospective(p, h, mode) && role !in p.contracts[h][mode].required
  {
    mode :| mode in p.contracts[h] && role !in p.contracts[h][mode].required;
  }

  lemma {:induction false} AvoidingModes(p: Policy, n: nat, role: Role) returns (modes: seq<Option<Mode>>)
    requires Loads(p) && n <= p.retrospective.value.0 && Avoidable(p, n, role)
    ensures |modes| == n <= |p.contracts|
    ensures forall h :: 0 <= h < n ==> modes[h] in p.contracts[h] && !IsRetrospective(p, h, modes[h])
    ensures forall h :: 0 <= h < n ==> role !in p.contracts[h][modes[h]].required
  {
    if n == 0 {
      modes := [];
    } else {
      LoadsShape(p);
      hide Loads, PolicyOk;
      modes := AvoidingModes(p, n - 1, role);
      var mode := AvoidingMode(p, n - 1, role);
      modes := modes + [mode];
    }
  }

  /** The retrospective approval at a position where the role is missing, which it waives. */
  lemma {:induction false} WaivingApproval(p: Policy, s: State, log: seq<Event>, roles: set<Role>, a: Position,
      b: Position, role: Role, t: Time) returns (step: Step, log': seq<Event>)
    requires Loads(p) && PolicyOk(p) && |s.records| == |p.owner| == |p.contracts| && s.stage < p.stages
    requires Ready(p, s, log, roles, t) && Stands(s, a) && ClearAt(p, a) && Approves(p, a, b) && t < MAX_TIME
    requires p.retrospective.value.0 == a.approved && role !in roles
    requires var c := p.contracts[a.approved][Some(p.retrospective.value.1)];
             role in c.optional && forall r :: r in c.required ==> r in roles
    ensures var r := Exec(p, s, step.command, step.clock);
            r.Ok? && Ready(p, r.value, log', roles, t + 2) && Stands(r.value, b) && WaivedSomewhere(r.value, role)
  {
    var g, mode := a.approved, Some(p.retrospective.value.1);
    hide Sound, BindingsOk, AllBefore, PolicyOk, ExecApprove, StageReached, ClearAt, FirstApproved, RegistryOk;
    hide Approves, Ready;
    ReadyShape(p, s, log, roles, t);
    ReadyRest(p, s, log, roles, t);
    ClearIsAllowed(p, s, a);
    ApprovesBelow(p, a, b);
    WaiverGathers(p, s.registry, g, mode, role);
    ApproveRuns(p, s, a, b, mode, t);
    ApproveMoves(p, s, g, mode, "reason", PLAIN, {}, Steady(t), g);
    var s' := ExecApprove(p, s, g, mode, "reason", PLAIN, {}, Steady(t)).value;
    ApprovesOnce(p, a, b, At(s'.stage, g + 1));
    ApprovalWaives(p, s, g, mode, Steady(t), role);
    step := Step(CmdApprove(g, mode, "reason", PLAIN, {}), Steady(t));
    log' := ReadyAfter(p, s, log, step.command, step.clock, roles, t + 2);
  }

  /** The approval gathers what is registered, and what it finds missing it would waive. */
  lemma {:induction false} WaiverGathers(p: Policy, reg: map<Role, Artifact>, g: nat, mode: Option<Mode>, role: Role)
    requires PolicyOk(p) && RegistryOk(reg) && g < |p.contracts| && mode in p.contracts[g]
    requires forall r :: r in p.contracts[g][mode].required ==> r in reg
    requires role in p.contracts[g][mode].optional && role !in reg
    ensures GateRefs(reg, p.contracts[g][mode], {}).Some?
    ensures role in Absent(p.contracts[g][mode].optional, RolesOf(GateRefs(reg, p.contracts[g][mode], {}).value))
  {
    var c := p.contracts[g][mode];
    assert ContractOk(c);
    CurrentMember(reg, c);
    GateRefsBind(reg, c, {});
    AbsentMember(c.optional, RolesOf(GateRefs(reg, c, {}).value), role);
  }

  lemma {:induction false} ApprovalWaives(p: Policy, s: State, g: nat, mode: Option<Mode>, clock: Clock, role: Role)
    requires PolicyOk(p) && |s.records| == |p.owner| && s.stage < p.stages && IsRetrospective(p, g, mode)
    requires ExecApprove(p, s, g, mode, "reason", PLAIN, {}, clock).Ok?
    requires g < |p.contracts| && mode in p.contracts[g] && GateRefs(s.registry, p.contracts[g][mode], {}).Some?
    requires role in Absent(p.contracts[g][mode].optional,
          RolesOf(GateRefs(s.registry, p.contracts[g][mode], {}).value))
    ensures WaivedSomewhere(ExecApprove(p, s, g, mode, "reason", PLAIN, {}, clock).value, role)
  {
    hide BindingsOk, GateRefs, NextTimestamp, DefenseOk, Absent;
    var refs := GateRefs(s.registry, p.contracts[g][mode], {}).value;
    var d := ApproveDecision(p, s, g, mode, "reason", PLAIN, refs, NextTimestamp(s, clock(g)).value);
    var s' := ExecApprove(p, s, g, mode, "reason", PLAIN, {}, clock).value;
    assert s'.records[g].history == s.records[g].history + [d];
    assert WaivedBy(s'.records[g], role);
  }

  /** A role that is not registered froze nothing. */
  lemma {:induction false} MissingIsFree(p: Policy, s: State, log: seq<Event>, role: Role)
    requires PolicyOk(p) && Sound(p, s, log) && role !in s.registry
    ensures !FrozenRole(p, s, role)
  {
    hide Sound, PolicyOk;
    if FrozenRole(p, s, role) {
      var g :| 0 <= g < |s.records| && g < |p.contracts| && s.records[g].status == Approved
        && Freezes(p.contracts[g], LatestApproval(s.records[g].history), role);
      BoundIsRegistered(p, s, log, g, role);
    }
  }

  lemma {:induction false} RegistrationBreaks(p: Policy, s: State, log: seq<Event>, roles: set<Role>, b: Position,
      role: Role, t: Time) returns (step: Step)
    requires PolicyOk(p) && |s.records| == |p.owner| == |p.contracts| && s.stage < p.stages
    requires Ready(p, s, log, roles, t) && Stands(s, b) && ClearAt(p, b) && t < MAX_TIME - 1
    requires WaivedSomewhere(s, role) && role !in roles
    ensures var r := Exec(p, s, step.command, step.clock); r.Ok? && !BindingsOk(p, r.value)
  {
    hide Ready, Sound, BindingsOk, PolicyOk, StageReached, ClearAt, FirstApproved, ExecRegister, FrozenRole;
    hide WaivedSomewhere;
    ReadyShape(p, s, log, roles, t);
    ReadyRest(p, s, log, roles, t);
    ClearIsAllowed(p, s, b);
    MissingIsFree(p, s, log, role);
    WaivedRegistrationBreaks(p, s, log, role, "artifact", "source", "snapshot", "hash", 0, Steady(t));
    step := Step(CmdRegister(role, "artifact", "source", "snapshot", "hash", 0), Steady(t));
  }

  /** The roles of the chosen modes and of the retrospective mode. */
  function NeededRoles(p: Policy, modes: seq<Option<Mode>>): set<Role>
    requires Loads(p) && |modes| <= |p.contracts| && forall h :: 0 <= h < |modes| ==> modes[h] in p.contracts[h]
  {
    var (g, m) := p.retrospective.value;
    RolesFor(p, modes) + set r | r in p.contracts[g][Some(m)].required
  }

  lemma {:induction false} NeededRolesFit(p: Policy, modes: seq<Option<Mode>>, role: Role)
    requires Loads(p) && |modes| <= |p.contracts|
    requires forall h :: 0 <= h < |modes| ==> modes[h] in p.contracts[h] && !IsRetrospective(p, h, modes[h])
    requires forall h :: 0 <= h < |modes| ==> role !in p.contracts[h][modes[h]].required
    requires role in p.contracts[p.retrospective.value.0][Some(p.retrospective.value.1)].optional
    ensures var roles := NeededRoles(p, modes);
            && Chosen(p, modes, roles) && role !in roles
            && forall r :: r in p.contracts[p.retrospective.value.0][Some(p.retrospective.value.1)].required ==>
                  r in roles
  {
    var c := p.contracts[p.retrospective.value.0][Some(p.retrospective.value.1)];
    assert ContractOk(c);
    DistinctParts(c.required, c.optional);
  }

  /** From a new project to the waiving approval, past a crossing. */
  lemma {:induction false} WaivingRun(p: Policy, role: Role) returns (now: Time, steps: seq<Step>, log: seq<Event>,
      roles: set<Role>, b: Position)
    requires Loads(p) && Waivable(p, role)
    ensures var s := Run(p, NewState(p, now), steps);
            && Ready(p, s, log, roles, MAX_TIME - 2) && Stands(s, b) && ClearAt(p, b)
            && WaivedSomewhere(s, role) && role !in roles
  {
    var g := p.retrospective.value.0;
    LoadsShape(p);
    hide PolicyOk, Ready, Stands, ClearAt, Exec, WaivedSomewhere, Chosen, NeededRoles, Reached, Positions, Approves;
    hide Passable;
    var modes := AvoidingModes(p, g, role);
    roles := NeededRoles(p, modes);
    NeededRolesFit(p, modes, role);
    var a;
    a, b := Crossing(p, g);
    ReachedRounds(p, g);
    StartIsClear(p, g, a);
    now, steps, log := Realise(p, modes, roles, |Positions(p, g)|, a, MAX_TIME - 4);
    var s := Run(p, NewState(p, now), steps);
    ReadyShape(p, s, log, roles, MAX_TIME - 4);
    var step;
    step, log := WaivingApproval(p, s, log, roles, a, b, role, MAX_TIME - 4);
    RunOne(p, s, step);
    RunConcat(p, NewState(p, now), steps, [step]);
    steps := steps + [step];
  }

  /** Nothing is reached from a first stage that is not clear. */
  lemma {:induction false} StartIsClear(p: Policy, limit: nat, a: Position)
    requires a in Reached(p, limit) && ClearAt(p, a)
    ensures ClearAt(p, At(0, 0))
  {
    if !ClearAt(p, At(0, 0)) { NowhereToGo(p, limit, |Positions(p, limit)|); }
  }

  lemma {:induction false} WaivableBreaks(p: Policy, role: Role) returns (now: Time, steps: seq<Step>)
    requires Loads(p) && PolicyOk(p) && Waivable(p, role)
    ensures !BindingsOk(p, Run(p, NewState(p, now), steps))
  {
    hide Loads, PolicyOk, Waivable, Ready, Stands, ClearAt, WaivedSomewhere, BindingsOk, Exec;
    var log, roles, b;
    now, steps, log, roles, b := WaivingRun(p, role);
    var s := Run(p, NewState(p, now), steps);
    ReadyShape(p, s, log, roles, MAX_TIME - 2);
    var step := RegistrationBreaks(p, s, log, roles, b, role, MAX_TIME - 2);
    RunOne(p, s, step);
    RunConcat(p, NewState(p, now), steps, [step]);
    steps := steps + [step];
  }

  /**
   Main theorem: a policy keeps every approved Gate bound to current revisions in all runs if
   and only if it has no waivable role, which its contracts and the stage search decide.
   */
  lemma {:induction false} BindingsHoldExactly(p: Policy)
    requires Loads(p)
    ensures BindingsHold(p) <==> forall role :: !Waivable(p, role)
  {
    LoadsShape(p);
    hide Loads, PolicyOk, Waivable, BindingsOk;
    if BindingsHold(p) {
      forall role ensures !Waivable(p, role) {
        if Waivable(p, role) { var now, steps := WaivableBreaks(p, role); }
      }
    }
    if forall role :: !Waivable(p, role) {
      forall now, steps ensures BindingsOk(p, Run(p, NewState(p, now), steps)) {
        if !BindingsOk(p, Run(p, NewState(p, now), steps)) { var role := BreakIsWaivable(p, now, steps); }
      }
    }
  }
}
