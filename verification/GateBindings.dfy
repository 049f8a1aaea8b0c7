/** When the bindings of approved Gates stay current, and the one step that breaks them. */
module GateBindings {
  import opened Prelude
  import opened GateModel
  import opened GateTimeline
  import opened GateReplay
  import opened GateWriters
  import opened GateHistories
  import opened GateCascades
  import opened GateSteps
  import opened GateRuns

  function CurrentRef(reg: map<Role, Artifact>, role: Role): Ref
    requires role in reg && |reg[role].revisions| > 0
  {
    Ref(role, reg[role].id, Current(reg[role]))
  }

  /** Role by role: bound is current, and a mutable role keeps its artifact. */
  predicate RoleAgrees(reg: map<Role, Artifact>, c: RoleContract, refs: seq<Ref>, role: Role)
    requires RegistryOk(reg)
  {
    if role in c.mutable then role in reg && exists r :: r in refs && r.role == role && r.artifact == reg[role].id
    else
      && (role in reg ==> CurrentRef(reg, role) in refs)
      && (forall r :: r in refs && r.role == role ==> role in reg && r == CurrentRef(reg, role))
  }

  predicate Agrees(reg: map<Role, Artifact>, c: RoleContract, refs: seq<Ref>)
    requires RegistryOk(reg)
  {
    && (forall role :: role in c.required ==> role in reg)
    && forall role :: role in c.required + c.optional ==> RoleAgrees(reg, c, refs, role)
  }

  /** Well-formed references of one approval. */
  predicate Binds(c: RoleContract, refs: seq<Ref>) {
    && ContractOk(c) && Distinct(RolesOf(refs))
    && (forall r :: r in refs ==> r.role in c.required + c.optional)
    && (forall role :: role in c.required ==> role in RolesOf(refs))
  }

  // ----- the validator's comparison, role by role -----

  lemma {:induction false} StrictMember(refs: seq<Ref>, mutable: set<Role>, r: Ref)
    ensures r in Strict(refs, mutable) <==> r in refs && r.role !in mutable
  {
    if refs != [] {
      assert refs == refs[..|refs| - 1] + [refs[|refs| - 1]];
      StrictMember(refs[..|refs| - 1], mutable, r);
    }
  }

  lemma {:induction false} CountDistinct(refs: seq<Ref>, r: Ref)
    requires Distinct(RolesOf(refs))
    ensures multiset(refs)[r] == if r in refs then 1 else 0
  {
    if refs != [] {
      var init, last := refs[..|refs| - 1], refs[|refs| - 1];
      assert refs == init + [last];
      assert forall i :: 0 <= i < |init| ==> RolesOf(init)[i] == RolesOf(refs)[i];
      CountDistinct(init, r);
      assert multiset(refs) == multiset(init) + multiset{last};
      assert last !in init by {
        assert forall i :: 0 <= i < |init| ==>
          init[i].role == RolesOf(refs)[i] && RolesOf(refs)[i] != RolesOf(refs)[|init|];
      }
    }
  }

  lemma {:induction false} StrictDistinct(refs: seq<Ref>, mutable: set<Role>)
    requires Distinct(RolesOf(refs))
    ensures Distinct(RolesOf(Strict(refs, mutable)))
  {
    if refs != [] {
      var init, last := refs[..|refs| - 1], refs[|refs| - 1];
      assert refs == init + [last];
      assert RolesOf(refs) == RolesOf(init) + [last.role];
      DistinctParts(RolesOf(init), [last.role]);
      StrictDistinct(init, mutable);
      var s := Strict(init, mutable);
      forall x | x in RolesOf(s) ensures x in RolesOf(init) {
        var i :| 0 <= i < |s| && s[i].role == x;
        StrictMember(init, mutable, s[i]);
        var j :| 0 <= j < |init| && init[j] == s[i];
        assert RolesOf(init)[j] == x;
      }
      DistinctParts(RolesOf(s), [last.role]);
      assert RolesOf(s + [last]) == RolesOf(s) + [last.role];
    }
  }

  /** Comparing the strict references as sorted lists compares them as sets. */
  lemma {:induction false} StrictEqual(a: seq<Ref>, b: seq<Ref>, mutable: set<Role>)
    requires Distinct(RolesOf(a)) && Distinct(RolesOf(b))
    ensures multiset(Strict(a, mutable)) == multiset(Strict(b, mutable))
       <==> forall r: Ref :: r.role !in mutable ==> (r in a <==> r in b)
  {
    var x, y := Strict(a, mutable), Strict(b, mutable);
    StrictDistinct(a, mutable);
    StrictDistinct(b, mutable);
    forall r ensures (r in x <==> r in a && r.role !in mutable) && (r in y <==> r in b && r.role !in mutable) {
      StrictMember(a, mutable, r);
      StrictMember(b, mutable, r);
    }
    forall r ensures multiset(x)[r] == (if r in x then 1 else 0) && multiset(y)[r] == (if r in y then 1 else 0) {
      CountDistinct(x, r);
      CountDistinct(y, r);
    }
    if multiset(x) == multiset(y) {
      forall r: Ref | r.role !in mutable ensures r in a <==> r in b {
        assert multiset(x)[r] == multiset(y)[r];
      }
    }
  }

  lemma {:induction false} IdentityByMember(a: seq<Ref>, b: seq<Ref>, role: Role)
    requires Distinct(RolesOf(a)) && Distinct(RolesOf(b))
    ensures SameIdentity(a, b, role)
       <==> exists x, y :: x in a && y in b && x.role == role == y.role && x.artifact == y.artifact
  {
    if x, y :| x in a && y in b && x.role == role == y.role && x.artifact == y.artifact {
      var i :| 0 <= i < |a| && a[i] == x;
      var j :| 0 <= j < |b| && b[j] == y;
      OnlyOne(a, i);
      OnlyOne(b, j);
    }
    if SameIdentity(a, b, role) {
      var i, j :| 0 <= i < |a| && 0 <= j < |b| && OnlyAt(a, i, role) && OnlyAt(b, j, role)
          && a[i].artifact == b[j].artifact;
      assert a[i] in a && b[j] in b;
    }
  }

  lemma {:induction false} OnlyOne(refs: seq<Ref>, i: nat)
    requires Distinct(RolesOf(refs)) && i < |refs|
    ensures OnlyAt(refs, i, refs[i].role)
  {
    forall k | 0 <= k < |refs| ensures refs[k].role == refs[i].role <==> k == i {
      if k < i { assert RolesOf(refs)[k] != RolesOf(refs)[i]; }
      if i < k { assert RolesOf(refs)[i] != RolesOf(refs)[k]; }
    }
  }

  lemma {:induction false} GatherSucceeds(reg: map<Role, Artifact>, roles: seq<Role>, mandatory: bool)
    requires RegistryOk(reg)
    ensures Gather(reg, roles, mandatory, {}).Some? <==> (mandatory ==> forall r :: r in roles ==> r in reg)
  {
    if roles != [] {
      assert roles == roles[..|roles| - 1] + [roles[|roles| - 1]];
      GatherSucceeds(reg, roles[..|roles| - 1], mandatory);
    }
  }

  /** The current references of a contract: one for each applicable role that is registered. */
  lemma {:induction false} CurrentMember(reg: map<Role, Artifact>, c: RoleContract)
    requires RegistryOk(reg) && ContractOk(c)
    ensures GateRefs(reg, c, {}).Some? <==> forall role :: role in c.required ==> role in reg
    ensures GateRefs(reg, c, {}).Some? ==>
              var cur := GateRefs(reg, c, {}).value;
              Distinct(RolesOf(cur))
              && forall r: Ref ::
                   r in cur <==> r.role in c.required + c.optional && r.role in reg && r == CurrentRef(reg, r.role)
  {
    GatherSucceeds(reg, c.required, true);
    GatherSucceeds(reg, c.optional, false);
    if GateRefs(reg, c, {}).Some? {
      GateRefsBind(reg, c, {});
      var cur := GateRefs(reg, c, {}).value;
      forall r: Ref | r.role in c.required + c.optional && r.role in reg && r == CurrentRef(reg, r.role)
        ensures r in cur
      {
        assert r.role in RolesOf(cur);
        var i :| 0 <= i < |cur| && RolesOf(cur)[i] == r.role;
        assert cur[i] in cur && IsCurrent(reg, cur[i]);
      }
    }
  }

  ghost predicate Compares(reg: map<Role, Artifact>, c: RoleContract, refs: seq<Ref>) {
    var current := GateRefs(reg, c, {});
    && current.Some?
    && multiset(Strict(current.value, c.mutable)) == multiset(Strict(refs, c.mutable))
    && forall m :: m in c.mutable ==> SameIdentity(refs, current.value, m)
  }

  lemma {:induction false} ComparesRoleByRole(reg: map<Role, Artifact>, c: RoleContract, refs: seq<Ref>)
    requires RegistryOk(reg) && Binds(c, refs)
    ensures Compares(reg, c, refs) <==> Agrees(reg, c, refs)
  {
    CurrentMember(reg, c);
    if forall role :: role in c.required ==> role in reg {
      var cur := GateRefs(reg, c, {}).value;
      StrictEqual(cur, refs, c.mutable);
      forall m | m in c.mutable
        ensures SameIdentity(refs, cur, m) <==> RoleAgrees(reg, c, refs, m)
      {
        IdentityByMember(refs, cur, m);
        assert m in c.required;
        assert CurrentRef(reg, m) in cur;
      }
      StrictAgrees(reg, c, refs, cur);
    }
  }

  lemma {:induction false} StrictAgrees(reg: map<Role, Artifact>, c: RoleContract, refs: seq<Ref>, cur: seq<Ref>)
    requires RegistryOk(reg) && Binds(c, refs)
    requires forall r: Ref ::
               r in cur <==> r.role in c.required + c.optional && r.role in reg && r == CurrentRef(reg, r.role)
    ensures (forall r: Ref :: r.role !in c.mutable ==> (r in cur <==> r in refs))
       <==> (forall role :: role in c.required + c.optional && role !in c.mutable ==> RoleAgrees(reg, c, refs, role))
  {
    if forall role :: role in c.required + c.optional && role !in c.mutable ==> RoleAgrees(reg, c, refs, role) {
      forall r: Ref | r.role !in c.mutable ensures r in cur <==> r in refs {
        if r in cur || r in refs { assert RoleAgrees(reg, c, refs, r.role); }
      }
    }
    if forall r: Ref :: r.role !in c.mutable ==> (r in cur <==> r in refs) {
      forall role | role in c.required + c.optional && role !in c.mutable ensures RoleAgrees(reg, c, refs, role) {
        if role in reg { assert CurrentRef(reg, role) in cur; }
        forall r | r in refs && r.role == role ensures role in reg && r == CurrentRef(reg, role) { assert r in cur; }
      }
    }
  }

  // ----- what registration does to one binding -----

  lemma {:induction false} LatestApprovalOk(p: Policy, reg: map<Role, Artifact>, g: nat, rec: GateRecord)
    requires PolicyOk(p) && g < |p.contracts| && RecordOk(p, reg, g, rec) && rec.status == Approved
    ensures var a := LatestApproval(rec.history);
            a.Some? && a.value.mode in p.contracts[g] && ApprovalOk(p, g, a.value)
            && Binds(p.contracts[g][a.value.mode], a.value.refs) && a.value.refs != []
  {
    var last := |rec.history| - 1;
    assert DecisionOk(p, reg, g, rec.history, last);
    var d := rec.history[last];
    var c := p.contracts[g][d.mode];
    assert c.required[0] in c.required;
  }

  /** The validator's binding rule is the role-by-role comparison. */
  lemma {:induction false} BindingIsAgreement(p: Policy, reg: map<Role, Artifact>, g: nat, rec: GateRecord)
    requires PolicyOk(p) && g < |p.contracts| && RegistryOk(reg) && RecordOk(p, reg, g, rec)
    ensures rec.status == Approved ==>
              var a := LatestApproval(rec.history);
              a.Some? && a.value.mode in p.contracts[g]
              && (BindingOk(p, reg, g, rec) <==> Agrees(reg, p.contracts[g][a.value.mode], a.value.refs))
    ensures rec.status != Approved ==> BindingOk(p, reg, g, rec)
  {
    if rec.status == Approved {
      LatestApprovalOk(p, reg, g, rec);
      var a := LatestApproval(rec.history).value;
      ComparesRoleByRole(reg, p.contracts[g][a.mode], a.refs);
    }
  }

  lemma {:induction false} AbsentMember(roles: seq<Role>, present: seq<Role>, r: Role)
    ensures r in Absent(roles, present) <==> r in roles && r !in present
  {
    if roles != [] { AbsentMember(roles[1..], present, r); }
  }

  /** An approved GateRef waived this role when it was approved. */
  predicate WaivedBy(rec: GateRecord, role: Role) {
    rec.status == Approved && LatestApproval(rec.history).Some? && role in LatestApproval(rec.history).value.waived
  }

  /** A waived role is exactly an applicable role that the approval does not bind. */
  lemma {:induction false} WaivedIsUnbound(p: Policy, g: nat, d: Decision, role: Role)
    requires PolicyOk(p) && g < |p.contracts| && ApprovalOk(p, g, d) && Binds(p.contracts[g][d.mode], d.refs)
    ensures role in d.waived
       <==> role in p.contracts[g][d.mode].required + p.contracts[g][d.mode].optional && role !in RolesOf(d.refs)
  {
    var c := p.contracts[g][d.mode];
    AbsentMember(c.optional, RolesOf(d.refs), role);
    if c.optional != [] { assert d.mode.Some? && p.retrospective == Some((g, d.mode.value)); }
  }

  /**
   One approved binding across a registration that its freeze guard let through: it stays
   current exactly when the role is not one it waived.
   */
  lemma {:induction false} AgreementAfter(reg: map<Role, Artifact>, c: RoleContract, refs: seq<Ref>, role: Role,
                                          artifact: string, r: Revision)
    requires RegistryOk(reg) && Binds(c, refs) && Agrees(reg, c, refs)
    requires role in reg ==> reg[role].id == artifact
    requires RegistryOk(AppendRevision(reg, role, artifact, r))
    requires role in c.mutable || role !in RolesOf(refs)
    ensures Agrees(AppendRevision(reg, role, artifact, r), c, refs)
       <==> !(role in c.required + c.optional && role !in RolesOf(refs))
  {
    var reg' := AppendRevision(reg, role, artifact, r);
    assert role in c.mutable ==> role in c.required && role in RolesOf(refs);
    forall x | x in c.required + c.optional && x != role ensures RoleAgrees(reg', c, refs, x) {
      assert RoleAgrees(reg, c, refs, x);
    }
    if role in c.mutable {
      assert RoleAgrees(reg, c, refs, role);
      assert RoleAgrees(reg', c, refs, role);
    } else if role in c.required + c.optional {
      assert CurrentRef(reg', role) !in refs by {
        forall i | 0 <= i < |refs| ensures refs[i].role != role { assert RolesOf(refs)[i] == refs[i].role; }
      }
      assert !RoleAgrees(reg', c, refs, role);
    }
  }

  lemma {:induction false} BindingAfter(p: Policy, reg: map<Role, Artifact>, g: nat, rec: GateRecord, role: Role,
                                        artifact: string, r: Revision)
    requires PolicyOk(p) && g < |p.contracts| && RegistryOk(reg)
    requires role in reg ==> reg[role].id == artifact
    requires var reg' := AppendRevision(reg, role, artifact, r);
             RegistryOk(reg') && RecordOk(p, reg, g, rec) && RecordOk(p, reg', g, rec)
    requires BindingOk(p, reg, g, rec)
    requires rec.status == Approved ==> !Freezes(p.contracts[g], LatestApproval(rec.history), role)
    ensures BindingOk(p, AppendRevision(reg, role, artifact, r), g, rec) <==> !WaivedBy(rec, role)
  {
    var reg' := AppendRevision(reg, role, artifact, r);
    BindingIsAgreement(p, reg, g, rec);
    BindingIsAgreement(p, reg', g, rec);
    if rec.status == Approved {
      LatestApprovalOk(p, reg, g, rec);
      var a := LatestApproval(rec.history).value;
      hide RecordOk, BindingOk, Agrees, ApprovalOk, Binds;
      WaivedIsUnbound(p, g, a, role);
      AgreementAfter(reg, p.contracts[g][a.mode], a.refs, role, artifact, r);
    }
  }

  // ----- the commands -----

  predicate WaivedSomewhere(s: State, role: Role) {
    exists g :: 0 <= g < |s.records| && WaivedBy(s.records[g], role)
  }

  /** Registering this role again is a no-op: source, hash and size are unchanged. */
  predicate Unchanged(s: State, role: Role, source: string, hash: string, size: nat) {
    role in s.registry && |s.registry[role].revisions| > 0 && SameContent(Current(s.registry[role]), source, hash, size)
  }

  /**
   Exactly when a successful registration keeps every approved Gate bound to current
   revisions: when it changes nothing, or the role is not one an approved Gate waived.
   */
  lemma {:induction false} RegisterKeepsBindings(p: Policy, s: State, log: seq<Event>, role: Role, artifact: string,
      source: string, snapshot: string, hash: string, size: nat, clock: Clock)
    requires Sound(p, s, log) && ExecRegister(p, s, role, artifact, source, snapshot, hash, size, clock).Ok?
    ensures BindingsOk(p, ExecRegister(p, s, role, artifact, source, snapshot, hash, size, clock).value)
       <==> Unchanged(s, role, source, hash, size) || !WaivedSomewhere(s, role)
  {
    hide BindingOk, LifecycleOk, StageHistoryOk, PrerequisitesThen, Logged, NextTimestamp, Freezes;
    if !Unchanged(s, role, source, hash, size) {
      NextTimestampLeast(s, clock(0));
      var t := NextTimestamp(s, clock(0)).value;
      var n := if role in s.registry then |s.registry[role].revisions| else 0;
      var r := Revision(n + 1, source, snapshot, hash, size, t);
      RegisterMid(p, s, log, role, artifact, r);
      RegisterBindings(p, s, role, artifact, r);
    }
  }

  lemma {:induction false} RegisterBindings(p: Policy, s: State, role: Role, artifact: string, r: Revision)
    requires PolicyOk(p) && |s.records| == |p.owner| && BindingsOk(p, s) && RegistryOk(s.registry)
    requires role in s.registry ==> s.registry[role].id == artifact
    requires !FrozenRole(p, s, role)
    requires var reg' := AppendRevision(s.registry, role, artifact, r);
             RegistryOk(reg') && RecordsOk(p, s.registry, s.records) && RecordsOk(p, reg', s.records)
    ensures BindingsOk(p, s.(registry := AppendRevision(s.registry, role, artifact, r))) <==> !WaivedSomewhere(s, role)
  {
    hide BindingOk, RecordOk, RegistryOk, Freezes, WaivedBy, PolicyOk, AppendRevision;
    var reg' := AppendRevision(s.registry, role, artifact, r);
    forall g | 0 <= g < |s.records|
      ensures BindingOk(p, reg', g, s.records[g]) <==> !WaivedBy(s.records[g], role)
    {
      BindingAfter(p, s.registry, g, s.records[g], role, artifact, r);
    }
  }

  lemma {:induction false} GatherClean(reg: map<Role, Artifact>, roles: seq<Role>, mandatory: bool, dirty: set<Role>)
    requires Gather(reg, roles, mandatory, dirty).Some?
    ensures Gather(reg, roles, mandatory, {}) == Gather(reg, roles, mandatory, dirty)
  {
    if roles != [] { GatherClean(reg, roles[..|roles| - 1], mandatory, dirty); }
  }

  /** References gathered for an approval compare equal to themselves. */
  lemma {:induction false} FreshBinding(reg: map<Role, Artifact>, c: RoleContract, dirty: set<Role>)
    requires ContractOk(c) && GateRefs(reg, c, dirty).Some?
    ensures Compares(reg, c, GateRefs(reg, c, dirty).value)
  {
    GatherClean(reg, c.required, true, dirty);
    GatherClean(reg, c.optional, false, dirty);
    GateRefsBind(reg, c, dirty);
    var refs := GateRefs(reg, c, dirty).value;
    forall m | m in c.mutable ensures SameIdentity(refs, refs, m) {
      assert m in RolesOf(refs);
      var i :| 0 <= i < |refs| && RolesOf(refs)[i] == m;
      IdentityByMember(refs, refs, m);
      assert refs[i] in refs;
    }
  }

  lemma {:induction false} ApproveKeepsBindings(p: Policy, s: State, g: nat, mode: Option<Mode>, reason: string,
      defense: Defense, dirty: set<Role>, clock: Clock)
    requires PolicyOk(p) && |s.records| == |p.owner| && s.stage < p.stages
    requires ExecApprove(p, s, g, mode, reason, defense, dirty, clock).Ok?
    ensures BindingsOk(p, ExecApprove(p, s, g, mode, reason, defense, dirty, clock).value)
  {
    hide Gather, GateRefs, NextTimestamp, DefenseOk, Absent;
    var c := p.contracts[g][mode];
    var refs := GateRefs(s.registry, c, dirty).value;
    var t := NextTimestamp(s, clock(g)).value;
    var d := ApproveDecision(p, s, g, mode, reason, defense, refs, t);
    FreshBinding(s.registry, c, dirty);
    var rec := GateRecord(d.next, Some(d.id), s.records[g].history + [d]);
    assert LatestApproval(rec.history) == Some(d);
    var s' := ExecApprove(p, s, g, mode, reason, defense, dirty, clock).value;
    assert s'.records == s.records[g := rec] && s'.registry == s.registry;
    hide Strict, SameIdentity;
    assert BindingOk(p, s.registry, g, rec);
  }

  /** A reopen leaves earlier records alone and unapproves the rest. */
  lemma {:induction false} ReopenKeepsBindings(p: Policy, s: State, g: nat, reason: string, defense: Defense,
      clock: Clock)
    requires PolicyOk(p) && g < |s.records| == |p.owner| && BindingsOk(p, s)
    requires RecordReopen(p, s, g, reason, defense, clock).Ok?
    ensures BindingsOk(p, RecordReopen(p, s, g, reason, defense, clock).value)
  {
    CascadeDownResult(Tick(s), g, |s.records|, s.nextId, reason, defense, clock);
    hide LatestApproval, GateRefs, Strict, SameIdentity, NextTimestamp, LatestRefs;
    var s' := RecordReopen(p, s, g, reason, defense, clock).value;
    forall x | 0 <= x < |s'.records| ensures BindingOk(p, s'.registry, x, s'.records[x]) {
      if x < g { assert s'.records[x] == s.records[x]; }
    }
  }

  /** The one kind of step that can break a binding. */
  predicate Disturbs(s: State, c: Command) {
    c.CmdRegister? && WaivedSomewhere(s, c.role) && !Unchanged(s, c.role, c.source, c.hash, c.size)
  }

  lemma {:induction false} LifecycleKeepsBindings(p: Policy, s: State, action: LifeAction, affected: Option<nat>,
      reason: string, defense: Defense, clock: Clock)
    requires PolicyOk(p) && |s.records| == |p.owner| && s.stage < p.stages && BindingsOk(p, s)
    requires ExecLifecycle(p, s, action, affected, reason, defense, clock).Ok?
    ensures BindingsOk(p, ExecLifecycle(p, s, action, affected, reason, defense, clock).value)
  {
    hide RecordReopen, NextTimestamp, BindingOk, DefenseOk, CurrentRefs;
    if affected.Some? { ReopenKeepsBindings(p, s, affected.value, reason, defense, clock); }
  }

  /** One command keeps the bindings current exactly when it is not the disturbing registration. */
  lemma {:induction false} ExecBindings(p: Policy, s: State, log: seq<Event>, c: Command, clock: Clock)
    requires Sound(p, s, log) && BindingsOk(p, s) && Exec(p, s, c, clock).Ok?
    ensures BindingsOk(p, Exec(p, s, c, clock).value) <==> !Disturbs(s, c)
  {
    hide BindingOk, RecordReopen, NextTimestamp, DefenseOk, WaivedSomewhere, Unchanged, Sound, ExecRegister;
    hide ExecLifecycle;
    hide ExecApprove;
    SoundShape(p, s, log);
    match c
    case CmdApprove(g, mode, reason, defense, dirty) =>
      ApproveKeepsBindings(p, s, g, mode, reason, defense, dirty, clock);
    case CmdReopen(g, reason, defense) => ReopenKeepsBindings(p, s, g, reason, defense, clock);
    case CmdLifecycle(action, affected, reason, defense) =>
      LifecycleKeepsBindings(p, s, action, affected, reason, defense, clock);
    case CmdCheckpoint(stage, dirty) =>
    case CmdRegister(role, artifact, source, snapshot, hash, size) =>
      RegisterKeepsBindings(p, s, log, role, artifact, source, snapshot, hash, size, clock);
  }

  /** No successful step of the run registers new content for a role an approved Gate waived. */
  ghost predicate Undisturbed(p: Policy, s: State, steps: seq<Step>) {
    forall i :: 0 <= i < |steps| ==> !Disturbs(Run(p, s, steps[..i]), steps[i].command)
  }

  lemma {:induction false} RunBindings(p: Policy, s: State, log: seq<Event>, steps: seq<Step>)
    requires Sound(p, s, log) && BindingsOk(p, s) && Undisturbed(p, s, steps)
    ensures BindingsOk(p, Run(p, s, steps))
  {
    hide BindingsOk, Disturbs, Sound, Exec;
    if steps != [] {
      var init, last := steps[..|steps| - 1], steps[|steps| - 1];
      forall i | 0 <= i < |init| ensures !Disturbs(Run(p, s, init[..i]), init[i].command) {
        assert steps[..i] == init[..i];
      }
      RunBindings(p, s, log, init);
      var log' := RunSound(p, s, log, init);
      var before := Run(p, s, init);
      SoundShape(p, before, log');
      assert !Disturbs(before, last.command);
      if Exec(p, before, last.command, last.clock).Ok? {
        ExecBindings(p, before, log', last.command, last.clock);
      }
    }
  }

  /**
   Main theorem: along every run that never registers a waived role, each approved Gate
   stays bound to the registry's current revisions.
   */
  lemma {:induction false} RunsKeepBindings(p: Policy, now: Time, steps: seq<Step>)
    requires PolicyOk(p) && Undisturbed(p, NewState(p, now), steps)
    ensures BindingsOk(p, Run(p, NewState(p, now), steps))
  {
    NewStateSound(p, now);
    RunBindings(p, NewState(p, now), [], steps);
  }

  /** A retrospective approval always leaves a waived role behind. */
  lemma {:induction false} RetrospectiveWaives(p: Policy, s: State, g: nat, mode: Option<Mode>, reason: string,
      defense: Defense, dirty: set<Role>, clock: Clock) returns (role: Role)
    requires PolicyOk(p) && |s.records| == |p.owner| && s.stage < p.stages && IsRetrospective(p, g, mode)
    requires ExecApprove(p, s, g, mode, reason, defense, dirty, clock).Ok?
    ensures WaivedSomewhere(ExecApprove(p, s, g, mode, reason, defense, dirty, clock).value, role)
  {
    hide BindingsOk, GateRefs, NextTimestamp, DefenseOk;
    var refs := GateRefs(s.registry, p.contracts[g][mode], dirty).value;
    var d := ApproveDecision(p, s, g, mode, reason, defense, refs, NextTimestamp(s, clock(g)).value);
    role := d.waived[0];
    var s' := ExecApprove(p, s, g, mode, reason, defense, dirty, clock).value;
    assert s'.records[g].history == s.records[g].history + [d];
    assert WaivedBy(s'.records[g], role);
  }

  /**
   The break: in any active state with current bindings, registering a role that an
   approved Gate waived and none froze succeeds, and the validator then reports drift.
   */
  lemma {:induction false} WaivedRegistrationBreaks(p: Policy, s: State, log: seq<Event>, role: Role, artifact: string,
      source: string, snapshot: string, hash: string, size: nat, clock: Clock)
    requires Sound(p, s, log) && BindingsOk(p, s) && s.life.status == Active && s.updated < MAX_TIME - 1
    requires WaivedSomewhere(s, role) && !FrozenRole(p, s, role) && role !in s.registry && clock(0) < MAX_TIME
    ensures var r := ExecRegister(p, s, role, artifact, source, snapshot, hash, size, clock);
            r.Ok? && !BindingsOk(p, r.value)
  {
    hide Mid, Settled, BindingsOk, FrozenRole, AllBefore, WaivedSomewhere, NextTimestamp;
    LaterStill(s, s.updated + 1, MAX_TIME - 1);
    var t := RoomFor(s, clock(0));
    var s1 := s.(registry := AppendRevision(s.registry, role, artifact, Revision(1, source, snapshot, hash, size, t)));
    RoomAfter(s, role, artifact, Revision(1, source, snapshot, hash, size, t));
    NextTimestampLeast(s1, clock(|s.records| + 1));
    RegisterKeepsBindings(p, s, log, role, artifact, source, snapshot, hash, size, clock);
  }

  lemma {:induction false} RoomFor(s: State, now: Time) returns (t: Time)
    requires AllBefore(s, MAX_TIME - 1) && now < MAX_TIME
    ensures NextTimestamp(s, now) == Some(t) && t < MAX_TIME
  {
    hide AllBefore, NextTimestamp;
    NextTimestampLeast(s, now);
    LaterStill(s, MAX_TIME - 1, MAX_TIME);
    t := NextTimestamp(s, now).value;
    if t >= MAX_TIME { LaterStill(s, MAX_TIME - 1, t - 1); }
  }

  lemma {:induction false} RoomAfter(s: State, role: Role, artifact: string, r: Revision)
    requires AllBefore(s, MAX_TIME - 1) && r.at < MAX_TIME
    ensures AllBefore(s.(registry := AppendRevision(s.registry, role, artifact, r)), MAX_TIME)
  {
  }

  lemma {:induction false} LaterStill(s: State, t: Time, u: Time)
    requires AllBefore(s, t) && t <= u
    ensures AllBefore(s, u)
  {
  }
}
