/** Each command keeps every structural rule of the replay check. */
module GateSteps {
  import opened Prelude
  import opened GateModel
  import opened GateTimeline
  import opened CascadeContract
  import opened GateReplay
  import opened GateWriters
  import opened GateHistories
  import opened GateCascades

  /** The invariant between commands. */
  ghost predicate Sound(p: Policy, s: State, log: seq<Event>) {
    Mid(p, s, log, s.nextId) && Settled(p, s, log) && AllBefore(s, s.updated + 1)
  }

  /** What a cascade in progress suspends and its root restores. */
  ghost predicate Settled(p: Policy, s: State, log: seq<Event>) {
    CascadesOk(|p.owner|, log) && PrerequisitesNow(s.records)
  }

  lemma {:induction false} SoundShape(p: Policy, s: State, log: seq<Event>)
    requires Sound(p, s, log)
    ensures PolicyOk(p) && |s.records| == |p.owner| && s.stage < p.stages
  {
  }

  // ----- the last stamp -----

  lemma {:induction false} WriteSound(p: Policy, s: State, log: seq<Event>, clock: Clock)
    requires Mid(p, s, log, s.nextId) && Settled(p, s, log)
    ensures Write(s, clock).Ok? ==> Sound(p, Write(s, clock).value, log)
  {
    hide Logged, RecordsOk, PrerequisitesThen, LifecycleOk, StageHistoryOk, RegistryOk, CascadesOk, PrerequisitesNow;
    NextTimestampLeast(s, clock(|s.records| + 1));
    if Write(s, clock).Ok? {
    }
  }

  // ----- reopen -----

  lemma {:induction false} RootAppendable(p: Policy, s: State, log: seq<Event>, s2: State, l: seq<Event>, g: nat,
      reason: string, defense: Defense, t: Time)
    requires Mid(p, s, log, s.nextId) && g < |s.records| && s.records[g].status == Approved
    requires Mid(p, s2, log + l, s2.nextId) && AllBefore(s2, t) && reason != "" && DefenseOk(defense)
    requires CascadeResult(Tick(s), s2, g, |s.records|, s.nextId, reason, defense, l)
    ensures Appendable(p, s2, log + l, g, RootDecision(s2, g, s.nextId, reason, defense, t), s2.nextId)
  {
    var d := RootDecision(s2, g, s.nextId, reason, defense, t);
    ReopenDecisionOk(p, s2, g, d);
    forall e | e in log + l ensures e.d.id != d.id {
      if e in log { assert EventBelow(e, |p.owner|, s.nextId); } else { assert e in l; }
    }
  }

  /** The cascade names its root and takes over everything from it. */
  lemma {:induction false} BlockProvenance(p: Policy, s: State, log: seq<Event>, s2: State, l: seq<Event>, g: nat,
      reason: string, defense: Defense, t: Time)
    requires Mid(p, s2, log + l, s2.nextId) && AllBefore(s2, t) && g < |s2.records|
    requires CascadeResult(Tick(s), s2, g, |s.records|, s.nextId, reason, defense, l)
    ensures var r := Event(g, RootDecision(s2, g, s.nextId, reason, defense, t));
            forall e :: e in l ==> Links(e, r.d.id) && Provenance(e, r)
  {
    hide RecordsOk, PrerequisitesThen, LifecycleOk, StageHistoryOk, RegistryOk, NoneBefore;
    forall e | e in l ensures e.d.at < t {
      assert e in log + l;
      LoggedBefore(s2, log + l, s2.nextId, e);
    }
    assert forall e :: e in l ==> CascadeEvent(e, g, s.nextId, reason, defense);
  }

  /** The recorded block passes the cascade rules. */
  lemma {:induction false} RootBlock(p: Policy, s: State, log: seq<Event>, s2: State, l: seq<Event>, g: nat,
      reason: string, defense: Defense, t: Time)
    requires Mid(p, s, log, s.nextId) && CascadesOk(|p.owner|, log) && g < |s.records|
    requires Mid(p, s2, log + l, s2.nextId) && AllBefore(s2, t)
    requires CascadeResult(Tick(s), s2, g, |s.records|, s.nextId, reason, defense, l)
    requires var d := RootDecision(s2, g, s.nextId, reason, defense, t);
             StrictlySorted((log + l) + [Event(g, d)])
    ensures var d := RootDecision(s2, g, s.nextId, reason, defense, t);
            CascadesOk(|p.owner|, (log + l) + [Event(g, d)])
  {
    var n := |p.owner|;
    var d := RootDecision(s2, g, s.nextId, reason, defense, t);
    var r := Event(g, d);
    BlockProvenance(p, s, log, s2, l, g, reason, defense, t);
    assert (log + l) + [r] == log + (l + [r]);
    OldUnlinked(p, s, log);
    StartIsLate(s, s2, g, s.nextId, reason, defense, l, r);
    hide AllBefore, CascadesOk, Provenance, Links, CascadeEvent, Logged, RecordsOk, PrerequisitesThen, LifecycleOk;
    hide StageHistoryOk, RegistryOk;
    DownstreamIsApproved(p, s, log, s.nextId, g, n, Start(r, l));
    ApprovedBelowSame(Tick(s), s, g, n);
    CascadesOkBlock(n, log, l, r);
  }

  /** Nothing logged carries or names an identifier not yet issued. */
  lemma {:induction false} OldUnlinked(p: Policy, s: State, log: seq<Event>)
    requires Mid(p, s, log, s.nextId)
    ensures forall x :: x in log ==> x.d.id != s.nextId && !Links(x, s.nextId)
  {
    forall x | x in log ensures x.d.id != s.nextId && !Links(x, s.nextId) {
      assert EventBelow(x, |s.records|, s.nextId);
    }
  }

  /** The block begins after everything recorded before it. */
  lemma {:induction false} StartIsLate(s: State, s2: State, g: nat, root: Id, reason: string, defense: Defense,
      l: seq<Event>, r: Event)
    requires CascadeResult(Tick(s), s2, g, |s.records|, root, reason, defense, l) && AllBefore(s2, r.d.at)
    ensures AllBefore(s, Start(r, l))
  {
    var start := Start(r, l);
    if l != [] { assert l[0] in l; assert AllBefore(Tick(s), start); } else { assert AllBefore(Tick(s), r.d.at); }
  }

  /** The stage return is justified by the root decision just recorded. */
  lemma {:induction false} ReturnJustified(p: Policy, s: State, log: seq<Event>, b: nat, g: nat, id: Id, t: Time)
    requires Mid(p, s, log, b) && g < |s.records| && s.records[g].history != [] && s.created <= t
    requires var h := s.records[g].history; var d := h[|h| - 1];
             d.id == id && d.action == Reopen && d.cascade.None? && d.at == t
    requires forall i :: 0 <= i < |s.transitions| ==> s.transitions[i].at < t
    ensures Mid(p, ReturnToOwner(p, s, g, id, t), log, b)
    ensures forall u :: AllBefore(s, u) ==> AllBefore(ReturnToOwner(p, s, g, id, t), u)
  {
    var h := s.records[g].history;
    if s.stage > p.owner[g] {
      var tr := Transition(s.stage, p.owner[g], ByReopen(id), t);
      assert Justifies(p, h, g, |h| - 1, tr);
      MidMove(p, s, log, b, p.owner[g], ByReopen(id), t);
      forall u | AllBefore(s, u) ensures t < u { assert s.records[g].history[|h| - 1].at < u; }
    }
  }

  lemma {:induction false} CascadePhase(p: Policy, s: State, log: seq<Event>, g: nat, reason: string,
      defense: Defense, clock: Clock)
    requires Mid(p, s, log, s.nextId) && g < |s.records| && reason != "" && DefenseOk(defense)
    requires CascadeDown(Tick(s), g, |s.records|, s.nextId, reason, defense, clock).Some?
    ensures var s2 := CascadeDown(Tick(s), g, |s.records|, s.nextId, reason, defense, clock).value;
            var l := CascadeEvents(Tick(s), g, |s.records|, s.nextId, reason, defense, clock);
            Mid(p, s2, log + l, s2.nextId) && CascadeResult(Tick(s), s2, g, |s.records|, s.nextId, reason, defense, l)
  {
    hide Logged, RecordsOk, PrerequisitesThen, LifecycleOk, StageHistoryOk, RegistryOk, CascadesOk;
    MidTick(p, s, log, s.nextId);
    MidWiden(p, Tick(s), log, s.nextId, s.nextId + 1);
    CascadeDownMid(p, Tick(s), g, |s.records|, s.nextId, reason, defense, clock, log);
    CascadeDownResult(Tick(s), g, |s.records|, s.nextId, reason, defense, clock);
  }

  lemma {:induction false} RootPhase(p: Policy, s: State, log: seq<Event>, s2: State, l: seq<Event>, g: nat,
      reason: string, defense: Defense, t: Time)
    requires Mid(p, s, log, s.nextId) && CascadesOk(|p.owner|, log) && g < |s.records|
    requires s.records[g].status == Approved && reason != "" && DefenseOk(defense)
    requires Mid(p, s2, log + l, s2.nextId) && AllBefore(s2, t)
    requires CascadeResult(Tick(s), s2, g, |s.records|, s.nextId, reason, defense, l)
    ensures var d := RootDecision(s2, g, s.nextId, reason, defense, t);
            && Mid(p, Push(s2, g, d), (log + l) + [Event(g, d)], s2.nextId)
            && CascadesOk(|p.owner|, (log + l) + [Event(g, d)])
  {
    hide RecordsOk, PrerequisitesThen, LifecycleOk, StageHistoryOk, RegistryOk, CascadesOk;
    var d := RootDecision(s2, g, s.nextId, reason, defense, t);
    RootAppendable(p, s, log, s2, l, g, reason, defense, t);
    MidAppend(p, s2, log + l, s2.nextId, g, d, s2.nextId);
    RootBlock(p, s, log, s2, l, g, reason, defense, t);
  }

  /** Exactly the GateRefs before `g` stay approved. */
  lemma {:induction false} RootStatuses(s: State, s2: State, l: seq<Event>, g: nat, reason: string, defense: Defense,
      d: Decision)
    requires g < |s.records| && PrerequisitesNow(s.records) && s.records[g].status == Approved && d.next == Reopened
    requires CascadeResult(Tick(s), s2, g, |s.records|, s.nextId, reason, defense, l)
    ensures var s3 := Push(s2, g, d);
            && (forall x :: 0 <= x < |s3.records| ==> (s3.records[x].status == Approved <==> x < g))
            && PrerequisitesNow(s3.records)
  {
  }

  /** What a reopen of GateRef `g` does to the approvals, the stage and the rest of the state. */
  ghost predicate ReopenEffect(p: Policy, s: State, s': State, g: nat, id: Id) {
    && g < |s'.records| == |s.records| == |p.owner|
    && (forall x :: 0 <= x < |s'.records| ==> (s'.records[x].status == Approved <==> x < g))
    && NamesReopen(s'.records, g, id)
    && s'.life == s.life && s'.registry == s.registry
    && s'.stage == Min(s.stage, p.owner[g])
  }

  /**
   A reopen of GateRef `g` records a complete, contiguous block and leaves exactly the
   GateRefs before `g` approved.
   */
  lemma {:induction false} RecordReopenSound(p: Policy, s: State, log: seq<Event>, g: nat, reason: string,
      defense: Defense, clock: Clock) returns (log': seq<Event>)
    requires Mid(p, s, log, s.nextId) && Settled(p, s, log) && g < |s.records|
    requires reason != "" && DefenseOk(defense)
    requires RecordReopen(p, s, g, reason, defense, clock).Ok?
    ensures var s' := RecordReopen(p, s, g, reason, defense, clock).value;
            Mid(p, s', log', s'.nextId) && Settled(p, s', log') && ReopenEffect(p, s, s', g, s.nextId)
  {
    CascadePhase(p, s, log, g, reason, defense, clock);
    var l := CascadeEvents(Tick(s), g, |s.records|, s.nextId, reason, defense, clock);
    var s2 := CascadeDown(Tick(s), g, |s.records|, s.nextId, reason, defense, clock).value;
    NextTimestampLeast(s2, clock(g));
    var t := NextTimestamp(s2, clock(g)).value;
    var d := RootDecision(s2, g, s.nextId, reason, defense, t);
    var s3 := Push(s2, g, d);
    RootPhase(p, s, log, s2, l, g, reason, defense, t);
    RootStatuses(s, s2, l, g, reason, defense, d);
    log' := (log + l) + [Event(g, d)];
    ReopenTail(p, s, s2, s3, log', g, d);
  }

  lemma {:induction false} ReopenTail(p: Policy, s: State, s2: State, s3: State, log: seq<Event>, g: nat, d: Decision)
    requires Mid(p, s3, log, s2.nextId) && g < |s2.records| == |s.records| && s3 == Push(s2, g, d)
    requires AllBefore(s2, d.at)
    requires d.action == Reopen && d.cascade.None? && s2.created <= d.at
    requires SameOutsideRecords(Tick(s), s2)
    requires forall x :: 0 <= x < |s3.records| ==> (s3.records[x].status == Approved <==> x < g)
    ensures var s' := ReturnToOwner(p, s3, g, d.id, d.at);
            Mid(p, s', log, s'.nextId) && s'.records == s3.records && ReopenEffect(p, s, s', g, d.id)
  {
    hide Logged, RecordsOk, PrerequisitesThen, LifecycleOk, StageHistoryOk, RegistryOk, CascadesOk;
    assert s3.records[g].history[|s2.records[g].history|] == d;
    ReturnJustified(p, s3, log, s2.nextId, g, d.id, d.at);
  }

  function Min(a: nat, b: nat): nat { if a < b then a else b }

  lemma {:induction false} MidWiden(p: Policy, s: State, log: seq<Event>, b: nat, bound: nat)
    requires Mid(p, s, log, b) && b <= bound
    ensures Mid(p, s, log, bound)
  {
    forall e | e in log ensures EventBelow(e, |p.owner|, bound) {
      assert EventBelow(e, |p.owner|, b);
    }
  }

  // ----- approve -----

  /** Each gathered reference is the current revision of one of the roles, in role order. */
  lemma {:induction false} GatherRefs(reg: map<Role, Artifact>, roles: seq<Role>, mandatory: bool, dirty: set<Role>)
    requires Distinct(roles) && Gather(reg, roles, mandatory, dirty).Some?
    ensures var refs := Gather(reg, roles, mandatory, dirty).value;
            && (forall r :: r in refs ==> r.role in roles && IsCurrent(reg, r))
            && Distinct(RolesOf(refs))
            && (mandatory ==> RolesOf(refs) == roles)
            && (forall x :: x in RolesOf(refs) <==> x in roles && x in reg)
  {
    if roles != [] {
      var init, last := roles[..|roles| - 1], roles[|roles| - 1];
      assert roles == init + [last];
      GatherRefs(reg, init, mandatory, dirty);
      var before := Gather(reg, init, mandatory, dirty).value;
      assert forall r :: r in before ==> r.role != last;
      if last in reg {
        var r := Ref(last, reg[last].id, Current(reg[last]));
        assert RolesOf(before + [r]) == RolesOf(before) + [last];
      }
    }
  }

  predicate IsCurrent(reg: map<Role, Artifact>, r: Ref) {
    r.role in reg && |reg[r.role].revisions| > 0 && r == Ref(r.role, reg[r.role].id, Current(reg[r.role]))
  }

  lemma {:induction false} CurrentRetained(reg: map<Role, Artifact>, r: Ref)
    requires IsCurrent(reg, r) && ArtifactOk(reg[r.role])
    ensures Retained(reg, r)
  {
    var a := reg[r.role];
    assert a.revisions[|a.revisions| - 1] == r.revision;
  }

  lemma {:induction false} DistinctParts<T>(a: seq<T>, b: seq<T>)
    ensures Distinct(a + b) <==> Distinct(a) && Distinct(b) && forall x :: x in a ==> x !in b
  {
    var c := a + b;
    if Distinct(c) {
      forall i, j | 0 <= i < j < |a| ensures a[i] != a[j] { assert c[i] == a[i] && c[j] == a[j]; }
      forall i, j | 0 <= i < j < |b| ensures b[i] != b[j] { assert c[|a| + i] == b[i] && c[|a| + j] == b[j]; }
      forall i, j | 0 <= i < |a| && 0 <= j < |b| ensures a[i] != b[j] { assert c[i] == a[i] && c[|a| + j] == b[j]; }
    }
    if Distinct(a) && Distinct(b) && forall x :: x in a ==> x !in b {
      forall i, j | 0 <= i < j < |c| ensures c[i] != c[j] {
        if i < |a| <= j { assert c[i] in a && c[j] == b[j - |a|] && c[j] in b; }
      }
    }
  }

  /** What an approval binds: current revisions, of allowed roles, covering the required ones. */
  lemma {:induction false} GateRefsBind(reg: map<Role, Artifact>, c: RoleContract, dirty: set<Role>)
    requires ContractOk(c) && GateRefs(reg, c, dirty).Some?
    ensures var refs := GateRefs(reg, c, dirty).value;
            && (forall r :: r in refs ==> IsCurrent(reg, r) && r.role in c.required + c.optional)
            && (forall x :: x in c.required ==> x in RolesOf(refs))
            && Distinct(RolesOf(refs))
            && (forall x :: x in RolesOf(refs) <==> x in c.required + c.optional && x in reg)
  {
    DistinctParts(c.required, c.optional);
    GatherRefs(reg, c.required, true, dirty);
    GatherRefs(reg, c.optional, false, dirty);
    var a, b := Gather(reg, c.required, true, dirty).value, Gather(reg, c.optional, false, dirty).value;
    assert RolesOf(a + b) == RolesOf(a) + RolesOf(b);
    DistinctParts(RolesOf(a), RolesOf(b));
  }

  lemma {:induction false} ApproveAppendable(p: Policy, s: State, log: seq<Event>, g: nat, mode: Option<Mode>,
      reason: string, defense: Defense, dirty: set<Role>, t: Time)
    requires Mid(p, s, log, s.nextId) && AllBefore(s, t) && g < |s.records| && mode in p.contracts[g]
    requires s.records[g].status != Approved && forall h :: 0 <= h < g ==> s.records[h].status == Approved
    requires reason != "" && DefenseOk(defense) && GateRefs(s.registry, p.contracts[g][mode], dirty).Some?
    requires var d := ApproveDecision(p, s, g, mode, reason, defense,
                                      GateRefs(s.registry, p.contracts[g][mode], dirty).value, t);
             IsRetrospective(p, g, mode) ==> d.waived != []
    ensures var d := ApproveDecision(p, s, g, mode, reason, defense,
                                     GateRefs(s.registry, p.contracts[g][mode], dirty).value, t);
            Appendable(p, s, log, g, d, s.nextId + 1)
  {
    hide PrerequisitesThen, LifecycleOk, StageHistoryOk, GateRefs;
    var refs := GateRefs(s.registry, p.contracts[g][mode], dirty).value;
    var d := ApproveDecision(p, s, g, mode, reason, defense, refs, t);
    var h := s.records[g].history;
    GateRefsBind(s.registry, p.contracts[g][mode], dirty);
    forall r | r in refs ensures Retained(s.registry, r) && r.revision.at < t {
      CurrentRetained(s.registry, r);
    }
    assert RecordOk(p, s.registry, g, s.records[g]);
    assert ApprovalOk(p, g, d);
    assert (h + [d])[|h|] == d;
    forall e | e in log ensures e.d.id != d.id {
      assert EventBelow(e, |p.owner|, s.nextId);
    }
  }

  lemma {:induction false} FirstEdgeIn(edges: seq<Edge>, g: nat)
    requires FirstEdge(edges, g).Some?
    ensures exists i :: 0 <= i < |edges| && edges[i] == Edge(FirstEdge(edges, g).value, Some(g))
  {
    if edges[0].gate != Some(g) {
      FirstEdgeIn(edges[1..], g);
      var i :| 0 <= i < |edges[1..]| && edges[1..][i] == Edge(FirstEdge(edges, g).value, Some(g));
      assert edges[i + 1] == edges[1..][i];
    } else {
      assert edges[0] == Edge(FirstEdge(edges, g).value, Some(g));
    }
  }

  lemma {:induction false} FindEdgeIn(edges: seq<Edge>, to: nat)
    requires FindEdge(edges, to).Some?
    ensures FindEdge(edges, to).value.to == to
    ensures exists i :: 0 <= i < |edges| && edges[i] == FindEdge(edges, to).value
  {
    if edges[0].to != to {
      FindEdgeIn(edges[1..], to);
      var i :| 0 <= i < |edges[1..]| && edges[1..][i] == FindEdge(edges, to).value;
      assert edges[i + 1] == edges[1..][i];
    } else {
      assert edges[0] == FindEdge(edges, to).value;
    }
  }

  /** A stage move by the approval that is the latest decision of its GateRef. */
  lemma {:induction false} ApproveMove(p: Policy, s: State, log: seq<Event>, b: nat, g: nat, to: nat, t: Time)
    requires Mid(p, s, log, b) && g < |s.records| && s.records[g].history != [] && s.created <= t
    requires var h := s.records[g].history; var d := h[|h| - 1]; d.action == Approve && d.at <= t
    requires HasEdge(p, s.stage, to, Some(g)) && to < p.stages
    requires forall i :: 0 <= i < |s.transitions| ==> s.transitions[i].at < t
    ensures var h := s.records[g].history;
            Mid(p, MoveStage(s, to, ByApprove(h[|h| - 1].id), t), log, b)
  {
    var h := s.records[g].history;
    assert RecordOk(p, s.registry, g, s.records[g]);
    assert DecisionOk(p, s.registry, g, h, |h| - 1);
    var tr := Transition(s.stage, to, ByApprove(h[|h| - 1].id), t);
    assert Justifies(p, h, g, |h| - 1, tr);
    MidMove(p, s, log, b, to, tr.trigger, t);
  }

  lemma {:induction false} ApprovePhase(p: Policy, s: State, log: seq<Event>, g: nat, d: Decision)
    requires Mid(p, s, log, s.nextId) && Settled(p, s, log) && Appendable(p, s, log, g, d, s.nextId + 1)
    requires d.action == Approve && s.records[g].status != Approved && d.next == Approved && d.cascade.None?
    ensures var s1 := Tick(Push(s, g, d));
            Mid(p, s1, log + [Event(g, d)], s1.nextId) && Settled(p, s1, log + [Event(g, d)])
  {
    hide Logged, RecordsOk, PrerequisitesThen, LifecycleOk, StageHistoryOk, RegistryOk, CascadesOk;
    MidAppend(p, s, log, s.nextId, g, d, s.nextId + 1);
    MidTick(p, Push(s, g, d), log + [Event(g, d)], s.nextId + 1);
    forall e | e in log ensures e.d.at < d.at { LoggedBefore(s, log, s.nextId, e); }
    CascadesOkApprove(|p.owner|, log, Event(g, d));
  }

  lemma {:induction false} ApproveSound(p: Policy, s: State, log: seq<Event>, g: nat, mode: Option<Mode>,
      reason: string, defense: Defense, dirty: set<Role>, clock: Clock) returns (log': seq<Event>)
    requires Sound(p, s, log) && ExecApprove(p, s, g, mode, reason, defense, dirty, clock).Ok?
    ensures Sound(p, ExecApprove(p, s, g, mode, reason, defense, dirty, clock).value, log')
  {
    hide Logged, RecordsOk, PrerequisitesThen, LifecycleOk, StageHistoryOk, RegistryOk, CascadesOk, BindingsOk, Absent;
    NextTimestampLeast(s, clock(g));
    hide PrerequisitesNow, DefenseOk, Recorded;
    var t := NextTimestamp(s, clock(g)).value;
    var refs := GateRefs(s.registry, p.contracts[g][mode], dirty).value;
    var d := ApproveDecision(p, s, g, mode, reason, defense, refs, t);
    var to := ApprovalDestination(p, s.stage, g).value;
    ApproveAppendable(p, s, log, g, mode, reason, defense, dirty, t);
    ApprovePhase(p, s, log, g, d);
    log' := log + [Event(g, d)];
    var s1 := Tick(Push(s, g, d));
    AdvanceSound(p, s, s1, log', g, to, d, t);
    hide Push, NoneBefore, AllBefore, Appendable;
    WriteSound(p, AdvanceStage(s1, to, d.id, t), log', clock);
  }

  lemma {:induction false} AdvanceSound(p: Policy, s: State, s1: State, log: seq<Event>, g: nat, to: Option<nat>,
      d: Decision, t: Time)
    requires Mid(p, s1, log, s1.nextId) && g < |s.records| && AllBefore(s, t) && s.created <= t && d.at == t
    requires s1 == Tick(Push(s, g, d)) && d.action == Approve && s.stage < |p.edges|
    requires ApprovalDestination(p, s.stage, g) == Ok(to)
    ensures Mid(p, AdvanceStage(s1, to, d.id, t), log, s1.nextId)
    ensures AdvanceStage(s1, to, d.id, t).records == s1.records
  {
    assert s1.records[g].history[|s.records[g].history|] == d;
    if to.Some? && to.value > s1.stage {
      FirstEdgeIn(p.edges[s.stage], g);
      var i :| 0 <= i < |p.edges[s.stage]| && p.edges[s.stage][i] == Edge(to.value, Some(g));
      assert EdgeOk(p, p.edges[s.stage][i]);
      ApproveMove(p, s1, log, s1.nextId, g, to.value, t);
    }
  }

  lemma {:induction false} ReopenSound(p: Policy, s: State, log: seq<Event>, g: nat, reason: string, defense: Defense,
      clock: Clock)
    returns (log': seq<Event>)
    requires Sound(p, s, log) && ExecReopen(p, s, g, reason, defense, clock).Ok?
    ensures Sound(p, ExecReopen(p, s, g, reason, defense, clock).value, log')
  {
    log' := RecordReopenSound(p, s, log, g, reason, defense, clock);
    WriteSound(p, RecordReopen(p, s, g, reason, defense, clock).value, log', clock);
  }
}
