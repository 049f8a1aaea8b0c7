/**
 Authority of adapter requests: checked against the current state when an item is
 registered, and against the recorded history on every later inspection.
 */
module AdapterAuthority {
  import opened Prelude
  import opened GateModel
  import opened GateTimeline
  import opened CascadeContract
  import opened GateReplay
  import opened GateWriters
  import opened GateHistories
  import opened GateSteps
  import opened GateRuns
  import opened GateExtension

  /** One operation kind of the policy's adapter authority. */
  datatype Operation = Operation(stages: set<nat>, effects: set<string>, gates: set<nat>, release: bool)

  datatype Authority = Authority(operations: map<string, Operation>, guarded: set<string>)

  datatype GateBinding = GateBinding(gate: nat, decision: Id, refs: seq<Ref>)

  datatype Authorization = Authorization(id: string, actor: string, scope: string, at: Time)

  datatype Request = Request(
    operation: string,
    effect: string,
    binding: Option<GateBinding>,
    inputs: seq<Ref>,
    payload: Ref,
    created: Time,
    authorization: Option<Authorization>)

  // ----- lookups in the recorded history -----

  /** `_stage_at`: the destination of the last transition at or before `t`. */
  function StageAt(ts: seq<Transition>, t: Time): nat {
    if ts == [] then 0
    else if ts[|ts| - 1].at <= t then ts[|ts| - 1].to
    else StageAt(ts[..|ts| - 1], t)
  }

  method FindStageAt(ts: seq<Transition>, t: Time) returns (stage: nat)
    ensures stage == StageAt(ts, t)
  {
    stage := 0;
    for i := 0 to |ts|
      invariant stage == StageAt(ts[..i], t)
    {
      assert ts[..i + 1][..i] == ts[..i];
      if ts[i].at <= t { stage := ts[i].to; }
    }
    assert ts[..|ts|] == ts;
  }

  /** The last decision at or before `t`. */
  function LatestAt(h: seq<Decision>, t: Time): Option<Decision> {
    if h == [] then None
    else if h[|h| - 1].at <= t then Some(h[|h| - 1])
    else LatestAt(h[..|h| - 1], t)
  }

  /** The first decision with this identifier. */
  function FindDecision(h: seq<Decision>, id: Id): Option<Decision> {
    if h == [] then None else if h[0].id == id then Some(h[0]) else FindDecision(h[1..], id)
  }

  // ----- the rules -----

  /** The rules on a required Gate binding that do not depend on time. */
  predicate BindingExact(op: Operation, req: Request, b: GateBinding, d: Decision) {
    && d.action == Approve && b.refs == d.refs
    && (forall r :: r in b.refs ==> r in req.inputs)
    && (op.release ==> req.payload in b.refs && req.inputs == b.refs)
  }

  /** The named decision is the Gate's live approval: now, or when `t` was registered. */
  predicate BindingLive(rec: GateRecord, id: Id, t: Time, current: bool) {
    if current then rec.status == Approved && rec.latest == Some(id)
    else LatestAt(rec.history, t).Some? && LatestAt(rec.history, t).value.id == id
         && LatestAt(rec.history, t).value.action == Approve
  }

  predicate BindingRules(op: Operation, req: Request, records: seq<GateRecord>, t: Time, current: bool) {
    if op.gates == {} then req.binding.None?
    else
      && req.binding.Some?
      && var b := req.binding.value;
      && b.gate in op.gates && b.gate < |records|
      && var rec := records[b.gate];
      && FindDecision(rec.history, b.decision).Some?
      && BindingExact(op, req, b, FindDecision(rec.history, b.decision).value)
      && BindingLive(rec, b.decision, t, current)
  }

  predicate AuthorizationRules(a: Authority, req: Request, t: Time) {
    && (req.effect in a.guarded ==>
          && req.authorization.Some?
          && var h := req.authorization.value;
          && h.id != "" && h.actor != "" && h.scope != "" && h.at <= t)
    && (req.effect !in a.guarded ==> req.authorization.None?)
    && req.created <= t
  }

  /** `_request_authority_errors` is empty, for an item first registered at `t` in `stage`. */
  predicate Authorized(a: Authority, s: State, req: Request, stage: nat, t: Time, current: bool) {
    && req.operation in a.operations
    && var op := a.operations[req.operation];
    && stage in op.stages
    && (if current then s.stage else StageAt(s.transitions, t)) == stage
    && req.effect in op.effects
    && BindingRules(op, req, s.records, t, current)
    && AuthorizationRules(a, req, t)
  }

  // ----- the current check is the historical check at the time of registration -----

  lemma {:induction false} StageIsLatest(ts: seq<Transition>, t: Time)
    requires forall i :: 0 <= i < |ts| ==> ts[i].at <= t
    ensures StageAt(ts, t) == FinalStage(ts)
  {
  }

  /** An approved record's latest decision is its live approval at any later time. */
  lemma {:induction false} LiveNow(p: Policy, reg: map<Role, Artifact>, g: nat, rec: GateRecord, id: Id, t: Time)
    requires g < |p.contracts| && RecordOk(p, reg, g, rec)
    requires forall i :: 0 <= i < |rec.history| ==> rec.history[i].at < t
    ensures BindingLive(rec, id, t, true) <==> BindingLive(rec, id, t, false)
  {
    var h := rec.history;
    if h != [] { assert DecisionOk(p, reg, g, h, |h| - 1); }
  }

  /** Checked at its own registration, an item gets the same verdict from either check. */
  lemma {:induction false} RegistrationVerdict(p: Policy, s: State, log: seq<Event>, a: Authority, req: Request,
                                               stage: nat, t: Time)
    requires Sound(p, s, log) && AllBefore(s, t)
    ensures Authorized(a, s, req, stage, t, true) <==> Authorized(a, s, req, stage, t, false)
  {
    hide Logged, PrerequisitesThen, LifecycleOk, RegistryOk, Settled, TransitionsOk;
    StageIsLatest(s.transitions, t);
    if req.binding.Some? && req.binding.value.gate < |s.records| {
      var g := req.binding.value.gate;
      assert RecordOk(p, s.registry, g, s.records[g]);
      LiveNow(p, s.registry, g, s.records[g], req.binding.value.decision, t);
    }
  }

  // ----- the historical check never changes its verdict -----

  /** `t` is among the recorded times of `s`, or no later than one of them. */
  ghost predicate RecordedBy(s: State, t: Time) {
    forall u :: AllBefore(s, u) ==> t < u
  }

  lemma {:induction false} StageAtExtended(ts: seq<Transition>, ts': seq<Transition>, t: Time)
    requires ts <= ts' && forall i :: |ts| <= i < |ts'| ==> t < ts'[i].at
    ensures StageAt(ts', t) == StageAt(ts, t)
  {
    if |ts| < |ts'| {
      StageAtExtended(ts, ts'[..|ts'| - 1], t);
    } else {
      assert ts == ts';
    }
  }

  lemma {:induction false} LatestAtExtended(h: seq<Decision>, h': seq<Decision>, t: Time)
    requires h <= h' && forall i :: |h| <= i < |h'| ==> t < h'[i].at
    ensures LatestAt(h', t) == LatestAt(h, t)
  {
    if |h| < |h'| {
      LatestAtExtended(h, h'[..|h'| - 1], t);
    } else {
      assert h == h';
    }
  }

  lemma {:induction false} FindExtended(h: seq<Decision>, h': seq<Decision>, id: Id)
    requires h <= h'
    ensures FindDecision(h, id).Some? ==> FindDecision(h', id) == FindDecision(h, id)
    ensures FindDecision(h, id).None? ==> forall d :: d in h ==> d.id != id
  {
    if h != [] {
      assert h'[0] == h[0] && h[1..] <= h'[1..];
      FindExtended(h[1..], h'[1..], id);
      assert forall d :: d in h ==> d == h[0] || d in h[1..];
    }
  }

  lemma {:induction false} LatestAtMember(h: seq<Decision>, t: Time)
    requires LatestAt(h, t).Some?
    ensures LatestAt(h, t).value in h
  {
    if h[|h| - 1].at > t { LatestAtMember(h[..|h| - 1], t); }
  }

  lemma {:induction false} BindingExtended(op: Operation, req: Request, s: State, s': State, t: Time)
    requires Extends(s, s') && RecordedBy(s, t)
    ensures BindingRules(op, req, s.records, t, false) <==> BindingRules(op, req, s'.records, t, false)
  {
    hide AllBefore;
    if op.gates != {} && req.binding.Some? && req.binding.value.gate < |s.records| {
      var b := req.binding.value;
      var h, h' := s.records[b.gate].history, s'.records[b.gate].history;
      assert HistoryExtends(s, h, h');
      LatestAtExtended(h, h', t);
      FindExtended(h, h', b.decision);
      if LatestAt(h, t).Some? { LatestAtMember(h, t); }
    }
  }

  /** Whatever happens later, reopening the Gate included, the historical verdict stands. */
  lemma {:induction false} VerdictStands(a: Authority, s: State, s': State, req: Request, stage: nat, t: Time)
    requires Extends(s, s') && RecordedBy(s, t)
    ensures Authorized(a, s', req, stage, t, false) <==> Authorized(a, s, req, stage, t, false)
  {
    if req.operation in a.operations { BindingExtended(a.operations[req.operation], req, s, s', t); }
    hide AllBefore, HistoryExtends, BindingRules;
    StageAtExtended(s.transitions, s'.transitions, t);
  }
}
