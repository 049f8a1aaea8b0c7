/**
 The project state, as `scripts/researchctl_core` keeps it, and the loaded policy.

 A GateRef is its position in the policy's `gate_sequence`; a stage is its position in
 `stage_order`.  Timestamps are microseconds.  Decision identifiers come from a counter
 that stands for the UUID source: every identifier ever issued is below `nextId`.
 */
module GateModel {
  import opened Prelude
  import opened Maxima

  type Time = int
  type Id = nat
  type Mode = string
  type Role = string

  /** The last representable timestamp (`datetime.max`). */
  const MAX_TIME: Time := 253402300799999999

  /** The reading `utc_now` gives at each call site of one command. */
  type Clock = nat -> Time

  datatype Action = Approve | Reopen

  datatype Status = Pending | Approved | Reopened

  /** The four list fields every human decision carries. */
  datatype Defense = Defense(
    supporting: seq<string>,
    opposing: seq<string>,
    risks: seq<string>,
    conditions: seq<string>)

  datatype Revision = Revision(
    number: nat,
    source: string,
    snapshot: string,
    hash: string,
    size: nat,
    at: Time)

  /** One role's canonical artifact; its current revision is the last one. */
  datatype Artifact = Artifact(id: string, revisions: seq<Revision>)

  /** An exact reference to a registered revision. */
  datatype Ref = Ref(role: Role, artifact: string, revision: Revision)

  datatype Cascade = Cascade(upstreamGate: nat, upstreamId: Id, upstreamReason: string)

  datatype Decision = Decision(
    id: Id,
    action: Action,
    previous: Status,
    next: Status,
    reason: string,
    at: Time,
    refs: seq<Ref>,
    defense: Defense,
    cascade: Option<Cascade>,
    mode: Option<Mode>,
    waived: seq<Role>)

  datatype GateRecord = GateRecord(status: Status, latest: Option<Id>, history: seq<Decision>)

  datatype Trigger = ByCheckpoint | ByApprove(id: Id) | ByReopen(id: Id)

  datatype Transition = Transition(from: nat, to: nat, trigger: Trigger, at: Time)

  datatype LifeStatus = Active | Terminated | Completed

  datatype LifeAction = Terminate | Complete | Resume

  /** One lifecycle decision; `linked` is the affected Gate and its reopen decision. */
  datatype LifeDecision = LifeDecision(
    id: Id,
    action: LifeAction,
    previous: LifeStatus,
    next: LifeStatus,
    reason: string,
    defense: Defense,
    at: Time,
    stage: nat,
    refs: set<Ref>,
    linked: Option<(nat, Id)>)

  datatype Lifecycle = Lifecycle(status: LifeStatus, latest: Option<Id>, history: seq<LifeDecision>)

  datatype State = State(
    created: Time,
    updated: Time,
    stage: nat,
    records: seq<GateRecord>,
    transitions: seq<Transition>,
    life: Lifecycle,
    checkpoint: Option<Time>,
    registry: map<Role, Artifact>,
    nextId: Id)

  /** A transition edge; `gate` is the GateRef whose approval triggers it, if any. */
  datatype Edge = Edge(to: nat, gate: Option<nat>)

  /** The artifact roles one approval mode binds. */
  datatype RoleContract = RoleContract(required: seq<Role>, optional: seq<Role>, mutable: set<Role>)

  /**
   `owner[g]` is the stage whose exit GateRef `g` controls; `contracts[g]` has the key
   `None` for a Gate without approval modes.
   */
  datatype Policy = Policy(
    stages: nat,
    owner: seq<nat>,
    edges: seq<seq<Edge>>,
    contracts: seq<map<Option<Mode>, RoleContract>>,
    release: nat,
    retrospective: Option<(nat, Mode)>)

  predicate Distinct<T(==)>(s: seq<T>) {
    forall i, j :: 0 <= i < j < |s| ==> s[i] != s[j]
  }

  predicate ContractOk(c: RoleContract) {
    && |c.required| > 0
    && Distinct(c.required + c.optional)
    && c.mutable <= (set r | r in c.required)
  }

  predicate EdgeOk(p: Policy, e: Edge) {
    e.to < p.stages && (e.gate.Some? ==> e.gate.value < |p.owner|)
  }

  /** The guarantees of policy loading that most proofs need. */
  predicate PolicyOk(p: Policy) {
    && 0 < p.stages == |p.edges|
    && 0 < |p.owner| == |p.contracts|
    && p.release < |p.owner|
    && (forall g :: 0 <= g < |p.owner| ==> p.owner[g] < p.stages)
    && (forall g, h :: 0 <= g < h < |p.owner| ==> p.owner[g] < p.owner[h])
    && (forall c, i :: 0 <= c < |p.edges| && 0 <= i < |p.edges[c]| ==> EdgeOk(p, p.edges[c][i]))
    && (forall c, i, j :: 0 <= c < |p.edges| && 0 <= i < j < |p.edges[c]| ==>
          p.edges[c][i].to != p.edges[c][j].to)
    && (forall g, m :: 0 <= g < |p.contracts| && m in p.contracts[g] ==> ContractOk(p.contracts[g][m]))
    && (forall g, m :: 0 <= g < |p.contracts| && m in p.contracts[g] && p.contracts[g][m].optional != [] ==>
          m.Some? && p.retrospective == Some((g, m.value)))
  }

  /**
   Everything loading guarantees about these parts: besides, a Gate has approval modes or
   none, the release Gate has none, and exactly one mode, never a Gate's only one, is retrospective.
   */
  predicate Loads(p: Policy) {
    && PolicyOk(p)
    && (forall g :: 0 <= g < |p.contracts| ==> ModesOk(p.contracts[g]))
    && p.contracts[p.release].Keys == {None}
    && p.retrospective.Some?
    && var (g, m) := p.retrospective.value;
    && g < |p.contracts| && Some(m) in p.contracts[g]
    && exists other :: other in p.contracts[g] && other != Some(m)
  }

  predicate ModesOk(contracts: map<Option<Mode>, RoleContract>) {
    contracts.Keys == {None} || (None !in contracts && exists m :: m in contracts)
  }

  predicate DefenseOk(d: Defense) {
    && d.supporting != [] && d.conditions != []
    && (forall v :: v in d.supporting + d.opposing + d.risks + d.conditions ==> v != "")
    && Distinct(d.supporting) && Distinct(d.opposing) && Distinct(d.risks) && Distinct(d.conditions)
  }

  predicate IsApproved(s: State, g: nat) {
    g < |s.records| && s.records[g].status == Approved
  }

  // ----- chronology -----

  /** Every timestamp anywhere in the nested state. */
  ghost function Recorded(s: State): set<Time> {
    {s.created, s.updated}
    + (if s.checkpoint.Some? then {s.checkpoint.value} else {})
    + (set i | 0 <= i < |s.transitions| :: s.transitions[i].at)
    + (set g, i | 0 <= g < |s.records| && 0 <= i < |s.records[g].history| :: s.records[g].history[i].at)
    + (set i | 0 <= i < |s.life.history| :: s.life.history[i].at)
    + (set r, i | r in s.registry && 0 <= i < |s.registry[r].revisions| :: s.registry[r].revisions[i].at)
  }

  /** `next_state_timestamp`: never behind the clock, always beyond the recorded history. */
  ghost function NextTimestamp(s: State, now: Time): Option<Time> {
    assert s.created in Recorded(s);
    var m := Latest(Recorded(s));
    if m + 1 > MAX_TIME then None else Some(if now < m + 1 then m + 1 else now)
  }

  /** Every recorded timestamp is earlier than `t`. */
  predicate AllBefore(s: State, t: Time) {
    && s.created < t && s.updated < t
    && (s.checkpoint.Some? ==> s.checkpoint.value < t)
    && (forall i :: 0 <= i < |s.transitions| ==> s.transitions[i].at < t)
    && (forall g, i :: 0 <= g < |s.records| && 0 <= i < |s.records[g].history| ==> s.records[g].history[i].at < t)
    && (forall i :: 0 <= i < |s.life.history| ==> s.life.history[i].at < t)
    && (forall r, i :: r in s.registry && 0 <= i < |s.registry[r].revisions| ==> s.registry[r].revisions[i].at < t)
  }

  lemma AllBeforeRecorded(s: State, t: Time)
    ensures AllBefore(s, t) <==> forall u :: u in Recorded(s) ==> u < t
  {
    if forall u :: u in Recorded(s) ==> u < t {
      assert s.created in Recorded(s) && s.updated in Recorded(s);
      forall i | 0 <= i < |s.transitions| ensures s.transitions[i].at < t { assert s.transitions[i].at in Recorded(s); }
      forall g, i | 0 <= g < |s.records| && 0 <= i < |s.records[g].history|
        ensures s.records[g].history[i].at < t
      { assert s.records[g].history[i].at in Recorded(s); }
      forall i | 0 <= i < |s.life.history|
        ensures s.life.history[i].at < t
      {
        assert s.life.history[i].at in Recorded(s);
      }
      forall r, i | r in s.registry && 0 <= i < |s.registry[r].revisions|
        ensures s.registry[r].revisions[i].at < t
      { assert s.registry[r].revisions[i].at in Recorded(s); }
      if s.checkpoint.Some? { assert s.checkpoint.value in Recorded(s); }
    }
  }

  /** The stamp is beyond everything recorded anywhere, and no later than it has to be. */
  lemma NextTimestampLeast(s: State, now: Time)
    ensures NextTimestamp(s, now).None? <==> !AllBefore(s, MAX_TIME)
    ensures forall t :: NextTimestamp(s, now) == Some(t) ==>
              now <= t && AllBefore(s, t) && (t == now || !AllBefore(s, t - 1))
  {
    assert s.created in Recorded(s);
    var m := Latest(Recorded(s));
    AllBeforeRecorded(s, MAX_TIME);
    AllBeforeRecorded(s, m);
    AllBeforeRecorded(s, m + 1);
    AllBeforeRecorded(s, now);
  }
}
