/** The replay check: the rules by which a validator accepts a whole recorded state. */
module GateReplay {
  import opened Prelude
  import opened GateModel
  import opened GateTimeline
  import opened CascadeContract

  // ----- artifact references -----

  /** The reference resolves to exactly one retained registry revision, and equals it. */
  predicate Retained(reg: map<Role, Artifact>, r: Ref) {
    && r.role in reg && reg[r.role].id == r.artifact
    && (exists i :: 0 <= i < |reg[r.role].revisions| && reg[r.role].revisions[i] == r.revision)
    && (forall i, j :: (0 <= i < |reg[r.role].revisions| && 0 <= j < |reg[r.role].revisions|
          && reg[r.role].revisions[i].number == r.revision.number == reg[r.role].revisions[j].number) ==> i == j)
  }

  function RolesOf(refs: seq<Ref>): (r: seq<Role>)
    ensures |r| == |refs| && forall i :: 0 <= i < |r| ==> r[i] == refs[i].role
  {
    seq(|refs|, i requires 0 <= i < |refs| => refs[i].role)
  }

  function Absent(roles: seq<Role>, present: seq<Role>): seq<Role> {
    if roles == [] then []
    else (if roles[0] in present then [] else [roles[0]]) + Absent(roles[1..], present)
  }

  /** The references of the last approval in a history. */
  function LatestRefs(h: seq<Decision>): seq<Ref> {
    if h == [] then []
    else if h[|h| - 1].action == Approve then h[|h| - 1].refs
    else LatestRefs(h[..|h| - 1])
  }

  // ----- one Gate record -----

  predicate ApprovalOk(p: Policy, g: nat, d: Decision)
    requires g < |p.contracts|
  {
    && d.mode in p.contracts[g]
    && var c := p.contracts[g][d.mode];
    && (forall i :: 0 <= i < |d.refs| ==> d.refs[i].role in c.required + c.optional)
    && (forall r :: r in c.required ==> r in RolesOf(d.refs))
    && Distinct(RolesOf(d.refs))
    && (if d.mode.Some? && p.retrospective == Some((g, d.mode.value))
        then d.waived == Absent(c.optional, RolesOf(d.refs)) && d.waived != []
        else d.waived == [])
  }

  predicate TransitionShape(d: Decision) {
    match d.action
    case Approve => d.previous != Approved && d.next == Approved && d.cascade.None?
    case Reopen => d.previous == Approved && d.next == Reopened
  }

  /** The rules on entry `i` of one Gate's history. */
  predicate DecisionOk(p: Policy, reg: map<Role, Artifact>, g: nat, h: seq<Decision>, i: nat)
    requires g < |p.contracts| && i < |h|
  {
    var d := h[i];
    && d.previous == (if i == 0 then Pending else h[i - 1].next)
    && TransitionShape(d)
    && (d.cascade.Some? ==> d.cascade.value.upstreamGate < |p.owner| && d.cascade.value.upstreamReason != "")
    && d.reason != "" && DefenseOk(d.defense)
    && (i > 0 ==> h[i - 1].at < d.at)
    && (forall r :: r in d.refs ==> Retained(reg, r) && (d.action == Approve ==> r.revision.at < d.at))
    && (if d.action == Approve then ApprovalOk(p, g, d)
        else d.refs == LatestRefs(h[..i]) && d.mode.None? && d.waived == [])
  }

  predicate RecordOk(p: Policy, reg: map<Role, Artifact>, g: nat, rec: GateRecord)
    requires g < |p.contracts|
  {
    && (rec.history == [] ==> rec.status == Pending && rec.latest.None?)
    && (rec.history != [] ==>
          rec.latest == Some(rec.history[|rec.history| - 1].id) && rec.status == rec.history[|rec.history| - 1].next)
    && forall i :: 0 <= i < |rec.history| ==> DecisionOk(p, reg, g, rec.history, i)
  }

  // ----- across Gates -----

  /** An approved GateRef has every earlier GateRef approved. */
  predicate PrerequisitesNow(records: seq<GateRecord>) {
    forall h, g :: 0 <= h < g < |records| && records[g].status == Approved ==> records[h].status == Approved
  }

  /** Every approval ever recorded had every earlier GateRef approved at its time. */
  predicate PrerequisitesThen(records: seq<GateRecord>) {
    forall h, g, i :: (0 <= h < g < |records| && 0 <= i < |records[g].history|
        && records[g].history[i].action == Approve) ==>
      StatusAt(records[h].history, records[g].history[i].at) == Some(Approved)
  }

  /** No stage at or before the current one is the destination of an unapproved GateRef. */
  predicate StageReached(p: Policy, s: State) {
    forall c, i :: (0 <= c < |p.edges| && 0 <= i < |p.edges[c]| && p.edges[c][i].gate.Some?
        && p.edges[c][i].to <= s.stage) ==>
      IsApproved(s, p.edges[c][i].gate.value)
  }

  /** The decision index in iteration order: GateRef after GateRef. */
  function Decisions(records: seq<GateRecord>): seq<Event> {
    if records == [] then []
    else
      var g := |records| - 1;
      Decisions(records[..g])
      + seq(|records[g].history|, i requires 0 <= i < |records[g].history| => Event(g, records[g].history[i]))
  }

  predicate Precedes(a: Event, b: Event) {
    a.d.at < b.d.at || (a.d.at == b.d.at && a.d.id <= b.d.id)
  }

  function Insert(evs: seq<Event>, e: Event): seq<Event> {
    if evs == [] then [e]
    else if Precedes(evs[|evs| - 1], e) then evs + [e]
    else Insert(evs[..|evs| - 1], e) + [evs[|evs| - 1]]
  }

  /** Sorting the decision index by time and identifier. */
  function TimeSorted(evs: seq<Event>): seq<Event> {
    if evs == [] then [] else Insert(TimeSorted(evs[..|evs| - 1]), evs[|evs| - 1])
  }

  /** `validate_gate_records` reports no error. */
  predicate GateRecordsOk(p: Policy, s: State)
    requires PolicyOk(p)
  {
    && |s.records| == |p.owner|
    && (forall g :: 0 <= g < |s.records| ==> RecordOk(p, s.registry, g, s.records[g]))
    && UniqueIds(Decisions(s.records))
    && CascadesOk(|p.owner|, TimeSorted(Decisions(s.records)))
    && PrerequisitesNow(s.records)
    && PrerequisitesThen(s.records)
    && StageReached(p, s)
  }

  // ----- lifecycle -----

  function LifeNext(previous: LifeStatus, action: LifeAction): Option<LifeStatus> {
    match (previous, action)
    case (Active, Terminate) => Some(Terminated)
    case (Active, Complete) => Some(Completed)
    case (Terminated, Resume) => Some(Active)
    case (Completed, Resume) => Some(Active)
    case _ => None
  }

  predicate NamesReopen(records: seq<GateRecord>, g: nat, id: Id) {
    g < |records| && exists i :: (0 <= i < |records[g].history|
      && records[g].history[i].id == id && records[g].history[i].action == Reopen)
  }

  predicate NothingRegisteredBefore(reg: map<Role, Artifact>, t: Time) {
    forall r, i :: r in reg && 0 <= i < |reg[r].revisions| ==> t <= reg[r].revisions[i].at
  }

  /** The rules on entry `i` of the lifecycle history. */
  predicate LifeDecisionOk(p: Policy, records: seq<GateRecord>, reg: map<Role, Artifact>, h: seq<LifeDecision>, i: nat)
    requires p.release < |records| && i < |h|
  {
    var d := h[i];
    && d.previous == (if i == 0 then Active else h[i - 1].next)
    && LifeNext(d.previous, d.action) == Some(d.next)
    && d.reason != "" && DefenseOk(d.defense)
    && (i > 0 ==> h[i - 1].at < d.at)
    && (d.action == Complete ==> StatusAt(records[p.release].history, d.at) == Some(Approved))
    && d.stage < p.stages
    && (forall r :: r in d.refs ==> Retained(reg, r))
    && (d.refs == {} ==> NothingRegisteredBefore(reg, d.at))
    && (match d.linked
        case Some(link) => d.action == Resume && NamesReopen(records, link.0, link.1)
        case None => !(d.previous == Completed && d.action == Resume))
  }

  /** No identifier is used twice, by Gate decisions or lifecycle decisions. */
  predicate LifeIdsFresh(records: seq<GateRecord>, h: seq<LifeDecision>) {
    && (forall i, j :: 0 <= i < j < |h| ==> h[i].id != h[j].id)
    && (forall i, g, k :: 0 <= i < |h| && 0 <= g < |records| && 0 <= k < |records[g].history| ==>
          h[i].id != records[g].history[k].id)
  }

  /** `validate_lifecycle_record` reports no error. */
  predicate LifecycleOk(p: Policy, records: seq<GateRecord>, reg: map<Role, Artifact>, life: Lifecycle)
    requires p.release < |records|
  {
    && (life.history == [] ==> life.status == Active && life.latest.None?)
    && (life.history != [] ==>
          && life.latest == Some(life.history[|life.history| - 1].id)
          && life.status == life.history[|life.history| - 1].next)
    && LifeIdsFresh(records, life.history)
    && forall i :: 0 <= i < |life.history| ==> LifeDecisionOk(p, records, reg, life.history, i)
  }

  // ----- stage history and chronology -----

  predicate HasEdge(p: Policy, from: nat, to: nat, gate: Option<nat>) {
    from < |p.edges| && exists i :: 0 <= i < |p.edges[from]| && p.edges[from][i] == Edge(to, gate)
  }

  /** Entry `i` is the last decision at or before `t`. */
  predicate ActiveAt(h: seq<Decision>, i: nat, t: Time) {
    i < |h| && h[i].at <= t && forall j :: i < j < |h| ==> t < h[j].at
  }

  /** Entry `i` of GateRef `g` justifies the transition that names it. */
  predicate Justifies(p: Policy, h: seq<Decision>, g: nat, i: nat, tr: Transition)
    requires g < |p.owner| && i < |h|
  {
    match tr.trigger
    case ByCheckpoint => false
    case ByReopen(id) =>
      h[i].id == id && h[i].action == Reopen && h[i].cascade.None? && h[i].at == tr.at && tr.to == p.owner[g]
    case ByApprove(id) =>
      && h[i].id == id && h[i].action == Approve && h[i].cascade.None?
      && ActiveAt(h, i, tr.at) && h[i].next == Approved
      && HasEdge(p, tr.from, tr.to, Some(g))
  }

  predicate TransitionOk(p: Policy, records: seq<GateRecord>, tr: Transition)
    requires |records| == |p.owner|
  {
    && tr.from < p.stages && tr.to < p.stages
    && (if tr.trigger.ByCheckpoint? then HasEdge(p, tr.from, tr.to, None)
        else exists g, i :: (0 <= g < |records| && 0 <= i < |records[g].history|
               && Justifies(p, records[g].history, g, i, tr)))
  }

  /** Each transition starts where the one before it ended, at a later time. */
  predicate StagesContinue(ts: seq<Transition>) {
    && (forall i :: 0 <= i < |ts| ==> ts[i].from == if i == 0 then 0 else ts[i - 1].to)
    && (forall i, j :: 0 <= i < j < |ts| ==> ts[i].at < ts[j].at)
  }

  function FinalStage(ts: seq<Transition>): nat {
    if ts == [] then 0 else ts[|ts| - 1].to
  }

  predicate TransitionsOk(p: Policy, records: seq<GateRecord>, ts: seq<Transition>)
    requires |records| == |p.owner|
  {
    forall i :: 0 <= i < |ts| ==> TransitionOk(p, records, ts[i])
  }

  predicate StageHistoryOk(p: Policy, records: seq<GateRecord>, ts: seq<Transition>, stage: nat)
    requires |records| == |p.owner|
  {
    StagesContinue(ts) && TransitionsOk(p, records, ts) && stage == FinalStage(ts)
  }

  /** Revisions are numbered 1, 2, ... and registered at increasing times. */
  predicate ArtifactOk(a: Artifact) {
    && |a.revisions| > 0
    && (forall i :: 0 <= i < |a.revisions| ==> a.revisions[i].number == i + 1)
    && (forall i, j :: 0 <= i < j < |a.revisions| ==> a.revisions[i].at < a.revisions[j].at)
  }

  predicate RegistryOk(reg: map<Role, Artifact>) {
    forall r :: r in reg ==> ArtifactOk(reg[r])
  }

  predicate NoneBefore(s: State, t: Time) {
    && t <= s.created && t <= s.updated
    && (s.checkpoint.Some? ==> t <= s.checkpoint.value)
    && (forall i :: 0 <= i < |s.transitions| ==> t <= s.transitions[i].at)
    && (forall g, i :: 0 <= g < |s.records| && 0 <= i < |s.records[g].history| ==> t <= s.records[g].history[i].at)
    && (forall i :: 0 <= i < |s.life.history| ==> t <= s.life.history[i].at)
    && (forall r, i :: r in s.registry && 0 <= i < |s.registry[r].revisions| ==> t <= s.registry[r].revisions[i].at)
  }

  /** Every recorded event lies between `created_at` and `updated_at`. */
  predicate ChronologyOk(s: State) {
    NoneBefore(s, s.created) && AllBefore(s, s.updated + 1)
  }

  /** The whole structural check: `validate_state` without file contents and bindings. */
  predicate ReplayOk(p: Policy, s: State)
    requires PolicyOk(p)
  {
    && GateRecordsOk(p, s)
    && LifecycleOk(p, s.records, s.registry, s.life)
    && s.stage < p.stages
    && StageHistoryOk(p, s.records, s.transitions, s.stage)
    && RegistryOk(s.registry)
    && ChronologyOk(s)
  }
}
