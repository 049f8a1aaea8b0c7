/** `validate_gate_records` as the validator runs it: one pass per record, then the rules across records. */
module GateValidator {
  import opened Prelude
  import opened GateModel
  import opened GateTimeline
  import opened CascadeContract
  import opened CheckerAgreement
  import opened GateReplay
  import opened GateVerdict

  /** `_approval_before`: the last decision strictly earlier is an approval. */
  method ApprovalBefore(history: seq<Decision>, t: Time) returns (ok: bool)
    ensures ok <==> StatusAt(history, t) == Some(Approved)
  {
    var candidate: Option<Status> := None;
    for index := 0 to |history|
      invariant candidate == StatusAt(history[..index], t)
    {
      assert history[..index + 1] == history[..index] + [history[index]];
      StatusAtAppend(history[..index], history[index], t);
      if history[index].at < t { candidate := Some(history[index].next); }
    }
    assert history[..|history|] == history;
    ok := candidate == Some(Approved);
  }

  lemma {:induction false} EventsNext(g: nat, h: seq<Decision>, i: nat)
    requires i < |h|
    ensures EventsOf(g, h[..i + 1]) == EventsOf(g, h[..i]) + [Event(g, h[i])]
  {
  }

  /** A fresh identifier keeps a decision index unique, a used one spoils it. */
  lemma {:induction false} UniqueNext(index: seq<Event>, e: Event)
    ensures UniqueIds(index + [e]) <==> UniqueIds(index) && e.d.id !in IdsOf(index)
    ensures IdsOf(index + [e]) == IdsOf(index) + {e.d.id}
  {
    var all := index + [e];
    assert all[|index|] == e && forall i :: 0 <= i < |index| ==> all[i] == index[i];
    forall id ensures id in IdsOf(all) <==> id in IdsOf(index) || id == e.d.id {
      if id in IdsOf(index) { var x :| x in index && x.d.id == id; assert x in all; }
      if id == e.d.id { assert e in all; }
    }
    if UniqueIds(index) && e.d.id !in IdsOf(index) {
      forall i | 0 <= i < |index| ensures index[i].d.id != e.d.id { assert index[i] in index; }
    }
  }

  /** The rules on one entry that do not concern identifiers, from what the loop carries. */
  predicate EntryOk(p: Policy, reg: map<Role, Artifact>, g: nat, d: Decision, expected: Status, before: Option<Time>,
      refs: seq<Ref>)
    requires g < |p.contracts|
  {
    && d.previous == expected
    && TransitionShape(d)
    && (d.cascade.Some? ==> d.cascade.value.upstreamGate < |p.owner| && d.cascade.value.upstreamReason != "")
    && d.reason != "" && DefenseOk(d.defense)
    && (before.Some? ==> before.value < d.at)
    && (forall r :: r in d.refs ==> Retained(reg, r) && (d.action == Approve ==> r.revision.at < d.at))
    && (if d.action == Approve then ApprovalOk(p, g, d) else d.refs == refs && d.mode.None? && d.waived == [])
  }

  lemma {:induction false} EntryIsDecision(p: Policy, reg: map<Role, Artifact>, g: nat, h: seq<Decision>, i: nat)
    requires g < |p.contracts| && i < |h|
    ensures EntryOk(p, reg, g, h[i], if i == 0 then Pending else h[i - 1].next,
                    if i == 0 then None else Some(h[i - 1].at), LatestRefs(h[..i]))
       <==> DecisionOk(p, reg, g, h, i)
    ensures LatestRefs(h[..i + 1]) == if h[i].action == Approve then h[i].refs else LatestRefs(h[..i])
  {
    assert h[..i + 1][..i] == h[..i];
    hide Retained, ApprovalOk, DefenseOk;
  }

  /** The first `i` entries are in order and bring no identifier used before. */
  ghost predicate HistoryPasses(p: Policy, reg: map<Role, Artifact>, g: nat, h: seq<Decision>, i: nat,
      index: seq<Event>)
    requires g < |p.contracts| && i <= |h|
  {
    (forall j :: 0 <= j < i ==> DecisionOk(p, reg, g, h, j)) && UniqueIds(index + EventsOf(g, h[..i]))
  }

  lemma {:induction false} HistoryPassesNext(p: Policy, reg: map<Role, Artifact>, g: nat, h: seq<Decision>, i: nat,
      index: seq<Event>)
    requires g < |p.contracts| && i < |h|
    ensures var e := Event(g, h[i]);
            && index + EventsOf(g, h[..i + 1]) == (index + EventsOf(g, h[..i])) + [e]
            && (HistoryPasses(p, reg, g, h, i + 1, index)
                <==> HistoryPasses(p, reg, g, h, i, index) && DecisionOk(p, reg, g, h, i)
                     && e.d.id !in IdsOf(index + EventsOf(g, h[..i])))
  {
    var listed, e := index + EventsOf(g, h[..i]), Event(g, h[i]);
    EventsNext(g, h, i);
    UniqueNext(listed, e);
    assert index + EventsOf(g, h[..i + 1]) == listed + [e];
    hide DecisionOk, UniqueIds, IdsOf, EventsOf;
  }

  /** The loop of `_validate_gate_record`; it carries the status, time and references of the entry before. */
  method ValidateHistory(p: Policy, reg: map<Role, Artifact>, g: nat, history: seq<Decision>, ids0: set<Id>,
      index0: seq<Event>)
    returns (ok: bool, ids: set<Id>, index: seq<Event>)
    requires g < |p.contracts| && UniqueIds(index0) && ids0 == IdsOf(index0)
    ensures UniqueIds(index) && ids == IdsOf(index)
    ensures ok <==> HistoryPasses(p, reg, g, history, |history|, index0)
    ensures ok ==> index == index0 + EventsOf(g, history)
  {
    ok, ids, index := true, ids0, index0;
    var expected, before: Option<Time>, refs: seq<Ref> := Pending, None, [];
    assert index0 + EventsOf(g, history[..0]) == index0;
    for i := 0 to |history|
      invariant expected == if i == 0 then Pending else history[i - 1].next
      invariant before == if i == 0 then None else Some(history[i - 1].at)
      invariant refs == LatestRefs(history[..i])
      invariant UniqueIds(index) && ids == IdsOf(index)
      invariant ok ==> index == index0 + EventsOf(g, history[..i])
      invariant ok <==> HistoryPasses(p, reg, g, history, i, index0)
    {
      hide *;
      var d := history[i];
      EntryIsDecision(p, reg, g, history, i);
      HistoryPassesNext(p, reg, g, history, i, index0);
      UniqueNext(index, Event(g, d));
      if d.id in ids { ok := false; } else { ids, index := ids + {d.id}, index + [Event(g, d)]; }
      if !EntryOk(p, reg, g, d, expected, before, refs) { ok := false; }
      expected, before := d.next, Some(d.at);
      if d.action == Approve { refs := d.refs; }
    }
    assert history[..|history|] == history;
  }

  /** `_validate_gate_record`. */
  method ValidateGateRecord(p: Policy, reg: map<Role, Artifact>, g: nat, rec: GateRecord, ids0: set<Id>,
      index0: seq<Event>)
    returns (ok: bool, ids: set<Id>, index: seq<Event>)
    requires g < |p.contracts| && UniqueIds(index0) && ids0 == IdsOf(index0)
    ensures UniqueIds(index) && ids == IdsOf(index)
    ensures ok <==> RecordOk(p, reg, g, rec) && UniqueIds(index0 + EventsOf(g, rec.history))
    ensures ok ==> index == index0 + EventsOf(g, rec.history)
  {
    var history := rec.history;
    if history == [] {
      assert index0 + EventsOf(g, history) == index0;
      return rec.latest.None? && rec.status == Pending, ids0, index0;
    }
    hide DecisionOk, UniqueIds, IdsOf, EventsOf;
    ok, ids, index := ValidateHistory(p, reg, g, history, ids0, index0);
    assert history[..|history|] == history;
    var last := history[|history| - 1];
    if rec.latest != Some(last.id) || rec.status != last.next { ok := false; }
  }

  /** Approved GateRefs, now and when each was approved, had every prerequisite approved. */
  method CheckPrerequisites(records: seq<GateRecord>) returns (ok: bool)
    ensures ok <==> PrerequisitesNow(records) && PrerequisitesThen(records)
  {
    ok := true;
    for g := 0 to |records|
      invariant ok <==> forall k :: 0 <= k < g ==> PrerequisitesOf(records, k)
    {
      var good := CheckPrerequisitesOf(records, g);
      hide PrerequisitesOf;
      ok := ok && good;
    }
    PrerequisitesAll(records);
  }

  ghost predicate PrerequisitesOf(records: seq<GateRecord>, g: nat)
    requires g < |records|
  {
    && (records[g].status == Approved ==> forall h :: 0 <= h < g ==> records[h].status == Approved)
    && (forall i :: 0 <= i < |records[g].history| ==> ApprovalBacked(records, g, i))
  }

  ghost predicate ApprovalBacked(records: seq<GateRecord>, g: nat, i: nat)
    requires g < |records| && i < |records[g].history|
  {
    records[g].history[i].action == Approve ==>
      forall h :: 0 <= h < g ==> StatusAt(records[h].history, records[g].history[i].at) == Some(Approved)
  }

  lemma {:induction false} PrerequisitesAll(records: seq<GateRecord>)
    ensures (forall k :: 0 <= k < |records| ==> PrerequisitesOf(records, k))
       <==> PrerequisitesNow(records) && PrerequisitesThen(records)
  {
    if forall k :: 0 <= k < |records| ==> PrerequisitesOf(records, k) {
      forall h, g, i | 0 <= h < g < |records| && 0 <= i < |records[g].history|
          && records[g].history[i].action == Approve
        ensures StatusAt(records[h].history, records[g].history[i].at) == Some(Approved)
      { assert PrerequisitesOf(records, g) && ApprovalBacked(records, g, i); }
      forall h, g | 0 <= h < g < |records| && records[g].status == Approved ensures records[h].status == Approved {
        assert PrerequisitesOf(records, g);
      }
    }
  }

  method CheckPrerequisitesOf(records: seq<GateRecord>, g: nat) returns (ok: bool)
    requires g < |records|
    ensures ok <==> PrerequisitesOf(records, g)
  {
    ok := records[g].status == Approved ==> forall h :: 0 <= h < g ==> records[h].status == Approved;
    ghost var statuses := ok;
    for i := 0 to |records[g].history|
      invariant ok <==> statuses && forall j :: 0 <= j < i ==> ApprovalBacked(records, g, j)
    {
      var d := records[g].history[i];
      var backed := true;
      if d.action == Approve {
        for h := 0 to g
          invariant backed <==> forall k :: 0 <= k < h ==> StatusAt(records[k].history, d.at) == Some(Approved)
        {
          var approved := ApprovalBefore(records[h].history, d.at);
          backed := backed && approved;
        }
      }
      assert backed <==> ApprovalBacked(records, g, i);
      hide ApprovalBacked;
      ok := ok && backed;
    }
  }

  /** The first `g` records are in order and share no identifier. */
  ghost predicate RecordsPass(p: Policy, s: State, g: nat)
    requires g <= |s.records| == |p.contracts|
  {
    (forall k :: 0 <= k < g ==> RecordOk(p, s.registry, k, s.records[k])) && UniqueIds(Decisions(s.records[..g]))
  }

  lemma {:induction false} RecordsPassNext(p: Policy, s: State, g: nat)
    requires g < |s.records| == |p.contracts|
    ensures Decisions(s.records[..g + 1]) == Decisions(s.records[..g]) + EventsOf(g, s.records[g].history)
    ensures RecordsPass(p, s, g + 1)
      <==> RecordsPass(p, s, g) && RecordOk(p, s.registry, g, s.records[g])
           && UniqueIds(Decisions(s.records[..g]) + EventsOf(g, s.records[g].history))
  {
    DecisionsNext(s.records, g);
    UniquePrefix(Decisions(s.records[..g]), EventsOf(g, s.records[g].history));
    hide RecordOk, UniqueIds, Decisions;
  }

  /** The pass over all records, filling the decision index. */
  method ValidateEachRecord(p: Policy, s: State) returns (ok: bool, index: seq<Event>)
    requires |s.records| == |p.contracts|
    ensures ok <==> RecordsPass(p, s, |s.records|)
    ensures UniqueIds(index) && (ok ==> index == Decisions(s.records))
  {
    ok := true;
    var ids: set<Id> := {};
    index := [];
    for g := 0 to |s.records|
      invariant UniqueIds(index) && ids == IdsOf(index)
      invariant ok ==> index == Decisions(s.records[..g])
      invariant ok <==> RecordsPass(p, s, g)
    {
      hide RecordOk, UniqueIds, IdsOf, Decisions, RecordsPass;
      RecordsPassNext(p, s, g);
      var good;
      good, ids, index := ValidateGateRecord(p, s.registry, g, s.records[g], ids, index);
      ok := ok && good;
    }
    assert s.records[..|s.records|] == s.records;
  }

  /** `validate_gate_records`. */
  method ValidateGateRecords(p: Policy, s: State) returns (ok: bool)
    requires PolicyOk(p)
    ensures ok <==> GateRecordsOk(p, s)
  {
    if |s.records| != |p.owner| { return false; }
    var passed, index := ValidateEachRecord(p, s);
    assert s.records[..|s.records|] == s.records;
    assert passed
      <==> (forall g :: 0 <= g < |s.records| ==> RecordOk(p, s.registry, g, s.records[g]))
           && UniqueIds(Decisions(s.records));
    hide RecordOk, Decisions, StageReached, PrerequisitesNow, PrerequisitesThen, PolicyOk, UniqueIds, RecordsPass;
    hide CascadesOk, TimeSorted;
    UniqueSorted(index);
    var cascades := CheckByGroups(|p.owner|, TimeSorted(index));
    var prerequisites := CheckPrerequisites(s.records);
    ok := passed && cascades && prerequisites && StageReached(p, s);
  }

  lemma {:induction false} DecisionsNext(records: seq<GateRecord>, g: nat)
    requires g < |records|
    ensures Decisions(records[..g + 1]) == Decisions(records[..g]) + EventsOf(g, records[g].history)
  {
    assert records[..g + 1][..g] == records[..g];
  }

  lemma {:induction false} UniquePrefix(a: seq<Event>, b: seq<Event>)
    ensures UniqueIds(a + b) ==> UniqueIds(a)
  {
    assert forall i :: 0 <= i < |a| ==> (a + b)[i] == a[i];
  }

  /** Sorting by time keeps identifiers distinct. */
  lemma {:induction false} UniqueSorted(index: seq<Event>)
    requires UniqueIds(index)
    ensures Sorted(TimeSorted(index)) && UniqueIds(TimeSorted(index))
  {
    var sorted := TimeSorted(index);
    assert NoRepeats(index);
    TimeSortedOk(index);
    forall i, j | 0 <= i < j < |sorted| ensures sorted[i].d.id != sorted[j].d.id {
      TimeSortedMember(index, sorted[i]);
      TimeSortedMember(index, sorted[j]);
      assert sorted[i] in index && sorted[j] in index && sorted[i] != sorted[j];
      if sorted[i].d.id == sorted[j].d.id { SameId(index, sorted[i]); }
    }
  }
}
