/** How the replay rules fare when one decision is appended: old entries keep their verdict. */
module GateHistories {
  import opened Prelude
  import opened GateModel
  import opened GateTimeline
  import opened CascadeContract
  import opened GateReplay
  import opened GateWriters

  ghost predicate RecordsOk(p: Policy, reg: map<Role, Artifact>, records: seq<GateRecord>) {
    |records| == |p.contracts| && forall g :: 0 <= g < |records| ==> RecordOk(p, reg, g, records[g])
  }

  /**
   `log` is the global list of Gate decisions: it is strictly sorted by time and each
   record holds exactly its part of it.  Every identifier in use is below `bound`.
   */
  ghost predicate Logged(records: seq<GateRecord>, life: Lifecycle, log: seq<Event>, bound: nat) {
    && (forall g :: 0 <= g < |records| ==> Proj(log, g) == records[g].history)
    && (forall e :: e in log ==> EventBelow(e, |records|, bound))
    && StrictlySorted(log) && UniqueIds(log)
    && (forall i :: 0 <= i < |life.history| ==> life.history[i].id < bound)
  }

  predicate EventBelow(e: Event, n: nat, bound: nat) {
    e.g < n && e.d.id < bound && (e.d.cascade.Some? ==> e.d.cascade.value.upstreamId < bound)
  }

  /** What holds between any two appends, even inside a cascade. */
  ghost predicate Mid(p: Policy, s: State, log: seq<Event>, bound: nat) {
    && PolicyOk(p) && |s.records| == |p.owner|
    && Logged(s.records, s.life, log, bound)
    && RecordsOk(p, s.registry, s.records)
    && PrerequisitesThen(s.records)
    && LifecycleOk(p, s.records, s.registry, s.life)
    && s.stage < p.stages
    && StageHistoryOk(p, s.records, s.transitions, s.stage)
    && RegistryOk(s.registry)
    && NoneBefore(s, s.created)
  }

  /** A decision that may come next in the history of `g`. */
  ghost predicate Appendable(p: Policy, s: State, log: seq<Event>, g: nat, d: Decision, bound: nat) {
    && g < |s.records| == |p.contracts| == |p.owner|
    && AllBefore(s, d.at) && s.created <= d.at
    && d.id < bound && (d.cascade.Some? ==> d.cascade.value.upstreamId < bound)
    && (forall e :: e in log ==> e.d.id != d.id)
    && (forall i :: 0 <= i < |s.life.history| ==> s.life.history[i].id != d.id)
    && DecisionOk(p, s.registry, g, s.records[g].history + [d], |s.records[g].history|)
    && (d.action == Approve ==> forall h :: 0 <= h < g ==> s.records[h].status == Approved)
  }

  // ----- single histories -----

  /** The status a record shows is the status before any later time. */
  lemma {:induction false} StatusAtEnd(h: seq<Decision>, t: Time)
    requires h != [] && h[|h| - 1].at < t
    ensures StatusAt(h, t) == Some(h[|h| - 1].next)
  {
  }

  lemma {:induction false} DecisionOkAppend(p: Policy, reg: map<Role, Artifact>, g: nat, h: seq<Decision>,
      d: Decision, i: nat)
    requires g < |p.contracts| && i < |h| && DecisionOk(p, reg, g, h, i)
    ensures DecisionOk(p, reg, g, h + [d], i)
  {
    assert (h + [d])[i] == h[i];
    assert (h + [d])[..i] == h[..i];
    if i > 0 { assert (h + [d])[i - 1] == h[i - 1]; }
  }

  lemma {:induction false} RecordOkAppend(p: Policy, reg: map<Role, Artifact>, g: nat, rec: GateRecord, d: Decision)
    requires g < |p.contracts| && RecordOk(p, reg, g, rec)
    requires DecisionOk(p, reg, g, rec.history + [d], |rec.history|)
    ensures RecordOk(p, reg, g, GateRecord(d.next, Some(d.id), rec.history + [d]))
  {
    var h := rec.history + [d];
    forall i | 0 <= i < |h| ensures DecisionOk(p, reg, g, h, i) {
      if i < |rec.history| { DecisionOkAppend(p, reg, g, rec.history, d, i); }
    }
  }

  // ----- one append, rule by rule -----

  lemma {:induction false} LoggedAppend(p: Policy, s: State, log: seq<Event>, b: nat, g: nat, d: Decision, bound: nat)
    requires Logged(s.records, s.life, log, b) && b <= bound && Appendable(p, s, log, g, d, bound)
    ensures Logged(Push(s, g, d).records, s.life, log + [Event(g, d)], bound)
  {
    var e := Event(g, d);
    forall k | 0 <= k < |s.records| ensures Proj(log + [e], k) == Push(s, g, d).records[k].history {
      ProjAppend(log, e, k);
    }
    forall x | x in log ensures x.d.at < d.at && x.d.id != d.id {
      LoggedBefore(s, log, b, x);
    }
    hide DecisionOk, AllBefore, Proj;
    LogAppend(log, e);
    assert forall x :: x in log + [e] <==> x in log || x == e;
  }

  lemma {:induction false} LogAppend(log: seq<Event>, e: Event)
    requires StrictlySorted(log) && UniqueIds(log)
    requires forall x :: x in log ==> x.d.at < e.d.at && x.d.id != e.d.id
    ensures StrictlySorted(log + [e]) && UniqueIds(log + [e])
  {
    assert forall i :: 0 <= i < |log| ==> log[i] in log;
  }

  /** A logged event sits in its record, so its time is recorded. */
  lemma {:induction false} LoggedBefore(s: State, log: seq<Event>, b: nat, e: Event)
    requires Logged(s.records, s.life, log, b) && e in log
    ensures e.g < |s.records| && e.d in s.records[e.g].history
    ensures forall t :: AllBefore(s, t) ==> e.d.at < t
  {
    assert EventBelow(e, |s.records|, b);
    ProjMember(log, e.g, e.d);
    var i :| 0 <= i < |s.records[e.g].history| && s.records[e.g].history[i] == e.d;
  }

  lemma {:induction false} PrerequisitesThenAppend(p: Policy, s: State, log: seq<Event>, g: nat, d: Decision,
      bound: nat)
    requires RecordsOk(p, s.registry, s.records) && PrerequisitesThen(s.records) && Appendable(p, s, log, g, d, bound)
    ensures PrerequisitesThen(Push(s, g, d).records)
  {
    var s' := Push(s, g, d);
    forall h, k, i | 0 <= h < k < |s'.records| && 0 <= i < |s'.records[k].history|
        && s'.records[k].history[i].action == Approve
      ensures StatusAt(s'.records[h].history, s'.records[k].history[i].at) == Some(Approved)
    {
      var t := s'.records[k].history[i].at;
      StatusAtAppend(s.records[h].history, d, t);
      if k == g && i == |s.records[g].history| {
        assert RecordOk(p, s.registry, h, s.records[h]);
        StatusAtEnd(s.records[h].history, t);
      } else {
        assert s'.records[k].history[i] == s.records[k].history[i];
      }
    }
  }

  lemma {:induction false} StageHistoryAppend(p: Policy, s: State, g: nat, d: Decision)
    requires |s.records| == |p.owner| && g < |s.records| && AllBefore(s, d.at)
    requires StageHistoryOk(p, s.records, s.transitions, s.stage)
    ensures StageHistoryOk(p, Push(s, g, d).records, s.transitions, s.stage)
  {
    var s' := Push(s, g, d);
    forall i | 0 <= i < |s.transitions| ensures TransitionOk(p, s'.records, s.transitions[i]) {
      var tr := s.transitions[i];
      assert TransitionOk(p, s.records, tr);
      if !tr.trigger.ByCheckpoint? {
        var k, j :| 0 <= k < |s.records| && 0 <= j < |s.records[k].history|
            && Justifies(p, s.records[k].history, k, j, tr);
        assert s'.records[k].history[j] == s.records[k].history[j];
        assert Justifies(p, s'.records[k].history, k, j, tr);
      }
    }
  }

  lemma {:induction false} LifecycleAppend(p: Policy, s: State, log: seq<Event>, g: nat, d: Decision, bound: nat)
    requires p.release < |s.records| && LifecycleOk(p, s.records, s.registry, s.life)
    requires Appendable(p, s, log, g, d, bound)
    ensures LifecycleOk(p, Push(s, g, d).records, s.registry, s.life)
  {
    var s' := Push(s, g, d);
    forall i | 0 <= i < |s.life.history| ensures LifeDecisionOk(p, s'.records, s.registry, s.life.history, i) {
      var e := s.life.history[i];
      assert LifeDecisionOk(p, s.records, s.registry, s.life.history, i);
      StatusAtAppend(s.records[p.release].history, d, e.at);
      if e.linked.Some? { NamesReopenAppend(s, g, d, e.linked.value.0, e.linked.value.1); }
    }
  }

  lemma {:induction false} NamesReopenAppend(s: State, g: nat, d: Decision, k: nat, id: Id)
    requires g < |s.records| && NamesReopen(s.records, k, id)
    ensures NamesReopen(Push(s, g, d).records, k, id)
  {
    var i :| 0 <= i < |s.records[k].history| && s.records[k].history[i].id == id
        && s.records[k].history[i].action == Reopen;
    assert Push(s, g, d).records[k].history[i] == s.records[k].history[i];
  }

  /** One append keeps everything that must hold between appends. */
  lemma {:induction false} MidAppend(p: Policy, s: State, log: seq<Event>, b: nat, g: nat, d: Decision, bound: nat)
    requires Mid(p, s, log, b) && b <= bound && Appendable(p, s, log, g, d, bound)
    ensures Mid(p, Push(s, g, d), log + [Event(g, d)], bound)
    ensures forall t :: AllBefore(s, t) && d.at < t ==> AllBefore(Push(s, g, d), t)
  {
    hide Logged, PrerequisitesThen, LifecycleOk, StageHistoryOk, RegistryOk, DecisionOk;
    LoggedAppend(p, s, log, b, g, d, bound);
    RecordOkAppend(p, s.registry, g, s.records[g], d);
    PrerequisitesThenAppend(p, s, log, g, d, bound);
    StageHistoryAppend(p, s, g, d);
    LifecycleAppend(p, s, log, g, d, bound);
  }

  lemma {:induction false} StageHistoryMove(p: Policy, records: seq<GateRecord>, ts: seq<Transition>, stage: nat,
      tr: Transition)
    requires |records| == |p.owner| && StageHistoryOk(p, records, ts, stage)
    requires tr.from == stage && TransitionOk(p, records, tr)
    requires forall i :: 0 <= i < |ts| ==> ts[i].at < tr.at
    ensures StageHistoryOk(p, records, ts + [tr], tr.to)
  {
    var ts' := ts + [tr];
    forall i | 0 <= i < |ts'| ensures TransitionOk(p, records, ts'[i]) {
      if i < |ts| { assert TransitionOk(p, records, ts[i]); }
    }
  }

  /** A transition justified by the newest decision extends the stage history. */
  lemma {:induction false} MidMove(p: Policy, s: State, log: seq<Event>, b: nat, to: nat, trigger: Trigger, t: Time)
    requires Mid(p, s, log, b) && s.created <= t
    requires forall i :: 0 <= i < |s.transitions| ==> s.transitions[i].at < t
    requires TransitionOk(p, s.records, Transition(s.stage, to, trigger, t))
    ensures Mid(p, MoveStage(s, to, trigger, t), log, b)
    ensures forall u :: AllBefore(s, u) && t < u ==> AllBefore(MoveStage(s, to, trigger, t), u)
  {
    StageHistoryMove(p, s.records, s.transitions, s.stage, Transition(s.stage, to, trigger, t));
  }
}
