/**
 What the validators say about a reachable state.  The decision index they build and sort
 is the machine's own event list, so every reachable state passes the whole check.
 */
module GateVerdict {
  import opened Prelude
  import opened GateModel
  import opened GateTimeline
  import opened CascadeContract
  import opened CheckerAgreement
  import opened GateReplay
  import opened GateWriters
  import opened GateHistories
  import opened GateSteps
  import opened GateRuns

  // ----- sorting the decision index -----

  lemma {:induction false} InsertMember(evs: seq<Event>, e: Event, x: Event)
    ensures x in Insert(evs, e) <==> x in evs || x == e
  {
    if evs != [] {
      assert evs == evs[..|evs| - 1] + [evs[|evs| - 1]];
      InsertMember(evs[..|evs| - 1], e, x);
    }
  }

  lemma {:induction false} AppendOk(evs: seq<Event>, last: Event)
    requires Sorted(evs) && NoRepeats(evs)
    requires forall x :: x in evs ==> x != last && x.d.at <= last.d.at
    ensures Sorted(evs + [last]) && NoRepeats(evs + [last])
  {
    forall i | 0 <= i < |evs| ensures evs[i].d.at <= last.d.at && evs[i] != last { assert evs[i] in evs; }
  }

  lemma {:induction false} InsertSorted(evs: seq<Event>, e: Event)
    requires Sorted(evs) && NoRepeats(evs) && e !in evs
    ensures Sorted(Insert(evs, e)) && NoRepeats(Insert(evs, e))
  {
    if evs != [] {
      var init, last := evs[..|evs| - 1], evs[|evs| - 1];
      LastFresh(evs);
      forall x | x in init ensures x.d.at <= last.d.at {
        var i :| 0 <= i < |init| && init[i] == x;
        assert evs[i] == x;
      }
      if Precedes(last, e) {
        AppendOk(evs, e);
      } else {
        InsertSorted(init, e);
        forall x | x in Insert(init, e) ensures x != last && x.d.at <= last.d.at { InsertMember(init, e, x); }
        AppendOk(Insert(init, e), last);
      }
    }
  }

  lemma {:induction false} TimeSortedMember(evs: seq<Event>, x: Event)
    ensures x in TimeSorted(evs) <==> x in evs
  {
    if evs != [] {
      assert evs == evs[..|evs| - 1] + [evs[|evs| - 1]];
      TimeSortedMember(evs[..|evs| - 1], x);
      InsertMember(TimeSorted(evs[..|evs| - 1]), evs[|evs| - 1], x);
    }
  }

  lemma {:induction false} TimeSortedOk(evs: seq<Event>)
    requires NoRepeats(evs)
    ensures Sorted(TimeSorted(evs)) && NoRepeats(TimeSorted(evs))
  {
    if evs != [] {
      LastFresh(evs);
      TimeSortedOk(evs[..|evs| - 1]);
      TimeSortedMember(evs[..|evs| - 1], evs[|evs| - 1]);
      InsertSorted(TimeSorted(evs[..|evs| - 1]), evs[|evs| - 1]);
    }
  }

  // ----- the decision index -----

  lemma {:induction false} DecisionsMember(records: seq<GateRecord>, e: Event)
    ensures e in Decisions(records) <==> e.g < |records| && e.d in records[e.g].history
  {
    if records != [] {
      var g := |records| - 1;
      var n := |records[g].history|;
      var part := seq(n, i requires 0 <= i < |records[g].history| => Event(g, records[g].history[i]));
      DecisionsMember(records[..g], e);
      if e.g == g && e.d in records[g].history {
        var i :| 0 <= i < |records[g].history| && records[g].history[i] == e.d;
        assert part[i] == e;
      }
    }
  }

  lemma {:induction false} UniqueConcat(a: seq<Event>, b: seq<Event>)
    requires UniqueIds(a) && UniqueIds(b)
    requires forall x, y :: x in a && y in b ==> x.d.id != y.d.id
    ensures UniqueIds(a + b)
  {
    var c := a + b;
    forall i, j | 0 <= i < j < |c| ensures c[i].d.id != c[j].d.id {
      if i < |a| <= j { assert c[i] in a && c[j] in b; }
    }
  }

  predicate Increasing(h: seq<Decision>) {
    forall i, j :: 0 <= i < j < |h| ==> h[i].at < h[j].at
  }

  function EventsOf(g: nat, h: seq<Decision>): seq<Event> {
    seq(|h|, i requires 0 <= i < |h| => Event(g, h[i]))
  }

  lemma {:induction false} IndexedIsLogged(records: seq<GateRecord>, life: Lifecycle, log: seq<Event>, b: nat, e: Event)
    requires Logged(records, life, log, b)
    ensures e in log <==> e.g < |records| && e.d in records[e.g].history
  {
    if e.g < |records| { ProjMember(log, e.g, e.d); }
    if e in log { assert EventBelow(e, |records|, b); }
  }

  lemma {:induction false} DecisionsUnique(full: seq<GateRecord>, life: Lifecycle, log: seq<Event>, b: nat, k: nat)
    requires Logged(full, life, log, b) && k <= |full| && forall g :: 0 <= g < |full| ==> Increasing(full[g].history)
    ensures UniqueIds(Decisions(full[..k]))
  {
    if k > 0 {
      var g := k - 1;
      assert full[..k][..g] == full[..g];
      DecisionsUnique(full, life, log, b, g);
      var a, part := Decisions(full[..g]), EventsOf(g, full[g].history);
      assert Decisions(full[..k]) == a + part;
      PartUnique(full, life, log, b, g);
      forall x, y | x in a && y in part ensures x.d.id != y.d.id {
        hide Logged, Decisions;
        DecisionsMember(full[..g], x);
        IndexedIsLogged(full, life, log, b, x);
        IndexedIsLogged(full, life, log, b, y);
        if x.d.id == y.d.id { LoggedIdsUnique(full, life, log, b, x, y); }
      }
      UniqueConcat(a, part);
    }
  }

  lemma {:induction false} LoggedIdsUnique(records: seq<GateRecord>, life: Lifecycle, log: seq<Event>, b: nat,
      x: Event, y: Event)
    requires Logged(records, life, log, b) && x in log && y in log && x.d.id == y.d.id
    ensures x == y
  {
    SameId(log, y);
  }

  /** One record's decisions have distinct identifiers, being at distinct times. */
  lemma {:induction false} PartUnique(full: seq<GateRecord>, life: Lifecycle, log: seq<Event>, b: nat, g: nat)
    requires Logged(full, life, log, b) && g < |full| && Increasing(full[g].history)
    ensures UniqueIds(EventsOf(g, full[g].history))
  {
    hide Logged;
    var part := EventsOf(g, full[g].history);
    forall i, j | 0 <= i < j < |part| ensures part[i].d.id != part[j].d.id {
      IndexedIsLogged(full, life, log, b, part[i]);
      IndexedIsLogged(full, life, log, b, part[j]);
      if part[i].d.id == part[j].d.id { LoggedIdsUnique(full, life, log, b, part[i], part[j]); }
    }
  }

  lemma {:induction false} HistoryIncreases(p: Policy, reg: map<Role, Artifact>, g: nat, h: seq<Decision>, i: nat,
      j: nat)
    requires g < |p.contracts| && i < j < |h| && forall k :: 0 <= k < |h| ==> DecisionOk(p, reg, g, h, k)
    ensures h[i].at < h[j].at
  {
    assert DecisionOk(p, reg, g, h, j);
    if i < j - 1 { HistoryIncreases(p, reg, g, h, i, j - 1); }
  }

  /** Sorting the decision index of a sound state yields the machine's event list. */
  lemma {:induction false} IndexIsLog(p: Policy, s: State, log: seq<Event>)
    requires Sound(p, s, log)
    ensures UniqueIds(Decisions(s.records)) && TimeSorted(Decisions(s.records)) == log
  {
    hide PrerequisitesThen, LifecycleOk, StageHistoryOk, RegistryOk, CascadesOk, PrerequisitesNow;
    var index := Decisions(s.records);
    forall g | 0 <= g < |s.records| ensures Increasing(s.records[g].history) {
      assert RecordOk(p, s.registry, g, s.records[g]);
      forall i, j | 0 <= i < j < |s.records[g].history|
        ensures s.records[g].history[i].at < s.records[g].history[j].at
      {
        HistoryIncreases(p, s.registry, g, s.records[g].history, i, j);
      }
    }
    assert s.records[..|s.records|] == s.records;
    DecisionsUnique(s.records, s.life, log, s.nextId, |s.records|);
    hide RecordsOk;
    assert NoRepeats(index);
    TimeSortedOk(index);
    forall e ensures e in log <==> e in TimeSorted(index) {
      TimeSortedMember(index, e);
      DecisionsMember(s.records, e);
      IndexedIsLogged(s.records, s.life, log, s.nextId, e);
    }
    SortedUnique(log, TimeSorted(index));
  }

  /** The replay check without the rule that ties the current stage to the approvals. */
  ghost predicate HistoryOk(p: Policy, s: State) {
    && PolicyOk(p) && |s.records| == |p.owner|
    && (forall g :: 0 <= g < |s.records| ==> RecordOk(p, s.registry, g, s.records[g]))
    && UniqueIds(Decisions(s.records))
    && CascadesOk(|p.owner|, TimeSorted(Decisions(s.records)))
    && PrerequisitesNow(s.records)
    && PrerequisitesThen(s.records)
    && LifecycleOk(p, s.records, s.registry, s.life)
    && s.stage < p.stages
    && StageHistoryOk(p, s.records, s.transitions, s.stage)
    && RegistryOk(s.registry)
    && ChronologyOk(s)
  }

  lemma {:induction false} SoundIsAccepted(p: Policy, s: State, log: seq<Event>)
    requires Sound(p, s, log)
    ensures HistoryOk(p, s)
    ensures StageReached(p, s) ==> ReplayOk(p, s)
  {
    IndexIsLog(p, s, log);
    hide PrerequisitesThen, LifecycleOk, StageHistoryOk, RegistryOk, CascadesOk, PrerequisitesNow, RecordOk, Logged;
  }

  /**
   Main theorem: for every policy that loads, every state reached from a new project by
   any sequence of commands, under any clock, passes the replay check of the histories.
   */
  lemma {:induction false} RunsKeepHistory(p: Policy, now: Time, steps: seq<Step>)
    requires PolicyOk(p)
    ensures HistoryOk(p, Run(p, NewState(p, now), steps))
  {
    NewStateSound(p, now);
    var log := RunSound(p, NewState(p, now), [], steps);
    SoundIsAccepted(p, Run(p, NewState(p, now), steps), log);
  }

  /** In a sound state the approved GateRefs are a prefix of the sequence. */
  lemma {:induction false} ApprovedPrefix(records: seq<GateRecord>, k: nat) returns (n: nat)
    requires PrerequisitesNow(records) && k <= |records|
    ensures n <= k && forall g :: 0 <= g < k ==> (records[g].status == Approved <==> g < n)
  {
    if k == 0 {
      n := 0;
    } else {
      n := ApprovedPrefix(records, k - 1);
      if records[k - 1].status == Approved { n := k; }
    }
  }
}
