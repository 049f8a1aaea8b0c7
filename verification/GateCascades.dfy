/** The reopen transaction: the cascade it records is exactly the one the checkers demand. */
module GateCascades {
  import opened Prelude
  import opened GateModel
  import opened GateTimeline
  import opened CascadeContract
  import opened GateReplay
  import opened GateWriters
  import opened GateHistories

  // ----- old blocks under later events -----

  ghost predicate AllAtOrAfter(evs: seq<Event>, t: Time) {
    forall e :: e in evs ==> t <= e.d.at
  }

  lemma {:induction false} StatusBeforeLater(a: seq<Event>, b: seq<Event>, g: nat, t: Time)
    requires AllAtOrAfter(b, t)
    ensures StatusBefore(a + b, g, t) == StatusBefore(a, g, t)
  {
    if b == [] {
      assert a + b == a;
    } else {
      var init, last := b[..|b| - 1], b[|b| - 1];
      assert a + b == (a + init) + [last];
      StatusBeforeAppend(a + init, last, g, t);
      assert forall e :: e in init ==> e in b;
      StatusBeforeLater(a, init, g, t);
    }
  }

  lemma {:induction false} DownstreamLater(a: seq<Event>, b: seq<Event>, g: nat, k: nat, t: Time)
    requires AllAtOrAfter(b, t)
    ensures Downstream(a + b, g, k, t) == Downstream(a, g, k, t)
  {
    if k > g + 1 {
      StatusBeforeLater(a, b, k - 1, t);
      DownstreamLater(a, b, g, k - 1, t);
    }
  }

  lemma {:induction false} LinkedConcat(a: seq<Event>, b: seq<Event>, id: Id)
    ensures Linked(a + b, id) == Linked(a, id) + Linked(b, id)
  {
    if b == [] {
      assert a + b == a;
    } else {
      var init, last := b[..|b| - 1], b[|b| - 1];
      assert a + b == (a + init) + [last] && b == init + [last];
      LinkedAppend(a + init, last, id);
      LinkedConcat(a, init, id);
      LinkedAppend(init, last, id);
    }
  }

  lemma {:induction false} LinkedAll(b: seq<Event>, id: Id)
    ensures (forall e :: e in b ==> Links(e, id)) ==> Linked(b, id) == b
    ensures (forall e :: e in b ==> !Links(e, id)) ==> Linked(b, id) == []
  {
    if b != [] {
      var init, last := b[..|b| - 1], b[|b| - 1];
      assert b == init + [last];
      LinkedAll(init, id);
    }
  }

  /** A root that is in `a` keeps its verdict when later decisions that do not name it follow. */
  lemma {:induction false} BlockOkLater(n: nat, a: seq<Event>, b: seq<Event>, r: Event)
    requires r in a && BlockOk(n, a, r, Linked(a, r.d.id))
    requires forall x, y :: x in a && y in b ==> x.d.at < y.d.at
    requires forall y :: y in b ==> !Links(y, r.d.id)
    ensures BlockOk(n, a + b, r, Linked(a + b, r.d.id))
  {
    LinkedConcat(a, b, r.d.id);
    LinkedAll(b, r.d.id);
    var l := Linked(a, r.d.id);
    assert Linked(a + b, r.d.id) == l;
    assert Start(r, l) <= r.d.at by {
      if l != [] { assert l[0] in l; }
    }
    DownstreamLater(a, b, r.g, n, Start(r, l));
  }

  lemma {:induction false} HasRootLater(a: seq<Event>, b: seq<Event>, id: Id)
    requires HasRoot(a, id)
    ensures HasRoot(a + b, id)
  {
    var r :| r in a && IsRoot(r) && r.d.id == id;
    assert r in a + b;
  }

  /** Later decisions leave every rule on earlier ones intact. */
  lemma {:induction false} CascadesOkLater(n: nat, a: seq<Event>, b: seq<Event>)
    requires CascadesOk(n, a)
    requires forall x, y :: x in a && y in b ==> x.d.at < y.d.at
    requires forall x, y :: x in a && y in b && IsRoot(x) ==> !Links(y, x.d.id)
    ensures forall r :: r in a && IsRoot(r) ==> BlockOk(n, a + b, r, Linked(a + b, r.d.id))
    ensures forall e :: e in a && e.d.cascade.Some? ==> HasRoot(a + b, e.d.cascade.value.upstreamId)
  {
    forall r | r in a && IsRoot(r) ensures BlockOk(n, a + b, r, Linked(a + b, r.d.id)) {
      BlockOkLater(n, a, b, r);
    }
    forall e | e in a && e.d.cascade.Some? ensures HasRoot(a + b, e.d.cascade.value.upstreamId) {
      HasRootLater(a, b, e.d.cascade.value.upstreamId);
    }
  }

  lemma {:induction false} CascadesOkApprove(n: nat, a: seq<Event>, e: Event)
    requires CascadesOk(n, a) && e.d.action == Approve && e.d.cascade.None?
    requires forall x :: x in a ==> x.d.at < e.d.at
    ensures CascadesOk(n, a + [e])
  {
    CascadesOkLater(n, a, [e]);
  }

  lemma {:induction false} ConcatSorted(a: seq<Event>, b: seq<Event>, x: Event, y: Event)
    requires StrictlySorted(a + b) && x in a && y in b
    ensures x.d.at < y.d.at
  {
    var i :| 0 <= i < |a| && a[i] == x;
    var j :| 0 <= j < |b| && b[j] == y;
    assert (a + b)[i] == x && (a + b)[|a| + j] == y;
  }

  lemma {:induction false} LinkedBlock(a: seq<Event>, l: seq<Event>, r: Event)
    requires IsRoot(r)
    requires forall x :: x in a ==> !Links(x, r.d.id)
    requires forall e :: e in l ==> Links(e, r.d.id)
    ensures Linked(a + (l + [r]), r.d.id) == l
  {
    LinkedConcat(a, l + [r], r.d.id);
    LinkedConcat(l, [r], r.d.id);
    LinkedAll(a, r.d.id);
    LinkedAll(l, r.d.id);
    LinkedAll([r], r.d.id);
  }

  /** A complete block, with the cascade the statuses before it call for. */
  lemma {:induction false} CascadesOkBlock(n: nat, a: seq<Event>, l: seq<Event>, r: Event)
    requires CascadesOk(n, a) && IsRoot(r) && StrictlySorted(a + (l + [r]))
    requires forall x :: x in a ==> x.d.id != r.d.id && !Links(x, r.d.id)
    requires forall e :: e in l ==> Links(e, r.d.id) && Provenance(e, r)
    requires Gates(l) == Downstream(a, r.g, n, Start(r, l))
    ensures CascadesOk(n, a + (l + [r]))
  {
    var b := l + [r];
    var evs := a + b;
    forall x, y | x in a && y in b ensures x.d.at < y.d.at { ConcatSorted(a, b, x, y); }
    forall x, y | x in a && y in b && IsRoot(x) ensures !Links(y, x.d.id) { assert y in l || y == r; }
    CascadesOkLater(n, a, b);
    LinkedBlock(a, l, r);
    NewBlockOk(n, a, l, r);
    BlockCovered(n, a, l, r);
  }

  lemma {:induction false} BlockCovered(n: nat, a: seq<Event>, l: seq<Event>, r: Event)
    requires IsRoot(r) && forall e :: e in l ==> Links(e, r.d.id) && Provenance(e, r)
    requires BlockOk(n, a + (l + [r]), r, Linked(a + (l + [r]), r.d.id))
    requires forall x :: x in a && IsRoot(x) ==> BlockOk(n, a + (l + [r]), x, Linked(a + (l + [r]), x.d.id))
    requires forall e :: e in a && e.d.cascade.Some? ==> HasRoot(a + (l + [r]), e.d.cascade.value.upstreamId)
    ensures CascadesOk(n, a + (l + [r]))
  {
    var evs := a + (l + [r]);
    assert r in evs;
    assert HasRoot(evs, r.d.id);
    assert forall e :: e in evs ==> e in a || e in l || e == r;
  }

  lemma {:induction false} NewBlockOk(n: nat, a: seq<Event>, l: seq<Event>, r: Event)
    requires StrictlySorted(a + (l + [r]))
    requires forall x, y :: x in a && y in l + [r] ==> x.d.at < y.d.at
    requires forall e :: e in l ==> Links(e, r.d.id) && Provenance(e, r)
    requires Gates(l) == Downstream(a, r.g, n, Start(r, l))
    ensures BlockOk(n, a + (l + [r]), r, l)
  {
    var b := l + [r];
    var evs := a + b;
    assert StrictlySorted(l) by {
      forall i, j | 0 <= i < j < |l| ensures l[i].d.at < l[j].d.at {
        assert evs[|a| + i] == l[i] && evs[|a| + j] == l[j];
      }
    }
    assert AllAtOrAfter(b, Start(r, l)) by {
      if l != [] { assert l[0] in l; }
    }
    DownstreamLater(a, b, r.g, n, Start(r, l));
    assert (if l == [] then r else l[0]) in b;
    assert forall x :: x in a ==> x.d.at < Start(r, l);
    forall e | e in evs && Start(r, l) <= e.d.at < r.d.at ensures Links(e, r.d.id) {
      assert e in a || e in l || e == r;
    }
  }

  // ----- the cascade loop -----

  /** The approved GateRefs after `g` and below `k`, last first, by their current status. */
  function ApprovedBelow(s: State, g: nat, k: nat): seq<nat>
    requires k <= |s.records|
  {
    if k <= g + 1 then []
    else (if s.records[k - 1].status == Approved then [k - 1] else []) + ApprovedBelow(s, g, k - 1)
  }

  /** Before any time later than the whole log, the status of a GateRef is its current one. */
  lemma {:induction false} StatusIsCurrent(p: Policy, s: State, log: seq<Event>, b: nat, g: nat, t: Time)
    requires Logged(s.records, s.life, log, b) && RecordsOk(p, s.registry, s.records) && g < |s.records|
    requires AllBefore(s, t)
    ensures ApprovedBefore(log, g, t) <==> s.records[g].status == Approved
  {
    assert RecordOk(p, s.registry, g, s.records[g]);
    if s.records[g].history != [] { StatusAtEnd(s.records[g].history, t); }
  }

  lemma {:induction false} DownstreamIsApproved(p: Policy, s: State, log: seq<Event>, b: nat, g: nat, k: nat, t: Time)
    requires Logged(s.records, s.life, log, b) && RecordsOk(p, s.registry, s.records) && k <= |s.records|
    requires AllBefore(s, t)
    ensures Downstream(log, g, k, t) == ApprovedBelow(s, g, k)
  {
    if k > g + 1 {
      StatusIsCurrent(p, s, log, b, k - 1, t);
      DownstreamIsApproved(p, s, log, b, g, k - 1, t);
    }
  }

  lemma {:induction false} ApprovedBelowSame(s: State, s': State, g: nat, k: nat)
    requires k <= |s.records| == |s'.records|
    requires forall x :: g < x < k ==> s'.records[x] == s.records[x]
    ensures ApprovedBelow(s', g, k) == ApprovedBelow(s, g, k)
  {
    if k > g + 1 { ApprovedBelowSame(s, s', g, k - 1); }
  }

  lemma {:induction false} GatesAppend(e: Event, l: seq<Event>)
    ensures Gates([e] + l) == [e.g] + Gates(l)
  {
  }

  /** Only the records and the identifier source change. */
  predicate SameOutsideRecords(s: State, s': State) {
    s' == s.(records := s'.records, nextId := s'.nextId) && |s'.records| == |s.records|
  }

  /** A decision of the cascade that root decision `root` of GateRef `g` causes. */
  predicate CascadeEvent(e: Event, g: nat, root: Id, reason: string, defense: Defense) {
    e.d.action == Reopen && e.d.cascade == Some(Cascade(g, root, reason)) && e.d.defense == defense
  }

  lemma {:induction false} CascadeAppendable(p: Policy, s: State, log: seq<Event>, j: nat, g: nat, root: Id,
                          reason: string, defense: Defense, t: Time)
    requires Mid(p, s, log, s.nextId) && AllBefore(s, t) && j < |s.records| && s.records[j].status == Approved
    requires g < |s.records| && root < s.nextId && reason != "" && DefenseOk(defense)
    ensures Appendable(p, s, log, j, CascadeDecision(s, j, g, root, reason, defense, t), s.nextId + 1)
  {
    var d := CascadeDecision(s, j, g, root, reason, defense, t);
    ReopenDecisionOk(p, s, j, d);
    forall e | e in log ensures e.d.id != d.id {
      assert EventBelow(e, |p.owner|, s.nextId);
    }
  }

  /** A reopen of an approved record, with its latest approved references, continues its history. */
  lemma {:induction false} ReopenDecisionOk(p: Policy, s: State, j: nat, d: Decision)
    requires PolicyOk(p) && RecordsOk(p, s.registry, s.records) && j < |s.records| == |p.owner|
    requires s.records[j].status == Approved
    requires AllBefore(s, d.at) && d.action == Reopen && d.previous == Approved && d.next == Reopened
    requires d.cascade.Some? ==> d.cascade.value.upstreamGate < |p.owner| && d.cascade.value.upstreamReason != ""
    requires d.reason != "" && DefenseOk(d.defense) && d.mode.None? && d.waived == []
    requires d.refs == LatestRefs(s.records[j].history)
    ensures DecisionOk(p, s.registry, j, s.records[j].history + [d], |s.records[j].history|)
  {
    var h := s.records[j].history;
    assert RecordOk(p, s.registry, j, s.records[j]);
    assert (h + [d])[..|h|] == h;
    LatestRefsRetained(p, s.registry, j, h);
  }

  lemma {:induction false} LatestRefsRetained(p: Policy, reg: map<Role, Artifact>, g: nat, h: seq<Decision>)
    requires g < |p.contracts| && forall i :: 0 <= i < |h| ==> DecisionOk(p, reg, g, h, i)
    ensures forall r :: r in LatestRefs(h) ==> Retained(reg, r)
  {
    if h != [] {
      var last := |h| - 1;
      assert DecisionOk(p, reg, g, h, last);
      if h[last].action != Approve {
        assert h[last].refs == LatestRefs(h[..last]);
      }
    }
  }

  /**
   What the cascade loop does from state `s`: it appends exactly one reopen for each
   approved downstream GateRef, in reverse order, each later than everything before it,
   and changes nothing else.
   */
  ghost predicate CascadeResult(s: State, s': State, g: nat, k: nat, root: Id, reason: string,
                                defense: Defense, l: seq<Event>) {
    && k <= |s.records|
    && SameOutsideRecords(s, s') && s.nextId <= s'.nextId
    && Gates(l) == ApprovedBelow(s, g, k)
    && (forall e :: e in l ==>
          CascadeEvent(e, g, root, reason, defense) && AllBefore(s, e.d.at) && e.d.id >= s.nextId)
    && (forall x :: 0 <= x < |s.records| && !(g < x < k) ==> s'.records[x] == s.records[x])
    && (forall x :: g < x < k ==> s'.records[x].status != Approved)
    && (forall t :: AllBefore(s', t) ==> AllBefore(s, t))
  }

  lemma {:induction false} MidCascadePush(p: Policy, s: State, log: seq<Event>, j: nat, g: nat, root: Id,
                       reason: string, defense: Defense, t: Time)
    requires Mid(p, s, log, s.nextId) && AllBefore(s, t) && j < |s.records| && s.records[j].status == Approved
    requires g < |s.records| && root < s.nextId && reason != "" && DefenseOk(defense)
    ensures var d := CascadeDecision(s, j, g, root, reason, defense, t);
            Mid(p, Tick(Push(s, j, d)), log + [Event(j, d)], s.nextId + 1)
  {
    hide Logged, RecordsOk, PrerequisitesThen, LifecycleOk, StageHistoryOk, RegistryOk, Appendable;
    var d := CascadeDecision(s, j, g, root, reason, defense, t);
    CascadeAppendable(p, s, log, j, g, root, reason, defense, t);
    MidAppend(p, s, log, s.nextId, j, d, s.nextId + 1);
    MidTick(p, Push(s, j, d), log + [Event(j, d)], s.nextId + 1);
  }

  lemma {:induction false} CascadeCompose(s: State, s': State, g: nat, k: nat, root: Id, reason: string,
                       defense: Defense, t: Time, rest: seq<Event>)
    requires g < k < |s.records| && s.records[k].status == Approved && AllBefore(s, t)
    requires var d := CascadeDecision(s, k, g, root, reason, defense, t);
             CascadeResult(Tick(Push(s, k, d)), s', g, k, root, reason, defense, rest)
    ensures var d := CascadeDecision(s, k, g, root, reason, defense, t);
            CascadeResult(s, s', g, k + 1, root, reason, defense, [Event(k, d)] + rest)
  {
    var d := CascadeDecision(s, k, g, root, reason, defense, t);
    var s1 := Tick(Push(s, k, d));
    ApprovedBelowSame(s, s1, g, k);
    GatesAppend(Event(k, d), rest);
    forall u | AllBefore(s1, u) ensures AllBefore(s, u) {
      AllBeforePush(s, k, d, u);
    }
  }

  lemma {:induction false} CascadeSkip(s: State, s': State, g: nat, k: nat, root: Id, reason: string,
                    defense: Defense, l: seq<Event>)
    requires k < |s.records| && s.records[k].status != Approved
    requires CascadeResult(s, s', g, k, root, reason, defense, l)
    ensures CascadeResult(s, s', g, k + 1, root, reason, defense, l)
  {
  }

  /** The decisions the cascade loop records, in the order it records them. */
  ghost function CascadeEvents(s: State, g: nat, k: nat, root: Id, reason: string, defense: Defense, clock: Clock)
    : seq<Event>
    requires k <= |s.records|
    decreases k
  {
    if k <= g + 1 then []
    else
      var j := k - 1;
      if s.records[j].status != Approved then CascadeEvents(s, g, j, root, reason, defense, clock)
      else
        match NextTimestamp(s, clock(j))
        case None => []
        case Some(t) =>
          var d := CascadeDecision(s, j, g, root, reason, defense, t);
          [Event(j, d)] + CascadeEvents(Tick(Push(s, j, d)), g, j, root, reason, defense, clock)
  }

  /** The loop does what it is meant to do, and nothing else. */
  lemma {:induction false} CascadeDownResult(s: State, g: nat, k: nat, root: Id, reason: string,
      defense: Defense, clock: Clock)
    requires g < k <= |s.records| && CascadeDown(s, g, k, root, reason, defense, clock).Some?
    ensures CascadeResult(s, CascadeDown(s, g, k, root, reason, defense, clock).value, g, k, root, reason, defense,
                          CascadeEvents(s, g, k, root, reason, defense, clock))
    decreases k
  {
    var j := k - 1;
    if k > g + 1 {
      var s' := CascadeDown(s, g, k, root, reason, defense, clock).value;
      if s.records[j].status != Approved {
        CascadeDownResult(s, g, j, root, reason, defense, clock);
        CascadeSkip(s, s', g, j, root, reason, defense, CascadeEvents(s, g, j, root, reason, defense, clock));
      } else {
        NextTimestampLeast(s, clock(j));
        var t := NextTimestamp(s, clock(j)).value;
        var s1 := Tick(Push(s, j, CascadeDecision(s, j, g, root, reason, defense, t)));
        CascadeDownResult(s1, g, j, root, reason, defense, clock);
        CascadeCompose(s, s', g, j, root, reason, defense, t, CascadeEvents(s1, g, j, root, reason, defense, clock));
      }
    }
  }

  /** Every state along the loop keeps the rules that hold between appends. */
  lemma {:induction false} CascadeDownMid(p: Policy, s: State, g: nat, k: nat, root: Id, reason: string,
      defense: Defense, clock: Clock, log: seq<Event>)
    requires Mid(p, s, log, s.nextId) && g < k <= |s.records| && root < s.nextId
    requires reason != "" && DefenseOk(defense)
    requires CascadeDown(s, g, k, root, reason, defense, clock).Some?
    ensures var s' := CascadeDown(s, g, k, root, reason, defense, clock).value;
            Mid(p, s', log + CascadeEvents(s, g, k, root, reason, defense, clock), s'.nextId)
    decreases k
  {
    hide Mid;
    var j := k - 1;
    if k <= g + 1 {
      assert log + [] == log;
    } else if s.records[j].status != Approved {
      CascadeDownMid(p, s, g, j, root, reason, defense, clock, log);
    } else {
      NextTimestampLeast(s, clock(j));
      var t := NextTimestamp(s, clock(j)).value;
      var d := CascadeDecision(s, j, g, root, reason, defense, t);
      var s1 := Tick(Push(s, j, d));
      MidCascadePush(p, s, log, j, g, root, reason, defense, t);
      CascadeDownMid(p, s1, g, j, root, reason, defense, clock, log + [Event(j, d)]);
      var rest := CascadeEvents(s1, g, j, root, reason, defense, clock);
      assert log + ([Event(j, d)] + rest) == (log + [Event(j, d)]) + rest;
    }
  }

  lemma {:induction false} MidTick(p: Policy, s: State, log: seq<Event>, b: nat)
    requires Mid(p, s, log, b)
    ensures Mid(p, Tick(s), log, b)
  {
  }

  lemma {:induction false} AllBeforePush(s: State, j: nat, d: Decision, t: Time)
    requires j < |s.records| && AllBefore(Tick(Push(s, j, d)), t)
    ensures AllBefore(s, t) && d.at < t
  {
    var s' := Push(s, j, d);
    assert s'.records[j].history[|s.records[j].history|] == d;
    forall g, i | 0 <= g < |s.records| && 0 <= i < |s.records[g].history| ensures s.records[g].history[i].at < t {
      assert s'.records[g].history[i] == s.records[g].history[i];
    }
  }
}
