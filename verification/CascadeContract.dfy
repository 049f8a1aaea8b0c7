/**
 The cascade rules of a Gate history, stated once, and the two programs that check them:
 the Python checker walks the groups of linked decisions, the JavaScript checker walks
 the root reopens.
 */
module CascadeContract {
  import opened Prelude
  import opened GateModel
  import opened GateTimeline

  predicate IsRoot(e: Event) {
    e.d.action == Reopen && e.d.cascade.None?
  }

  /** The GateRefs below position `k` and after `g` that were approved before `t`, last first. */
  function Downstream(evs: seq<Event>, g: nat, k: nat, t: Time): seq<nat> {
    if k <= g + 1 then []
    else (if ApprovedBefore(evs, k - 1, t) then [k - 1] else []) + Downstream(evs, g, k - 1, t)
  }

  lemma {:induction false} DownstreamMember(evs: seq<Event>, g: nat, k: nat, t: Time, x: nat)
    ensures x in Downstream(evs, g, k, t) <==> g < x < k && ApprovedBefore(evs, x, t)
  {
    if k > g + 1 { DownstreamMember(evs, g, k - 1, t, x); }
  }

  /** A cascade decision repeats its upstream reopen and precedes it. */
  predicate Provenance(e: Event, r: Event) {
    && e.d.action == Reopen
    && e.d.cascade.Some?
    && e.d.cascade.value.upstreamGate == r.g
    && e.d.cascade.value.upstreamReason == r.d.reason
    && e.d.defense == r.d.defense
    && e.d.at < r.d.at
  }

  function Start(r: Event, linked: seq<Event>): Time {
    if linked == [] then r.d.at else linked[0].d.at
  }

  /** Nothing else was decided between the first cascade decision and its root. */
  predicate Uninterrupted(evs: seq<Event>, r: Event, linked: seq<Event>) {
    forall e :: e in evs && Start(r, linked) <= e.d.at < r.d.at ==> Links(e, r.d.id)
  }

  predicate BlockOk(n: nat, evs: seq<Event>, r: Event, linked: seq<Event>) {
    && StrictlySorted(linked)
    && Gates(linked) == Downstream(evs, r.g, n, Start(r, linked))
    && (forall e :: e in linked ==> Provenance(e, r))
    && Uninterrupted(evs, r, linked)
  }

  predicate HasRoot(evs: seq<Event>, id: Id) {
    exists r :: r in evs && IsRoot(r) && r.d.id == id
  }

  /** Every root reopen is preceded by exactly its cascade, and no cascade decision is stray. */
  predicate CascadesOk(n: nat, evs: seq<Event>) {
    && (forall r :: r in evs && IsRoot(r) ==> BlockOk(n, evs, r, Linked(evs, r.d.id)))
    && (forall e :: e in evs && e.d.cascade.Some? ==> HasRoot(evs, e.d.cascade.value.upstreamId))
  }

  // ----- pieces shared by both programs -----

  method ApprovedDownstream(n: nat, evs: seq<Event>, g: nat, t: Time) returns (r: seq<nat>)
    ensures r == Downstream(evs, g, n, t)
  {
    r := [];
    var k := n;
    while g + 1 < k
      invariant r + Downstream(evs, g, k, t) == Downstream(evs, g, n, t)
    {
      k := k - 1;
      if ApprovedBefore(evs, k, t) {
        assert r + ([k] + Downstream(evs, g, k, t)) == (r + [k]) + Downstream(evs, g, k, t);
        r := r + [k];
      }
    }
  }

  method TimesIncrease(linked: seq<Event>) returns (ok: bool)
    requires Sorted(linked)
    ensures ok == StrictlySorted(linked)
  {
    ok := true;
    for i := 0 to |linked|
      invariant ok ==> forall a, b :: 0 <= a < b < i ==> linked[a].d.at < linked[b].d.at
      invariant !ok ==> !StrictlySorted(linked)
    {
      if i > 0 && linked[i].d.at <= linked[i - 1].d.at { ok := false; }
    }
  }

  method CheckUninterrupted(evs: seq<Event>, r: Event, linked: seq<Event>) returns (ok: bool)
    ensures ok == Uninterrupted(evs, r, linked)
  {
    ok := true;
    for i := 0 to |evs|
      invariant ok == forall j :: 0 <= j < i && Start(r, linked) <= evs[j].d.at < r.d.at ==> Links(evs[j], r.d.id)
    {
      if Start(r, linked) <= evs[i].d.at < r.d.at && !Links(evs[i], r.d.id) { ok := false; }
    }
  }

  lemma {:induction false} LinkedSorted(evs: seq<Event>, id: Id)
    requires Sorted(evs)
    ensures Sorted(Linked(evs, id))
  {
    if evs != [] {
      var init, last := evs[..|evs| - 1], evs[|evs| - 1];
      LinkedSorted(init, id);
      forall e | e in Linked(init, id) ensures e.d.at <= last.d.at {
        var i :| 0 <= i < |init| && init[i] == e;
        assert evs[i] == e;
      }
    }
  }

  // ----- the Python checker -----

  /** `linked_by_upstream`: the decisions that name each upstream identifier, in time order. */
  method GroupByUpstream(evs: seq<Event>) returns (groups: map<Id, seq<Event>>)
    ensures forall id :: id in groups <==> Linked(evs, id) != []
    ensures forall id :: id in groups ==> groups[id] == Linked(evs, id)
  {
    groups := map[];
    for i := 0 to |evs|
      invariant forall id :: id in groups <==> Linked(evs[..i], id) != []
      invariant forall id :: id in groups ==> groups[id] == Linked(evs[..i], id)
    {
      var e := evs[i];
      assert evs[..i + 1] == evs[..i] + [e];
      forall id ensures Linked(evs[..i + 1], id) == Linked(evs[..i], id) + (if Links(e, id) then [e] else []) {
        LinkedAppend(evs[..i], e, id);
      }
      if e.d.cascade.Some? {
        var id := e.d.cascade.value.upstreamId;
        groups := groups[id := (if id in groups then groups[id] else []) + [e]];
      }
    }
    assert evs[..|evs|] == evs;
  }

  method FindDecision(evs: seq<Event>, id: Id) returns (r: Option<Event>)
    ensures r.Some? ==> r.value in evs && r.value.d.id == id
    ensures r.None? ==> forall e :: e in evs ==> e.d.id != id
  {
    for i := 0 to |evs|
      invariant forall j :: 0 <= j < i ==> evs[j].d.id != id
    {
      if evs[i].d.id == id { return Some(evs[i]); }
    }
    return None;
  }

  /** One group against the upstream decision it names. */
  method CheckGroup(n: nat, evs: seq<Event>, u: Event, linked: seq<Event>) returns (ok: bool)
    requires linked != [] && Sorted(linked)
    requires forall e :: e in linked ==> e.d.cascade.Some?
    ensures ok == (IsRoot(u) && BlockOk(n, evs, u, linked))
  {
    ok := IsRoot(u);
    var increasing := TimesIncrease(linked);
    var expected := ApprovedDownstream(n, evs, u.g, linked[0].d.at);
    ok := ok && increasing && Gates(linked) == expected;
    ghost var before := ok;
    for i := 0 to |linked|
      invariant ok == (before && forall j :: 0 <= j < i ==> Provenance(linked[j], u))
    {
      var e := linked[i];
      var c := e.d.cascade.value;
      if e.d.action != Reopen || c.upstreamGate != u.g || c.upstreamReason != u.d.reason
         || e.d.defense != u.d.defense || e.d.at >= u.d.at
      {
        ok := false;
      }
      if e.g <= u.g {
        // such a GateRef is never in the expected list, so `ok` is false already
        assert Gates(linked)[i] == e.g;
        DownstreamMember(evs, u.g, n, linked[0].d.at, e.g);
        ok := false;
      }
    }
    var contiguous := CheckUninterrupted(evs, u, linked);
    ok := ok && contiguous;
  }

  /**
   The Python checker: one pass over the groups of linked decisions, then one over the
   root reopens that no group names.
   */
  method CheckByGroups(n: nat, evs: seq<Event>) returns (ok: bool)
    requires Sorted(evs) && UniqueIds(evs)
    ensures ok == CascadesOk(n, evs)
  {
    var groups := GroupByUpstream(evs);
    ok := true;
    var ids := groups.Keys;
    while ids != {}
      invariant ids <= groups.Keys
      invariant ok == forall id :: id in groups && id !in ids ==> GroupOk(n, evs, id)
    {
      var id :| id in ids;
      var upstream := FindDecision(evs, id);
      LinkedSorted(evs, id);
      if upstream.None? {
        assert !GroupOk(n, evs, id);
        ok := false;
      } else {
        var good := CheckGroup(n, evs, upstream.value, groups[id]);
        SameId(evs, upstream.value);
        assert good == GroupOk(n, evs, id);
        ok := ok && good;
      }
      ids := ids - {id};
    }
    ghost var grouped := ok;
    for i := 0 to |evs|
      invariant ok == (grouped && forall j :: 0 <= j < i ==> LoneRootOk(n, evs, evs[j]))
    {
      var e := evs[i];
      if IsRoot(e) && e.d.id !in groups {
        var still := ApprovedDownstream(n, evs, e.g, e.d.at);
        if still != [] { ok := false; }
      }
    }
    GroupsDecide(n, evs);
  }

  /** The group of `id` names a root reopen that it precedes correctly. */
  predicate GroupOk(n: nat, evs: seq<Event>, id: Id) {
    exists r :: r in evs && r.d.id == id && IsRoot(r) && BlockOk(n, evs, r, Linked(evs, id))
  }

  /** A root reopen with no group left nothing approved after it. */
  predicate LoneRootOk(n: nat, evs: seq<Event>, r: Event) {
    IsRoot(r) && Linked(evs, r.d.id) == [] ==> Downstream(evs, r.g, n, r.d.at) == []
  }

  lemma {:induction false} SameId(evs: seq<Event>, u: Event)
    requires UniqueIds(evs) && u in evs
    ensures forall r :: r in evs && r.d.id == u.d.id ==> r == u
  {
  }

  /** Checking by groups and by roots decides the same thing. */
  lemma {:induction false} GroupsDecide(n: nat, evs: seq<Event>)
    requires UniqueIds(evs)
    ensures CascadesOk(n, evs)
       <==> ((forall id :: Linked(evs, id) != [] ==> GroupOk(n, evs, id))
             && (forall r :: r in evs ==> LoneRootOk(n, evs, r)))
  {
    if CascadesOk(n, evs) {
      forall id | Linked(evs, id) != [] ensures GroupOk(n, evs, id) {
        var e := Linked(evs, id)[0];
        assert e in Linked(evs, id);
        assert HasRoot(evs, id);
      }
      forall r | r in evs ensures LoneRootOk(n, evs, r) {
        if IsRoot(r) { assert BlockOk(n, evs, r, Linked(evs, r.d.id)); }
      }
    }
    if (forall id :: Linked(evs, id) != [] ==> GroupOk(n, evs, id))
        && (forall r :: r in evs ==> LoneRootOk(n, evs, r)) {
      forall r | r in evs && IsRoot(r) ensures BlockOk(n, evs, r, Linked(evs, r.d.id)) {
        assert LoneRootOk(n, evs, r);
        if Linked(evs, r.d.id) != [] {
          assert GroupOk(n, evs, r.d.id);
          SameId(evs, r);
        }
      }
      forall e | e in evs && e.d.cascade.Some? ensures HasRoot(evs, e.d.cascade.value.upstreamId) {
        assert e in Linked(evs, e.d.cascade.value.upstreamId);
        assert GroupOk(n, evs, e.d.cascade.value.upstreamId);
      }
    }
  }

  // ----- the JavaScript checker -----

  method FilterLinked(evs: seq<Event>, id: Id) returns (r: seq<Event>)
    ensures r == Linked(evs, id)
  {
    r := [];
    for i := 0 to |evs|
      invariant r == Linked(evs[..i], id)
    {
      assert evs[..i + 1] == evs[..i] + [evs[i]];
      LinkedAppend(evs[..i], evs[i], id);
      if Links(evs[i], id) { r := r + [evs[i]]; }
    }
    assert evs[..|evs|] == evs;
  }

  /** One root reopen against the decisions that link to it. */
  method CheckRoot(n: nat, evs: seq<Event>, r: Event, linked: seq<Event>) returns (ok: bool)
    requires Sorted(linked)
    requires forall e :: e in linked ==> e.d.cascade.Some?
    ensures ok == BlockOk(n, evs, r, linked)
  {
    var boundary := if |linked| > 0 then linked[0].d.at else r.d.at;
    var expected := ApprovedDownstream(n, evs, r.g, boundary);
    ok := Gates(linked) == expected;
    var traced := CheckProvenance(r, linked);
    var contiguous := CheckUninterrupted(evs, r, linked);
    ok := ok && traced && contiguous;
  }

  /** The linked decisions copy their root, precede it, and are strictly ordered. */
  method CheckProvenance(r: Event, linked: seq<Event>) returns (ok: bool)
    requires forall e :: e in linked ==> e.d.cascade.Some?
    ensures ok == ((forall j :: 0 <= j < |linked| ==> Provenance(linked[j], r)) && StrictlySorted(linked))
  {
    ok := true;
    var priorAt: Option<Time> := None;
    for i := 0 to |linked|
      invariant priorAt == if i == 0 then None else Some(linked[i - 1].d.at)
      invariant ok == ((forall j :: 0 <= j < i ==> Provenance(linked[j], r)) && StrictlySorted(linked[..i]))
    {
      var e := linked[i];
      StrictlySortedNext(linked, i);
      if priorAt.Some? && e.d.at <= priorAt.value { ok := false; }
      priorAt := Some(e.d.at);
      hide StrictlySorted;
      var c := e.d.cascade.value;
      if e.d.action != Reopen || c.upstreamGate != r.g || c.upstreamReason != r.d.reason
         || e.d.defense != r.d.defense || e.d.at >= r.d.at
      {
        ok := false;
      }
    }
    assert linked[..|linked|] == linked;
  }

  lemma {:induction false} StrictlySortedNext(evs: seq<Event>, i: nat)
    requires i < |evs|
    ensures StrictlySorted(evs[..i + 1]) <==> StrictlySorted(evs[..i]) && (i > 0 ==> evs[i - 1].d.at < evs[i].d.at)
  {
    var a, b := evs[..i], evs[..i + 1];
    assert forall j :: 0 <= j < i ==> a[j] == b[j] == evs[j];
    assert b[i] == evs[i];
  }

  function IdsOf(evs: seq<Event>): set<Id> {
    set e | e in evs :: e.d.id
  }

  lemma {:induction false} LinkedIdIff(evs: seq<Event>, id: Id, e: Event)
    requires UniqueIds(evs) && e in evs
    ensures e.d.id in IdsOf(Linked(evs, id)) <==> Links(e, id)
  {
    if Links(e, id) { assert e in Linked(evs, id); }
    SameId(evs, e);
  }

  lemma {:induction false} HasRootAppend(evs: seq<Event>, e: Event, id: Id)
    ensures HasRoot(evs + [e], id) <==> HasRoot(evs, id) || (IsRoot(e) && e.d.id == id)
  {
    if HasRoot(evs, id) {
      var r :| r in evs && IsRoot(r) && r.d.id == id;
      assert r in evs + [e];
    }
    if IsRoot(e) && e.d.id == id { assert e in evs + [e]; }
  }

  predicate RootLinked(evs: seq<Event>, roots: seq<Event>, ids: set<Id>) {
    forall e :: e in evs ==> (e.d.id in ids <==> e.d.cascade.Some? && HasRoot(roots, e.d.cascade.value.upstreamId))
  }

  lemma {:induction false} RootLinkedAppend(evs: seq<Event>, roots: seq<Event>, ids: set<Id>, r: Event)
    requires UniqueIds(evs) && RootLinked(evs, roots, ids)
    ensures RootLinked(evs, roots + [r], if IsRoot(r) then ids + IdsOf(Linked(evs, r.d.id)) else ids)
  {
    var ids' := if IsRoot(r) then ids + IdsOf(Linked(evs, r.d.id)) else ids;
    forall e | e in evs
      ensures e.d.id in ids' <==> e.d.cascade.Some? && HasRoot(roots + [r], e.d.cascade.value.upstreamId)
    {
      if e.d.cascade.Some? { HasRootAppend(roots, r, e.d.cascade.value.upstreamId); }
      LinkedIdIff(evs, r.d.id, e);
    }
  }

  /** The JavaScript checker: one pass over the root reopens, then one for stray cascades. */
  method CheckByRoots(n: nat, evs: seq<Event>) returns (ok: bool)
    requires Sorted(evs) && UniqueIds(evs)
    ensures ok == CascadesOk(n, evs)
  {
    ok := true;
    var linkedIds: set<Id> := {};
    for i := 0 to |evs|
      invariant ok == forall j :: 0 <= j < i && IsRoot(evs[j]) ==> BlockOk(n, evs, evs[j], Linked(evs, evs[j].d.id))
      invariant RootLinked(evs, evs[..i], linkedIds)
    {
      RootLinkedAppend(evs, evs[..i], linkedIds, evs[i]);
      assert evs[..i + 1] == evs[..i] + [evs[i]];
      if IsRoot(evs[i]) {
        var linked := FilterLinked(evs, evs[i].d.id);
        LinkedSorted(evs, evs[i].d.id);
        linkedIds := linkedIds + (set e | e in linked :: e.d.id);
        var good := CheckRoot(n, evs, evs[i], linked);
        ok := ok && good;
      }
    }
    assert evs[..|evs|] == evs;
    ghost var rooted := ok;
    for i := 0 to |evs|
      invariant ok == (rooted && forall j :: 0 <= j < i && evs[j].d.cascade.Some? ==>
                         HasRoot(evs, evs[j].d.cascade.value.upstreamId))
    {
      if evs[i].d.cascade.Some? && evs[i].d.id !in linkedIds { ok := false; }
    }
  }
}
