/** Gate decisions in time order, and what each checker reads off them. */
module GateTimeline {
  import opened Prelude
  import opened GateModel

  datatype Event = Event(g: nat, d: Decision)

  /** The decisions of one GateRef, in order. */
  function Proj(evs: seq<Event>, g: nat): seq<Decision> {
    if evs == [] then []
    else
      var init, last := evs[..|evs| - 1], evs[|evs| - 1];
      if last.g == g then Proj(init, g) + [last.d] else Proj(init, g)
  }

  /** The `new_status` of the last decision strictly before `t`. */
  function StatusAt(h: seq<Decision>, t: Time): Option<Status> {
    if h == [] then None
    else if h[|h| - 1].at < t then Some(h[|h| - 1].next)
    else StatusAt(h[..|h| - 1], t)
  }

  function StatusBefore(evs: seq<Event>, g: nat, t: Time): Option<Status> {
    StatusAt(Proj(evs, g), t)
  }

  predicate ApprovedBefore(evs: seq<Event>, g: nat, t: Time) {
    StatusBefore(evs, g, t) == Some(Approved)
  }

  predicate Links(e: Event, id: Id) {
    e.d.cascade.Some? && e.d.cascade.value.upstreamId == id
  }

  /** The cascade decisions that name `id` as their upstream decision. */
  function Linked(evs: seq<Event>, id: Id): (r: seq<Event>)
    ensures forall e :: e in r <==> e in evs && Links(e, id)
  {
    if evs == [] then []
    else
      var init, last := evs[..|evs| - 1], evs[|evs| - 1];
      assert evs == init + [last];
      if Links(last, id) then Linked(init, id) + [last] else Linked(init, id)
  }

  function Gates(evs: seq<Event>): (r: seq<nat>)
    ensures |r| == |evs| && forall i :: 0 <= i < |r| ==> r[i] == evs[i].g
  {
    seq(|evs|, i requires 0 <= i < |evs| => evs[i].g)
  }

  predicate Sorted(evs: seq<Event>) {
    forall i, j :: 0 <= i < j < |evs| ==> evs[i].d.at <= evs[j].d.at
  }

  predicate StrictlySorted(evs: seq<Event>) {
    forall i, j :: 0 <= i < j < |evs| ==> evs[i].d.at < evs[j].d.at
  }

  predicate UniqueIds(evs: seq<Event>) {
    forall i, j :: 0 <= i < j < |evs| ==> evs[i].d.id != evs[j].d.id
  }

  lemma {:induction false} ProjAppend(evs: seq<Event>, e: Event, g: nat)
    ensures Proj(evs + [e], g) == Proj(evs, g) + (if e.g == g then [e.d] else [])
  {
    assert (evs + [e])[..|evs|] == evs;
  }

  lemma {:induction false} LinkedAppend(evs: seq<Event>, e: Event, id: Id)
    ensures Linked(evs + [e], id) == Linked(evs, id) + (if Links(e, id) then [e] else [])
  {
    assert (evs + [e])[..|evs|] == evs;
  }

  lemma {:induction false} StatusAtAppend(h: seq<Decision>, d: Decision, t: Time)
    ensures StatusAt(h + [d], t) == if d.at < t then Some(d.next) else StatusAt(h, t)
  {
    assert (h + [d])[..|h|] == h;
  }

  /** A decision taken at or after `t` cannot change the status before `t`. */
  lemma {:induction false} StatusBeforeAppend(evs: seq<Event>, e: Event, g: nat, t: Time)
    ensures e.d.at >= t || e.g != g ==> StatusBefore(evs + [e], g, t) == StatusBefore(evs, g, t)
    ensures e.d.at < t && e.g == g ==> StatusBefore(evs + [e], g, t) == Some(e.d.next)
  {
    ProjAppend(evs, e, g);
    if e.g == g { StatusAtAppend(Proj(evs, g), e.d, t); }
  }

  lemma {:induction false} ProjMember(evs: seq<Event>, g: nat, d: Decision)
    ensures d in Proj(evs, g) <==> Event(g, d) in evs
  {
    if evs != [] {
      var init, last := evs[..|evs| - 1], evs[|evs| - 1];
      assert evs == init + [last];
      ProjMember(init, g, d);
    }
  }
}
