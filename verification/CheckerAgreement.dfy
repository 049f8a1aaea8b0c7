/**
 The two checkers sort the decisions with different tie-breaks.  On histories whose
 per-Gate times strictly increase they nevertheless accept the same decision sets.
 */
module CheckerAgreement {
  import opened Prelude
  import opened GateModel
  import opened GateTimeline
  import opened CascadeContract

  ghost predicate SameEvents(a: seq<Event>, b: seq<Event>) {
    forall e :: e in a <==> e in b
  }

  /** No two decisions of one GateRef carry the same time. */
  ghost predicate PerGateStrict(evs: seq<Event>) {
    forall x, y :: x in evs && y in evs && x.g == y.g && x.d.at == y.d.at ==> x == y
  }

  ghost predicate DecidedBefore(e: Event, g: nat, t: Time) {
    e.g == g && e.d.at < t
  }

  /** The event that fixes the status of `g` before `t`: a latest one of that GateRef. */
  lemma {:induction false} StatusWitness(evs: seq<Event>, g: nat, t: Time) returns (w: Option<Event>)
    requires Sorted(evs)
    ensures w.None? ==> StatusBefore(evs, g, t) == None && forall e :: e in evs ==> !DecidedBefore(e, g, t)
    ensures w.Some? ==>
              && w.value in evs && DecidedBefore(w.value, g, t)
              && StatusBefore(evs, g, t) == Some(w.value.d.next)
              && forall e :: e in evs && DecidedBefore(e, g, t) ==> e.d.at <= w.value.d.at
  {
    if evs == [] {
      w := None;
    } else {
      var init, last := evs[..|evs| - 1], evs[|evs| - 1];
      assert evs == init + [last];
      StatusBeforeAppend(init, last, g, t);
      if DecidedBefore(last, g, t) {
        w := Some(last);
        forall e | e in evs ensures e.d.at <= last.d.at {
          var i :| 0 <= i < |evs| && evs[i] == e;
        }
      } else {
        w := StatusWitness(init, g, t);
      }
    }
  }

  lemma {:induction false} SameStatus(a: seq<Event>, b: seq<Event>, g: nat, t: Time)
    requires Sorted(a) && Sorted(b) && SameEvents(a, b) && PerGateStrict(a)
    ensures StatusBefore(a, g, t) == StatusBefore(b, g, t)
  {
    var x := StatusWitness(a, g, t);
    var y := StatusWitness(b, g, t);
  }

  lemma {:induction false} SameDownstream(a: seq<Event>, b: seq<Event>, g: nat, k: nat, t: Time)
    requires Sorted(a) && Sorted(b) && SameEvents(a, b) && PerGateStrict(a)
    ensures Downstream(a, g, k, t) == Downstream(b, g, k, t)
  {
    if k > g + 1 {
      SameStatus(a, b, k - 1, t);
      SameDownstream(a, b, g, k - 1, t);
    }
  }

  lemma {:induction false} LinkedUnique(evs: seq<Event>, id: Id)
    requires UniqueIds(evs)
    ensures UniqueIds(Linked(evs, id))
  {
    if evs != [] {
      var init, last := evs[..|evs| - 1], evs[|evs| - 1];
      LinkedUnique(init, id);
      forall e | e in Linked(init, id) ensures e.d.id != last.d.id {
        var i :| 0 <= i < |init| && init[i] == e;
        assert evs[i] == e;
      }
    }
  }

  ghost predicate NoRepeats(evs: seq<Event>) {
    forall i, j :: 0 <= i < j < |evs| ==> evs[i] != evs[j]
  }

  lemma {:induction false} LastFresh(a: seq<Event>)
    requires a != [] && NoRepeats(a)
    ensures NoRepeats(a[..|a| - 1])
    ensures forall e :: e in a[..|a| - 1] <==> e in a && e != a[|a| - 1]
  {
    assert a == a[..|a| - 1] + [a[|a| - 1]];
  }

  lemma {:induction false} SameLast(a: seq<Event>, b: seq<Event>)
    requires a != [] && b != [] && StrictlySorted(a) && Sorted(b) && SameEvents(a, b)
    ensures a[|a| - 1] == b[|b| - 1]
  {
    assert a[|a| - 1] in b && b[|b| - 1] in a;
    var i :| 0 <= i < |b| && b[i] == a[|a| - 1];
    var j :| 0 <= j < |a| && a[j] == b[|b| - 1];
  }

  /** A strictly sorted list is the only sorted, duplicate-free list of its elements. */
  lemma {:induction false} SortedUnique(a: seq<Event>, b: seq<Event>)
    requires StrictlySorted(a) && Sorted(b) && NoRepeats(b) && SameEvents(a, b)
    ensures a == b
  {
    assert b != [] ==> b[0] in b;
    assert a != [] ==> a[0] in a;
    if a != [] {
      var a', b' := a[..|a| - 1], b[..|b| - 1];
      SameLast(a, b);
      LastFresh(a);
      LastFresh(b);
      forall e ensures e in a' <==> e in b' {
        assert e in a' <==> e in a && e != a[|a| - 1];
        assert e in b' <==> e in b && e != b[|b| - 1];
      }
      SortedUnique(a', b');
      assert a == a' + [a[|a| - 1]] && b == b' + [b[|b| - 1]];
    }
  }

  lemma {:induction false} ContractOnListing(n: nat, a: seq<Event>, b: seq<Event>)
    requires Sorted(a) && Sorted(b) && UniqueIds(a) && UniqueIds(b)
    requires SameEvents(a, b) && PerGateStrict(a) && CascadesOk(n, a)
    ensures CascadesOk(n, b)
  {
    forall r | r in b && IsRoot(r) ensures BlockOk(n, b, r, Linked(b, r.d.id)) {
      var la, lb := Linked(a, r.d.id), Linked(b, r.d.id);
      assert r in a;
      LinkedSorted(b, r.d.id);
      LinkedUnique(b, r.d.id);
      assert NoRepeats(lb);
      SortedUnique(la, lb);
      SameDownstream(a, b, r.g, n, Start(r, la));
    }
    forall e | e in b && e.d.cascade.Some? ensures HasRoot(b, e.d.cascade.value.upstreamId) {
      assert e in a;
      var r :| r in a && IsRoot(r) && r.d.id == e.d.cascade.value.upstreamId;
      assert r in b;
    }
  }

  /**
   Two sorted listings of one decision set, however each breaks ties: the Python checker
   accepts the first exactly when the JavaScript checker accepts the second.
   */
  lemma {:induction false} CheckersAgree(n: nat, a: seq<Event>, b: seq<Event>)
    requires Sorted(a) && Sorted(b) && UniqueIds(a) && UniqueIds(b)
    requires SameEvents(a, b) && PerGateStrict(a)
    ensures CascadesOk(n, a) <==> CascadesOk(n, b)
  {
    assert SameEvents(b, a) && PerGateStrict(b);
    if CascadesOk(n, a) { ContractOnListing(n, a, b); }
    if CascadesOk(n, b) { ContractOnListing(n, b, a); }
  }

  /** Both programs run on their own listings and return the same verdict. */
  method RunBoth(n: nat, a: seq<Event>, b: seq<Event>) returns (python: bool, javascript: bool)
    requires Sorted(a) && Sorted(b) && UniqueIds(a) && UniqueIds(b)
    requires SameEvents(a, b) && PerGateStrict(a)
    ensures python == javascript
  {
    python := CheckByGroups(n, a);
    javascript := CheckByRoots(n, b);
    CheckersAgree(n, a, b);
  }
}
