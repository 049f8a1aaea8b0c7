/** Corrections inside one record manifest: `supersedes` links form disjoint chains in time order. */
module CorrectionLineage {
  import opened Prelude

  /** `wellFormed` stands for the checks that concern one record alone. */
  datatype Record = Record(id: string, kind: string, supersedes: Option<string>, wellFormed: bool)

  // ----- what the parser accepts -----

  /** Record `i` corrects the earlier record `j`. */
  predicate Corrects(rs: seq<Record>, i: nat, j: nat) {
    j < i < |rs| && rs[i].supersedes == Some(rs[j].id)
  }

  ghost predicate RecordOk(rs: seq<Record>, i: nat)
    requires i < |rs|
  {
    && rs[i].wellFormed
    && (forall j :: 0 <= j < i ==> rs[j].id != rs[i].id)
    && (rs[i].supersedes.Some? ==>
          && (exists j: nat :: Corrects(rs, i, j) && rs[i].kind == rs[j].kind)
          && (forall j :: 0 <= j < i ==> rs[j].supersedes != rs[i].supersedes))
  }

  ghost predicate LineageOk(rs: seq<Record>) {
    forall i :: 0 <= i < |rs| ==> RecordOk(rs, i)
  }

  /** The dictionaries the loop keeps: kinds of the first `n` records, and whom they correct. */
  ghost predicate Tracked(rs: seq<Record>, n: nat, kinds: map<string, string>, corrected: map<string, string>)
    requires n <= |rs|
  {
    && (forall k :: k in kinds ==> exists j :: 0 <= j < n && rs[j].id == k)
    && (forall j :: 0 <= j < n ==> rs[j].id in kinds && kinds[rs[j].id] == rs[j].kind)
    && (forall k :: k in corrected <==> exists j :: 0 <= j < n && rs[j].supersedes == Some(k))
  }

  lemma {:induction false} TrackedDecides(rs: seq<Record>, n: nat, kinds: map<string, string>, corrected: map<string,
      string>)
    requires n < |rs| && Tracked(rs, n, kinds, corrected) && forall i :: 0 <= i < n ==> RecordOk(rs, i)
    ensures var r := rs[n];
            RecordOk(rs, n) <==>
            && r.wellFormed && r.id !in kinds
            && (r.supersedes.Some? ==>
                  var earlier := r.supersedes.value;
                  earlier in kinds && kinds[earlier] == r.kind && earlier !in corrected)
  {
    var r := rs[n];
    if r.supersedes.Some? {
      var earlier := r.supersedes.value;
      if earlier in kinds {
        var j :| 0 <= j < n && rs[j].id == earlier;
        assert Corrects(rs, n, j);
        forall k: nat | Corrects(rs, n, k) ensures k == j { assert RecordOk(rs, j) && RecordOk(rs, k); }
      }
    }
  }

  /** `_parse_manifest`, on what concerns ids, kinds and corrections. */
  method ParseRecords(rs: seq<Record>) returns (ok: bool)
    ensures ok <==> LineageOk(rs)
  {
    ok := true;
    var priorKinds: map<string, string>, supersededBy: map<string, string> := map[], map[];
    for index := 0 to |rs|
      invariant ok <==> forall i :: 0 <= i < index ==> RecordOk(rs, i)
      invariant ok ==> Tracked(rs, index, priorKinds, supersededBy)
    {
      var record := rs[index];
      if ok { TrackedDecides(rs, index, priorKinds, supersededBy); }
      hide RecordOk;
      if !record.wellFormed || record.id in priorKinds { ok := false; }
      if record.supersedes.Some? {
        var earlier := record.supersedes.value;
        if earlier !in priorKinds || priorKinds[earlier] != record.kind || earlier in supersededBy { ok := false; }
        if earlier !in supersededBy { supersededBy := supersededBy[earlier := record.id]; }
      }
      if record.id !in priorKinds { priorKinds := priorKinds[record.id := record.kind]; }
    }
  }

  // ----- chains -----

  /** The one record `i` corrects, if any. */
  lemma {:induction false} CorrectedOnce(rs: seq<Record>, i: nat, j: nat, k: nat)
    requires LineageOk(rs) && Corrects(rs, i, j) && Corrects(rs, i, k)
    ensures j == k
  {
    assert RecordOk(rs, j) && RecordOk(rs, k);
  }

  /** The one record that corrects `j`, if any. */
  lemma {:induction false} CorrectingOnce(rs: seq<Record>, j: nat, i: nat, k: nat)
    requires LineageOk(rs) && Corrects(rs, i, j) && Corrects(rs, k, j)
    ensures i == k
  {
    assert RecordOk(rs, i) && RecordOk(rs, k);
  }

  /** The record a chain starts with: follow `supersedes` back as far as it goes. */
  ghost function Root(rs: seq<Record>, i: nat): (r: nat)
    requires LineageOk(rs) && i < |rs|
    ensures r <= i && rs[r].supersedes.None? && rs[r].kind == rs[i].kind
    decreases i
  {
    assert RecordOk(rs, i);
    if rs[i].supersedes.None? then i
    else
      var j: nat :| Corrects(rs, i, j) && rs[i].kind == rs[j].kind;
      Root(rs, j)
  }

  lemma {:induction false} RootStep(rs: seq<Record>, i: nat, j: nat)
    requires LineageOk(rs) && Corrects(rs, i, j)
    ensures Root(rs, i) == Root(rs, j)
  {
    assert RecordOk(rs, i);
    forall k: nat | Corrects(rs, i, k) ensures k == j { CorrectedOnce(rs, i, j, k); }
  }

  predicate Uncorrected(rs: seq<Record>, i: nat) {
    i < |rs| && forall k :: 0 <= k < |rs| ==> !Corrects(rs, k, i)
  }

  /** The latest correction: follow the records that correct, as far as it goes. */
  ghost function Tip(rs: seq<Record>, i: nat): (t: nat)
    requires LineageOk(rs) && i < |rs|
    ensures i <= t && Uncorrected(rs, t)
    decreases |rs| - i
  {
    if exists k :: 0 <= k < |rs| && Corrects(rs, k, i) then
      var k :| 0 <= k < |rs| && Corrects(rs, k, i);
      Tip(rs, k)
    else i
  }

  lemma {:induction false} TipStep(rs: seq<Record>, i: nat, j: nat)
    requires LineageOk(rs) && Corrects(rs, i, j)
    ensures Tip(rs, i) == Tip(rs, j)
  {
    forall k | 0 <= k < |rs| && Corrects(rs, k, j) ensures k == i { CorrectingOnce(rs, j, i, k); }
  }

  lemma {:induction false} RootOfTip(rs: seq<Record>, i: nat)
    requires LineageOk(rs) && i < |rs|
    ensures Root(rs, Tip(rs, i)) == Root(rs, i)
    decreases |rs| - i
  {
    if k :| 0 <= k < |rs| && Corrects(rs, k, i) {
      TipStep(rs, k, i);
      RootStep(rs, k, i);
      RootOfTip(rs, k);
    }
  }

  lemma {:induction false} TipOfRoot(rs: seq<Record>, i: nat)
    requires LineageOk(rs) && i < |rs|
    ensures Tip(rs, Root(rs, i)) == Tip(rs, i)
    decreases i
  {
    assert RecordOk(rs, i);
    if rs[i].supersedes.Some? {
      var j: nat :| Corrects(rs, i, j);
      RootStep(rs, i, j);
      TipStep(rs, i, j);
      TipOfRoot(rs, j);
    }
  }

  /**
   Main theorem: the records fall into disjoint chains. Two records share a root exactly when they
   share a latest correction, and every chain has exactly one uncorrected record, of the same kind.
   */
  lemma {:induction false} ChainsAreDisjoint(rs: seq<Record>, i: nat, j: nat)
    requires LineageOk(rs) && i < |rs| && j < |rs|
    ensures Root(rs, i) == Root(rs, j) <==> Tip(rs, i) == Tip(rs, j)
    ensures rs[Tip(rs, i)].kind == rs[i].kind
    ensures Uncorrected(rs, j) && Root(rs, j) == Root(rs, i) ==> j == Tip(rs, i)
  {
    RootOfTip(rs, i);
    RootOfTip(rs, j);
    TipOfRoot(rs, i);
    TipOfRoot(rs, j);
    assert rs[Root(rs, Tip(rs, i))].kind == rs[Tip(rs, i)].kind;
  }

  /** Appending records keeps every root, and a latest correction only moves forward. */
  lemma {:induction false} AppendKeepsChains(rs: seq<Record>, more: seq<Record>, i: nat)
    requires LineageOk(rs + more) && i < |rs|
    ensures LineageOk(rs)
    ensures Root(rs + more, i) == Root(rs, i)
    ensures Tip(rs, i) <= Tip(rs + more, i)
  {
    var all := rs + more;
    forall k | 0 <= k < |rs| ensures RecordOk(rs, k) { PrefixRecord(rs, more, k); }
    RootKept(rs, more, i);
    TipAdvances(rs, more, i);
  }

  lemma {:induction false} PrefixRecord(rs: seq<Record>, more: seq<Record>, k: nat)
    requires k < |rs| && RecordOk(rs + more, k)
    ensures RecordOk(rs, k)
  {
    var all := rs + more;
    if rs[k].supersedes.Some? {
      var j: nat :| Corrects(all, k, j) && all[k].kind == all[j].kind;
      assert Corrects(rs, k, j);
    }
    assert forall j :: 0 <= j < k ==> all[j] == rs[j];
  }

  lemma {:induction false} RootKept(rs: seq<Record>, more: seq<Record>, i: nat)
    requires LineageOk(rs + more) && LineageOk(rs) && i < |rs|
    ensures Root(rs + more, i) == Root(rs, i)
    decreases i
  {
    assert RecordOk(rs, i);
    if rs[i].supersedes.Some? {
      var j: nat :| Corrects(rs, i, j);
      assert Corrects(rs + more, i, j);
      RootStep(rs, i, j);
      RootStep(rs + more, i, j);
      RootKept(rs, more, j);
    }
  }

  lemma {:induction false} TipAdvances(rs: seq<Record>, more: seq<Record>, i: nat)
    requires LineageOk(rs + more) && LineageOk(rs) && i < |rs|
    ensures Tip(rs, i) <= Tip(rs + more, i)
    decreases |rs| - i
  {
    if k :| 0 <= k < |rs| && Corrects(rs, k, i) {
      assert Corrects(rs + more, k, i);
      TipStep(rs, k, i);
      TipStep(rs + more, k, i);
      TipAdvances(rs, more, k);
    }
  }
}
