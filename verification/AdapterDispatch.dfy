/**
 The check before one dispatch agrees with the replay of the journal it authorises, and
 journals accepted one batch after another leave one bounded retry chain per request.
 */
module AdapterDispatch {
  import opened Prelude
  import opened AdapterLineage

  function OfRequest(receipts: seq<Receipt>, request: Id): seq<Receipt> {
    if receipts == [] then []
    else
      var last := receipts[|receipts| - 1];
      OfRequest(receipts[..|receipts| - 1], request) + (if last.request == request then [last] else [])
  }

  /** The attempts of a receipt list, in order of first appearance. */
  function FirstSeen(receipts: seq<Receipt>): seq<Id> {
    if receipts == [] then []
    else
      var before, last := FirstSeen(receipts[..|receipts| - 1]), receipts[|receipts| - 1];
      if last.attempt in before then before else before + [last.attempt]
  }

  function LatestFor(receipts: seq<Receipt>): map<Id, Receipt> {
    if receipts == [] then map[]
    else
      var last := receipts[|receipts| - 1];
      LatestFor(receipts[..|receipts| - 1])[last.attempt := last]
  }

  /** The retry rules a dispatch must satisfy, read off the replayed dictionaries. */
  predicate MayDispatch(q: Request, l: Lineage, attempt: Id, retryOf: Option<Id>) {
    var prior := AttemptsOf(l, q.id);
    && attempt !in l.owners
    && (prior == [] ==> retryOf.None?)
    && (prior != [] ==>
          && retryOf == Some(prior[|prior| - 1])
          && |prior| < q.maxAttempts
          && prior[|prior| - 1] in l.latest
          && l.latest[prior[|prior| - 1]].outcome in Retryable(q.mode))
  }

  // ----- the receipts of one request carry its part of the replay -----

  /** Attempts, owners and latest receipts describe each other. */
  ghost predicate Owned(requests: map<Id, Request>, l: Lineage) {
    && (forall a :: a in l.latest ==> a in l.owners && a in AttemptsOf(l, l.owners[a]))
    && (forall q, a :: a in AttemptsOf(l, q) ==> a in l.latest && a in l.owners && l.owners[a] == q)
    && (forall a :: a in l.owners && l.owners[a] in requests ==> a in l.latest)
  }

  /** What an error-free receipt does to the dictionaries. */
  ghost predicate Extends(l: Lineage, l': Lineage, r: Receipt) {
    && (r.attempt in l.owners ==> l.owners[r.attempt] == r.request)
    && l'.latest == l.latest[r.attempt := r]
    && l'.owners == l.owners[r.attempt := r.request]
    && (r.attempt in l.latest ==> l'.attempts == l.attempts && l'.parent == l.parent)
    && (r.attempt !in l.latest ==>
          && l'.attempts == l.attempts[r.request := AttemptsOf(l, r.request) + [r.attempt]]
          && l'.parent == l.parent[r.attempt := r.retryOf])
  }

  lemma {:induction false} StepExtends(requests: map<Id, Request>, journals: set<Id>, l: Lineage, r: Receipt)
    requires ReceiptOk(requests, journals, l, r)
    ensures Extends(l, Step(requests, l, r), r)
  {
    hide ObservationOk, NewAttemptOk;
  }

  lemma {:induction false} AttemptsExtend(l: Lineage, l': Lineage, r: Receipt)
    requires Extends(l, l', r)
    requires r.attempt in l.latest ==> r.attempt in AttemptsOf(l, r.request)
    ensures forall q, a :: a in AttemptsOf(l', q) <==> a in AttemptsOf(l, q) || (q == r.request && a == r.attempt)
  {
  }

  lemma {:induction false} OwnedStep(requests: map<Id, Request>, l: Lineage, l': Lineage, r: Receipt)
    requires Owned(requests, l) && Extends(l, l', r)
    ensures Owned(requests, l')
  {
    AttemptsExtend(l, l', r);
    hide AttemptsOf;
    forall a | a in l'.latest ensures a in l'.owners && a in AttemptsOf(l', l'.owners[a]) {
      if a == r.attempt { assert a in AttemptsOf(l', r.request); } else { assert a in AttemptsOf(l, l.owners[a]); }
    }
  }

  ghost predicate Mirrors(l: Lineage, part: seq<Receipt>, request: Id) {
    && FirstSeen(part) == AttemptsOf(l, request)
    && forall a :: a in AttemptsOf(l, request) ==>
         a in l.latest && a in LatestFor(part) && LatestFor(part)[a] == l.latest[a]
  }

  lemma {:induction false} MirrorsSame(requests: map<Id, Request>, l: Lineage, l': Lineage, r: Receipt,
      part: seq<Receipt>)
    requires Owned(requests, l) && Extends(l, l', r) && Mirrors(l, part, r.request)
    ensures Mirrors(l', part + [r], r.request)
  {
    assert (part + [r])[..|part|] == part;
    var attempts := AttemptsOf(l, r.request);
    assert r.attempt in l.latest <==> r.attempt in attempts;
    assert AttemptsOf(l', r.request) == if r.attempt in attempts then attempts else attempts + [r.attempt];
    assert FirstSeen(part + [r]) == AttemptsOf(l', r.request);
    assert LatestFor(part + [r]) == LatestFor(part)[r.attempt := r];
    hide Owned, FirstSeen, LatestFor;
  }

  lemma {:induction false} MirrorsOther(requests: map<Id, Request>, l: Lineage, l': Lineage, r: Receipt,
                                        part: seq<Receipt>, request: Id)
    requires Owned(requests, l) && Extends(l, l', r) && Mirrors(l, part, request) && r.request != request
    ensures Mirrors(l', part, request)
  {
    assert AttemptsOf(l', request) == AttemptsOf(l, request);
    forall a | a in AttemptsOf(l, request) ensures a != r.attempt { assert l.owners[a] == request; }
    hide Owned, FirstSeen, LatestFor;
  }

  lemma {:induction false} MirrorsStep(requests: map<Id, Request>, l: Lineage, l': Lineage, r: Receipt,
                                       part: seq<Receipt>, request: Id)
    requires Owned(requests, l) && Extends(l, l', r) && Mirrors(l, part, request)
    ensures Mirrors(l', if r.request == request then part + [r] else part, request)
  {
    hide Owned, Extends, Mirrors;
    if r.request == request {
      MirrorsSame(requests, l, l', r, part);
    } else {
      MirrorsOther(requests, l, l', r, part, request);
    }
  }

  /** In an error-free replay every request's receipts alone give its attempts and their latest receipts. */
  lemma {:induction false} ReplayMirrors(requests: map<Id, Request>, journals: set<Id>, start: Lineage,
                                         receipts: seq<Receipt>, request: Id)
    requires Owned(requests, start) && start.attempts == map[] && Clean(requests, journals, start, receipts)
    ensures Owned(requests, Replay(requests, start, receipts))
    ensures Mirrors(Replay(requests, start, receipts), OfRequest(receipts, request), request)
  {
    if receipts != [] {
      hide Owned, Mirrors, Extends, Clean, Step, ReceiptOk, Replay, OfRequest, Consistent;
      var init, last := receipts[..|receipts| - 1], receipts[|receipts| - 1];
      assert receipts == init + [last];
      CleanAppend(requests, journals, start, init, last);
      ReplayMirrors(requests, journals, start, init, request);
      var l := Replay(requests, start, init);
      ReplayAppend(requests, start, init, last);
      OfRequestAppend(init, last, request);
      StepExtends(requests, journals, l, last);
      OwnedStep(requests, l, Step(requests, l, last), last);
      MirrorsStep(requests, l, Step(requests, l, last), last, OfRequest(init, request), request);
    }
  }

  lemma {:induction false} OfRequestAppend(receipts: seq<Receipt>, r: Receipt, request: Id)
    ensures OfRequest(receipts + [r], request)
         == if r.request == request then OfRequest(receipts, request) + [r] else OfRequest(receipts, request)
  {
    assert (receipts + [r])[..|receipts|] == receipts;
  }

  /**
   `verify_adapter_dispatch`, its retry part: rebuild the attempts of one request from its
   receipts, then apply the retry policy.
   */
  method VerifyDispatch(q: Request, owners: set<Id>, receipts: seq<Receipt>, attempt: Id, retryOf: Option<Id>,
                        ghost l: Lineage) returns (accepted: bool)
    requires Mirrors(l, receipts, q.id) && owners == l.owners.Keys
    ensures accepted == MayDispatch(q, l, attempt, retryOf)
  {
    if attempt in owners { return false; }
    var attempts: seq<Id> := [];
    var latest: map<Id, Receipt> := map[];
    for i := 0 to |receipts|
      invariant attempts == FirstSeen(receipts[..i]) && latest == LatestFor(receipts[..i])
    {
      assert receipts[..i + 1][..i] == receipts[..i];
      var candidate := receipts[i].attempt;
      if candidate !in attempts { attempts := attempts + [candidate]; }
      latest := latest[candidate := receipts[i]];
    }
    assert receipts[..|receipts|] == receipts;
    if |attempts| == 0 { return retryOf.None?; }
    var last := attempts[|attempts| - 1];
    if retryOf != Some(last) { return false; }
    if |attempts| >= q.maxAttempts { return false; }
    var status := latest[last].outcome;
    if q.mode == Never { return false; }
    if q.mode == Reconcile && status == Unknown { return false; }
    return status in (if q.mode == Idempotent then {Failed, Cancelled, Unknown} else {Failed, Cancelled});
  }

  // ----- the dispatch check is the journal check -----

  /** The journal a dispatch must write first. */
  predicate IsJournal(q: Request, l: Lineage, r: Receipt, attempt: Id, retryOf: Option<Id>) {
    && r.request == q.id && r.attempt == attempt && r.retryOf == retryOf
    && r.outcome == Accepted && r.supersedes.None?
    && r.id !in l.seen && r.hash == q.hash && q.created <= r.observed
  }

  lemma {:induction false} SeenAll(requests: map<Id, Request>, start: Lineage, receipts: seq<Receipt>)
    ensures forall i :: 0 <= i < |receipts| ==> receipts[i].id in Replay(requests, start, receipts).seen
  {
    if receipts != [] { SeenAll(requests, start, receipts[..|receipts| - 1]); }
  }

  /** Naming a journal that is not among the receipts changes no verdict on them. */
  lemma {:induction false} OtherJournals(requests: map<Id, Request>, j: set<Id>, k: set<Id>, start: Lineage,
      receipts: seq<Receipt>)
    requires forall i :: 0 <= i < |receipts| ==> (receipts[i].id in j <==> receipts[i].id in k)
    ensures Clean(requests, j, start, receipts) <==> Clean(requests, k, start, receipts)
  {
    forall i | 0 <= i < |receipts|
      ensures ReceiptOk(requests, j, Replay(requests, start, receipts[..i]), receipts[i])
         <==> ReceiptOk(requests, k, Replay(requests, start, receipts[..i]), receipts[i])
    { }
  }

  /**
   For a request of an error-free exchange and a well-formed journal: the dispatch check
   accepts (attempt, parent) exactly when appending that journal as pending adds no error.
   */
  lemma {:induction false} DispatchIsJournalCheck(requests: map<Id, Request>, start: Lineage, receipts: seq<Receipt>,
                                                  q: Request, r: Receipt, attempt: Id, retryOf: Option<Id>)
    requires Owned(requests, start) && start.attempts == map[] && Clean(requests, {}, start, receipts)
    requires q.id in requests && requests[q.id] == q
    requires IsJournal(q, Replay(requests, start, receipts), r, attempt, retryOf)
    ensures MayDispatch(q, Replay(requests, start, receipts), attempt, retryOf)
       <==> Clean(requests, {r.id}, start, receipts + [r])
  {
    var l := Replay(requests, start, receipts);
    ReplayMirrors(requests, {}, start, receipts, q.id);
    SeenAll(requests, start, receipts);
    OtherJournals(requests, {}, {r.id}, start, receipts);
    CleanAppend(requests, {r.id}, start, receipts, r);
    assert |AttemptsOf(l, q.id)| < q.maxAttempts <==> |AttemptsOf(l, q.id)| + 1 <= q.maxAttempts;
  }

  // ----- runs -----

  /** The journals of a batch: the first receipt of an attempt, reporting `accepted`. */
  function JournalsOf(known: seq<Receipt>, batch: seq<Receipt>): set<Id> {
    set i | 0 <= i < |batch| && Begins(known + batch, |known| + i) && batch[i].outcome == Accepted :: batch[i].id
  }

  /** Position `k` holds the first receipt of its attempt. */
  predicate Begins(receipts: seq<Receipt>, k: nat) {
    k < |receipts| && forall i :: 0 <= i < k ==> receipts[i].attempt != receipts[k].attempt
  }

  function Flat(batches: seq<seq<Receipt>>): seq<Receipt> {
    if batches == [] then [] else Flat(batches[..|batches| - 1]) + batches[|batches| - 1]
  }

  /** Each batch was registered only after the inspection with it pending was error-free. */
  ghost predicate Registered(requests: map<Id, Request>, start: Lineage, batches: seq<seq<Receipt>>) {
    forall k :: 0 <= k < |batches| ==>
      Clean(requests, JournalsOf(Flat(batches[..k]), batches[k]), start, Flat(batches[..k]) + batches[k])
  }

  /** Every attempt begins with a durable accepted journal. */
  predicate Conforming(receipts: seq<Receipt>) {
    forall k :: 0 <= k < |receipts| && Begins(receipts, k) ==> receipts[k].outcome == Accepted
  }

  function IdsOf(receipts: seq<Receipt>): set<Id> {
    set i | 0 <= i < |receipts| :: receipts[i].id
  }

  /** Only receipts that begin an attempt are tested against the journal set. */
  lemma {:induction false} JournalMatters(requests: map<Id, Request>, j: set<Id>, k: set<Id>, start: Lineage,
                                          receipts: seq<Receipt>, i: nat)
    requires i < |receipts| && ReceiptOk(requests, j, Replay(requests, start, receipts[..i]), receipts[i])
    requires receipts[i].attempt !in Replay(requests, start, receipts[..i]).latest && receipts[i].id in k ==>
          receipts[i].id in j
    ensures ReceiptOk(requests, k, Replay(requests, start, receipts[..i]), receipts[i])
  {
  }

  predicate HasAttempt(receipts: seq<Receipt>, a: Id) {
    exists i :: 0 <= i < |receipts| && receipts[i].attempt == a
  }

  lemma {:induction false} HasAttemptAppend(receipts: seq<Receipt>, r: Receipt, a: Id)
    ensures HasAttempt(receipts + [r], a) <==> HasAttempt(receipts, a) || r.attempt == a
  {
    var all := receipts + [r];
    if HasAttempt(receipts, a) { var i :| 0 <= i < |receipts| && receipts[i].attempt == a; assert all[i].attempt == a; }
    if r.attempt == a { assert all[|receipts|].attempt == a; }
  }

  lemma {:induction false} LatestHasBegun(requests: map<Id, Request>, start: Lineage, receipts: seq<Receipt>,
      j: set<Id>)
    requires start.latest == map[] && Clean(requests, j, start, receipts)
    ensures forall a :: a in Replay(requests, start, receipts).latest <==> HasAttempt(receipts, a)
  {
    if receipts != [] {
      hide Clean, Step, ReceiptOk, Replay, HasAttempt;
      var init, last := receipts[..|receipts| - 1], receipts[|receipts| - 1];
      assert receipts == init + [last];
      CleanAppend(requests, j, start, init, last);
      LatestHasBegun(requests, start, init, j);
      ReplayAppend(requests, start, init, last);
      StepExtends(requests, j, Replay(requests, start, init), last);
      forall a ensures HasAttempt(receipts, a) <==> HasAttempt(init, a) || last.attempt == a {
        HasAttemptAppend(init, last, a);
      }
    } else {
      assert forall a :: !HasAttempt(receipts, a);
    }
  }

  /** The first receipt of an attempt meets an attempt the replay does not know yet. */
  lemma {:induction false} BeginsIsNew(requests: map<Id, Request>, start: Lineage, receipts: seq<Receipt>, j: set<Id>,
      k: nat)
    requires start.latest == map[] && Clean(requests, j, start, receipts) && k < |receipts|
    ensures Begins(receipts, k) <==> receipts[k].attempt !in Replay(requests, start, receipts[..k]).latest
  {
    var before := receipts[..k];
    assert Clean(requests, j, start, before) by {
      forall i | 0 <= i < k ensures ReceiptOk(requests, j, Replay(requests, start, before[..i]), before[i]) {
        assert before[..i] == receipts[..i];
        assert ReceiptOk(requests, j, Replay(requests, start, receipts[..i]), receipts[i]);
      }
    }
    LatestHasBegun(requests, start, before, j);
    hide Clean, Replay;
    assert forall i :: 0 <= i < k ==> before[i] == receipts[i];
  }

  /** A conforming batch whose journals were checked makes all its receipts count as checked journals. */
  lemma {:induction false} BatchEnforcesJournals(requests: map<Id, Request>, start: Lineage, known: seq<Receipt>,
      batch: seq<Receipt>)
    requires start.latest == map[] && Conforming(known + batch)
    requires Clean(requests, IdsOf(known), start, known)
    requires Clean(requests, JournalsOf(known, batch), start, known + batch)
    ensures Clean(requests, IdsOf(known + batch), start, known + batch)
  {
    var all, j := known + batch, JournalsOf(known, batch);
    forall i | 0 <= i < |all| ensures ReceiptOk(requests, IdsOf(all), Replay(requests, start, all[..i]), all[i]) {
      if i < |known| {
        assert all[..i] == known[..i] && all[i] == known[i];
        assert ReceiptOk(requests, IdsOf(known), Replay(requests, start, known[..i]), known[i]);
        JournalMatters(requests, IdsOf(known), IdsOf(all), start, known, i);
      } else {
        BeginsIsNew(requests, start, all, j, i);
        assert all[i] == batch[i - |known|] && |known| + (i - |known|) == i;
        JournalMatters(requests, j, IdsOf(all), start, all, i);
      }
    }
  }

  lemma {:induction false} ConformingPrefix(known: seq<Receipt>, batch: seq<Receipt>)
    requires Conforming(known + batch)
    ensures Conforming(known)
  {
    var all := known + batch;
    forall k | 0 <= k < |known| && Begins(known, k) ensures known[k].outcome == Accepted {
      assert all[k] == known[k] && Begins(all, k);
    }
  }

  /**
   Registering conforming batches one by one enforces the retry rules on every attempt: the whole
   exchange is error-free even with every receipt counted as a journal.
   */
  lemma {:induction false} BatchesEnforceJournals(requests: map<Id, Request>, start: Lineage,
      batches: seq<seq<Receipt>>)
    requires start.latest == map[] && Registered(requests, start, batches) && Conforming(Flat(batches))
    ensures Clean(requests, IdsOf(Flat(batches)), start, Flat(batches))
  {
    if batches != [] {
      var n := |batches| - 1;
      var known, batch := Flat(batches[..n]), batches[n];
      assert Registered(requests, start, batches[..n]) by {
        forall k | 0 <= k < n
          ensures Clean(requests, JournalsOf(Flat(batches[..n][..k]), batches[..n][k]), start,
                        Flat(batches[..n][..k]) + batches[..n][k])
        {
          assert batches[..n][..k] == batches[..k];
        }
      }
      ConformingPrefix(known, batch);
      BatchesEnforceJournals(requests, start, batches[..n]);
      assert Clean(requests, JournalsOf(known, batch), start, known + batch);
      BatchEnforcesJournals(requests, start, known, batch);
    }
  }

  /** The attempts form one chain, each naming the one before it, within the bounds of the policy. */
  predicate ChainOk(q: Request, attempts: seq<Id>, parent: map<Id, Option<Id>>) {
    && (forall i, k :: 0 <= i < k < |attempts| ==> attempts[i] != attempts[k])
    && (forall i :: 0 <= i < |attempts| ==> attempts[i] in parent)
    && (forall i :: 0 <= i < |attempts| ==> parent[attempts[i]] == if i == 0 then None else Some(attempts[i - 1]))
    && (|attempts| > 1 ==> |attempts| <= q.maxAttempts && q.mode != Never)
  }

  ghost predicate Chained(requests: map<Id, Request>, l: Lineage) {
    forall q :: q in l.attempts ==> q in requests && ChainOk(requests[q], l.attempts[q], l.parent)
  }

  lemma {:induction false} EmptyChain(q: Request, parent: map<Id, Option<Id>>)
    ensures ChainOk(q, [], parent)
  {
  }

  lemma {:induction false} ChainGrown(q: Request, prior: seq<Id>, parent: map<Id, Option<Id>>, a: Id,
      retryOf: Option<Id>)
    requires ChainOk(q, prior, parent) && a !in prior
    requires retryOf == if prior == [] then None else Some(prior[|prior| - 1])
    requires prior != [] ==> |prior| + 1 <= q.maxAttempts && q.mode != Never
    ensures ChainOk(q, prior + [a], parent[a := retryOf])
  {
    var all, parent' := prior + [a], parent[a := retryOf];
    assert forall i :: 0 <= i < |prior| ==> all[i] == prior[i] && prior[i] in prior;
    assert ChainOk(q, all, parent');
  }

  lemma {:induction false} ChainKept(q: Request, attempts: seq<Id>, parent: map<Id, Option<Id>>, a: Id,
      retryOf: Option<Id>)
    requires ChainOk(q, attempts, parent) && a !in attempts
    ensures ChainOk(q, attempts, parent[a := retryOf])
  {
    var parent' := parent[a := retryOf];
    forall i | 0 <= i < |attempts| ensures attempts[i] != a && parent'[attempts[i]] == parent[attempts[i]] {
      assert attempts[i] in attempts;
    }
    assert ChainOk(q, attempts, parent');
  }

  /** The retry rules for a new attempt whose first receipt is a journal. */
  predicate JournalOk(requests: map<Id, Request>, l: Lineage, r: Receipt) {
    var prior := AttemptsOf(l, r.request);
    && r.request in requests
    && r.retryOf == (if prior == [] then None else Some(prior[|prior| - 1]))
    && (prior != [] ==>
          && prior[|prior| - 1] in l.latest
          && l.latest[prior[|prior| - 1]].outcome in Retryable(requests[r.request].mode)
          && |prior| + 1 <= requests[r.request].maxAttempts)
  }

  lemma {:induction false} JournalAllows(requests: map<Id, Request>, journals: set<Id>, l: Lineage, r: Receipt)
    requires ReceiptOk(requests, journals, l, r) && r.id in journals && r.attempt !in l.latest
    ensures JournalOk(requests, l, r)
  {
  }

  lemma {:induction false} ChainedStep(requests: map<Id, Request>, l: Lineage, l': Lineage, r: Receipt)
    requires Owned(requests, l) && Chained(requests, l) && Extends(l, l', r)
    requires r.attempt !in l.latest ==> JournalOk(requests, l, r)
    ensures Chained(requests, l')
  {
    hide ChainOk;
    if r.attempt !in l.latest {
      forall q | q in l.attempts ensures r.attempt !in l.attempts[q] { assert AttemptsOf(l, q) == l.attempts[q]; }
      var prior := AttemptsOf(l, r.request);
      if prior == [] { EmptyChain(requests[r.request], l.parent); }
      ChainGrown(requests[r.request], prior, l.parent, r.attempt, r.retryOf);
      forall q | q in l'.attempts ensures q in requests && ChainOk(requests[q], l'.attempts[q], l'.parent) {
        if q != r.request { ChainKept(requests[q], l.attempts[q], l.parent, r.attempt, r.retryOf); }
      }
    }
  }

  lemma {:induction false} ReplayNone(requests: map<Id, Request>, start: Lineage)
    ensures Replay(requests, start, []) == start
  {
  }

  lemma {:induction false} ReceiptChained(requests: map<Id, Request>, j: set<Id>, l: Lineage, r: Receipt)
    requires Owned(requests, l) && Chained(requests, l) && ReceiptOk(requests, j, l, r) && r.id in j
    ensures Owned(requests, Step(requests, l, r)) && Chained(requests, Step(requests, l, r))
  {
    hide Owned, Chained, Extends, Step, ReceiptOk, JournalOk;
    StepExtends(requests, j, l, r);
    if r.attempt !in l.latest { JournalAllows(requests, j, l, r); }
    OwnedStep(requests, l, Step(requests, l, r), r);
    ChainedStep(requests, l, Step(requests, l, r), r);
  }

  lemma {:induction false} ReplayChained(requests: map<Id, Request>, start: Lineage, receipts: seq<Receipt>, j: set<Id>)
    requires Owned(requests, start) && start == Fresh(start.seen, start.owners)
    requires Clean(requests, j, start, receipts) && forall i :: 0 <= i < |receipts| ==> receipts[i].id in j
    ensures Owned(requests, Replay(requests, start, receipts)) && Chained(requests, Replay(requests, start, receipts))
  {
    ReplayNone(requests, start);
    assert Chained(requests, start);
    hide Owned, Chained, Clean, Step, ReceiptOk, Replay;
    if receipts != [] {
      var init, last := receipts[..|receipts| - 1], receipts[|receipts| - 1];
      assert receipts == init + [last];
      CleanAppend(requests, j, start, init, last);
      forall i | 0 <= i < |init| ensures init[i].id in j { assert receipts[i].id in j; }
      assert receipts[|init|].id in j;
      ReplayChained(requests, start, init, j);
      ReplayAppend(requests, start, init, last);
      ReceiptChained(requests, j, Replay(requests, start, init), last);
    }
  }

  /**
   Main theorem: after any run of batches whose attempts begin with accepted journals, each
   request's attempts are one linear retry chain of at most `maxAttempts`, a single one under `never`.
   */
  lemma {:induction false} RunsChain(requests: map<Id, Request>, start: Lineage, batches: seq<seq<Receipt>>)
    requires Owned(requests, start) && start == Fresh(start.seen, start.owners)
    requires Registered(requests, start, batches) && Conforming(Flat(batches))
    ensures Chained(requests, Replay(requests, start, Flat(batches)))
  {
    BatchesEnforceJournals(requests, start, batches);
    ReplayChained(requests, start, Flat(batches), IdsOf(Flat(batches)));
  }

  /** The rule on the receipt that begins an attempt, against what the replay knows before it. */
  ghost predicate RetryAllowed(requests: map<Id, Request>, l: Lineage, r: Receipt) {
    var q := r.request;
    && q in requests
    && (AttemptsOf(l, q) != [] ==>
          var previous := AttemptsOf(l, q)[|AttemptsOf(l, q)| - 1];
          && r.retryOf == Some(previous)
          && previous in l.latest && l.latest[previous].outcome in Retryable(requests[q].mode)
          && (requests[q].mode == Reconcile ==> l.latest[previous].outcome != Unknown))
  }

  lemma {:induction false} EnforcedRetries(requests: map<Id, Request>, start: Lineage, receipts: seq<Receipt>, k: nat)
    requires start.latest == map[] && Clean(requests, IdsOf(receipts), start, receipts) && Begins(receipts, k)
    ensures RetryAllowed(requests, Replay(requests, start, receipts[..k]), receipts[k])
  {
    var j := IdsOf(receipts);
    var l := Replay(requests, start, receipts[..k]);
    BeginsIsNew(requests, start, receipts, j, k);
    assert ReceiptOk(requests, j, l, receipts[k]);
    assert receipts[k].id in j;
    hide Clean, Begins, Replay, ReceiptOk;
    JournalAllows(requests, j, l, receipts[k]);
  }

  /**
   No attempt begins while the attempt before it has an outcome the policy does not allow
   to be retried; under `reconcile_before_retry` none follows an unreconciled `unknown`.
   */
  lemma {:induction false} RunsReconcile(requests: map<Id, Request>, start: Lineage, batches: seq<seq<Receipt>>, k: nat)
    requires start.latest == map[]
    requires Registered(requests, start, batches) && Conforming(Flat(batches)) && Begins(Flat(batches), k)
    ensures RetryAllowed(requests, Replay(requests, start, Flat(batches)[..k]), Flat(batches)[k])
  {
    BatchesEnforceJournals(requests, start, batches);
    EnforcedRetries(requests, start, Flat(batches), k);
  }
}
