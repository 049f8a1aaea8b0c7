/**
 Receipts of an adapter exchange: the replay that checks attempt lineage, the check made
 before one dispatch, and what the two together guarantee about retries.
 */
module AdapterLineage {
  import opened Prelude

  type Id = string

  datatype RetryMode = Never | Idempotent | Reconcile

  datatype Outcome = Accepted | Running | Succeeded | Failed | Cancelled | Unknown

  datatype Request = Request(id: Id, hash: string, created: int, mode: RetryMode, maxAttempts: int)

  datatype Receipt = Receipt(
    id: Id,
    request: Id,
    attempt: Id,
    outcome: Outcome,
    supersedes: Option<Id>,
    retryOf: Option<Id>,
    hash: string,
    observed: int)

  /** The dictionaries the replay carries from receipt to receipt. */
  datatype Lineage = Lineage(
    seen: set<Id>,
    owners: map<Id, Id>,
    latest: map<Id, Receipt>,
    parent: map<Id, Option<Id>>,
    attempts: map<Id, seq<Id>>)

  /** Outcomes after which the retry policy authorises a new attempt. */
  function Retryable(mode: RetryMode): set<Outcome> {
    match mode
    case Idempotent => {Failed, Cancelled, Unknown}
    case Reconcile => {Failed, Cancelled}
    case Never => {}
  }

  function AttemptsOf(l: Lineage, request: Id): seq<Id> {
    if request in l.attempts then l.attempts[request] else []
  }

  function OwnerOf(l: Lineage, r: Receipt): Id {
    if r.attempt in l.owners then l.owners[r.attempt] else r.request
  }

  // ----- one receipt -----

  /** A new attempt: its place in the retry chain and, for a dispatch journal, the retry policy. */
  predicate NewAttemptOk(q: Request, journals: set<Id>, l: Lineage, r: Receipt) {
    var prior := AttemptsOf(l, r.request);
    && r.supersedes.None?
    && r.retryOf == (if prior == [] then None else Some(prior[|prior| - 1]))
    && (prior != [] && r.id in journals ==>
          && prior[|prior| - 1] in l.latest
          && l.latest[prior[|prior| - 1]].outcome in Retryable(q.mode)
          && |prior| + 1 <= q.maxAttempts)
  }

  /** A later observation: the attempt keeps its parent and supersedes its latest receipt. */
  predicate ObservationOk(l: Lineage, r: Receipt) {
    && r.attempt in l.latest
    && r.attempt in l.parent && r.retryOf == l.parent[r.attempt]
    && r.supersedes == Some(l.latest[r.attempt].id)
  }

  /** The receipt adds no error. */
  predicate ReceiptOk(requests: map<Id, Request>, journals: set<Id>, l: Lineage, r: Receipt) {
    && r.id !in l.seen
    && r.request in requests
    && r.hash == requests[r.request].hash
    && requests[r.request].created <= r.observed
    && OwnerOf(l, r) == r.request
    && (if r.attempt in l.latest then ObservationOk(l, r) else NewAttemptOk(requests[r.request], journals, l, r))
  }

  /** What the replay records for a receipt of a known request that owns its attempt. */
  function Record(l: Lineage, r: Receipt): Lineage {
    var l1 := l.(seen := l.seen + {r.id}, owners := l.owners[r.attempt := OwnerOf(l, r)],
                 latest := l.latest[r.attempt := r]);
    if r.attempt in l.latest then l1
    else l1.(attempts := l.attempts[r.request := AttemptsOf(l, r.request) + [r.attempt]],
             parent := l.parent[r.attempt := r.retryOf])
  }

  function Step(requests: map<Id, Request>, l: Lineage, r: Receipt): Lineage {
    if r.request !in requests then l.(seen := l.seen + {r.id})
    else if OwnerOf(l, r) != r.request then l.(seen := l.seen + {r.id})
    else Record(l, r)
  }

  function Replay(requests: map<Id, Request>, start: Lineage, receipts: seq<Receipt>): Lineage {
    if receipts == [] then start
    else Step(requests, Replay(requests, start, receipts[..|receipts| - 1]), receipts[|receipts| - 1])
  }

  /** The replay of all receipts reports no error. */
  predicate Clean(requests: map<Id, Request>, journals: set<Id>, start: Lineage, receipts: seq<Receipt>) {
    forall i :: 0 <= i < |receipts| ==>
        ReceiptOk(requests, journals, Replay(requests, start, receipts[..i]), receipts[i])
  }

  /** A replay starts with what earlier exchanges used, and no attempts of its own. */
  function Fresh(seen: set<Id>, owners: map<Id, Id>): Lineage {
    Lineage(seen, owners, map[], map[], map[])
  }

  lemma {:induction false} ReplayAppend(requests: map<Id, Request>, start: Lineage, receipts: seq<Receipt>, r: Receipt)
    ensures Replay(requests, start, receipts + [r]) == Step(requests, Replay(requests, start, receipts), r)
  {
    assert (receipts + [r])[..|receipts|] == receipts;
  }

  lemma {:induction false} CleanAppend(requests: map<Id, Request>, journals: set<Id>, start: Lineage,
      receipts: seq<Receipt>, r: Receipt)
    ensures Clean(requests, journals, start, receipts + [r])
       <==> Clean(requests, journals, start, receipts)
            && ReceiptOk(requests, journals, Replay(requests, start, receipts), r)
  {
    var all := receipts + [r];
    forall i | 0 <= i < |receipts| ensures all[..i] == receipts[..i] && all[i] == receipts[i] { }
    assert all[..|receipts|] == receipts;
    if Clean(requests, journals, start, all) {
      assert ReceiptOk(requests, journals, Replay(requests, start, all[..|receipts|]), all[|receipts|]);
      forall i | 0 <= i < |receipts|
        ensures ReceiptOk(requests, journals, Replay(requests, start, receipts[..i]), receipts[i])
      {
        assert ReceiptOk(requests, journals, Replay(requests, start, all[..i]), all[i]);
      }
    }
  }

  /** Every listed attempt has a latest receipt and a recorded parent. */
  ghost predicate Consistent(l: Lineage) {
    l.latest.Keys == l.parent.Keys && forall q, a :: q in l.attempts && a in l.attempts[q] ==> a in l.latest
  }

  lemma {:induction false} ConsistentStep(requests: map<Id, Request>, l: Lineage, r: Receipt)
    requires Consistent(l)
    ensures Consistent(Step(requests, l, r))
  {
  }

  /** The errors of an attempt's first receipt; `extended` is the attempt list after its append. */
  method NewAttemptErrors(q: Request, journals: set<Id>, prior: seq<Id>, extended: seq<Id>, latest: map<Id, Receipt>,
                          r: Receipt, ghost l: Lineage) returns (errors: nat)
    requires prior == AttemptsOf(l, r.request) && latest == l.latest && extended == prior + [r.attempt]
    requires forall a :: a in prior ==> a in latest
    ensures errors == 0 <==> NewAttemptOk(q, journals, l, r)
  {
    errors := 0;
    if r.supersedes.Some? { errors := errors + 1; }
    if r.retryOf != (if prior == [] then None else Some(prior[|prior| - 1])) { errors := errors + 1; }
    if prior != [] {
      var status := latest[prior[|prior| - 1]].outcome;
      if status !in Retryable(q.mode) && r.id in journals { errors := errors + 1; }
      if |extended| > q.maxAttempts && r.id in journals { errors := errors + 1; }
    }
  }

  method ObservationErrors(parent: Option<Id>, latest: Receipt, r: Receipt, ghost l: Lineage) returns (errors: nat)
    requires r.attempt in l.latest && r.attempt in l.parent
    requires parent == l.parent[r.attempt] && latest == l.latest[r.attempt]
    ensures errors == 0 <==> ObservationOk(l, r)
  {
    errors := 0;
    if r.retryOf != parent { errors := errors + 1; }
    if r.supersedes != Some(latest.id) { errors := errors + 1; }
  }

  /** One iteration of the replay loop: update the dictionaries, count the errors. */
  method ReplayOne(requests: map<Id, Request>, journals: set<Id>, l: Lineage, r: Receipt)
    returns (l': Lineage, errors: nat)
    requires Consistent(l)
    ensures l' == Step(requests, l, r)
    ensures errors == 0 <==> ReceiptOk(requests, journals, l, r)
  {
    hide NewAttemptOk, ObservationOk;
    errors := 0;
    l' := l.(seen := l.seen + {r.id});
    if r.id in l.seen { errors := errors + 1; }
    if r.request !in requests { return l', errors + 1; }
    var q := requests[r.request];
    if r.hash != q.hash { errors := errors + 1; }
    if r.observed < q.created { errors := errors + 1; }
    if r.attempt in l.owners && l.owners[r.attempt] != r.request { return l', errors + 1; }
    l' := l'.(owners := l'.owners[r.attempt := r.request]);
    var found;
    if r.attempt !in l.latest {
      var prior := AttemptsOf(l, r.request);
      l' := l'.(attempts := l'.attempts[r.request := prior + [r.attempt]], parent := l'.parent[r.attempt := r.retryOf]);
      found := NewAttemptErrors(q, journals, prior, l'.attempts[r.request], l.latest, r, l);
    } else {
      found := ObservationErrors(l.parent[r.attempt], l.latest[r.attempt], r, l);
    }
    errors := errors + found;
    l' := l'.(latest := l'.latest[r.attempt := r]);
  }

  /**
   `_lineage`: one pass over the receipts that updates the dictionaries and counts the
   errors it appends.
   */
  method ReplayReceipts(requests: map<Id, Request>, journals: set<Id>, start: Lineage, receipts: seq<Receipt>)
    returns (l: Lineage, errors: nat)
    requires Consistent(start)
    ensures l == Replay(requests, start, receipts)
    ensures errors == 0 <==> Clean(requests, journals, start, receipts)
  {
    l, errors := start, 0;
    for i := 0 to |receipts|
      invariant l == Replay(requests, start, receipts[..i]) && Consistent(l)
      invariant errors == 0 <==> Clean(requests, journals, start, receipts[..i])
    {
      assert receipts[..i + 1] == receipts[..i] + [receipts[i]];
      ReplayAppend(requests, start, receipts[..i], receipts[i]);
      CleanAppend(requests, journals, start, receipts[..i], receipts[i]);
      ConsistentStep(requests, l, receipts[i]);
      var found;
      l, found := ReplayOne(requests, journals, l, receipts[i]);
      errors := errors + found;
    }
    assert receipts[..|receipts|] == receipts;
  }
}
