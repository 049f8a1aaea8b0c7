/**
 Retry chains over whole runs of the project: the inspection checks the retry policy only on the
 journals of the pending revision, and that suffices for every attempt ever registered.
 */
module AdapterChains {
  import opened Prelude
  import opened GateModel
  import opened GateWriters
  import opened GateSteps
  import opened GateRuns
  import opened AdapterAuthority
  import opened AdapterExchange
  import L = AdapterLineage
  import D = AdapterDispatch

  // ----- the start of the replay and the growth of the request list -----

  /** The same replay with fewer identifiers used before. */
  ghost predicate Lighter(l: L.Lineage, m: L.Lineage) {
    && l.seen <= m.seen && (forall a :: a in l.owners ==> a in m.owners && m.owners[a] == l.owners[a])
    && l.latest == m.latest && l.parent == m.parent && l.attempts == m.attempts
  }

  lemma {:induction false} LighterStep(requests: map<L.Id, L.Request>, j: set<L.Id>, l: L.Lineage, m: L.Lineage,
      r: L.Receipt)
    requires Lighter(l, m) && L.ReceiptOk(requests, j, m, r)
    ensures L.ReceiptOk(requests, j, l, r) && Lighter(L.Step(requests, l, r), L.Step(requests, m, r))
  {
  }

  lemma {:induction false} LighterReplay(requests: map<L.Id, L.Request>, j: set<L.Id>, l: L.Lineage, m: L.Lineage,
      receipts: seq<L.Receipt>)
    requires Lighter(l, m) && L.Clean(requests, j, m, receipts)
    ensures L.Clean(requests, j, l, receipts)
          && Lighter(L.Replay(requests, l, receipts), L.Replay(requests, m, receipts))
  {
    hide Lighter, L.ReceiptOk, L.Step, L.Clean;
    if receipts == [] {
      CleanNone(requests, j, l);
    } else {
      var init, last := receipts[..|receipts| - 1], receipts[|receipts| - 1];
      assert receipts == init + [last];
      L.CleanAppend(requests, j, m, init, last);
      LighterReplay(requests, j, l, m, init);
      L.CleanAppend(requests, j, l, init, last);
      L.ReplayAppend(requests, l, init, last);
      L.ReplayAppend(requests, m, init, last);
      LighterStep(requests, j, L.Replay(requests, l, init), L.Replay(requests, m, init), last);
    }
  }

  lemma {:induction false} CleanNone(requests: map<L.Id, L.Request>, j: set<L.Id>, l: L.Lineage)
    ensures L.Clean(requests, j, l, [])
  {
  }

  ghost predicate Includes(requests: map<L.Id, L.Request>, more: map<L.Id, L.Request>) {
    forall q :: q in requests ==> q in more && more[q] == requests[q]
  }

  /** Requests added later change nothing for receipts that were in order before. */
  lemma {:induction false} MoreRequests(requests: map<L.Id, L.Request>, more: map<L.Id, L.Request>, j: set<L.Id>,
      start: L.Lineage, receipts: seq<L.Receipt>)
    requires Includes(requests, more) && L.Clean(requests, j, start, receipts)
    ensures L.Clean(more, j, start, receipts) && L.Replay(more, start, receipts) == L.Replay(requests, start, receipts)
  {
    if receipts == [] {
      CleanNone(more, j, start);
    } else {
      var init, last := receipts[..|receipts| - 1], receipts[|receipts| - 1];
      assert receipts == init + [last];
      L.CleanAppend(requests, j, start, init, last);
      hide L.Clean;
      MoreRequests(requests, more, j, start, init);
      L.CleanAppend(more, j, start, init, last);
      L.ReplayAppend(requests, start, init, last);
      L.ReplayAppend(more, start, init, last);
    }
  }

  predicate IdsDistinct(items: seq<Item>) {
    forall i, j :: 0 <= i < j < |items| ==> items[i].id != items[j].id
  }

  lemma {:induction false} RequestsMember(items: seq<Item>)
    requires IdsDistinct(items)
    ensures forall i :: 0 <= i < |items| ==>
              items[i].id in RequestsOf(items) && RequestsOf(items)[items[i].id] == LineOf(items[i])
    ensures forall q :: q in RequestsOf(items) ==> exists i :: 0 <= i < |items| && items[i].id == q
  {
    if items != [] { RequestsMember(items[..|items| - 1]); }
  }

  lemma {:induction false} RequestsGrow(before: seq<Item>, after: seq<Item>)
    requires before <= after && IdsDistinct(after)
    ensures Includes(RequestsOf(before), RequestsOf(after))
  {
    RequestsMember(before);
    RequestsMember(after);
    forall q | q in RequestsOf(before) ensures q in RequestsOf(after) && RequestsOf(after)[q] == RequestsOf(before)[q] {
      var i :| 0 <= i < |before| && before[i].id == q;
      assert after[i] == before[i];
    }
  }

  lemma {:induction false} OwnIdsDistinct(exchanges: seq<Exchange>, n: nat)
    requires RequestsDistinct(AllItems(exchanges)) && n < |exchanges|
    ensures IdsDistinct(Latest(exchanges[n]).requests)
  {
    var last := |exchanges| - 1;
    var before, own := AllItems(exchanges[..last]), Latest(exchanges[last]).requests;
    var all := AllItems(exchanges);
    assert all == before + own;
    if n == last {
      forall i, j | 0 <= i < j < |own| ensures own[i].id != own[j].id {
        assert all[|before| + i] == own[i] && all[|before| + j] == own[j];
      }
    } else {
      forall i, j | 0 <= i < j < |before| ensures all[i] == before[i] && all[j] == before[j] { }
      OwnIdsDistinct(exchanges[..last], n);
    }
  }

  // ----- the retry policy on all attempts -----

  const NOTHING: L.Lineage := L.Fresh({}, map[])

  /** Were every receipt of the exchange a checked journal, its replay would still be error-free. */
  ghost predicate Enforced(ex: Exchange) {
    var d := Latest(ex);
    D.Conforming(d.receipts) ==> L.Clean(RequestsOf(d.requests), D.IdsOf(d.receipts), NOTHING, d.receipts)
  }

  /** The journals of a pending revision are those of the batch it brings. */
  lemma {:induction false} PendingIsBatch(before: Document, after: Document, batch: seq<L.Receipt>, ex: Exchange)
    requires ex.revisions != [] && after == Latest(ex) && before == DocumentAt(ex, |ex.revisions| - 1)
    requires after.receipts == before.receipts + batch
    ensures PendingJournals(ex, true) == D.JournalsOf(before.receipts, batch)
  {
    hide D.Begins;
    NewJournals(before.receipts, batch, after.receipts);
  }

  lemma {:induction false} NewJournals(known: seq<L.Receipt>, batch: seq<L.Receipt>, all: seq<L.Receipt>)
    requires all == known + batch
    ensures (set i | |known| <= i < |all| && IsJournal(all, i) :: all[i].id) == D.JournalsOf(known, batch)
  {
    hide D.Begins;
    forall i | |known| <= i < |all| && IsJournal(all, i) ensures all[i].id in D.JournalsOf(known, batch) {
      assert all[i] == batch[i - |known|] && |known| + (i - |known|) == i;
    }
    forall i | 0 <= i < |batch| && D.Begins(all, |known| + i) && batch[i].outcome == L.Accepted
      ensures batch[i].id in set k | |known| <= k < |all| && IsJournal(all, k) :: all[k].id
    {
      assert all[|known| + i] == batch[i] && IsJournal(all, |known| + i);
    }
  }

  lemma {:induction false} EnforcedGrows(r: Rules, s: State, exchanges: seq<Exchange>, n: nat, next: Document, t: Time)
    requires n < |exchanges| && Enforced(exchanges[n])
    requires InspectionOk(r, s, Extended(exchanges, n, next, t), Some(n))
    ensures Enforced(Extended(exchanges, n, next, t)[n])
  {
    var longer := Extended(exchanges, n, next, t);
    var ex, old_ := longer[n], exchanges[n];
    assert ExchangeOk(r, s, longer, n, IsPending(Some(n), n));
    var before, after := Latest(old_), Latest(ex);
    SameBefore(old_, next, t);
    assert RevisionOk(r, ex, |old_.revisions|);
    assert before.requests <= after.requests && before.receipts <= after.receipts;
    if D.Conforming(after.receipts) {
      var batch := after.receipts[|before.receipts|..];
      assert after.receipts == before.receipts + batch;
      hide RevisionOk, Granted, D.Conforming, RequestsDistinct, AllItems, StartOf, L.Clean, RequestsOf, PendingJournals;
      hide D.IdsOf, D.JournalsOf;
      D.ConformingPrefix(before.receipts, batch);
      PendingIsBatch(before, after, batch, ex);
      OwnIdsDistinct(longer, n);
      RequestsGrow(before.requests, after.requests);
      MoreRequests(RequestsOf(before.requests), RequestsOf(after.requests), D.IdsOf(before.receipts), NOTHING,
          before.receipts);
      StartIsHeavier(longer, n);
      LighterReplay(RequestsOf(after.requests), PendingJournals(ex, true), NOTHING, StartOf(longer, n), after.receipts);
      D.BatchEnforcesJournals(RequestsOf(after.requests), NOTHING, before.receipts, batch);
    }
  }

  lemma {:induction false} SameBefore(ex: Exchange, next: Document, t: Time)
    ensures var longer := ex.(revisions := ex.revisions + [Version(next, t)]);
            DocumentAt(longer, |ex.revisions|) == Latest(ex) && Latest(longer) == next
  {
  }

  lemma {:induction false} StartIsHeavier(exchanges: seq<Exchange>, n: nat)
    requires n <= |exchanges|
    ensures Lighter(NOTHING, StartOf(exchanges, n))
  {
  }

  ghost predicate AllEnforced(exchanges: seq<Exchange>) {
    forall n :: 0 <= n < |exchanges| ==> Enforced(exchanges[n])
  }

  lemma {:induction false} RunEnforced(p: Policy, r: Rules, sys: System, es: seq<ExchangeEvent>)
    requires AllEnforced(sys.exchanges)
    ensures AllEnforced(SystemRun(p, r, sys, es).exchanges)
  {
    hide Enforced, After, InspectionOk, Registers;
    if es != [] {
      RunEnforced(p, r, sys, es[..|es| - 1]);
      var before, last := SystemRun(p, r, sys, es[..|es| - 1]), es[|es| - 1];
      if last.Journal? && SystemRun(p, r, sys, es).exchanges != before.exchanges {
        var t := StampOf(p, before.state, last.step);
        EnforcedGrows(r, before.state, before.exchanges, last.n, last.next, t);
      }
    }
  }

  /** A new project with exchanges still to be registered. */
  ghost predicate NewSystem(p: Policy, sys: System, now: Time) {
    && PolicyOk(p) && sys.state == NewState(p, now)
    && forall n :: 0 <= n < |sys.exchanges| ==> sys.exchanges[n].revisions == []
  }

  lemma {:induction false} NothingRegistered(exchanges: seq<Exchange>)
    requires forall n :: 0 <= n < |exchanges| ==> exchanges[n].revisions == []
    ensures AllItems(exchanges) == []
  {
    if exchanges != [] { NothingRegistered(exchanges[..|exchanges| - 1]); }
  }

  lemma {:induction false} NewSystemStands(p: Policy, r: Rules, sys: System, now: Time)
    requires NewSystem(p, sys, now)
    ensures Standing(r, sys) && Sound(p, sys.state, []) && AllEnforced(sys.exchanges)
  {
    hide Sound, Standing, ExchangeOk, Enforced, NewState;
    NewStateSound(p, now);
    NothingRegistered(sys.exchanges);
    forall n | 0 <= n < |sys.exchanges| ensures Enforced(sys.exchanges[n]) { EmptyEnforced(sys.exchanges[n]); }
    EmptyStands(r, sys);
  }

  lemma {:induction false} EmptyEnforced(ex: Exchange)
    requires ex.revisions == []
    ensures Enforced(ex)
  {
  }

  lemma {:induction false} EmptyOk(r: Rules, s: State, exchanges: seq<Exchange>, n: nat)
    requires n < |exchanges| && exchanges[n].revisions == []
    ensures ExchangeOk(r, s, exchanges, n, IsPending(None, n))
  {
    assert Latest(exchanges[n]).receipts == [];
    hide StartOf, Authorized, Obliges;
  }

  lemma {:induction false} EmptyStands(r: Rules, sys: System)
    requires AllItems(sys.exchanges) == [] && forall n :: 0 <= n < |sys.exchanges| ==> sys.exchanges[n].revisions == []
    ensures Standing(r, sys)
  {
    hide ExchangeOk;
    forall n | 0 <= n < |sys.exchanges| ensures ExchangeOk(r, sys.state, sys.exchanges, n, IsPending(None, n)) {
      EmptyOk(r, sys.state, sys.exchanges, n);
    }
  }

  /** The attempts of every request of a conforming exchange, as the whole run left them. */
  ghost predicate ChainsOk(ex: Exchange) {
    var d := Latest(ex);
    var requests := RequestsOf(d.requests);
    D.Conforming(d.receipts) ==>
      && D.Chained(requests, L.Replay(requests, NOTHING, d.receipts))
      && forall k :: 0 <= k < |d.receipts| && D.Begins(d.receipts, k) ==>
           D.RetryAllowed(requests, L.Replay(requests, NOTHING, d.receipts[..k]), d.receipts[k])
  }

  lemma {:induction false} EnforcedChains(ex: Exchange)
    requires Enforced(ex)
    ensures ChainsOk(ex)
  {
    var d := Latest(ex);
    var requests := RequestsOf(d.requests);
    hide D.Conforming, D.Begins, D.RetryAllowed, D.Chained, L.Clean, L.Replay;
    if D.Conforming(d.receipts) {
      NothingOwned(requests);
      forall i | 0 <= i < |d.receipts| ensures d.receipts[i].id in D.IdsOf(d.receipts) { }
      D.ReplayChained(requests, NOTHING, d.receipts, D.IdsOf(d.receipts));
      forall k | 0 <= k < |d.receipts| && D.Begins(d.receipts, k)
        ensures D.RetryAllowed(requests, L.Replay(requests, NOTHING, d.receipts[..k]), d.receipts[k])
      {
        D.EnforcedRetries(requests, NOTHING, d.receipts, k);
      }
    }
  }

  lemma {:induction false} NothingOwned(requests: map<L.Id, L.Request>)
    ensures D.Owned(requests, NOTHING)
  {
  }

  /**
   Main theorem: from a new project on, whatever commands and registrations follow, the inspection
   of all exchanges reports no error, and where every attempt begins with an accepted journal each
   request's attempts are one linear retry chain that respects its policy.
   */
  lemma {:induction false} ExchangesStayInOrder(p: Policy, r: Rules, sys: System, now: Time, es: seq<ExchangeEvent>)
    requires NewSystem(p, sys, now)
    ensures var sys' := SystemRun(p, r, sys, es);
            && InspectionOk(r, sys'.state, sys'.exchanges, None)
            && forall n :: 0 <= n < |sys'.exchanges| ==> ChainsOk(sys'.exchanges[n])
  {
    hide Sound, Enforced, ChainsOk, InspectionOk, NewSystem;
    NewSystemStands(p, r, sys, now);
    var log := AcceptedForever(p, r, sys, [], es);
    RunEnforced(p, r, sys, es);
    var sys' := SystemRun(p, r, sys, es);
    forall n | 0 <= n < |sys'.exchanges| ensures ChainsOk(sys'.exchanges[n]) { EnforcedChains(sys'.exchanges[n]); }
  }
}
