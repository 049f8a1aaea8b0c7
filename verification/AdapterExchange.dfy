/**
 The whole inspection of a project's adapter exchanges, and why it stays error-free: requests and
 receipts are checked when their revision is registered, and every rule holds for good afterwards.
 */
module AdapterExchange {
  import opened Prelude
  import opened GateModel
  import opened GateTimeline
  import opened GateReplay
  import opened GateWriters
  import opened GateSteps
  import opened GateRuns
  import opened GateExtension
  import opened AdapterAuthority
  import L = AdapterLineage
  import D = AdapterDispatch

  /** A request with its identity, its canonical hash, its retry policy and its claim to authority. */
  datatype Item = Item(id: L.Id, hash: string, mode: L.RetryMode, maxAttempts: int, claim: Request)

  datatype Document = Document(requests: seq<Item>, receipts: seq<L.Receipt>)

  /** A registered revision of an exchange. */
  datatype Version = Version(document: Document, at: Time)

  /** One exchange artifact: the stage it belongs to and its revisions, none before the first registration. */
  datatype Exchange = Exchange(stage: nat, revisions: seq<Version>)

  /** The policy's authority, and the shape and hash checks on one document alone. */
  datatype Rules = Rules(authority: Authority, shaped: Document -> bool)

  // ----- one exchange -----

  /** The document of the first `k` revisions. */
  function DocumentAt(ex: Exchange, k: nat): Document
    requires k <= |ex.revisions|
  {
    if k == 0 then Document([], []) else ex.revisions[k - 1].document
  }

  function Latest(ex: Exchange): Document {
    DocumentAt(ex, |ex.revisions|)
  }

  /** An attempt's first receipt reports `accepted`. */
  predicate IsJournal(receipts: seq<L.Receipt>, i: nat) {
    D.Begins(receipts, i) && receipts[i].outcome == L.Accepted
  }

  /** The rules on revision `k` that need no project state. */
  ghost predicate RevisionOk(r: Rules, ex: Exchange, k: nat)
    requires k < |ex.revisions|
  {
    var before, after := DocumentAt(ex, k), DocumentAt(ex, k + 1);
    && r.shaped(after)
    && before.requests <= after.requests && before.receipts <= after.receipts
    && (forall i, j :: |before.receipts| <= i < j < |after.receipts| && IsJournal(after.receipts, i) ==>
          after.receipts[j].attempt != after.receipts[i].attempt)
    && (forall i :: |before.receipts| <= i < |after.receipts| ==> after.receipts[i].observed <= ex.revisions[k].at)
  }

  /** A pending revision brings no receipt of a request it brings itself. */
  predicate PersistedFirst(before: Document, after: Document) {
    forall i, j :: |before.receipts| <= i < |after.receipts| && |before.requests| <= j < |after.requests| ==>
      after.receipts[i].request != after.requests[j].id
  }

  /** The claims revision `k` must have authority for: of its new requests, and of requests its new journals serve. */
  ghost predicate Obliges(ex: Exchange, k: nat, claim: Request)
    requires k < |ex.revisions|
  {
    var before, after := DocumentAt(ex, k), DocumentAt(ex, k + 1);
    || (exists j :: |before.requests| <= j < |after.requests| && after.requests[j].claim == claim)
    || (exists i, j :: |before.receipts| <= i < |after.receipts| && IsJournal(after.receipts, i)
          && 0 <= j < |Latest(ex).requests| && Latest(ex).requests[j].id == after.receipts[i].request
          && Latest(ex).requests[j].claim == claim)
  }

  /** Authority now for the pending last revision, in history for all others. */
  ghost predicate Granted(r: Rules, s: State, ex: Exchange, pending: bool) {
    forall k, claim :: 0 <= k < |ex.revisions| && Obliges(ex, k, claim) ==>
      Authorized(r.authority, s, claim, ex.stage, ex.revisions[k].at, pending && k == |ex.revisions| - 1)
  }

  function LineOf(item: Item): L.Request {
    L.Request(item.id, item.hash, item.claim.created, item.mode, item.maxAttempts)
  }

  function RequestsOf(items: seq<Item>): map<L.Id, L.Request> {
    if items == [] then map[]
    else
      var last := items[|items| - 1];
      RequestsOf(items[..|items| - 1])[last.id := LineOf(last)]
  }

  /** The journals of a pending last revision, which the replay holds to the retry policy. */
  function PendingJournals(ex: Exchange, pending: bool): set<L.Id> {
    if pending && ex.revisions != [] then
      var before, after := DocumentAt(ex, |ex.revisions| - 1), Latest(ex);
      set i | |before.receipts| <= i < |after.receipts| && IsJournal(after.receipts, i) :: after.receipts[i].id
    else {}
  }

  // ----- the project -----

  /** What the exchanges before number `n` leave seen and owned. */
  function StartOf(exchanges: seq<Exchange>, n: nat): L.Lineage
    requires n <= |exchanges|
  {
    if n == 0 then L.Fresh({}, map[])
    else
      var ex := exchanges[n - 1];
      var l := L.Replay(RequestsOf(Latest(ex).requests), StartOf(exchanges, n - 1), Latest(ex).receipts);
      L.Fresh(l.seen, l.owners)
  }

  function AllItems(exchanges: seq<Exchange>): seq<Item> {
    if exchanges == [] then [] else AllItems(exchanges[..|exchanges| - 1]) + Latest(exchanges[|exchanges| - 1]).requests
  }

  /** Across the project no two requests share an identifier or a human authorization. */
  predicate RequestsDistinct(items: seq<Item>) {
    forall i, j :: 0 <= i < j < |items| ==>
      && items[i].id != items[j].id
      && (items[i].claim.authorization.Some? && items[j].claim.authorization.Some? ==>
            items[i].claim.authorization.value.id != items[j].claim.authorization.value.id)
  }

  /** The replay of exchange `n`, after those before it, adds no error. */
  predicate LineageOk(exchanges: seq<Exchange>, n: nat, pending: bool)
    requires n < |exchanges|
  {
    var ex := exchanges[n];
    L.Clean(RequestsOf(Latest(ex).requests), PendingJournals(ex, pending), StartOf(exchanges, n), Latest(ex).receipts)
  }

  /** Exchange `n` passes every rule; `pending` when its last revision is not registered yet. */
  ghost predicate ExchangeOk(r: Rules, s: State, exchanges: seq<Exchange>, n: nat, pending: bool)
    requires n < |exchanges|
  {
    var ex := exchanges[n];
    && (forall k :: 0 <= k < |ex.revisions| ==> RevisionOk(r, ex, k))
    && (pending && ex.revisions != [] ==> PersistedFirst(DocumentAt(ex, |ex.revisions| - 1), Latest(ex)))
    && Granted(r, s, ex, pending)
    && LineageOk(exchanges, n, pending)
  }

  predicate IsPending(pending: Option<nat>, n: nat) {
    pending == Some(n)
  }

  /** `inspect_adapter_exchanges` reports no error, with the last revision of one exchange possibly pending. */
  ghost predicate InspectionOk(r: Rules, s: State, exchanges: seq<Exchange>, pending: Option<nat>) {
    && RequestsDistinct(AllItems(exchanges))
    && forall n :: 0 <= n < |exchanges| ==> ExchangeOk(r, s, exchanges, n, IsPending(pending, n))
  }

  // ----- runs -----

  /** Any command, or the registration of the next revision of exchange `n`. */
  datatype ExchangeEvent = Other(step: Step) | Journal(n: nat, next: Document, step: Step)

  datatype System = System(state: State, exchanges: seq<Exchange>)

  /** A registration that records a new revision, stamped `NextTimestamp`. */
  ghost predicate Registers(p: Policy, s: State, step: Step) {
    && PolicyOk(p) && |s.records| == |p.owner| && s.stage < p.stages
    && step.command.CmdRegister?
    && Exec(p, s, step.command, step.clock).Ok? && Exec(p, s, step.command, step.clock).value != s
    && NextTimestamp(s, step.clock(0)).Some?
  }

  function Extended(exchanges: seq<Exchange>, n: nat, next: Document, t: Time): seq<Exchange>
    requires n < |exchanges|
  {
    exchanges[n := exchanges[n].(revisions := exchanges[n].revisions + [Version(next, t)])]
  }

  /** A revision is registered only if the inspection with it pending reports no error. */
  ghost function SystemStep(p: Policy, r: Rules, sys: System, e: ExchangeEvent): System {
    match e
    case Other(step) => sys.(state := After(p, sys.state, step))
    case Journal(n, next, step) =>
      if n < |sys.exchanges| && Registers(p, sys.state, step) then
        var longer := Extended(sys.exchanges, n, next, NextTimestamp(sys.state, step.clock(0)).value);
        if InspectionOk(r, sys.state, longer, Some(n)) then System(After(p, sys.state, step), longer) else sys
      else sys
  }

  ghost function SystemRun(p: Policy, r: Rules, sys: System, es: seq<ExchangeEvent>): System {
    if es == [] then sys else SystemStep(p, r, SystemRun(p, r, sys, es[..|es| - 1]), es[|es| - 1])
  }

  /** Registration times are among the recorded ones. */
  ghost predicate TimesRecorded(s: State, exchanges: seq<Exchange>) {
    forall n, k :: 0 <= n < |exchanges| && 0 <= k < |exchanges[n].revisions| ==>
        RecordedBy(s, exchanges[n].revisions[k].at)
  }

  /** The inspection of everything registered reports no error. */
  ghost predicate Standing(r: Rules, sys: System) {
    InspectionOk(r, sys.state, sys.exchanges, None) && TimesRecorded(sys.state, sys.exchanges)
  }

  // ----- commands leave the inspection error-free -----

  lemma {:induction false} GrantedLater(r: Rules, s: State, s': State, ex: Exchange)
    requires Granted(r, s, ex, false) && GateExtension.Extends(s, s')
    requires forall k :: 0 <= k < |ex.revisions| ==> RecordedBy(s, ex.revisions[k].at)
    ensures Granted(r, s', ex, false)
  {
    hide GateExtension.Extends, RecordedBy, Authorized, Obliges;
    forall k, claim | 0 <= k < |ex.revisions| && Obliges(ex, k, claim)
      ensures Authorized(r.authority, s', claim, ex.stage, ex.revisions[k].at, false)
    {
      assert Authorized(r.authority, s, claim, ex.stage, ex.revisions[k].at, false);
      VerdictStands(r.authority, s, s', claim, ex.stage, ex.revisions[k].at);
    }
  }

  lemma {:induction false} StandingAfter(p: Policy, r: Rules, sys: System, step: Step)
    requires Standing(r, sys)
    ensures Standing(r, sys.(state := After(p, sys.state, step)))
  {
    hide After, Granted, RevisionOk, LineageOk, PersistedFirst, AllBefore, RequestsDistinct;
    var s' := After(p, sys.state, step);
    AfterExtends(p, sys.state, step);
    forall n | 0 <= n < |sys.exchanges| ensures ExchangeOk(r, s', sys.exchanges, n, IsPending(None, n)) {
      assert ExchangeOk(r, sys.state, sys.exchanges, n, IsPending(None, n));
      GrantedLater(r, sys.state, s', sys.exchanges[n]);
    }
  }

  // ----- a registered revision stands -----

  /** The registration stamps the new revision and leaves histories and stage alone. */
  lemma {:induction false} RegistrationStamps(p: Policy, s: State, step: Step)
    requires Registers(p, s, step)
    ensures var s', t := After(p, s, step), NextTimestamp(s, step.clock(0)).value;
            && s'.records == s.records && s'.transitions == s.transitions && AllBefore(s, t) && RecordedBy(s', t)
            && forall u :: AllBefore(s', u) ==> AllBefore(s, u)
  {
    hide BindingsOk, FrozenRole, StageReached;
    NextTimestampLeast(s, step.clock(0));
    AfterExtends(p, s, step);
    var c := step.command;
    var t := NextTimestamp(s, step.clock(0)).value;
    var s' := After(p, s, step);
    var revisions := s'.registry[c.role].revisions;
    assert revisions[|revisions| - 1].at == t;
    forall u | AllBefore(s', u) ensures t < u {
      assert c.role in s'.registry && s'.registry[c.role].revisions[|revisions| - 1].at < u;
    }
  }

  /** The historical check reads only records and transitions. */
  lemma {:induction false} HistoricalReads(a: Authority, s: State, s': State, req: Request, stage: nat, t: Time)
    requires s'.records == s.records && s'.transitions == s.transitions
    ensures Authorized(a, s', req, stage, t, false) <==> Authorized(a, s, req, stage, t, false)
  {
  }

  lemma {:induction false} GrantedForGood(p: Policy, r: Rules, s: State, s': State, log: seq<Event>, ex: Exchange,
      pending: bool)
    requires Sound(p, s, log) && Granted(r, s, ex, pending)
    requires pending && ex.revisions != [] ==> AllBefore(s, ex.revisions[|ex.revisions| - 1].at)
    requires s'.records == s.records && s'.transitions == s.transitions
    ensures Granted(r, s', ex, false)
  {
    hide Sound, Authorized, Obliges, AllBefore;
    forall k, claim | 0 <= k < |ex.revisions| && Obliges(ex, k, claim)
      ensures Authorized(r.authority, s', claim, ex.stage, ex.revisions[k].at, false)
    {
      var t := ex.revisions[k].at;
      assert Authorized(r.authority, s, claim, ex.stage, t, pending && k == |ex.revisions| - 1);
      if pending && k == |ex.revisions| - 1 { RegistrationVerdict(p, s, log, r.authority, claim, ex.stage, t); }
      HistoricalReads(r.authority, s, s', claim, ex.stage, t);
    }
  }

  /** Naming fewer journals adds no lineage error. */
  lemma {:induction false} FewerJournals(requests: map<L.Id, L.Request>, j: set<L.Id>, start: L.Lineage,
      receipts: seq<L.Receipt>)
    requires L.Clean(requests, j, start, receipts)
    ensures L.Clean(requests, {}, start, receipts)
  {
    forall i | 0 <= i < |receipts|
      ensures L.ReceiptOk(requests, {}, L.Replay(requests, start, receipts[..i]), receipts[i])
    {
      D.JournalMatters(requests, j, {}, start, receipts, i);
    }
  }

  lemma {:induction false} ExchangeStands(p: Policy, r: Rules, s: State, s': State, log: seq<Event>,
      exchanges: seq<Exchange>, n: nat, pending: bool)
    requires n < |exchanges| && Sound(p, s, log) && ExchangeOk(r, s, exchanges, n, pending)
    requires var ex := exchanges[n]; pending && ex.revisions != [] ==> AllBefore(s, ex.revisions[|ex.revisions| - 1].at)
    requires s'.records == s.records && s'.transitions == s.transitions
    ensures ExchangeOk(r, s', exchanges, n, false)
  {
    var ex := exchanges[n];
    hide Sound, Granted, RevisionOk, PersistedFirst, AllBefore, L.Clean, StartOf, RequestsOf;
    GrantedForGood(p, r, s, s', log, ex, pending);
    FewerJournals(RequestsOf(Latest(ex).requests), PendingJournals(ex, pending), StartOf(exchanges, n),
        Latest(ex).receipts);
  }

  lemma {:induction false} StandingJournal(p: Policy, r: Rules, sys: System, log: seq<Event>, n: nat, next: Document,
      step: Step)
    requires Sound(p, sys.state, log) && Standing(r, sys)
    ensures Standing(r, SystemStep(p, r, sys, Journal(n, next, step)))
  {
    hide Sound, ExchangeOk, Registers, AllBefore, After, RequestsDistinct, AllItems, NextTimestamp;
    if n < |sys.exchanges| && Registers(p, sys.state, step) {
      var t := StampOf(p, sys.state, step);
      var longer := Extended(sys.exchanges, n, next, t);
      if InspectionOk(r, sys.state, longer, Some(n)) {
        RegistrationStamps(p, sys.state, step);
        var s' := After(p, sys.state, step);
        forall m | 0 <= m < |longer| ensures ExchangeOk(r, s', longer, m, IsPending(None, m)) {
          ExchangeStands(p, r, sys.state, s', log, longer, m, IsPending(Some(n), m));
        }
      }
    }
  }

  lemma {:induction false} StampOf(p: Policy, s: State, step: Step) returns (t: Time)
    requires Registers(p, s, step)
    ensures NextTimestamp(s, step.clock(0)) == Some(t)
  {
    t := NextTimestamp(s, step.clock(0)).value;
  }

  lemma {:induction false} AfterSound(p: Policy, s: State, log: seq<Event>, step: Step) returns (log': seq<Event>)
    requires Sound(p, s, log)
    ensures Sound(p, After(p, s, step), log')
  {
    log' := log;
    if Exec(p, s, step.command, step.clock).Ok? { log' := ExecSound(p, s, log, step.command, step.clock); }
  }

  /**
   Main theorem, accepted once, accepted forever: whatever commands and registrations follow,
   reopens of the bound Gates included, the inspection of the whole project reports no error.
   */
  lemma {:induction false} AcceptedForever(p: Policy, r: Rules, sys: System, log: seq<Event>, es: seq<ExchangeEvent>)
    returns (log': seq<Event>)
    requires Sound(p, sys.state, log) && Standing(r, sys)
    ensures Standing(r, SystemRun(p, r, sys, es)) && Sound(p, SystemRun(p, r, sys, es).state, log')
  {
    hide Standing, Sound, After, InspectionOk, Registers;
    if es == [] {
      log' := log;
    } else {
      log' := AcceptedForever(p, r, sys, log, es[..|es| - 1]);
      var before, last := SystemRun(p, r, sys, es[..|es| - 1]), es[|es| - 1];
      match last
      case Other(step) =>
        StandingAfter(p, r, before, step);
        log' := AfterSound(p, before.state, log', step);
      case Journal(n, next, step) =>
        StandingJournal(p, r, before, log', n, next, step);
        if SystemRun(p, r, sys, es) != before { log' := AfterSound(p, before.state, log', step); }
    }
  }
}
