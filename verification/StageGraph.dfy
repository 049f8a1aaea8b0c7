/**
 Which policies keep the current stage behind the destinations of unapproved Gates. The
 commands are followed on two numbers, the current stage and how many GateRefs are approved.
 Loading a policy does not enforce the condition found here, but it is finite and can be computed.
 */
module StageGraph {
  import opened Prelude
  import opened GateModel
  import opened GateTimeline
  import opened CascadeContract
  import opened GateReplay
  import opened GateWriters
  import opened GateHistories
  import opened GateSteps
  import opened GateRuns
  import opened GateVerdict

  /** Exactly the first `k` GateRefs are approved. */
  predicate FirstApproved(records: seq<GateRecord>, k: nat) {
    k <= |records| && forall g :: 0 <= g < |records| ==> (records[g].status == Approved <==> g < k)
  }

  /** Every destination that GateRefs from `k` on unlock lies beyond stage `c`. */
  predicate Clear(p: Policy, k: nat, c: nat) {
    forall a, i :: (0 <= a < |p.edges| && 0 <= i < |p.edges[a]| && p.edges[a][i].gate.Some?
        && p.edges[a][i].gate.value >= k) ==> c < p.edges[a][i].to
  }

  /** A checkpoint may take this edge once the first `k` GateRefs are approved. */
  predicate Open(e: Edge, k: nat) {
    e.gate.Some? ==> e.gate.value < k
  }

  // ----- the two-number machine -----

  /** The current stage and how many GateRefs, the first ones, are approved. */
  datatype Position = At(stage: nat, approved: nat)

  /** Where approving the next GateRef leads; it is refused away from its owner and its edges. */
  predicate Approves(p: Policy, a: Position, b: Position) {
    && a.approved < |p.owner| && a.stage < |p.edges| && b.approved == a.approved + 1
    && match FirstEdge(p.edges[a.stage], a.approved)
       case Some(to) => b.stage == if to > a.stage then to else a.stage
       case None => a.stage == p.owner[a.approved] && b.stage == a.stage
  }

  /** Reopening an approved GateRef returns to its owner stage at the latest. */
  predicate Reopens(p: Policy, a: Position, b: Position) {
    b.approved < a.approved <= |p.owner| && b.stage == Min(a.stage, p.owner[b.approved])
  }

  /** A checkpoint takes an edge that is open already. */
  predicate Checkpoints(p: Policy, a: Position, b: Position) {
    && b.approved == a.approved && a.stage < |p.edges|
    && exists i :: 0 <= i < |p.edges[a.stage]| && p.edges[a.stage][i].to == b.stage
          && Open(p.edges[a.stage][i], a.approved)
  }

  /** One successful command as seen on positions. */
  predicate Moves(p: Policy, a: Position, b: Position) {
    a == b || Approves(p, a, b) || Reopens(p, a, b) || Checkpoints(p, a, b)
  }

  predicate ClearAt(p: Policy, q: Position) {
    Clear(p, q.approved, q.stage)
  }

  /** The positions with at most `limit` GateRefs approved. */
  function Positions(p: Policy, limit: nat): set<Position> {
    set c, k | 0 <= c < p.stages && 0 <= k <= limit :: At(c, k)
  }

  lemma {:induction false} PositionsMember(p: Policy, limit: nat, q: Position)
    ensures q in Positions(p, limit) <==> q.stage < p.stages && q.approved <= limit
  {
    if q.stage < p.stages && q.approved <= limit { assert q == At(q.stage, q.approved); }
  }

  /** One more command from any of these positions; the writers refuse one that is not clear. */
  function Onward(p: Policy, limit: nat, from: set<Position>): (next: set<Position>)
    ensures from <= next
  {
    from + set b | b in Positions(p, limit) && exists a :: a in from && ClearAt(p, a) && Moves(p, a, b)
  }

  /** What `n` commands reach from the first stage with nothing approved. */
  function ReachedBy(p: Policy, limit: nat, n: nat): set<Position> {
    if n == 0 then {At(0, 0)} else Onward(p, limit, ReachedBy(p, limit, n - 1))
  }

  /** Everything commands reach with at most `limit` GateRefs approved at any time. */
  function Reached(p: Policy, limit: nat): set<Position> {
    ReachedBy(p, limit, |Positions(p, limit)|)
  }

  /** The condition on a policy: every position its commands reach is clear. */
  predicate StageSafe(p: Policy) {
    forall q :: q in Reached(p, |p.owner|) ==> ClearAt(p, q)
  }

  // ----- the search for reached positions is complete -----

  lemma {:induction false} ReachedInside(p: Policy, limit: nat, n: nat)
    requires p.stages > 0
    ensures ReachedBy(p, limit, n) <= Positions(p, limit)
  {
    if n == 0 { PositionsMember(p, limit, At(0, 0)); } else { ReachedInside(p, limit, n - 1); }
  }

  predicate Closed(p: Policy, limit: nat, from: set<Position>) {
    Onward(p, limit, from) == from
  }

  lemma {:induction false} LargerByOne<T>(a: set<T>, b: set<T>)
    requires a <= b && a != b
    ensures |b| >= |a| + 1
  {
    var x :| x in b && x !in a;
    var rest := b - a;
    assert b == a + rest && x in rest;
  }

  /** Each round adds a position until none is left to add. */
  lemma {:induction false} RoundsGrow(p: Policy, limit: nat, n: nat)
    ensures Closed(p, limit, ReachedBy(p, limit, n)) || |ReachedBy(p, limit, n)| >= n + 1
  {
    hide Onward, Positions;
    if n > 0 {
      RoundsGrow(p, limit, n - 1);
      var before, after := ReachedBy(p, limit, n - 1), ReachedBy(p, limit, n);
      if before != after { LargerByOne(before, after); }
    }
  }

  lemma {:induction false} SubsetSize<T>(a: set<T>, b: set<T>)
    requires a <= b
    ensures |a| <= |b|
  {
    if a != b { LargerByOne(a, b); }
  }

  lemma {:induction false} ReachedIsClosed(p: Policy, limit: nat)
    requires p.stages > 0
    ensures Closed(p, limit, Reached(p, limit))
  {
    var n := |Positions(p, limit)|;
    RoundsGrow(p, limit, n);
    ReachedInside(p, limit, n);
    SubsetSize(ReachedBy(p, limit, n), Positions(p, limit));
  }

  lemma {:induction false} RoundsKeep(p: Policy, limit: nat, n: nat)
    ensures At(0, 0) in ReachedBy(p, limit, n)
  {
    if n > 0 { RoundsKeep(p, limit, n - 1); }
  }

  /** Reached positions start at the first stage and are closed under the commands of clear ones. */
  lemma {:induction false} ReachedOnward(p: Policy, limit: nat, a: Position, b: Position)
    requires p.stages > 0 && a in Reached(p, limit) && ClearAt(p, a) && Moves(p, a, b)
    requires b.stage < p.stages && b.approved <= limit
    ensures b in Reached(p, limit)
  {
    hide Positions, Moves, ClearAt, Reached;
    ReachedIsClosed(p, limit);
    PositionsMember(p, limit, b);
    assert b in Onward(p, limit, Reached(p, limit));
  }

  // ----- a condition edge by edge -----

  predicate StepsClear(p: Policy) {
    forall c, i, k :: (0 <= c < |p.edges| && 0 <= i < |p.edges[c]| && 0 <= k <= |p.owner|
        && Open(p.edges[c][i], k) && Clear(p, k, c)) ==> Clear(p, k, p.edges[c][i].to)
  }

  predicate OwnersClear(p: Policy) {
    forall g :: 0 <= g < |p.owner| ==> Clear(p, g, p.owner[g])
  }

  /**
   A condition that needs no search: the first stage precedes every Gate destination, a
   Gate's owner stage precedes its own and every later Gate's destinations, and no edge
   that can be taken passes a destination of a Gate still to be approved.
   */
  predicate GraphSafe(p: Policy) {
    Clear(p, 0, 0) && OwnersClear(p) && StepsClear(p)
  }

  /** The stage rule survives every move from every position that satisfies it, reached or not. */
  ghost predicate StageRuleInductive(p: Policy) {
    && Clear(p, 0, 0)
    && forall a, b :: a in Positions(p, |p.owner|) && ClearAt(p, a) && Moves(p, a, b) ==> ClearAt(p, b)
  }

  lemma {:induction false} MovesKeepClear(p: Policy, a: Position, b: Position)
    requires PolicyOk(p) && GraphSafe(p) && a.approved <= |p.owner| && ClearAt(p, a) && Moves(p, a, b)
    ensures ClearAt(p, b)
  {
    if Approves(p, a, b) && FirstEdge(p.edges[a.stage], a.approved).Some? {
      FirstEdgeIn(p.edges[a.stage], a.approved);
      var to := FirstEdge(p.edges[a.stage], a.approved).value;
      var i :| 0 <= i < |p.edges[a.stage]| && p.edges[a.stage][i] == Edge(to, Some(a.approved));
      assert Open(p.edges[a.stage][i], b.approved) && Clear(p, b.approved, a.stage);
    } else if Reopens(p, a, b) {
      assert Clear(p, b.approved, p.owner[b.approved]);
    }
  }

  /** `GraphSafe` says exactly that the stage rule is inductive. */
  lemma {:induction false} GraphSafeIsInductive(p: Policy)
    requires PolicyOk(p)
    ensures GraphSafe(p) <==> StageRuleInductive(p)
  {
    var n := |p.owner|;
    if GraphSafe(p) {
      forall a, b | a in Positions(p, n) && ClearAt(p, a) && Moves(p, a, b) ensures ClearAt(p, b) {
        MovesKeepClear(p, a, b);
      }
    }
    if StageRuleInductive(p) {
      forall g | 0 <= g < n ensures Clear(p, g, p.owner[g]) {
        EdgesNameGates(p);
        PositionsMember(p, n, At(p.owner[g], n));
        assert Moves(p, At(p.owner[g], n), At(p.owner[g], g)) && ClearAt(p, At(p.owner[g], n));
        assert ClearAt(p, At(p.owner[g], g));
      }
      forall c, i, k | 0 <= c < |p.edges| && 0 <= i < |p.edges[c]| && 0 <= k <= n
          && Open(p.edges[c][i], k) && Clear(p, k, c)
        ensures Clear(p, k, p.edges[c][i].to)
      {
        PositionsMember(p, n, At(c, k));
        assert Moves(p, At(c, k), At(p.edges[c][i].to, k)) && ClearAt(p, At(c, k));
        assert ClearAt(p, At(p.edges[c][i].to, k));
      }
    }
  }

  lemma {:induction false} InductiveRounds(p: Policy, n: nat)
    requires PolicyOk(p) && StageRuleInductive(p)
    ensures forall q :: q in ReachedBy(p, |p.owner|, n) ==> ClearAt(p, q)
  {
    if n > 0 {
      hide Moves, ClearAt, Positions, PolicyOk;
      InductiveRounds(p, n - 1);
      ReachedInside(p, |p.owner|, n - 1);
    } else {
      assert ClearAt(p, At(0, 0));
    }
  }

  /** The condition edge by edge is sufficient. */
  lemma {:induction false} GraphSafeSuffices(p: Policy)
    requires PolicyOk(p) && GraphSafe(p)
    ensures StageSafe(p)
  {
    GraphSafeIsInductive(p);
    InductiveRounds(p, |Positions(p, |p.owner|)|);
  }

  lemma {:induction false} EdgesNameGates(p: Policy)
    requires PolicyOk(p)
    ensures forall c :: Clear(p, |p.owner|, c)
  {
    forall a, i | 0 <= a < |p.edges| && 0 <= i < |p.edges[a]| ensures EdgeOk(p, p.edges[a][i]) { }
  }

  // ----- the commands follow the two-number machine -----

  lemma {:induction false} StageRuleIsClear(p: Policy, s: State, k: nat)
    requires PolicyOk(p) && |s.records| == |p.owner| && FirstApproved(s.records, k)
    ensures StageReached(p, s) <==> Clear(p, k, s.stage)
  {
    forall a, i | 0 <= a < |p.edges| && 0 <= i < |p.edges[a]| ensures EdgeOk(p, p.edges[a][i]) { }
    if Clear(p, k, s.stage) {
      forall c, i | 0 <= c < |p.edges| && 0 <= i < |p.edges[c]| && p.edges[c][i].gate.Some?
          && p.edges[c][i].to <= s.stage
        ensures IsApproved(s, p.edges[c][i].gate.value)
      { assert EdgeOk(p, p.edges[c][i]); }
    }
    if !Clear(p, k, s.stage) {
      var a, i :| 0 <= a < |p.edges| && 0 <= i < |p.edges[a]| && p.edges[a][i].gate.Some?
        && p.edges[a][i].gate.value >= k && p.edges[a][i].to <= s.stage;
      assert EdgeOk(p, p.edges[a][i]);
      assert !IsApproved(s, p.edges[a][i].gate.value);
    }
  }

  lemma {:induction false} NextToApprove(records: seq<GateRecord>, g: nat, k: nat)
    requires FirstApproved(records, k) && g < |records| && records[g].status != Approved
    requires forall h :: 0 <= h < g ==> records[h].status == Approved
    ensures g == k
  {
    if k < |records| { assert records[k].status != Approved; }
  }

  lemma {:induction false} ApproveMoves(p: Policy, s: State, g: nat, mode: Option<Mode>, reason: string,
      defense: Defense, dirty: set<Role>, clock: Clock, k: nat)
    requires PolicyOk(p) && |s.records| == |p.owner| && s.stage < p.stages && FirstApproved(s.records, k)
    requires ExecApprove(p, s, g, mode, reason, defense, dirty, clock).Ok?
    ensures var s' := ExecApprove(p, s, g, mode, reason, defense, dirty, clock).value;
            FirstApproved(s'.records, k + 1) && Approves(p, At(s.stage, k), At(s'.stage, k + 1))
  {
    hide BindingsOk, GateRefs, Absent, NextTimestamp, DefenseOk;
    NextToApprove(s.records, g, k);
    if FirstEdge(p.edges[s.stage], g).Some? { FirstEdgeIn(p.edges[s.stage], g); }
  }

  lemma {:induction false} ReopenMoves(p: Policy, s: State, log: seq<Event>, g: nat, reason: string,
      defense: Defense, clock: Clock, k: nat)
    requires Mid(p, s, log, s.nextId) && Settled(p, s, log) && g < |s.records| && FirstApproved(s.records, k)
    requires reason != "" && DefenseOk(defense) && RecordReopen(p, s, g, reason, defense, clock).Ok?
    ensures var s' := RecordReopen(p, s, g, reason, defense, clock).value;
            FirstApproved(s'.records, g) && Reopens(p, At(s.stage, k), At(s'.stage, g))
  {
    hide Logged, RecordsOk, PrerequisitesThen, LifecycleOk, StageHistoryOk, RegistryOk, CascadesOk;
    var _ := RecordReopenSound(p, s, log, g, reason, defense, clock);
  }

  lemma {:induction false} CheckpointMoves(p: Policy, s: State, stage: Option<nat>, dirty: set<Role>, clock: Clock,
      k: nat)
    requires PolicyOk(p) && |s.records| == |p.owner| && s.stage < p.stages && FirstApproved(s.records, k)
    requires ExecCheckpoint(p, s, stage, dirty, clock).Ok?
    ensures var s' := ExecCheckpoint(p, s, stage, dirty, clock).value;
            s'.records == s.records && Moves(p, At(s.stage, k), At(s'.stage, k))
  {
    hide BindingsOk, GateRefs, NextTimestamp;
    if stage.Some? && stage.value != s.stage {
      FindEdgeIn(p.edges[s.stage], stage.value);
      var e := FindEdge(p.edges[s.stage], stage.value).value;
      var i :| 0 <= i < |p.edges[s.stage]| && p.edges[s.stage][i] == e;
      assert Open(p.edges[s.stage][i], k);
    }
  }

  lemma {:induction false} LifecycleMoves(p: Policy, s: State, log: seq<Event>, action: LifeAction,
      affected: Option<nat>, reason: string, defense: Defense, clock: Clock, k: nat) returns (k': nat)
    requires Sound(p, s, log) && FirstApproved(s.records, k)
    requires ExecLifecycle(p, s, action, affected, reason, defense, clock).Ok?
    ensures var s' := ExecLifecycle(p, s, action, affected, reason, defense, clock).value;
            FirstApproved(s'.records, k') && Moves(p, At(s.stage, k), At(s'.stage, k'))
  {
    hide Logged, RecordsOk, PrerequisitesThen, LifecycleOk, StageHistoryOk, RegistryOk, CascadesOk, BindingsOk;
    hide PrerequisitesNow, AllBefore, NoneBefore, RecordReopen, Approves, Reopens, Checkpoints, FirstApproved;
    hide CurrentRefs, NextTimestamp, DefenseOk;
    if affected.Some? {
      ReopenMoves(p, s, log, affected.value, reason, defense, clock, k);
      k' := affected.value;
    } else {
      StayMoves(p, s.stage, k);
      k' := k;
    }
  }

  /** Every successful command is a move of the two-number machine. */
  lemma {:induction false} ExecMoves(p: Policy, s: State, log: seq<Event>, c: Command, clock: Clock, k: nat)
    returns (k': nat)
    requires Sound(p, s, log) && FirstApproved(s.records, k) && Exec(p, s, c, clock).Ok?
    ensures var s' := Exec(p, s, c, clock).value;
            FirstApproved(s'.records, k') && Moves(p, At(s.stage, k), At(s'.stage, k'))
  {
    hide Logged, RecordsOk, PrerequisitesThen, LifecycleOk, StageHistoryOk, RegistryOk, CascadesOk, BindingsOk;
    hide PrerequisitesNow, AllBefore, NoneBefore, RecordReopen, Approves, Reopens, Checkpoints, FirstApproved;
    hide FrozenRole, DefenseOk;
    hide ExecApprove, ExecLifecycle, ExecCheckpoint, NextTimestamp;
    match c
    case CmdApprove(g, mode, reason, defense, dirty) =>
      ApproveMoves(p, s, g, mode, reason, defense, dirty, clock, k);
      k' := k + 1;
    case CmdReopen(g, reason, defense) =>
      ReopenMoves(p, s, log, g, reason, defense, clock, k);
      k' := g;
    case CmdLifecycle(action, affected, reason, defense) =>
      k' := LifecycleMoves(p, s, log, action, affected, reason, defense, clock, k);
    case CmdCheckpoint(stage, dirty) =>
      CheckpointMoves(p, s, stage, dirty, clock, k);
      k' := k;
    case CmdRegister(role, artifact, source, snapshot, hash, size) =>
      k' := k;
      StayMoves(p, s.stage, k);
  }

  lemma {:induction false} StayMoves(p: Policy, c: nat, k: nat)
    ensures Moves(p, At(c, k), At(c, k))
  {
  }

  lemma {:induction false} CountBounded(records: seq<GateRecord>, k: nat)
    requires FirstApproved(records, k)
    ensures k <= |records|
  {
  }

  /** A run only visits reached positions: the writers move on from clear documents only. */
  lemma {:induction false} RunReached(p: Policy, s: State, log: seq<Event>, k: nat, steps: seq<Step>)
    returns (log': seq<Event>, k': nat)
    requires Sound(p, s, log) && FirstApproved(s.records, k) && At(s.stage, k) in Reached(p, |p.owner|)
    ensures var s' := Run(p, s, steps);
            Sound(p, s', log') && FirstApproved(s'.records, k') && At(s'.stage, k') in Reached(p, |p.owner|)
  {
    hide Logged, RecordsOk, PrerequisitesThen, LifecycleOk, StageHistoryOk, RegistryOk, Settled, Clear, FirstApproved;
    hide Moves, Reached, StageReached;
    if steps == [] {
      log', k' := log, k;
    } else {
      log', k' := RunReached(p, s, log, k, steps[..|steps| - 1]);
      var before, last := Run(p, s, steps[..|steps| - 1]), steps[|steps| - 1];
      if Exec(p, before, last.command, last.clock).Ok? {
        var after := Exec(p, before, last.command, last.clock).value;
        var count := ExecMoves(p, before, log', last.command, last.clock, k');
        StageRuleIsClear(p, before, k');
        log' := ExecSound(p, before, log', last.command, last.clock);
        CountBounded(after.records, count);
        ReachedOnward(p, |p.owner|, At(before.stage, k'), At(after.stage, count));
        k' := count;
      }
    }
  }

  lemma {:induction false} NewProjectRun(p: Policy, now: Time, steps: seq<Step>) returns (log: seq<Event>, k: nat)
    requires PolicyOk(p)
    ensures var s := Run(p, NewState(p, now), steps);
            Sound(p, s, log) && FirstApproved(s.records, k) && At(s.stage, k) in Reached(p, |p.owner|)
  {
    NewStateSound(p, now);
    RoundsKeep(p, |p.owner|, |Positions(p, |p.owner|)|);
    log, k := RunReached(p, NewState(p, now), [], 0, steps);
  }

  /**
   Main theorem: when every position its commands reach is clear, every state of every run
   passes the complete replay check, the approved GateRefs being a prefix of the sequence.
   */
  lemma {:induction false} RunsKeepReplay(p: Policy, now: Time, steps: seq<Step>) returns (k: nat)
    requires PolicyOk(p) && StageSafe(p)
    ensures ReplayOk(p, Run(p, NewState(p, now), steps))
    ensures FirstApproved(Run(p, NewState(p, now), steps).records, k)
  {
    hide Clear, Sound, Reached;
    var log;
    log, k := NewProjectRun(p, now, steps);
    var s' := Run(p, NewState(p, now), steps);
    SoundIsAccepted(p, s', log);
    StageRuleIsClear(p, s', k);
  }

  // ----- the graph the repository ships -----

  /** idea, literature, method, experiment_results, paper, revision; the five GateRefs in order. */
  predicate ShippedGraph(p: Policy) {
    && p.stages == 6 && p.owner == [0, 2, 3, 4, 5]
    && p.edges == [
         [Edge(1, None), Edge(2, Some(0))],
         [Edge(0, None), Edge(2, Some(0))],
         [Edge(0, None), Edge(1, None), Edge(3, Some(1))],
         [Edge(0, None), Edge(1, None), Edge(2, None), Edge(4, Some(2))],
         [Edge(1, None), Edge(2, None), Edge(3, None), Edge(5, Some(3))],
         [Edge(0, None), Edge(1, None), Edge(2, None), Edge(3, None), Edge(4, None)]]
  }

  lemma {:induction false} ShippedClear(p: Policy, k: nat, c: nat)
    requires ShippedGraph(p)
    ensures Clear(p, k, c) <==> k >= 4 || c < k + 2
  {
    assert forall a, i :: 0 <= a < |p.edges| && 0 <= i < |p.edges[a]| && p.edges[a][i].gate.Some? ==>
      p.edges[a][i].gate.value < 4 && p.edges[a][i].to == p.edges[a][i].gate.value + 2;
    if k < 4 {
      var a := if k == 0 then 0 else k + 1;
      var i := |p.edges[a]| - 1;
      assert p.edges[a][i] == Edge(k + 2, Some(k));
    }
  }

  /** The shipped graph meets both conditions, so under it no run ever fails the replay check. */
  lemma {:induction false} ShippedGraphIsSafe(p: Policy)
    requires ShippedGraph(p)
    ensures GraphSafe(p) && (PolicyOk(p) ==> StageSafe(p))
  {
    ShippedEdgesClear(p);
    if PolicyOk(p) { GraphSafeSuffices(p); }
  }

  lemma {:induction false} ShippedEdgesClear(p: Policy)
    requires ShippedGraph(p)
    ensures GraphSafe(p)
  {
    forall k: nat, c: nat ensures Clear(p, k, c) <==> k >= 4 || c < k + 2 { ShippedClear(p, k, c); }
    hide Clear;
    forall c, i, k | 0 <= c < |p.edges| && 0 <= i < |p.edges[c]| && 0 <= k <= |p.owner|
        && Open(p.edges[c][i], k) && Clear(p, k, c)
      ensures Clear(p, k, p.edges[c][i].to)
    {
      assert p.edges[c][i].gate.None? ==> p.edges[c][i].to <= c || p.edges[c][i].to == 1;
    }
  }
}
