/**
 Appends to one registered manifest by processes that take turns under the state lock.

 `encode` and `decode` stand for the manifest's JSON form; a matching hash is matching content.
 */
module ManifestAppend {
  import opened Prelude

  type Item = string
  type Bytes = string

  datatype Codec = Codec(encode: seq<Item> -> Bytes, decode: Bytes -> Option<seq<Item>>)

  ghost predicate CodecOk(c: Codec) {
    forall values :: c.decode(c.encode(values)) == Some(values)
  }

  /** One `append` command: its item and whether the manifest must be registered already. */
  datatype Job = Job(item: Item, requireExisting: bool)

  /** How far a process is in its command. */
  datatype Phase = Waiting | Holding | Loaded(values: seq<Item>) | Written(values: seq<Item>) | Ended(landed: bool)

  /**
   The working file, the registered snapshots in order, the lock holder and every process.
   `turns` lists the processes in the order they took the lock, `landed` those whose append was registered.
   */
  datatype System = System(
    working: Option<Bytes>,
    snapshots: seq<Bytes>,
    lock: Option<nat>,
    phases: seq<Phase>,
    turns: seq<nat>,
    landed: seq<nat>)

  datatype Move =
    | Acquire(p: nat)
    | Load(p: nat)
    | Write(p: nat)
    | Register(p: nat, accepted: bool)
    | Crash(p: nat)
    | Edit(content: Option<Bytes>)

  // ----- one command, phase by phase -----

  /** The working file holds exactly what was registered last (`_assert_current_source`). */
  predicate Current(working: Option<Bytes>, snapshots: seq<Bytes>)
    requires snapshots != []
  {
    working == Some(snapshots[|snapshots| - 1])
  }

  /** What `_append_and_register` reads before it writes; nothing when it refuses. */
  function Loading(c: Codec, job: Job, working: Option<Bytes>, snapshots: seq<Bytes>): Option<seq<Item>> {
    var values := if working.Some? then c.decode(working.value) else Some([]);
    if values.None? then None
    else if snapshots != [] then if Current(working, snapshots) then values else None
    else if job.requireExisting then None
    else values
  }

  function Release(s: System, p: nat, landed: bool): System
    requires p < |s.phases|
  {
    s.(lock := None, phases := s.phases[p := Ended(landed)])
  }

  function Apply(c: Codec, jobs: seq<Job>, s: System, m: Move): System
    requires |s.phases| == |jobs|
  {
    match m
    case Acquire(p) =>
      if p < |jobs| && s.lock == None && s.phases[p].Waiting? then
        s.(lock := Some(p), phases := s.phases[p := Holding], turns := s.turns + [p])
      else s
    case Load(p) =>
      if p < |jobs| && s.lock == Some(p) && s.phases[p].Holding? then
        match Loading(c, jobs[p], s.working, s.snapshots)
        case None => Release(s, p, false)
        case Some(values) => s.(phases := s.phases[p := Loaded(values)])
      else s
    case Write(p) =>
      if p < |jobs| && s.lock == Some(p) && s.phases[p].Loaded? then
        var values := s.phases[p].values;
        s.(working := Some(c.encode(values + [jobs[p].item])), phases := s.phases[p := Written(values)])
      else s
    case Register(p, accepted) =>
      if p < |jobs| && s.lock == Some(p) && s.phases[p].Written? && s.working.Some? then
        if accepted then Release(s.(snapshots := s.snapshots + [s.working.value], landed := s.landed + [p]), p, true)
        else Release(s, p, false)
      else s
    case Crash(p) =>
      if p < |jobs| && s.lock == Some(p) then Release(s, p, false) else s
    case Edit(content) =>
      if s.lock == None then s.(working := content) else s
  }

  function Start(jobs: seq<Job>, working: Option<Bytes>): System {
    System(working, [], None, seq(|jobs|, _ => Waiting), [], [])
  }

  function After(c: Codec, jobs: seq<Job>, s: System, moves: seq<Move>): (s': System)
    requires |s.phases| == |jobs|
    ensures |s'.phases| == |jobs|
  {
    if moves == [] then s else Apply(c, jobs, After(c, jobs, s, moves[..|moves| - 1]), moves[|moves| - 1])
  }

  // ----- what every interleaving keeps -----

  function ItemsOf(jobs: seq<Job>, ps: seq<nat>): seq<Item>
    requires forall k :: 0 <= k < |ps| ==> ps[k] < |jobs|
  {
    seq(|ps|, k requires 0 <= k < |ps| => jobs[ps[k]].item)
  }

  /** The processes of `turns` whose append landed. */
  function Successes(phases: seq<Phase>, turns: seq<nat>): seq<nat> {
    if turns == [] then []
    else
      var p := turns[|turns| - 1];
      Successes(phases, turns[..|turns| - 1]) + if p < |phases| && phases[p] == Ended(true) then [p] else []
  }

  predicate InCommand(f: Phase) { f.Holding? || f.Loaded? || f.Written? }

  /** Each landed append made one snapshot. */
  predicate Paired(jobs: seq<Job>, s: System) {
    |s.snapshots| == |s.landed| && forall i :: 0 <= i < |s.landed| ==> s.landed[i] < |jobs|
  }

  /** Snapshot `k` holds the list the manifest began with and the first `k + 1` appends that landed. */
  ghost predicate SnapshotOk(c: Codec, jobs: seq<Job>, s: System, first: seq<Item>, k: nat)
    requires Paired(jobs, s) && k < |s.snapshots|
  {
    c.decode(s.snapshots[k]) == Some(first + ItemsOf(jobs, s.landed[..k + 1]))
  }

  /** Only the lock holder is inside its command, and every process took the lock at most once. */
  ghost predicate LockOk(jobs: seq<Job>, s: System) {
    && |s.phases| == |jobs|
    && (forall p :: 0 <= p < |jobs| ==> (s.lock == Some(p) <==> InCommand(s.phases[p])))
    && (s.lock.Some? ==> s.lock.value < |jobs|)
    && (forall p :: 0 <= p < |jobs| ==> (s.phases[p].Waiting? <==> p !in s.turns))
    && (forall i :: 0 <= i < |s.turns| ==> s.turns[i] < |jobs|)
    && (forall i, j :: 0 <= i < j < |s.turns| ==> s.turns[i] != s.turns[j])
    && (s.lock.Some? ==> s.turns != [] && s.turns[|s.turns| - 1] == s.lock.value)
    && s.landed == Successes(s.phases, s.turns)
  }

  /** The holder works on the registered list, and after its write the working file is one item ahead. */
  ghost predicate HolderOk(c: Codec, jobs: seq<Job>, s: System) {
    s.lock.Some? && s.lock.value < |jobs| && |s.phases| == |jobs| ==>
      var p := s.lock.value;
      && (s.phases[p].Loaded? && s.snapshots != [] ==>
            c.decode(s.snapshots[|s.snapshots| - 1]) == Some(s.phases[p].values))
      && (s.phases[p].Written? ==>
            && s.working == Some(c.encode(s.phases[p].values + [jobs[p].item]))
            && (s.snapshots != [] ==> c.decode(s.snapshots[|s.snapshots| - 1]) == Some(s.phases[p].values)))
  }

  ghost predicate Inv(c: Codec, jobs: seq<Job>, s: System, first: seq<Item>) {
    && LockOk(jobs, s) && HolderOk(c, jobs, s)
    && Paired(jobs, s)
    && (forall k :: 0 <= k < |s.snapshots| ==> SnapshotOk(c, jobs, s, first, k))
  }

  lemma {:induction false} SuccessesKept(phases: seq<Phase>, p: nat, f: Phase, turns: seq<nat>)
    requires p < |phases| && p !in turns
    ensures Successes(phases[p := f], turns) == Successes(phases, turns)
  {
    if turns != [] {
      assert turns[|turns| - 1] in turns;
      SuccessesKept(phases, p, f, turns[..|turns| - 1]);
    }
  }

  /** Ending the holder's command adds it to the successes exactly when its append landed. */
  lemma {:induction false} HolderEnds(jobs: seq<Job>, s: System, f: Phase)
    requires LockOk(jobs, s) && s.lock.Some? && !f.Waiting?
    ensures var p := s.lock.value;
            Successes(s.phases[p := f], s.turns) == s.landed + if f == Ended(true) then [p] else []
  {
    var p, before := s.lock.value, s.turns[..|s.turns| - 1];
    SuccessesKept(s.phases, p, f, before);
  }

  lemma {:induction false} ReleaseKeeps(jobs: seq<Job>, s: System, landed: bool)
    requires LockOk(jobs, s) && s.lock.Some?
    ensures var p := s.lock.value;
            LockOk(jobs, Release(s.(landed := if landed then s.landed + [p] else s.landed), p, landed))
  {
    HolderEnds(jobs, s, Ended(landed));
    assert s.landed + [] == s.landed;
  }

  lemma {:induction false} AcquireKeeps(c: Codec, jobs: seq<Job>, s: System, p: nat)
    requires LockOk(jobs, s) && p < |jobs| && s.lock == None && s.phases[p].Waiting?
    ensures LockOk(jobs, Apply(c, jobs, s, Acquire(p)))
  {
    SuccessesKept(s.phases, p, Holding, s.turns);
    var s' := Apply(c, jobs, s, Acquire(p));
    assert s'.turns[..|s.turns|] == s.turns;
    assert s.landed + [] == s.landed;
  }

  lemma {:induction false} AdvanceKeeps(jobs: seq<Job>, s: System, f: Phase)
    requires LockOk(jobs, s) && s.lock.Some? && InCommand(f)
    ensures LockOk(jobs, s.(phases := s.phases[s.lock.value := f]))
  {
    HolderEnds(jobs, s, f);
    assert s.landed + [] == s.landed;
  }

  lemma {:induction false} LockKept(c: Codec, jobs: seq<Job>, s: System, m: Move)
    requires LockOk(jobs, s)
    ensures LockOk(jobs, Apply(c, jobs, s, m))
  {
    assert |s.phases| == |jobs| && (s.lock.Some? ==> s.lock.value < |jobs|);
    hide LockOk, Successes, Loading;
    var s' := Apply(c, jobs, s, m);
    if s' != s {
      match m
      case Acquire(p) => AcquireKeeps(c, jobs, s, p);
      case Load(p) =>
        match Loading(c, jobs[p], s.working, s.snapshots) {
          case None => ReleaseKeeps(jobs, s, false);
          case Some(values) => AdvanceKeeps(jobs, s, Loaded(values));
        }
      case Write(p) =>
        var f := Written(s.phases[p].values);
        AdvanceKeeps(jobs, s, f);
        SharedIrrelevant(jobs, s.(phases := s.phases[p := f]), s');
      case Register(p, accepted) =>
        ReleaseKeeps(jobs, s, accepted);
        SharedIrrelevant(jobs, Release(s.(landed := if accepted then s.landed + [p] else s.landed), p, accepted), s');
      case Crash(p) => ReleaseKeeps(jobs, s, false);
      case Edit(content) => SharedIrrelevant(jobs, s, s');
    }
  }

  lemma {:induction false} SharedIrrelevant(jobs: seq<Job>, s: System, s': System)
    requires LockOk(jobs, s) && s' == s.(working := s'.working, snapshots := s'.snapshots)
    ensures LockOk(jobs, s')
  {
  }

  lemma {:induction false} HolderKept(c: Codec, jobs: seq<Job>, s: System, m: Move)
    requires LockOk(jobs, s) && HolderOk(c, jobs, s)
    ensures HolderOk(c, jobs, Apply(c, jobs, s, m))
  {
  }

  /** One move keeps every snapshot, and a new one is the last list plus the holder's item. */
  lemma {:induction false} MoveKeeps(c: Codec, jobs: seq<Job>, s: System, first: seq<Item>, m: Move)
    returns (first': seq<Item>)
    requires CodecOk(c) && Inv(c, jobs, s, first)
    ensures Inv(c, jobs, Apply(c, jobs, s, m), first')
    ensures s.snapshots != [] ==> first' == first
    ensures s.snapshots <= Apply(c, jobs, s, m).snapshots && s.landed <= Apply(c, jobs, s, m).landed
  {
    LockKept(c, jobs, s, m);
    HolderKept(c, jobs, s, m);
    Registers(c, jobs, s, m);
    hide LockOk, Apply, HolderOk, SnapshotOk;
    var s' := Apply(c, jobs, s, m);
    if s'.snapshots == s.snapshots && s'.landed == s.landed {
      first' := first;
      OldSnapshotsOk(c, jobs, s, s', first);
    } else {
      first' := GrownKeeps(c, jobs, s, s', first, m.p, s.phases[m.p].values);
    }
  }

  lemma {:induction false} GrownKeeps(c: Codec, jobs: seq<Job>, s: System, s': System, first: seq<Item>, p: nat,
      values: seq<Item>)
    returns (first': seq<Item>)
    requires CodecOk(c) && Paired(jobs, s) && forall k :: 0 <= k < |s.snapshots| ==> SnapshotOk(c, jobs, s, first, k)
    requires p < |jobs| && s'.landed == s.landed + [p]
    requires s'.snapshots == s.snapshots + [c.encode(values + [jobs[p].item])]
    requires s.snapshots != [] ==> c.decode(s.snapshots[|s.snapshots| - 1]) == Some(values)
    ensures Paired(jobs, s') && forall k :: 0 <= k < |s'.snapshots| ==> SnapshotOk(c, jobs, s', first', k)
    ensures s.snapshots != [] ==> first' == first
  {
    hide SnapshotOk;
    first' := if s.snapshots == [] then values else first;
    NewSnapshotOk(c, jobs, s, s', first, first', p, values);
    if s.snapshots != [] { OldSnapshotsOk(c, jobs, s, s', first); }
  }

  lemma {:induction false} OldSnapshotsOk(c: Codec, jobs: seq<Job>, s: System, s': System, first: seq<Item>)
    requires Paired(jobs, s) && Paired(jobs, s') && s.snapshots <= s'.snapshots && s.landed <= s'.landed
    requires forall k :: 0 <= k < |s.snapshots| ==> SnapshotOk(c, jobs, s, first, k)
    ensures forall k :: 0 <= k < |s.snapshots| ==> SnapshotOk(c, jobs, s', first, k)
  {
    forall k | 0 <= k < |s.snapshots| ensures SnapshotOk(c, jobs, s', first, k) {
      OldSnapshotOk(c, jobs, s, s', first, k);
    }
  }

  lemma {:induction false} OldSnapshotOk(c: Codec, jobs: seq<Job>, s: System, s': System, first: seq<Item>, k: nat)
    requires Paired(jobs, s) && Paired(jobs, s') && s.snapshots <= s'.snapshots && s.landed <= s'.landed
    requires k < |s.snapshots| && SnapshotOk(c, jobs, s, first, k)
    ensures SnapshotOk(c, jobs, s', first, k)
  {
    assert s'.landed[..k + 1] == s.landed[..k + 1];
  }

  /** Only an accepted registration changes the snapshots, and it adds the holder's list. */
  lemma {:induction false} Registers(c: Codec, jobs: seq<Job>, s: System, m: Move)
    requires LockOk(jobs, s) && HolderOk(c, jobs, s)
    ensures var s' := Apply(c, jobs, s, m);
            || (s'.snapshots == s.snapshots && s'.landed == s.landed)
            || (m.Register? && m.p < |jobs| && s.phases[m.p].Written?
                && s'.snapshots == s.snapshots + [c.encode(s.phases[m.p].values + [jobs[m.p].item])]
                && s'.landed == s.landed + [m.p]
                && (s.snapshots != [] ==> c.decode(s.snapshots[|s.snapshots| - 1]) == Some(s.phases[m.p].values)))
  {
  }

  lemma {:induction false} NewSnapshotOk(c: Codec, jobs: seq<Job>, s: System, s': System, first: seq<Item>,
      first': seq<Item>, p: nat, values: seq<Item>)
    requires CodecOk(c) && Paired(jobs, s) && Paired(jobs, s')
    requires p < |jobs| && s'.landed == s.landed + [p]
    requires s'.snapshots == s.snapshots + [c.encode(values + [jobs[p].item])]
    requires s.snapshots != [] ==>
      SnapshotOk(c, jobs, s, first, |s.snapshots| - 1)
      && c.decode(s.snapshots[|s.snapshots| - 1]) == Some(values) && first' == first
    requires s.snapshots == [] ==> first' == values
    ensures SnapshotOk(c, jobs, s', first', |s.snapshots|)
  {
    var n := |s.snapshots|;
    assert s'.landed[..n + 1] == s'.landed && s.landed[..n] == s.landed;
    assert ItemsOf(jobs, s'.landed) == ItemsOf(jobs, s.landed) + [jobs[p].item];
    assert n == 0 ==> ItemsOf(jobs, s.landed) == [];
    assert values + [jobs[p].item] == first' + ItemsOf(jobs, s'.landed);
  }

  lemma {:induction false} StartOk(c: Codec, jobs: seq<Job>, working: Option<Bytes>)
    ensures Inv(c, jobs, Start(jobs, working), [])
  {
  }

  /**
   Main theorem: in every interleaving, crashes and outside edits between commands included, each
   snapshot is the first list plus the landed appends in the order their processes took the lock,
   so none is lost, none is doubled and every snapshot is a prefix of every later one.
   */
  lemma {:induction false} NoLostUpdates(c: Codec, jobs: seq<Job>, working: Option<Bytes>, moves: seq<Move>)
    returns (first: seq<Item>)
    requires CodecOk(c)
    ensures Inv(c, jobs, After(c, jobs, Start(jobs, working), moves), first)
    ensures var s := After(c, jobs, Start(jobs, working), moves);
            forall i, k :: 0 <= i <= k < |s.snapshots| ==>
              c.decode(s.snapshots[i]).Some? && c.decode(s.snapshots[k]).Some?
              && c.decode(s.snapshots[i]).value <= c.decode(s.snapshots[k]).value
  {
    hide Inv;
    if moves == [] {
      first := [];
      StartOk(c, jobs, working);
    } else {
      first := NoLostUpdates(c, jobs, working, moves[..|moves| - 1]);
      var before := After(c, jobs, Start(jobs, working), moves[..|moves| - 1]);
      first := MoveKeeps(c, jobs, before, first, moves[|moves| - 1]);
    }
    SnapshotsArePrefixes(c, jobs, After(c, jobs, Start(jobs, working), moves), first);
  }

  lemma {:induction false} SnapshotsArePrefixes(c: Codec, jobs: seq<Job>, s: System, first: seq<Item>)
    requires Inv(c, jobs, s, first)
    ensures forall i, k :: 0 <= i <= k < |s.snapshots| ==>
              c.decode(s.snapshots[i]).Some? && c.decode(s.snapshots[k]).Some?
              && c.decode(s.snapshots[i]).value <= c.decode(s.snapshots[k]).value
  {
    hide LockOk, HolderOk;
    forall i, k | 0 <= i <= k < |s.snapshots|
      ensures c.decode(s.snapshots[i]).Some? && c.decode(s.snapshots[k]).Some?
      ensures c.decode(s.snapshots[i]).value <= c.decode(s.snapshots[k]).value
    {
      assert SnapshotOk(c, jobs, s, first, i) && SnapshotOk(c, jobs, s, first, k);
      var a, b := ItemsOf(jobs, s.landed[..i + 1]), ItemsOf(jobs, s.landed[..k + 1]);
      assert a == b[..i + 1];
    }
  }

  // ----- a rejected append -----

  /** The working file differs from what is registered. */
  predicate Blocked(s: System) {
    s.lock == None && s.snapshots != [] && !Current(s.working, s.snapshots)
  }

  /** A registration refused after the write, or a crash there, leaves the registered manifest blocked. */
  lemma {:induction false} RejectionBlocks(c: Codec, jobs: seq<Job>, s: System, first: seq<Item>, m: Move)
    requires CodecOk(c) && Inv(c, jobs, s, first) && s.snapshots != [] && s.lock.Some?
    requires s.phases[s.lock.value].Written?
    requires m == Register(s.lock.value, false) || m == Crash(s.lock.value)
    ensures Blocked(Apply(c, jobs, s, m)) && Apply(c, jobs, s, m).snapshots == s.snapshots
  {
    var p := s.lock.value;
    var values := s.phases[p].values;
    assert c.decode(c.encode(values + [jobs[p].item])) == Some(values + [jobs[p].item]);
    assert |values + [jobs[p].item]| != |values|;
  }

  predicate NoEdit(moves: seq<Move>) { forall i :: 0 <= i < |moves| ==> !moves[i].Edit? }

  /** Nothing but a holder that has not loaded yet moves while the manifest is blocked. */
  predicate Stuck(s: System) {
    && s.snapshots != [] && !Current(s.working, s.snapshots)
    && forall p :: 0 <= p < |s.phases| ==> !s.phases[p].Loaded? && !s.phases[p].Written?
  }

  /** While the source is not reconciled, no later append changes the manifest or its snapshots. */
  lemma {:induction false} BlockedUntilReconciled(c: Codec, jobs: seq<Job>, s: System, first: seq<Item>,
      moves: seq<Move>)
    requires Inv(c, jobs, s, first) && Blocked(s) && NoEdit(moves)
    ensures var s' := After(c, jobs, s, moves);
            s'.snapshots == s.snapshots && s'.landed == s.landed && s'.working == s.working && Stuck(s')
  {
    if moves != [] {
      BlockedUntilReconciled(c, jobs, s, first, moves[..|moves| - 1]);
      var before := After(c, jobs, s, moves[..|moves| - 1]);
      assert !moves[|moves| - 1].Edit?;
      StuckStep(c, jobs, before, moves[|moves| - 1]);
    }
  }

  lemma {:induction false} StuckStep(c: Codec, jobs: seq<Job>, s: System, m: Move)
    requires |s.phases| == |jobs| && Stuck(s) && !m.Edit?
    ensures var s' := Apply(c, jobs, s, m);
            Stuck(s') && s'.snapshots == s.snapshots && s'.landed == s.landed && s'.working == s.working
  {
  }

  /** One whole command of process `p`, its registration accepted or refused. */
  function Command(c: Codec, jobs: seq<Job>, s: System, p: nat, accepted: bool): System
    requires |s.phases| == |jobs|
  {
    var loaded := Apply(c, jobs, Apply(c, jobs, s, Acquire(p)), Load(p));
    Apply(c, jobs, Apply(c, jobs, loaded, Write(p)), Register(p, accepted))
  }

  // ----- the command as one process runs it -----

  /** The working file and the snapshots after one whole command. */
  function AppendOnce(c: Codec, job: Job, working: Option<Bytes>, snapshots: seq<Bytes>, accepted: bool)
    : (Option<Bytes>, seq<Bytes>, bool)
  {
    match Loading(c, job, working, snapshots)
    case None => (working, snapshots, false)
    case Some(values) =>
      var encoded := c.encode(values + [job.item]);
      (Some(encoded), if accepted then snapshots + [encoded] else snapshots, accepted)
  }

  /** Holding the lock throughout makes the phases of one command a single step. */
  lemma {:induction false} CommandIsAppendOnce(c: Codec, jobs: seq<Job>, s: System, p: nat, accepted: bool)
    requires |s.phases| == |jobs| && p < |jobs| && s.lock == None && s.phases[p].Waiting?
    ensures var s' := Command(c, jobs, s, p, accepted);
            && s'.lock == None && s'.phases[p].Ended?
            && AppendOnce(c, jobs[p], s.working, s.snapshots, accepted) == (s'.working, s'.snapshots,
                  s'.phases[p].landed)
  {
  }

  // ----- what becomes of a refused append -----

  /** The list in the working file, or in a process that has loaded it, begins with `base`. */
  ghost predicate Carries(c: Codec, s: System, base: seq<Item>) {
    if s.snapshots != [] then
      c.decode(s.snapshots[0]).Some? && base <= c.decode(s.snapshots[0]).value
    else
      && s.working.Some? && c.decode(s.working.value).Some? && base <= c.decode(s.working.value).value
      && forall p :: 0 <= p < |s.phases| && s.phases[p].Loaded? ==> base <= s.phases[p].values
  }

  lemma {:induction false} CarriesStep(c: Codec, jobs: seq<Job>, s: System, base: seq<Item>, m: Move)
    requires CodecOk(c) && |s.phases| == |jobs| && Carries(c, s, base) && !m.Edit?
    ensures Carries(c, Apply(c, jobs, s, m), base)
  {
    if m.Write? && m.p < |jobs| && s.phases[m.p].Loaded? {
      var values := s.phases[m.p].values + [jobs[m.p].item];
      assert c.decode(c.encode(values)) == Some(values);
    }
  }

  lemma {:induction false} CarriesRun(c: Codec, jobs: seq<Job>, s: System, base: seq<Item>, moves: seq<Move>)
    requires CodecOk(c) && |s.phases| == |jobs| && Carries(c, s, base) && NoEdit(moves)
    ensures Carries(c, After(c, jobs, s, moves), base)
  {
    hide Carries, Apply, CodecOk;
    if moves != [] {
      CarriesRun(c, jobs, s, base, moves[..|moves| - 1]);
      assert !moves[|moves| - 1].Edit?;
      CarriesStep(c, jobs, After(c, jobs, s, moves[..|moves| - 1]), base, moves[|moves| - 1]);
    }
  }

  /** The registration of the holder is refused after its write, or the holder crashes there. */
  ghost predicate Refuses(s: System, m: Move) {
    && s.lock.Some? && s.lock.value < |s.phases| && s.phases[s.lock.value].Written?
    && (m == Register(s.lock.value, false) || m == Crash(s.lock.value))
  }

  lemma {:induction false} RefusedIsWorking(c: Codec, jobs: seq<Job>, s: System, first: seq<Item>, m: Move)
    requires CodecOk(c) && Inv(c, jobs, s, first) && Refuses(s, m)
    ensures var p, s' := s.lock.value, Apply(c, jobs, s, m);
            && s'.working == Some(c.encode(s.phases[p].values + [jobs[p].item]))
            && s'.snapshots == s.snapshots && s'.lock == None
            && (s.snapshots == [] ==> Carries(c, s', s.phases[p].values + [jobs[p].item]))
  {
    var p := s.lock.value;
    var values := s.phases[p].values + [jobs[p].item];
    assert c.decode(c.encode(values)) == Some(values);
  }

  /**
   What becomes of an append that was refused or cut off after its write, however the processes go
   on without an edit: once the manifest is registered its snapshots stay as they are, and before
   that the item is in the first list that is registered, right after the list it was appended to.
   */
  lemma {:induction false} RefusedAppend(c: Codec, jobs: seq<Job>, s: System, first: seq<Item>, m: Move,
      moves: seq<Move>)
    requires CodecOk(c) && Inv(c, jobs, s, first) && Refuses(s, m) && NoEdit(moves)
    ensures var p, s' := s.lock.value, After(c, jobs, Apply(c, jobs, s, m), moves);
            if s.snapshots != [] then s'.snapshots == s.snapshots
            else s'.snapshots != [] ==>
              c.decode(s'.snapshots[0]).Some?
              && s.phases[p].values + [jobs[p].item] <= c.decode(s'.snapshots[0]).value
  {
    var s1 := Apply(c, jobs, s, m);
    RefusedIsWorking(c, jobs, s, first, m);
    if s.snapshots != [] {
      RejectionBlocks(c, jobs, s, first, m);
      var first' := MoveKeeps(c, jobs, s, first, m);
      BlockedUntilReconciled(c, jobs, s1, first', moves);
    } else {
      CarriesRun(c, jobs, s1, s.phases[s.lock.value].values + [jobs[s.lock.value].item], moves);
    }
  }

  /**
   The next accepted append of an unedited file registers the refused item and its own, in order,
   exactly when the manifest was not registered before.
   */
  lemma {:induction false} RefusedItemReturns(c: Codec, jobs: seq<Job>, s: System, first: seq<Item>, m: Move, q: nat)
    requires CodecOk(c) && Inv(c, jobs, s, first) && Refuses(s, m)
    requires q < |jobs| && s.phases[q].Waiting? && !jobs[q].requireExisting
    ensures var p, s' := s.lock.value, Command(c, jobs, Apply(c, jobs, s, m), q, true);
            var both := c.encode(s.phases[p].values + [jobs[p].item] + [jobs[q].item]);
            s'.snapshots == s.snapshots + [both] <==> s.snapshots == []
  {
    var p := s.lock.value;
    var values := s.phases[p].values + [jobs[p].item];
    var s1 := Apply(c, jobs, s, m);
    RefusedIsWorking(c, jobs, s, first, m);
    assert s1.phases[q].Waiting?;
    assert c.decode(c.encode(values)) == Some(values);
    if s.snapshots != [] { RejectionBlocks(c, jobs, s, first, m); }
    CommandIsAppendOnce(c, jobs, s1, q, true);
  }

  class Manifest {
    const codec: Codec
    var working: Option<Bytes>
    var snapshots: seq<Bytes>

    constructor (codec: Codec, working: Option<Bytes>)
      ensures this.codec == codec && this.working == working && snapshots == []
    {
      this.codec, this.working, snapshots := codec, working, [];
    }

    /** `_append_and_register`; `accepted` is the verdict of the registration it ends with. */
    method AppendAndRegister(job: Job, accepted: bool) returns (ok: bool)
      modifies this`working, this`snapshots
      ensures (working, snapshots, ok) == AppendOnce(codec, job, old(working), old(snapshots), accepted)
    {
      var values := [];
      if working.Some? {
        var loaded := codec.decode(working.value);
        if loaded.None? { return false; }
        values := loaded.value;
      }
      if snapshots != [] {
        if working != Some(snapshots[|snapshots| - 1]) { return false; }
      } else if job.requireExisting {
        return false;
      }
      values := values + [job.item];
      working := Some(codec.encode(values));
      if accepted { snapshots := snapshots + [working.value]; }
      return accepted;
    }
  }
}
