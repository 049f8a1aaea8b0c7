/** Runs of batch publications: what every crash leaves recoverable, and why replays do nothing. */
module PublicationRuns {
  import opened Prelude
  import opened GateModel
  import opened GateTimeline
  import opened GateReplay
  import opened GateWriters
  import opened GateHistories
  import opened GateSteps
  import opened GateRuns
  import opened Publication
  import opened PublicationSafety

  // ----- replay -----

  /** Copying and snapshotting do nothing when every entry is registered already. */
  lemma {:induction false} NothingToCopy(l: Naming, plans: seq<Plan>, d: Disk, i: nat, e: Environment)
    requires i <= |plans| && AllRegistered(plans)
    ensures CopyAll(l, plans, d, i, e) == d && SnapshotAll(l, plans, d, i, e) == d
    decreases |plans| - i
  {
    if i < |plans| { NothingToCopy(l, plans, d, i + 1, e); }
  }

  /** Once all its paths exist, a batch can be replayed any number of times without effect. */
  lemma {:induction false} ReplayDoesNothing(p: Policy, l: Naming, reserved: set<Role>, w: World, items: seq<Item>,
      e: Environment, clock: Clock)
    requires PolicyOk(p) && forall j :: 0 <= j < |items| ==> items[j].path in w.files
    ensures var (w', o) := Publish(p, l, reserved, w, items, e, clock);
            && w'.state == w.state && (w'.files == w.files || w'.files == e.others + w.files)
            && (o == Published <==> Ready(p, l, w) && Preflight(p, l, reserved, w, items))
            && (o == Published ==> forall j :: 0 <= j < |items| ==> Holds(l, w, items[j]))
  {
    if Ready(p, l, w) && Preflight(p, l, reserved, w, items) {
      var plans := Plans(p, l, reserved, w, items);
      PlansFit(p, l, reserved, w, items);
      forall j | 0 <= j < |plans| ensures plans[j].number.None? {
        assert PlanOne(p, l, reserved, w, items[j]) == Some(plans[j]);
      }
      var d := Disk(e.others + w.files, e.crashAfter, Going);
      NothingToCopy(l, plans, d, 0, e);
      RegisterNothing(l, d.files, w.state, plans, 0, clock);
      hide Ready, Preflight, Holds, CopyAll, SnapshotAll, RegisterAll;
      assert forall j :: 0 <= j < |items| ==> plans[j].item == items[j] && Planned(l, w, plans[j]);
    }
  }

  // ----- where revisions come from -----

  predicate TracedOne(l: Naming, files: map<string, Content>, role: Role, a: Artifact, i: nat)
    requires i < |a.revisions|
  {
    var r := a.revisions[i];
    r.source in files && r.snapshot == l.snap(role, a.id, i + 1, r.hash) && RevisionIntact(l, files, r)
  }

  /** Every revision has its own source path and its own intact snapshot. */
  ghost predicate Traced(l: Naming, w: World) {
    var reg := w.state.registry;
    && (forall role, i :: role in reg && 0 <= i < |reg[role].revisions| ==> TracedOne(l, w.files, role, reg[role], i))
    && (forall role, i, role', i' ::
          (role in reg && 0 <= i < |reg[role].revisions| && role' in reg && 0 <= i' < |reg[role'].revisions|
           && reg[role].revisions[i].source == reg[role'].revisions[i'].source) ==> role == role' && i == i')
  }

  /** Under distinct snapshot names no two revisions share a snapshot. */
  lemma {:induction false} SnapshotsDistinct(l: Naming, w: World, role: Role, i: nat, role': Role, i': nat)
    requires NamingOk(l) && Traced(l, w)
    requires role in w.state.registry && i < |w.state.registry[role].revisions|
    requires role' in w.state.registry && i' < |w.state.registry[role'].revisions|
    requires w.state.registry[role].revisions[i].snapshot == w.state.registry[role'].revisions[i'].snapshot
    ensures role == role' && i == i'
  {
    var reg := w.state.registry;
    assert TracedOne(l, w.files, role, reg[role], i) && TracedOne(l, w.files, role', reg[role'], i');
  }

  /** The revision was there before, or it is the one a plan added. */
  ghost predicate OldRevision(reg: map<Role, Artifact>, reg': map<Role, Artifact>, role: Role, i: nat)
    requires role in reg' && i < |reg'[role].revisions|
  {
    role in reg && i < |reg[role].revisions| && reg[role].id == reg'[role].id
    && reg[role].revisions[i] == reg'[role].revisions[i]
  }

  ghost predicate AddedBy(l: Naming, reg: map<Role, Artifact>, reg': map<Role, Artifact>, role: Role, i: nat,
      plan: Plan)
    requires role in reg' && i < |reg'[role].revisions|
  {
    && plan.number == Some(i + 1) && plan.item.role == role && reg'[role].id == plan.item.artifact
    && i == Count(reg, role)
    && reg'[role].revisions[i] == NewRevision(l, plan, reg'[role].revisions[i].at)
  }

  lemma {:induction false} OldOrAdded(l: Naming, reg: map<Role, Artifact>, reg': map<Role, Artifact>,
      plans: seq<Plan>, role: Role, i: nat)
    requires Effect(l, reg, reg', plans, 0) && forall j :: 0 <= j < |plans| ==> Fits(reg, plans[j])
    requires role in reg' && i < |reg'[role].revisions|
    ensures OldRevision(reg, reg', role, i) || exists j :: 0 <= j < |plans| && AddedBy(l, reg, reg', role, i, plans[j])
  {
    if Untouched(plans, 0, role) {
      assert SameRole(reg, reg', role);
    } else {
      var j :| 0 <= j < |plans| && plans[j].number.Some? && plans[j].item.role == role;
      assert Fits(reg, plans[j]) && Appended(l, reg, reg', plans[j]);
      if !OldRevision(reg, reg', role, i) {
        assert i == Count(reg, role);
        assert AddedBy(l, reg, reg', role, i, plans[j]);
      }
    }
  }

  /** A new entry was planned on a path no file had. */
  predicate FreshPath(files: map<string, Content>, plan: Plan) {
    plan.number.Some? ==> plan.item.path !in files
  }

  lemma {:induction false} TracedAfter(l: Naming, w: World, w': World, plans: seq<Plan>)
    requires Traced(l, w) && Kept(w.files, w'.files)
    requires Effect(l, w.state.registry, w'.state.registry, plans, 0)
    requires forall j :: 0 <= j < |plans| ==>
      Fits(w.state.registry, plans[j]) && Verified(l, w'.files, plans[j]) && FreshPath(w.files, plans[j])
    requires forall i, j :: 0 <= i < j < |plans| ==> plans[i].item.path != plans[j].item.path
    requires RolesDistinct(plans)
    ensures Traced(l, w')
  {
    hide Effect;
    var reg, reg' := w.state.registry, w'.state.registry;
    forall role, i | role in reg' && 0 <= i < |reg'[role].revisions|
      ensures TracedOne(l, w'.files, role, reg'[role], i)
    {
      TracedOneAfter(l, w, w', plans, role, i);
    }
    forall role, i, role', i' | role in reg' && 0 <= i < |reg'[role].revisions| && role' in reg'
        && 0 <= i' < |reg'[role'].revisions|
        && reg'[role].revisions[i].source == reg'[role'].revisions[i'].source
      ensures role == role' && i == i'
    {
      SourcesDistinctAfter(l, w, w', plans, role, i, role', i');
    }
  }

  lemma {:induction false} TracedOneAfter(l: Naming, w: World, w': World, plans: seq<Plan>, role: Role, i: nat)
    requires Traced(l, w) && Kept(w.files, w'.files)
    requires Effect(l, w.state.registry, w'.state.registry, plans, 0)
    requires forall j :: 0 <= j < |plans| ==> Fits(w.state.registry, plans[j]) && Verified(l, w'.files, plans[j])
    requires role in w'.state.registry && i < |w'.state.registry[role].revisions|
    ensures TracedOne(l, w'.files, role, w'.state.registry[role], i)
  {
    var reg, reg' := w.state.registry, w'.state.registry;
    OldOrAdded(l, reg, reg', plans, role, i);
    hide Effect;
    if OldRevision(reg, reg', role, i) {
      assert TracedOne(l, w.files, role, reg[role], i);
    } else {
      var j :| 0 <= j < |plans| && AddedBy(l, reg, reg', role, i, plans[j]);
      assert Verified(l, w'.files, plans[j]);
    }
  }

  lemma {:induction false} SourcesDistinctAfter(l: Naming, w: World, w': World, plans: seq<Plan>, role: Role, i: nat,
      role': Role, i': nat)
    requires Traced(l, w)
    requires Effect(l, w.state.registry, w'.state.registry, plans, 0)
    requires forall j :: 0 <= j < |plans| ==> Fits(w.state.registry, plans[j]) && FreshPath(w.files, plans[j])
    requires forall i, j :: 0 <= i < j < |plans| ==> plans[i].item.path != plans[j].item.path
    requires role in w'.state.registry && i < |w'.state.registry[role].revisions|
    requires role' in w'.state.registry && i' < |w'.state.registry[role'].revisions|
    requires w'.state.registry[role].revisions[i].source == w'.state.registry[role'].revisions[i'].source
    ensures role == role' && i == i'
  {
    var reg, reg' := w.state.registry, w'.state.registry;
    OldOrAdded(l, reg, reg', plans, role, i);
    OldOrAdded(l, reg, reg', plans, role', i');
    SourceIsOld(l, w, w', plans, role, i);
    SourceIsOld(l, w, w', plans, role', i');
    hide Effect, Fits;
    if !OldRevision(reg, reg', role, i) && !OldRevision(reg, reg', role', i') {
      var j :| 0 <= j < |plans| && AddedBy(l, reg, reg', role, i, plans[j]);
      var k :| 0 <= k < |plans| && AddedBy(l, reg, reg', role', i', plans[k]);
      assert plans[j].item.path == plans[k].item.path;
    }
  }

  /** Only old revisions come from files that were there before. */
  lemma {:induction false} SourceIsOld(l: Naming, w: World, w': World, plans: seq<Plan>, role: Role, i: nat)
    requires Traced(l, w) && Effect(l, w.state.registry, w'.state.registry, plans, 0)
    requires forall j :: 0 <= j < |plans| ==> Fits(w.state.registry, plans[j]) && FreshPath(w.files, plans[j])
    requires role in w'.state.registry && i < |w'.state.registry[role].revisions|
    ensures OldRevision(w.state.registry, w'.state.registry, role, i)
          <==> w'.state.registry[role].revisions[i].source in w.files
  {
    var reg, reg' := w.state.registry, w'.state.registry;
    OldOrAdded(l, reg, reg', plans, role, i);
    hide Effect, Fits;
    if OldRevision(reg, reg', role, i) {
      assert TracedOne(l, w.files, role, reg[role], i);
    } else {
      var j :| 0 <= j < |plans| && AddedBy(l, reg, reg', role, i, plans[j]);
      assert FreshPath(w.files, plans[j]);
    }
  }

  /** Every publication, complete or cut off, leaves each revision traceable. */
  lemma {:induction false} PublishKeepsTraced(p: Policy, l: Naming, reserved: set<Role>, w: World, items: seq<Item>,
      e: Environment, clock: Clock, log: seq<Event>)
    requires PolicyOk(p) && Sound(p, w.state, log) && Traced(l, w)
    ensures Traced(l, Publish(p, l, reserved, w, items, e, clock).0)
  {
    if Ready(p, l, w) && Preflight(p, l, reserved, w, items) {
      var plans := Plans(p, l, reserved, w, items);
      var d := FilesAfter(l, w, plans, e);
      FilesAfterKeeps(l, w, plans, e);
      PlansFit(p, l, reserved, w, items);
      forall j | 0 <= j < |plans| ensures Fits(w.state.registry, plans[j]) && FreshPath(w.files, plans[j]) {
        assert PlanOne(p, l, reserved, w, items[j]) == Some(plans[j]) && Planned(l, w, plans[j]);
      }
      hide Ready, Preflight, FilesAfter, Effect, Verified, Traced, PlanOne, Commit, Fits, Mid, Settled, Holds;
      FilesKeepTraced(l, w, World(d.files, w.state));
      if d.progress.Going? { CommitTraced(p, l, w, plans, d, clock, log); }
    }
  }

  lemma {:induction false} CommitTraced(p: Policy, l: Naming, w: World, plans: seq<Plan>, d: Disk, clock: Clock,
      log: seq<Event>)
    requires Mid(p, w.state, log, w.state.nextId) && Traced(l, w) && Kept(w.files, d.files)
    requires RolesDistinct(plans)
    requires forall i, j :: 0 <= i < j < |plans| ==> plans[i].item.path != plans[j].item.path
    requires forall j :: 0 <= j < |plans| ==> Fits(w.state.registry, plans[j]) && FreshPath(w.files, plans[j])
    ensures Traced(l, Commit(l, w, plans, d, clock).0)
  {
    hide Effect, Verified, Traced, RegisterAll, Fits, Mid, FreshPath;
    FilesKeepTraced(l, w, World(d.files, w.state));
    if RegisterAll(l, d.files, w.state, plans, 0, clock).Some? {
      RegisterAllOk(p, l, d.files, w.state, log, plans, 0, clock);
      var s := RegisterAll(l, d.files, w.state, plans, 0, clock).value;
      TracedAfter(l, w, World(d.files, s), plans);
      if Write(s, clock).Ok? { SameRegistryTraced(l, World(d.files, s), World(d.files, Write(s, clock).value)); }
    }
  }

  lemma {:induction false} FilesKeepTraced(l: Naming, w: World, w': World)
    requires Traced(l, w) && Kept(w.files, w'.files) && w'.state == w.state
    ensures Traced(l, w')
  {
    var reg := w.state.registry;
    forall role, i | role in reg && 0 <= i < |reg[role].revisions| ensures TracedOne(l, w'.files, role, reg[role], i) {
      assert TracedOne(l, w.files, role, reg[role], i);
    }
  }

  lemma {:induction false} SameRegistryTraced(l: Naming, w: World, w': World)
    requires Traced(l, w) && w'.files == w.files && w'.state.registry == w.state.registry
    ensures Traced(l, w')
  {
  }

  // ----- recovery -----

  /** The revisions of a history that are exactly the publication. */
  function Scan(revisions: seq<Revision>, item: Item): seq<Revision> {
    if revisions == [] then []
    else
      var found := if SameContent(revisions[0], item.path, item.hash, item.size) then [revisions[0]] else [];
      found + Scan(revisions[1..], item)
  }

  /** `_state_artifact_refs` finds one exact revision for every publication. */
  predicate Recovered(reg: map<Role, Artifact>, items: seq<Item>) {
    forall j :: 0 <= j < |items| ==>
      items[j].role in reg && reg[items[j].role].id == items[j].artifact
          && |Scan(reg[items[j].role].revisions, items[j])| == 1
  }

  predicate EverRegistered(reg: map<Role, Artifact>, item: Item) {
    && item.role in reg && reg[item.role].id == item.artifact
    && exists i :: 0 <= i < |reg[item.role].revisions|
          && SameContent(reg[item.role].revisions[i], item.path, item.hash, item.size)
  }

  lemma {:induction false} ScanCounts(revisions: seq<Revision>, item: Item)
    requires forall i, j :: 0 <= i < j < |revisions| ==> revisions[i].source != revisions[j].source
    ensures |Scan(revisions, item)| <= 1
    ensures |Scan(revisions, item)| == 1
       <==> exists i :: 0 <= i < |revisions| && SameContent(revisions[i], item.path, item.hash, item.size)
    ensures forall r :: r in Scan(revisions, item) ==> r in revisions && SameContent(r, item.path, item.hash, item.size)
  {
    if revisions != [] {
      var rest := revisions[1..];
      ScanCounts(rest, item);
      assert forall i :: 0 <= i < |rest| ==> rest[i] == revisions[i + 1];
      if i :| 0 <= i < |revisions| && SameContent(revisions[i], item.path, item.hash, item.size) {
        if i > 0 { assert SameContent(rest[i - 1], item.path, item.hash, item.size); }
      }
    }
  }

  /** In a traced world the scan is never ambiguous: it succeeds exactly for registered publications. */
  lemma {:induction false} RecoveryIsExact(l: Naming, w: World, items: seq<Item>)
    requires Traced(l, w)
    ensures Recovered(w.state.registry, items)
       <==> forall j :: 0 <= j < |items| ==> EverRegistered(w.state.registry, items[j])
  {
    var reg := w.state.registry;
    forall j | 0 <= j < |items| && items[j].role in reg
      ensures |Scan(reg[items[j].role].revisions, items[j])| == 1 <==>
        exists i :: 0 <= i < |reg[items[j].role].revisions|
          && SameContent(reg[items[j].role].revisions[i], items[j].path, items[j].hash, items[j].size)
    {
      ScanCounts(reg[items[j].role].revisions, items[j]);
    }
  }

  lemma {:induction false} RegisteredPathExists(l: Naming, w: World, item: Item)
    requires Traced(l, w)
    ensures EverRegistered(w.state.registry, item) ==> item.path in w.files
  {
    var reg := w.state.registry;
    if EverRegistered(reg, item) {
      var i :| 0 <= i < |reg[item.role].revisions|
          && SameContent(reg[item.role].revisions[i], item.path, item.hash, item.size);
      assert TracedOne(l, w.files, item.role, reg[item.role], i);
    }
  }

  lemma {:induction false} HeldIsRegistered(l: Naming, w: World, item: Item)
    requires Holds(l, w, item)
    ensures EverRegistered(w.state.registry, item)
  {
    var revisions := w.state.registry[item.role].revisions;
    assert SameContent(revisions[|revisions| - 1], item.path, item.hash, item.size);
  }

  /**
   Main theorem: after a first attempt, cut off anywhere, the recovery scan of the caller succeeds
   exactly when the state was written; the caller needs no other evidence.
   */
  lemma {:induction false} RecoveryDecides(p: Policy, l: Naming, reserved: set<Role>, w: World, items: seq<Item>,
      e: Environment, clock: Clock, log: seq<Event>)
    requires PolicyOk(p) && Sound(p, w.state, log) && Traced(l, w) && items != []
    requires forall j :: 0 <= j < |items| ==> items[j].path !in w.files
    ensures var w' := Publish(p, l, reserved, w, items, e, clock).0;
            Recovered(w'.state.registry, items) <==> w'.state != w.state
  {
    hide Publish, Sound;
    var w' := Publish(p, l, reserved, w, items, e, clock).0;
    AllOrNothing(p, l, reserved, w, items, e, clock, log);
    PublishKeepsTraced(p, l, reserved, w, items, e, clock, log);
    RecoveryIsExact(l, w', items);
    if w'.state == w.state {
      RegisteredPathExists(l, w, items[0]);
    } else {
      forall j | 0 <= j < |items| ensures EverRegistered(w'.state.registry, items[j]) {
        HeldIsRegistered(l, w', items[j]);
      }
    }
  }

  // ----- runs -----

  datatype Attempt = Attempt(items: seq<Item>, environment: Environment, clock: Clock)

  ghost function RunAttempts(p: Policy, l: Naming, reserved: set<Role>, w: World, attempts: seq<Attempt>): World
    requires PolicyOk(p)
  {
    if attempts == [] then w
    else
      var before := RunAttempts(p, l, reserved, w, attempts[..|attempts| - 1]);
      var a := attempts[|attempts| - 1];
      Publish(p, l, reserved, before, a.items, a.environment, a.clock).0
  }

  /** Histories only grow. */
  ghost predicate Continues(reg: map<Role, Artifact>, reg': map<Role, Artifact>) {
    forall role :: role in reg ==>
      role in reg' && reg'[role].id == reg[role].id && reg[role].revisions <= reg'[role].revisions
  }

  lemma {:induction false} CommittedContinues(l: Naming, w: World, w': World, items: seq<Item>)
    requires Committed(l, w, w', items)
    ensures Continues(w.state.registry, w'.state.registry)
  {
    hide Holds;
    var reg, reg' := w.state.registry, w'.state.registry;
    forall role | role in reg
      ensures role in reg' && reg'[role].id == reg[role].id && reg[role].revisions <= reg'[role].revisions
    {
      if j :| 0 <= j < |items| && items[j].role == role {
        assert ExtendedByOne(reg, reg', items[j].role);
      } else {
        assert SameRole(reg, reg', role);
      }
    }
  }

  /** Over any run of attempts, crashes included, the state stays sound and traced and files are kept. */
  lemma {:induction false} RunsKeepTraced(p: Policy, l: Naming, reserved: set<Role>, w: World, attempts: seq<Attempt>,
      log: seq<Event>)
    requires PolicyOk(p) && Sound(p, w.state, log) && Traced(l, w)
    ensures var w' := RunAttempts(p, l, reserved, w, attempts);
            && Sound(p, w'.state, log) && Traced(l, w')
            && Kept(w.files, w'.files) && Continues(w.state.registry, w'.state.registry)
  {
    hide Publish, Sound, Traced, Committed;
    if attempts != [] {
      RunsKeepTraced(p, l, reserved, w, attempts[..|attempts| - 1], log);
      var before := RunAttempts(p, l, reserved, w, attempts[..|attempts| - 1]);
      var a := attempts[|attempts| - 1];
      AllOrNothing(p, l, reserved, before, a.items, a.environment, a.clock, log);
      PublishKeepsTraced(p, l, reserved, before, a.items, a.environment, a.clock, log);
      var w' := Publish(p, l, reserved, before, a.items, a.environment, a.clock).0;
      if w'.state != before.state { CommittedContinues(l, before, w', a.items); }
    }
  }

  /** A new project with any files is traced, so the theorems hold from the start. */
  lemma {:induction false} NewProjectTraced(p: Policy, l: Naming, files: map<string, Content>, now: Time)
    requires PolicyOk(p)
    ensures Traced(l, World(files, NewState(p, now))) && Sound(p, NewState(p, now), [])
  {
    NewStateSound(p, now);
  }

  /**
   In every project that only ever published batches, whatever was cut off before, an attempt at
   unused paths is recovered exactly when it wrote the state.
   */
  lemma {:induction false} NewProjectRecovery(p: Policy, l: Naming, reserved: set<Role>, files: map<string, Content>,
      now: Time, attempts: seq<Attempt>, items: seq<Item>, e: Environment, clock: Clock)
    requires PolicyOk(p) && items != []
    requires var w := RunAttempts(p, l, reserved, World(files, NewState(p, now)), attempts);
             forall j :: 0 <= j < |items| ==> items[j].path !in w.files
    ensures var w := RunAttempts(p, l, reserved, World(files, NewState(p, now)), attempts);
            var w' := Publish(p, l, reserved, w, items, e, clock).0;
            Recovered(w'.state.registry, items) <==> w'.state != w.state
  {
    hide Publish, Sound, Traced, RunAttempts;
    NewProjectTraced(p, l, files, now);
    RunsKeepTraced(p, l, reserved, World(files, NewState(p, now)), attempts, []);
    var w := RunAttempts(p, l, reserved, World(files, NewState(p, now)), attempts);
    RecoveryDecides(p, l, reserved, w, items, e, clock, []);
  }

  /** What was committed once is recovered at any later time, and replaying it changes nothing. */
  lemma {:induction false} CommittedForever(p: Policy, l: Naming, reserved: set<Role>, w: World, items: seq<Item>,
      attempts: seq<Attempt>, e: Environment, clock: Clock, log: seq<Event>)
    requires PolicyOk(p) && Sound(p, w.state, log) && Traced(l, w)
    requires forall j :: 0 <= j < |items| ==> Holds(l, w, items[j])
    ensures var w' := RunAttempts(p, l, reserved, w, attempts);
            && Recovered(w'.state.registry, items)
            && Publish(p, l, reserved, w', items, e, clock).0.state == w'.state
  {
    hide Publish, Sound;
    RunsKeepTraced(p, l, reserved, w, attempts, log);
    var w' := RunAttempts(p, l, reserved, w, attempts);
    hide RunAttempts;
    RecoveryIsExact(l, w', items);
    forall j | 0 <= j < |items| ensures EverRegistered(w'.state.registry, items[j]) && items[j].path in w'.files {
      var item := items[j];
      assert Holds(l, w, item);
      var old_, new_ := w.state.registry[item.role].revisions, w'.state.registry[item.role].revisions;
      assert new_[|old_| - 1] == old_[|old_| - 1];
      assert SameContent(new_[|old_| - 1], item.path, item.hash, item.size);
    }
    ReplayDoesNothing(p, l, reserved, w', items, e, clock);
  }
}
