/** A batch is published whole or not at all, whatever the crash point, and clobbers nothing. */
module PublicationSafety {
  import opened Prelude
  import opened GateModel
  import opened GateTimeline
  import opened GateReplay
  import opened GateWriters
  import opened GateHistories
  import opened GateSteps
  import opened GateRuns
  import opened Publication

  /** Every path of `a` is in `b` with the same content. */
  ghost predicate Kept(a: map<string, Content>, b: map<string, Content>) {
    forall x :: x in a ==> x in b && b[x] == a[x]
  }

  lemma {:induction false} CreateKeeps(d: Disk, path: string, partial: Content, full: Content)
    requires d.progress.Going? && path !in d.files
    ensures Kept(d.files, Create(d, path, partial, full).files)
  {
  }

  lemma {:induction false} CopyAllKeeps(l: Naming, plans: seq<Plan>, d: Disk, i: nat, e: Environment)
    requires i <= |plans|
    ensures Kept(d.files, CopyAll(l, plans, d, i, e).files)
    decreases |plans| - i
  {
    if i < |plans| && d.progress.Going? {
      var item := plans[i].item;
      if item.path !in d.files { CreateKeeps(d, item.path, e.partial(i), e.late(i)); }
      CopyAllKeeps(l, plans, if plans[i].number.None? then d else CopyOne(l, d, item, e.late(i), e.partial(i)), i + 1,
          e);
    }
  }

  lemma {:induction false} SnapshotAllKeeps(l: Naming, plans: seq<Plan>, d: Disk, i: nat, e: Environment)
    requires i <= |plans|
    ensures Kept(d.files, SnapshotAll(l, plans, d, i, e).files)
    decreases |plans| - i
  {
    if i < |plans| && d.progress.Going? {
      var item, n, partial := plans[i].item, plans[i].number, e.partial(|plans| + i);
      if n.Some? {
        var path := SnapshotOf(l, item, n.value);
        if path !in d.files && FileMatches(l, d.files, item.path, item) {
          CreateKeeps(d, path, partial, d.files[item.path]);
        }
      }
      SnapshotAllKeeps(l, plans, if n.None? then d else SnapshotOne(l, d, item, n.value, partial), i + 1, e);
    }
  }

  /** No existing file is overwritten, neither one of this project's nor one that appeared meanwhile. */
  lemma {:induction false} FilesAfterKeeps(l: Naming, w: World, plans: seq<Plan>, e: Environment)
    ensures Kept(e.others + w.files, FilesAfter(l, w, plans, e).files)
    ensures Kept(w.files, FilesAfter(l, w, plans, e).files)
  {
    var d := Disk(e.others + w.files, e.crashAfter, Going);
    CopyAllKeeps(l, plans, d, 0, e);
    var copied := CopyAll(l, plans, d, 0, e);
    SnapshotAllKeeps(l, plans, copied, 0, e);
    assert Kept(w.files, d.files);
  }

  // ----- what registering does -----

  /** The role gained exactly the revision the plan describes, after the ones it had. */
  predicate Appended(l: Naming, reg: map<Role, Artifact>, reg': map<Role, Artifact>, plan: Plan) {
    && plan.number.Some?
    && plan.item.role in reg'
    && var new_ := reg'[plan.item.role];
    && new_.id == plan.item.artifact
    && |new_.revisions| > 0
    && new_.revisions == (if plan.item.role in reg then reg[plan.item.role].revisions else [])
                         + [NewRevision(l, plan, Current(new_).at)]
  }

  predicate Untouched(plans: seq<Plan>, i: nat, role: Role) {
    forall j :: i <= j < |plans| && plans[j].number.Some? ==> plans[j].item.role != role
  }

  predicate SameRole(reg: map<Role, Artifact>, reg': map<Role, Artifact>, role: Role) {
    (role in reg <==> role in reg') && (role in reg ==> reg[role] == reg'[role])
  }

  ghost predicate Effect(l: Naming, reg: map<Role, Artifact>, reg': map<Role, Artifact>, plans: seq<Plan>, i: nat) {
    && (forall j :: i <= j < |plans| && plans[j].number.Some? ==> Appended(l, reg, reg', plans[j]))
    && (forall role :: Untouched(plans, i, role) ==> SameRole(reg, reg', role))
  }

  /** The planned numbers continue the histories they were planned against. */
  predicate Fits(reg: map<Role, Artifact>, plan: Plan) {
    plan.number.Some? ==>
      && plan.number.value == Count(reg, plan.item.role) + 1
      && (plan.item.role in reg ==> reg[plan.item.role].id == plan.item.artifact)
  }

  predicate RolesDistinct(plans: seq<Plan>) {
    forall i, j :: 0 <= i < j < |plans| ==> plans[i].item.role != plans[j].item.role
  }

  predicate Verified(l: Naming, files: map<string, Content>, plan: Plan) {
    plan.number.Some? ==>
      && FileMatches(l, files, plan.item.path, plan.item)
      && FileMatches(l, files, SnapshotOf(l, plan.item, plan.number.value), plan.item)
  }

  /** Appending one role and then the others is appending all of them. */
  lemma {:induction false} EffectStep(
    l: Naming, reg: map<Role, Artifact>, reg': map<Role, Artifact>, plans: seq<Plan>, i: nat, t: Time)
    requires i < |plans| && plans[i].number.Some? && RolesDistinct(plans)
    requires Effect(l, AppendRevision(reg, plans[i].item.role, plans[i].item.artifact, NewRevision(l, plans[i], t)),
          reg', plans, i + 1)
    ensures Effect(l, reg, reg', plans, i)
  {
    var item := plans[i].item;
    var mid := AppendRevision(reg, item.role, item.artifact, NewRevision(l, plans[i], t));
    assert Untouched(plans, i + 1, item.role);
    assert SameRole(mid, reg', item.role);
    forall j | i <= j < |plans| && plans[j].number.Some? ensures Appended(l, reg, reg', plans[j]) {
      if j > i {
        assert plans[j].item.role != item.role;
        assert Appended(l, mid, reg', plans[j]);
      }
    }
    forall role | Untouched(plans, i, role) ensures SameRole(reg, reg', role) {
      assert Untouched(plans, i + 1, role) && role != item.role;
      assert SameRole(mid, reg', role);
    }
  }

  lemma {:induction false} FitsLater(reg: map<Role, Artifact>, role: Role, artifact: string, r: Revision, plan: Plan)
    requires Fits(reg, plan) && plan.item.role != role
    ensures Fits(AppendRevision(reg, role, artifact, r), plan)
  {
  }

  lemma {:induction false} EffectNone(l: Naming, reg: map<Role, Artifact>, plans: seq<Plan>)
    ensures Effect(l, reg, reg, plans, |plans|)
  {
  }

  lemma {:induction false} EffectSkip(l: Naming, reg: map<Role, Artifact>, reg': map<Role, Artifact>,
      plans: seq<Plan>, i: nat)
    requires i < |plans| && plans[i].number.None? && Effect(l, reg, reg', plans, i + 1)
    ensures Effect(l, reg, reg', plans, i)
  {
    assert forall role :: Untouched(plans, i, role) ==> Untouched(plans, i + 1, role);
  }

  /** Registering keeps the state sound short of its last stamp and appends exactly what was planned. */
  lemma {:induction false} RegisterAllOk(p: Policy, l: Naming, files: map<string, Content>, s: State, log: seq<Event>,
      plans: seq<Plan>, i: nat, clock: Clock)
    requires i <= |plans| && Mid(p, s, log, s.nextId) && RolesDistinct(plans)
    requires forall j :: i <= j < |plans| ==> Fits(s.registry, plans[j])
    requires RegisterAll(l, files, s, plans, i, clock).Some?
    ensures var s' := RegisterAll(l, files, s, plans, i, clock).value;
            && s' == s.(registry := s'.registry) && Mid(p, s', log, s'.nextId)
            && Effect(l, s.registry, s'.registry, plans, i)
            && forall j :: i <= j < |plans| ==> Verified(l, files, plans[j])
    decreases |plans| - i
  {
    hide Mid, FileMatches, SnapshotOf, AllBefore, AppendRevision, Effect;
    if i == |plans| {
      EffectNone(l, s.registry, plans);
    } else {
      if plans[i].number.None? {
        RegisterAllOk(p, l, files, s, log, plans, i + 1, clock);
        EffectSkip(l, s.registry, RegisterAll(l, files, s, plans, i + 1, clock).value.registry, plans, i);
      } else {
        var item := plans[i].item;
        var now := clock(|s.records| + 2 + i);
        NextTimestampLeast(s, now);
        var t := NextTimestamp(s, now).value;
        var r := NewRevision(l, plans[i], t);
        assert Fits(s.registry, plans[i]);
        RegisterMid(p, s, log, item.role, item.artifact, r);
        var s1 := s.(registry := AppendRevision(s.registry, item.role, item.artifact, r));
        forall j | i + 1 <= j < |plans| ensures Fits(s1.registry, plans[j]) {
          FitsLater(s.registry, item.role, item.artifact, r, plans[j]);
        }
        RegisterAllOk(p, l, files, s1, log, plans, i + 1, clock);
        hide RegisterAll, NextTimestamp, Fits;
        EffectStep(l, s.registry, RegisterAll(l, files, s1, plans, i + 1, clock).value.registry, plans, i, t);
      }
    }
  }

  // ----- all or nothing -----

  /** The state holds the publication: its revision is current, and both its files have the content. */
  ghost predicate Holds(l: Naming, w: World, item: Item) {
    && Registered(w.state.registry, item)
    && FileMatches(l, w.files, item.path, item)
    && RevisionIntact(l, w.files, Current(w.state.registry[item.role]))
  }

  /** A new revision continues its history; an entry without one is held already. */
  ghost predicate Planned(l: Naming, w: World, plan: Plan) {
    Fits(w.state.registry, plan) && (plan.number.None? ==> Holds(l, w, plan.item))
  }

  lemma {:induction false} PlansFit(p: Policy, l: Naming, reserved: set<Role>, w: World, items: seq<Item>)
    requires PolicyOk(p) && Preflight(p, l, reserved, w, items)
    ensures var plans := Plans(p, l, reserved, w, items);
            && RolesDistinct(plans)
            && (forall j :: 0 <= j < |plans| ==> plans[j].item == items[j])
            && (forall j :: 0 <= j < |plans| ==> Planned(l, w, plans[j]))
  {
    var plans := Plans(p, l, reserved, w, items);
    forall j | 0 <= j < |plans|
      ensures plans[j].item == items[j] && Planned(l, w, plans[j])
    {
      assert PlanOne(p, l, reserved, w, items[j]) == Some(plans[j]);
    }
  }

  /** The batch, and nothing else, was added: one revision at most per role, after the ones it had. */
  ghost predicate Committed(l: Naming, w: World, w': World, items: seq<Item>) {
    var reg, reg' := w.state.registry, w'.state.registry;
    && w'.state == w.state.(registry := reg', updated := w'.state.updated)
    && (forall j :: 0 <= j < |items| ==> Holds(l, w', items[j]))
    && (forall j :: 0 <= j < |items| ==> ExtendedByOne(reg, reg', items[j].role))
    && (forall role :: (forall j :: 0 <= j < |items| ==> items[j].role != role) ==> SameRole(reg, reg', role))
  }

  predicate ExtendedByOne(reg: map<Role, Artifact>, reg': map<Role, Artifact>, role: Role) {
    && Count(reg, role) <= Count(reg', role) <= Count(reg, role) + 1
    && (role in reg ==> role in reg' && reg'[role].id == reg[role].id && reg[role].revisions <= reg'[role].revisions)
  }

  lemma {:induction false} EffectCommits(l: Naming, w: World, w': World, items: seq<Item>, plans: seq<Plan>)
    requires RolesDistinct(plans) && |plans| == |items|
    requires forall j :: 0 <= j < |items| ==> plans[j].item == items[j] && Fits(w.state.registry, plans[j])
    requires forall j :: 0 <= j < |items| ==> Holds(l, w', items[j])
    requires Effect(l, w.state.registry, w'.state.registry, plans, 0)
    requires w'.state == w.state.(registry := w'.state.registry, updated := w'.state.updated)
    ensures Committed(l, w, w', items)
  {
    hide Holds;
    var reg, reg' := w.state.registry, w'.state.registry;
    forall j | 0 <= j < |items| ensures ExtendedByOne(reg, reg', items[j].role) {
      assert plans[j].item == items[j] && Fits(reg, plans[j]);
      if plans[j].number.Some? {
        assert Appended(l, reg, reg', plans[j]);
      } else {
        assert Untouched(plans, 0, items[j].role);
        assert SameRole(reg, reg', items[j].role);
      }
    }
    forall role | forall j :: 0 <= j < |items| ==> items[j].role != role ensures SameRole(reg, reg', role) {
      assert forall j :: 0 <= j < |plans| ==> plans[j].item == items[j];
      assert Untouched(plans, 0, role);
    }
  }

  lemma {:induction false} HeldAfter(l: Naming, w: World, w': World, plans: seq<Plan>, j: nat)
    requires j < |plans| && RolesDistinct(plans) && Kept(w.files, w'.files)
    requires Effect(l, w.state.registry, w'.state.registry, plans, 0) && Verified(l, w'.files, plans[j])
    requires Planned(l, w, plans[j])
    ensures Holds(l, w', plans[j].item)
  {
    var role := plans[j].item.role;
    if plans[j].number.None? {
      assert Untouched(plans, 0, role);
      assert SameRole(w.state.registry, w'.state.registry, role);
    } else {
      assert Appended(l, w.state.registry, w'.state.registry, plans[j]);
    }
  }

  /**
   Main theorem: wherever the command is cut off, the canonical state is the old one or the old one
   and the whole batch; success means every publication is held.  No file is changed and the state
   stays sound.
   */
  lemma {:induction false} AllOrNothing(p: Policy, l: Naming, reserved: set<Role>, w: World, items: seq<Item>,
      e: Environment, clock: Clock, log: seq<Event>)
    requires PolicyOk(p) && Sound(p, w.state, log)
    ensures var (w', o) := Publish(p, l, reserved, w, items, e, clock);
            && Kept(w.files, w'.files) && Sound(p, w'.state, log)
            && (w'.state == w.state || Committed(l, w, w', items))
            && (o == Published ==> forall j :: 0 <= j < |items| ==> Holds(l, w', items[j]))
  {
    hide Sound, Ready, Preflight, Holds, FilesAfter, Commit, Effect, Committed;
    if Ready(p, l, w) && Preflight(p, l, reserved, w, items) {
      var plans := Plans(p, l, reserved, w, items);
      var d := FilesAfter(l, w, plans, e);
      FilesAfterKeeps(l, w, plans, e);
      PlansFit(p, l, reserved, w, items);
      if d.progress.Going? {
        CommitWhole(p, l, w, plans, d, clock, log);
        assert forall j :: 0 <= j < |items| ==> items[j] == plans[j].item && Planned(l, w, plans[j]);
        var w' := Commit(l, w, plans, d, clock).0;
        if w'.state != w.state { EffectCommits(l, w, w', items, plans); }
      }
    }
  }

  lemma {:induction false} RegisteredHolds(p: Policy, l: Naming, w: World, files: map<string, Content>,
      plans: seq<Plan>, clock: Clock, log: seq<Event>)
    requires Mid(p, w.state, log, w.state.nextId) && RolesDistinct(plans) && Kept(w.files, files)
    requires forall j :: 0 <= j < |plans| ==> Planned(l, w, plans[j])
    requires RegisterAll(l, files, w.state, plans, 0, clock).Some?
    ensures var s := RegisterAll(l, files, w.state, plans, 0, clock).value;
            && Mid(p, s, log, s.nextId) && s == w.state.(registry := s.registry)
            && Effect(l, w.state.registry, s.registry, plans, 0)
            && forall j :: 0 <= j < |plans| ==> Holds(l, World(files, s), plans[j].item)
  {
    hide Holds, Verified, Effect, RegisterAll, Mid, Fits;
    RegisterAllOk(p, l, files, w.state, log, plans, 0, clock);
    var s := RegisterAll(l, files, w.state, plans, 0, clock).value;
    forall j | 0 <= j < |plans| ensures Holds(l, World(files, s), plans[j].item) {
      assert Verified(l, files, plans[j]) && Planned(l, w, plans[j]);
      HeldAfter(l, w, World(files, s), plans, j);
    }
  }

  lemma {:induction false} CommitWhole(p: Policy, l: Naming, w: World, plans: seq<Plan>, d: Disk, clock: Clock,
      log: seq<Event>)
    requires Sound(p, w.state, log) && RolesDistinct(plans) && Kept(w.files, d.files)
    requires forall j :: 0 <= j < |plans| ==> Planned(l, w, plans[j])
    ensures var (w', o) := Commit(l, w, plans, d, clock);
            && w'.files == d.files && Sound(p, w'.state, log)
            && (w'.state == w.state
                || (w'.state == w.state.(registry := w'.state.registry, updated := w'.state.updated)
                    && Effect(l, w.state.registry, w'.state.registry, plans, 0)))
            && (w'.state != w.state || o == Published ==> forall j :: 0 <= j < |plans| ==> Holds(l, w', plans[j].item))
  {
    hide Holds, Planned, Effect, RegisterAll, Mid, Settled;
    var r := RegisterAll(l, d.files, w.state, plans, 0, clock);
    if r.Some? {
      RegisteredHolds(p, l, w, d.files, plans, clock, log);
      var s := r.value;
      assert Settled(p, s, log) by { SettledAfter(p, w.state, s, log); }
      WriteSound(p, s, log, clock);
      hide Sound;
      if AllRegistered(plans) { RegisterNothing(l, d.files, w.state, plans, 0, clock); }
      if Write(s, clock).Ok? {
        var written := World(d.files, Write(s, clock).value);
        forall j | 0 <= j < |plans| ensures Holds(l, written, plans[j].item) {
          SameRegistryHolds(l, World(d.files, s), written, plans[j].item);
        }
      }
    }
  }

  lemma {:induction false} SettledAfter(p: Policy, s: State, s': State, log: seq<Event>)
    requires Settled(p, s, log) && s'.records == s.records
    ensures Settled(p, s', log)
  {
  }

  lemma {:induction false} SameRegistryHolds(l: Naming, w: World, w': World, item: Item)
    requires Holds(l, w, item) && w'.files == w.files && w'.state.registry == w.state.registry
    ensures Holds(l, w', item)
  {
  }

  lemma {:induction false} RegisterNothing(l: Naming, files: map<string, Content>, s: State, plans: seq<Plan>, i: nat,
      clock: Clock)
    requires i <= |plans| && AllRegistered(plans)
    ensures RegisterAll(l, files, s, plans, i, clock) == Some(s)
    decreases |plans| - i
  {
    if i < |plans| { RegisterNothing(l, files, s, plans, i + 1, clock); }
  }
}
