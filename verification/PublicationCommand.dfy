/** `publish-batch` as the program runs it, on the project's files and its saved document. */
module PublicationCommand {
  import opened Prelude
  import opened GateModel
  import opened GateWriters
  import opened GateHistories
  import opened GateSteps
  import opened GateMachine
  import opened Publication
  import opened PublicationSafety

  class Publisher {
    const project: Project
    const naming: Naming
    var files: map<string, Content>

    constructor (project: Project, naming: Naming, files: map<string, Content>)
      ensures this.project == project && this.naming == naming && this.files == files
    {
      this.project, this.naming, this.files := project, naming, files;
    }

    /** Open exclusively, then fill; `fuel` counts the disk operations left before the crash. */
    method CreateFile(path: string, partial: Content, full: Content, fuel: nat) returns (left: nat, progress: Progress)
      modifies this`files
      ensures Disk(files, left, progress) == Create(Disk(old(files), fuel, Going), path, partial, full)
    {
      if fuel == 0 { return fuel, Crashed; }
      files := files[path := partial];
      if fuel == 1 { return 0, Crashed; }
      files := files[path := full];
      return fuel - 2, Going;
    }

    /** `_copy_to_destination`. */
    method CopyToDestination(item: Item, late: Content, partial: Content, fuel: nat)
      returns (left: nat, progress: Progress)
      modifies this`files
      ensures Disk(files, left, progress) == CopyOne(naming, Disk(old(files), fuel, Going), item, late, partial)
    {
      if item.path in files { return fuel, Failed; }
      left, progress := CreateFile(item.path, partial, late, fuel);
      if progress.Going? && !Matches(naming, late, item) { progress := Failed; }
    }

    /** `create_revision_snapshot_result`. */
    method CreateSnapshot(item: Item, number: nat, partial: Content, fuel: nat) returns (left: nat, progress: Progress)
      modifies this`files
      ensures Disk(files, left, progress) == SnapshotOne(naming, Disk(old(files), fuel, Going), item, number, partial)
    {
      var path := SnapshotOf(naming, item, number);
      if path in files { return fuel, if Matches(naming, files[path], item) then Going else Failed; }
      if !FileMatches(naming, files, item.path, item) { return fuel, Failed; }
      left, progress := CreateFile(path, partial, files[item.path], fuel);
    }

    /** `_preflight`. */
    method PreflightBatch(reserved: set<Role>, items: seq<Item>) returns (plans: Option<seq<Plan>>)
      requires PolicyOk(project.policy)
      ensures var w := World(files, project.state);
              if Preflight(project.policy, naming, reserved, w, items)
              then plans == Some(Plans(project.policy, naming, reserved, w, items)) else plans == None
    {
      hide PlanOne;
      if !(1 <= |items| <= MAX_PUBLICATIONS) { return None; }
      var paths, roles: set<Role>, planned: seq<Plan> := {}, {}, [];
      for i := 0 to |items|
        invariant paths == set j | 0 <= j < i :: items[j].path
        invariant roles == set j | 0 <= j < i :: items[j].role
        invariant DistinctItems(items[..i]) && |planned| == i
        invariant forall j :: 0 <= j < i ==>
          PlanOne(project.policy, naming, reserved, World(files, project.state), items[j]) == Some(planned[j])
      {
        var item := items[i];
        var plan := PlanOne(project.policy, naming, reserved, World(files, project.state), item);
        if item.path in paths || item.role in roles || plan.None? { return None; }
        paths, roles, planned := paths + {item.path}, roles + {item.role}, planned + [plan.value];
      }
      assert items[..|items|] == items;
      ghost var w := World(files, project.state);
      assert Preflight(project.policy, naming, reserved, w, items);
      assert planned == Plans(project.policy, naming, reserved, w, items);
      return Some(planned);
    }

    /** The copy loop of `cmd_publish_batch`. */
    method CopyLoop(plans: seq<Plan>, e: Environment, fuel: nat) returns (left: nat, progress: Progress)
      modifies this`files
      ensures Disk(files, left, progress) == CopyAll(naming, plans, Disk(old(files), fuel, Going), 0, e)
    {
      left, progress := fuel, Going;
      var i := 0;
      while i < |plans| && progress.Going?
        invariant i <= |plans|
        invariant CopyAll(naming, plans, Disk(files, left, progress), i, e)
               == CopyAll(naming, plans, Disk(old(files), fuel, Going), 0, e)
      {
        if plans[i].number.Some? {
          left, progress := CopyToDestination(plans[i].item, e.late(i), e.partial(i), left);
        }
        i := i + 1;
      }
    }

    /** The snapshot loop of `cmd_publish_batch`. */
    method SnapshotLoop(plans: seq<Plan>, e: Environment, fuel: nat) returns (left: nat, progress: Progress)
      modifies this`files
      ensures Disk(files, left, progress) == SnapshotAll(naming, plans, Disk(old(files), fuel, Going), 0, e)
    {
      left, progress := fuel, Going;
      var i := 0;
      while i < |plans| && progress.Going?
        invariant i <= |plans|
        invariant SnapshotAll(naming, plans, Disk(files, left, progress), i, e)
               == SnapshotAll(naming, plans, Disk(old(files), fuel, Going), 0, e)
      {
        if plans[i].number.Some? {
          left, progress := CreateSnapshot(plans[i].item, plans[i].number.value, e.partial(|plans| + i), left);
        }
        i := i + 1;
      }
    }

    /** The registration loop: stamp, verify and append each revision in the loaded state. */
    method RegisterLoop(plans: seq<Plan>, clock: Clock) returns (ok: bool)
      modifies project`state
      ensures RegisterAll(naming, files, old(project.state), plans, 0, clock)
              == if ok then Some(project.state) else None
    {
      for i := 0 to |plans|
        invariant |project.state.records| == |old(project.state).records|
        invariant RegisterAll(naming, files, project.state, plans, i, clock)
               == RegisterAll(naming, files, old(project.state), plans, 0, clock)
      {
        hide NextTimestamp, FileMatches, SnapshotOf, AppendRevision;
        if plans[i].number.Some? {
          var item := plans[i].item;
          var t := project.NextStateTimestamp(clock(|project.state.records| + 2 + i));
          if t.None? { return false; }
          if !FileMatches(naming, files, item.path, item)
             || !FileMatches(naming, files, SnapshotOf(naming, item, plans[i].number.value), item) { return false; }
          var reg := AppendRevision(project.state.registry, item.role, item.artifact,
              NewRevision(naming, plans[i], t.value));
          project.state := project.state.(registry := reg);
        }
      }
      return true;
    }

    /** Copy, snapshot, register, write once; the environment may stop it anywhere. */
    method ExecutePlans(plans: seq<Plan>, e: Environment, clock: Clock) returns (o: Outcome)
      requires project.state == project.disk
      modifies this`files, project`state, project`disk
      ensures (World(files, project.disk), o) == Execute(naming, World(old(files), old(project.disk)), plans, e, clock)
    {
      hide CopyAll, SnapshotAll, RegisterAll, Write, AllRegistered;
      files := e.others + files;
      var fuel, progress := CopyLoop(plans, e, e.crashAfter);
      if progress.Going? {
        fuel, progress := SnapshotLoop(plans, e, fuel);
      } else {
        SnapshotsSkipped(naming, plans, Disk(files, fuel, progress), e);
      }
      if progress.Crashed? { return Interrupted; }
      if progress.Failed? { return Rejected; }
      var ok := RegisterLoop(plans, clock);
      if !ok { return Rejected; }
      if AllRegistered(plans) { return Published; }
      if fuel == 0 { return Interrupted; }
      var written := project.WriteMutatedState(clock);
      if written.Err? { return Rejected; }
      return if fuel == 1 then Interrupted else Published;
    }

    /** `cmd_publish_batch`. */
    method PublishBatch(reserved: set<Role>, items: seq<Item>, e: Environment, clock: Clock) returns (o: Outcome)
      requires PolicyOk(project.policy) && project.Valid()
      modifies this`files, project`state, project`disk
      ensures (World(files, project.disk), o)
           == Publish(project.policy, naming, reserved, World(old(files), old(project.disk)), items, e, clock)
      ensures project.Valid()
    {
      AllOrNothing(project.policy, naming, reserved, World(files, project.disk), items, e, clock, project.log);
      hide Sound, Ready, Preflight, Plans, Execute, Committed, Kept, Holds, PolicyOk;
      project.state := project.disk;
      if !Ready(project.policy, naming, World(files, project.state)) { return Rejected; }
      var plans := PreflightBatch(reserved, items);
      if plans.None? { return Rejected; }
      o := ExecutePlans(plans.value, e, clock);
    }
  }

  lemma {:induction false} SnapshotsSkipped(l: Naming, plans: seq<Plan>, d: Disk, e: Environment)
    requires !d.progress.Going?
    ensures SnapshotAll(l, plans, d, 0, e) == d
  {
  }
}
