/**
 Batch publication: exclusive copies, immutable snapshots, one state write, and a crash between
 any two of these.

 Files are a map from path to content.  `hash` stands for SHA-256, `scoped` tells which paths lie
 under the attempt's publication directory, and `snap` names the snapshot of one revision.
 */
module Publication {
  import opened Prelude
  import opened GateModel
  import opened GateReplay
  import opened GateWriters

  type Content = seq<nat>

  datatype Naming = Naming(hash: Content -> string, scoped: string -> bool, snap: (Role, string, nat, string) -> string)

  /** Snapshot names tell role and revision apart and lie outside the publication directories. */
  ghost predicate NamingOk(l: Naming) {
    && (forall r, a, n, h, r', a', n', h' :: l.snap(r, a, n, h) == l.snap(r', a', n', h') ==> r == r' && n == n')
    && (forall r, a, n, h :: !l.scoped(l.snap(r, a, n, h)))
  }

  /** One entry of a publication manifest. */
  datatype Item = Item(source: string, path: string, role: Role, artifact: string, hash: string, size: nat)

  /** What preflight decided: the next revision number, or nothing when the entry is registered already. */
  datatype Plan = Plan(item: Item, number: Option<nat>)

  datatype World = World(files: map<string, Content>, state: State)

  /**
   What the command does not control: files others create after preflight, what each source holds
   when it is copied, what a half-filled file holds, and after how many disk operations it stops.
   */
  datatype Environment = Environment(
    others: map<string, Content>, late: nat -> Content, partial: nat -> Content, crashAfter: nat)

  datatype Progress = Going | Crashed | Failed

  datatype Disk = Disk(files: map<string, Content>, fuel: nat, progress: Progress)

  datatype Outcome = Published | Rejected | Interrupted

  const MAX_PUBLICATIONS: nat := 202

  predicate Matches(l: Naming, c: Content, item: Item) {
    l.hash(c) == item.hash && |c| == item.size
  }

  predicate FileMatches(l: Naming, files: map<string, Content>, path: string, item: Item) {
    path in files && Matches(l, files[path], item)
  }

  function SnapshotOf(l: Naming, item: Item, number: nat): string {
    l.snap(item.role, item.artifact, number, item.hash)
  }

  function Count(reg: map<Role, Artifact>, role: Role): nat {
    if role in reg then |reg[role].revisions| else 0
  }

  // ----- preflight -----

  predicate RevisionIntact(l: Naming, files: map<string, Content>, r: Revision) {
    r.snapshot in files && l.hash(files[r.snapshot]) == r.hash && |files[r.snapshot]| == r.size
  }

  /** Every registered snapshot is present and unaltered. */
  predicate SnapshotsIntact(l: Naming, files: map<string, Content>, reg: map<Role, Artifact>) {
    forall role, i :: role in reg && 0 <= i < |reg[role].revisions| ==> RevisionIntact(l, files, reg[role].revisions[i])
  }

  predicate Registered(reg: map<Role, Artifact>, item: Item) {
    && item.role in reg && reg[item.role].id == item.artifact && |reg[item.role].revisions| > 0
    && SameContent(Current(reg[item.role]), item.path, item.hash, item.size)
  }

  /** `_preflight` for one entry. */
  function PlanOne(p: Policy, l: Naming, reserved: set<Role>, w: World, item: Item): Option<Plan>
    requires PolicyOk(p)
  {
    var reg := w.state.registry;
    if item.role in reserved || !l.scoped(item.path) then None
    else if !FileMatches(l, w.files, item.source, item) then None
    else if FrozenRole(p, w.state, item.role) then None
    else if item.role in reg && (reg[item.role].id != item.artifact || reg[item.role].revisions == []) then None
    else if Registered(reg, item) then
      if FileMatches(l, w.files, item.path, item) && RevisionIntact(l, w.files, Current(reg[item.role])) then
        Some(Plan(item, None))
      else None
    else if item.path in w.files then None
    else Some(Plan(item, Some(Count(reg, item.role) + 1)))
  }

  predicate DistinctItems(items: seq<Item>) {
    forall i, j :: 0 <= i < j < |items| ==> items[i].path != items[j].path && items[i].role != items[j].role
  }

  predicate Preflight(p: Policy, l: Naming, reserved: set<Role>, w: World, items: seq<Item>)
    requires PolicyOk(p)
  {
    && 1 <= |items| <= MAX_PUBLICATIONS && DistinctItems(items)
    && forall i :: 0 <= i < |items| ==> PlanOne(p, l, reserved, w, items[i]).Some?
  }

  function Plans(p: Policy, l: Naming, reserved: set<Role>, w: World, items: seq<Item>): seq<Plan>
    requires PolicyOk(p) && Preflight(p, l, reserved, w, items)
  {
    seq(|items|, i requires 0 <= i < |items| => PlanOne(p, l, reserved, w, items[i]).value)
  }

  // ----- files -----

  /** One exclusive create and fill; a crash in between leaves the file half filled. */
  function Create(d: Disk, path: string, partial: Content, full: Content): Disk
    requires d.progress.Going?
  {
    if d.fuel == 0 then d.(progress := Crashed)
    else
      var created := d.(files := d.files[path := partial], fuel := d.fuel - 1);
      if created.fuel == 0 then created.(progress := Crashed)
      else created.(files := created.files[path := full], fuel := created.fuel - 1)
  }

  /** `_copy_to_destination`: never onto an existing path, and only the content seen before. */
  function CopyOne(l: Naming, d: Disk, item: Item, late: Content, partial: Content): Disk
    requires d.progress.Going?
  {
    if item.path in d.files then d.(progress := Failed)
    else
      var d' := Create(d, item.path, partial, late);
      if d'.progress.Going? && !Matches(l, late, item) then d'.(progress := Failed) else d'
  }

  /** `create_revision_snapshot_result`: an existing snapshot is reused if its content is right. */
  function SnapshotOne(l: Naming, d: Disk, item: Item, number: nat, partial: Content): Disk
    requires d.progress.Going?
  {
    var path := SnapshotOf(l, item, number);
    if path in d.files then
      if Matches(l, d.files[path], item) then d else d.(progress := Failed)
    else if !FileMatches(l, d.files, item.path, item) then d.(progress := Failed)
    else Create(d, path, partial, d.files[item.path])
  }

  function CopyAll(l: Naming, plans: seq<Plan>, d: Disk, i: nat, e: Environment): Disk
    requires i <= |plans|
    decreases |plans| - i
  {
    if i == |plans| || !d.progress.Going? then d
    else
      CopyAll(l, plans, if plans[i].number.None? then d else CopyOne(l, d, plans[i].item, e.late(i), e.partial(i)),
          i + 1, e)
  }

  function SnapshotAll(l: Naming, plans: seq<Plan>, d: Disk, i: nat, e: Environment): Disk
    requires i <= |plans|
    decreases |plans| - i
  {
    if i == |plans| || !d.progress.Going? then d
    else
      var n := plans[i].number;
      SnapshotAll(l, plans, if n.None? then d else SnapshotOne(l, d, plans[i].item, n.value, e.partial(|plans| + i)),
          i + 1, e)
  }

  // ----- state -----

  function NewRevision(l: Naming, plan: Plan, t: Time): Revision
    requires plan.number.Some?
  {
    Revision(plan.number.value, plan.item.path, SnapshotOf(l, plan.item, plan.number.value), plan.item.hash,
        plan.item.size, t)
  }

  /** Revisions are stamped and appended one after another in the loaded state. */
  ghost function RegisterAll(l: Naming, files: map<string, Content>, s: State, plans: seq<Plan>, i: nat, clock: Clock)
    : Option<State>
    requires i <= |plans|
    decreases |plans| - i
  {
    if i == |plans| then Some(s)
    else if plans[i].number.None? then RegisterAll(l, files, s, plans, i + 1, clock)
    else
      var item := plans[i].item;
      match NextTimestamp(s, clock(|s.records| + 2 + i))
      case None => None
      case Some(t) =>
        if !FileMatches(l, files, item.path, item)
           || !FileMatches(l, files, SnapshotOf(l, item, plans[i].number.value), item) then None
        else
          var reg := AppendRevision(s.registry, item.role, item.artifact, NewRevision(l, plans[i], t));
          RegisterAll(l, files, s.(registry := reg), plans, i + 1, clock)
  }

  predicate AllRegistered(plans: seq<Plan>) {
    forall i :: 0 <= i < |plans| ==> plans[i].number.None?
  }

  predicate Ready(p: Policy, l: Naming, w: World)
    requires PolicyOk(p)
  {
    w.state.life.status == Active && BindingsOk(p, w.state) && SnapshotsIntact(l, w.files, w.state.registry)
  }

  /** The files on disk once copying and snapshotting have gone as far as they go. */
  function FilesAfter(l: Naming, w: World, plans: seq<Plan>, e: Environment): Disk {
    SnapshotAll(l, plans, CopyAll(l, plans, Disk(e.others + w.files, e.crashAfter, Going), 0, e), 0, e)
  }

  /** After the files: register in memory, write once. A crash right after the write is an interruption too. */
  ghost function Commit(l: Naming, w: World, plans: seq<Plan>, d: Disk, clock: Clock): (World, Outcome) {
    var kept := World(d.files, w.state);
    match RegisterAll(l, d.files, w.state, plans, 0, clock)
    case None => (kept, Rejected)
    case Some(s) =>
      if AllRegistered(plans) then (kept, Published)
      else if d.fuel == 0 then (kept, Interrupted)
      else
        match Write(s, clock)
        case Err(_) => (kept, Rejected)
        case Ok(s') => (World(d.files, s'), if d.fuel == 1 then Interrupted else Published)
  }

  /** Everything after preflight. */
  ghost function Execute(l: Naming, w: World, plans: seq<Plan>, e: Environment, clock: Clock): (World, Outcome) {
    var d := FilesAfter(l, w, plans, e);
    match d.progress
    case Going => Commit(l, w, plans, d, clock)
    case Crashed => (World(d.files, w.state), Interrupted)
    case Failed => (World(d.files, w.state), Rejected)
  }

  /** `cmd_publish_batch`, stopped by the environment or run to its end. */
  ghost function Publish(p: Policy, l: Naming, reserved: set<Role>, w: World, items: seq<Item>, e: Environment,
      clock: Clock)
    : (World, Outcome)
    requires PolicyOk(p)
  {
    if !Ready(p, l, w) || !Preflight(p, l, reserved, w, items) then (w, Rejected)
    else Execute(l, w, Plans(p, l, reserved, w, items), e, clock)
  }
}
