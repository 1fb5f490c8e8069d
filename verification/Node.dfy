/** One node: its replicated state, its local database and the indexes that
    decide when the database follows the log, with the transitions of the store
    as functions on values. The class Store refines them field by field. */
module Node {
  import opened Fsm

  /** What Persist writes. A section is None when an older binary did not write
      it; the schema section is always there (the legacy format is left out). */
  datatype Snapshot = Snapshot(
    schema: map<string, ClassMeta>,
    aliases: Option<map<string, string>>,
    rbac: Option<Blob>,
    tasks: Option<Blob>,
    replication: Option<Blob>,
    users: Option<Blob>,
    namespaces: Option<map<string, Namespace>>,
    clusterID: string)

  /** A snapshot in the snapshot store, under its raft index. */
  datatype Stored = Stored(index: nat, content: Snapshot)

  /** The directory of one shard. Directories and indexes go by the class name up to
      case, so classes whose names differ only in case share them. */
  datatype Dir = Dir(id: string, shard: string)

  /** The directories on disk, each with the index of the command it was created for. */
  type Disk = map<Dir, nat>

  /** An open index: the class it was opened for, and the shards it holds. */
  datatype Index = Index(cls: string, shards: set<string>)

  type Indexes = map<string, Index>

  /** open: the indexes the database holds open, each with its shards. staged: what
      a backup restore has staged, class by class. orphans: classes dropped without
      touching the database. toDB is lastAppliedIndexToDB, published is
      lastAppliedIndex. The disk and what is staged survive the process. */
  datatype Node = Node(
    fsm: State,
    open: Indexes,
    disk: Disk,
    staged: map<string, set<string>>,
    orphans: set<string>,
    dbLoaded: bool,
    toDB: nat,
    published: nat)

  function Capture(s: State): Snapshot {
    Snapshot(s.classes, Some(s.aliases), Some(s.rbac), Some(s.tasks), Some(s.replication),
             Some(s.users), Some(s.namespaces), s.clusterID)
  }

  function OrElse<T>(o: Option<T>, x: T): T {
    if o.Some? then o.value else x
  }

  /** The state after restoring snap over s: present sections replace, missing
      ones are kept, the cluster id is set once. */
  function Install(s: State, snap: Snapshot): State {
    State(
      snap.schema,
      OrElse(snap.aliases, s.aliases),
      OrElse(snap.namespaces, s.namespaces),
      OrElse(snap.rbac, s.rbac),
      OrElse(snap.users, s.users),
      OrElse(snap.tasks, s.tasks),
      OrElse(snap.replication, s.replication),
      if snap.clusterID != "" then SetOnce(s.clusterID, snap.clusterID) else s.clusterID)
  }

  function SnapIndex(snap: Option<Stored>): nat {
    if snap.Some? then snap.value.index else 0
  }

  function Max(a: nat, b: nat): nat {
    if a < b then b else a
  }

  predicate CatchingUp(n: Node, index: nat) {
    index != 0 && index <= n.toDB
  }

  // ---- directories and indexes ----

  function Tag(disk: Disk, d: Dir): Option<nat> {
    if d in disk then Some(disk[d]) else None
  }

  lemma SameDisk(a: Disk, b: Disk)
    requires forall d :: Tag(a, d) == Tag(b, d)
    ensures a == b
  {
    forall d ensures d in a <==> d in b {
      assert Tag(a, d) == Tag(b, d);
    }
    forall d | d in a ensures a[d] == b[d] {
      assert Tag(a, d) == Tag(b, d);
    }
  }

  function At(open: Indexes, id: string): Option<Index> {
    if id in open then Some(open[id]) else None
  }

  lemma SameOpen(a: Indexes, b: Indexes)
    requires forall id :: At(a, id) == At(b, id)
    ensures a == b
  {
    forall id ensures id in a <==> id in b {
      assert At(a, id) == At(b, id);
    }
    forall id | id in a ensures a[id] == b[id] {
      assert At(a, id) == At(b, id);
    }
  }

  /** The active shards of a class. */
  function Hot(m: ClassMeta): set<string> {
    set x | x in m.shards && m.shards[x].hot
  }

  function HotBorn(m: ClassMeta): map<string, nat> {
    map x | x in m.shards && m.shards[x].hot :: m.shards[x].born
  }

  /** The directory that opening a shard creates, if opening the class opens it. */
  function HotTag(m: ClassMeta, x: string): Option<nat> {
    if x in m.shards && m.shards[x].hot then Some(m.shards[x].born) else None
  }

  /** Opening shards creates the directories that are missing and reuses the others. */
  function WithShards(disk: Disk, id: string, shards: map<string, nat>): Disk {
    disk + map d | d in (set x | x in shards :: Dir(id, x)) && d !in disk && d.shard in shards :: shards[d.shard]
  }

  lemma WithShardsAt(disk: Disk, id: string, shards: map<string, nat>, d: Dir)
    ensures Tag(WithShards(disk, id, shards), d)
            == if d in disk then Some(disk[d]) else if d.id == id && d.shard in shards then Some(shards[d.shard]) else None
  {
    assert d in (set x | x in shards :: Dir(id, x)) <==> d.id == id && d.shard in shards;
  }

  function WithoutIndex(disk: Disk, id: string): Disk {
    map d | d in disk && d.id != id :: disk[d]
  }

  function WithoutShards(disk: Disk, id: string, shards: set<string>): Disk {
    map d | d in disk && !(d.id == id && d.shard in shards) :: disk[d]
  }

  predicate HasDir(disk: Disk, id: string) {
    exists d :: d in disk && d.id == id
  }

  function Stamped(shards: set<string>, index: nat): map<string, nat> {
    map x | x in shards :: index
  }

  /** RestoreClassDir moves what is staged for the class into place, unless there is
      a directory already; either way nothing stays staged. */
  function Adopt(disk: Disk, staged: map<string, set<string>>, c: string, index: nat): Disk {
    if c in staged && !HasDir(disk, Fold(c)) then WithShards(disk, Fold(c), Stamped(staged[c], index)) else disk
  }

  /** The move is not guarded by schemaOnly, and happens before the schema decides. */
  predicate Restores(h: Handlers, s: State, r: Request, index: nat) {
    r.RestoreClass? && !h.refuses(s, r, index)
  }

  // ---- the store half of an accepted command ----

  /** Opening an index that is open already is an error and changes nothing. */
  function OpenAdded(open: Indexes, classes: map<string, ClassMeta>, c: string): Indexes {
    if Fold(c) in open || c !in classes then open else open[Fold(c) := Index(c, Hot(classes[c]))]
  }

  function DiskAdded(open: Indexes, disk: Disk, classes: map<string, ClassMeta>, c: string): Disk {
    if Fold(c) in open || c !in classes then disk else WithShards(disk, Fold(c), HotBorn(classes[c]))
  }

  /** Without an open index nothing happens to directories. */
  function DiskDeleted(open: Indexes, disk: Disk, id: string): Disk {
    if id in open then WithoutIndex(disk, id) else disk
  }

  function OpenSwitched(open: Indexes, id: string, loads: map<string, nat>, unloads: set<string>): Indexes {
    if id in open then open[id := Index(open[id].cls, open[id].shards + loads.Keys - unloads)] else open
  }

  function DiskLoaded(open: Indexes, disk: Disk, id: string, loads: map<string, nat>): Disk {
    if id in open then WithShards(disk, id, loads) else disk
  }

  function OpenDropped(open: Indexes, id: string, shards: set<string>): Indexes {
    if id in open then open[id := Index(open[id].cls, open[id].shards - shards)] else open
  }

  function DiskDropped(open: Indexes, disk: Disk, id: string, shards: set<string>): Disk {
    if id in open then WithoutShards(disk, id, shards) else disk
  }

  /** The shards a command makes active, and those it makes inactive. */
  function Warmed(before: map<string, ClassMeta>, after: map<string, ClassMeta>, c: string): map<string, nat> {
    if c in before && c in after then HotBorn(after[c]) - Hot(before[c]) else map[]
  }

  function Cooled(before: map<string, ClassMeta>, after: map<string, ClassMeta>, c: string): set<string> {
    if c in before && c in after then Hot(before[c]) - Hot(after[c]) else {}
  }

  /** The tenants the database is told to delete. An empty list of names means all of
      them here, though the schema deletes none. */
  function Lost(before: map<string, ClassMeta>, c: string, names: seq<string>): set<string> {
    if c !in before then {} else if names == [] then before[c].shards.Keys else Names(names) * before[c].shards.Keys
  }

  /** before and after are the classes around the command. */
  function StoreOpen(open: Indexes, before: map<string, ClassMeta>, after: map<string, ClassMeta>, r: Request): Indexes {
    match r
    case AddClass(c, _, _) => OpenAdded(open, after, c)
    case RestoreClass(c, _, _) => OpenAdded(open, after, c)
    case DeleteClass(c) => open - {Fold(c)}
    case AddTenants(c, _, _) => OpenSwitched(open, Fold(c), Warmed(before, after, c), {})
    case UpdateTenants(c, _, _) => OpenSwitched(open, Fold(c), Warmed(before, after, c), Cooled(before, after, c))
    case DeleteTenants(c, names) => OpenDropped(open, Fold(c), Lost(before, c, names))
    case _ => open
  }

  function StoreDisk(open: Indexes, disk: Disk, before: map<string, ClassMeta>, after: map<string, ClassMeta>, r: Request): Disk {
    match r
    case AddClass(c, _, _) => DiskAdded(open, disk, after, c)
    case RestoreClass(c, _, _) => DiskAdded(open, disk, after, c)
    case DeleteClass(c) => DiskDeleted(open, disk, Fold(c))
    case AddTenants(c, _, _) => DiskLoaded(open, disk, Fold(c), Warmed(before, after, c))
    case UpdateTenants(c, _, _) => DiskLoaded(open, disk, Fold(c), Warmed(before, after, c))
    case DeleteTenants(c, names) => DiskDropped(open, disk, Fold(c), Lost(before, c, names))
    case _ => disk
  }

  /** A schema-only delete that removed a class marks it for the next reload. */
  function Orphans(h: Handlers, n: Node, r: Request, index: nat): set<string> {
    if Accepts(h, n.fsm, r, index) && CatchingUp(n, index) && r.DeleteClass? && r.cls in n.fsm.classes
    then n.orphans + {r.cls} else n.orphans
  }

  predicate TouchesDb(h: Handlers, n: Node, r: Request, index: nat) {
    !CatchingUp(n, index) && Accepts(h, n.fsm, r, index)
  }

  /** The disk once staged files have been moved, if the command moves any. */
  function Moved(h: Handlers, n: Node, r: Request, index: nat): Disk {
    if Restores(h, n.fsm, r, index) then Adopt(n.disk, n.staged, r.cls, index) else n.disk
  }

  /** The command itself: the move of staged files, the schema half, then the store
      half unless catching up. */
  function Effect(h: Handlers, n: Node, r: Request, index: nat): Node {
    var touch := TouchesDb(h, n, r, index);
    var fsm, disk := Apply(h, n.fsm, r, index), Moved(h, n, r, index);
    n.(fsm := fsm,
       staged := if Restores(h, n.fsm, r, index) then n.staged - {r.cls} else n.staged,
       orphans := Orphans(h, n, r, index),
       open := if touch then StoreOpen(n.open, n.fsm.classes, fsm.classes, r) else n.open,
       disk := if touch then StoreDisk(n.open, disk, n.fsm.classes, fsm.classes, r) else disk)
  }

  // ---- reload ----

  /** The indexes of the recorded orphans that the schema does not name again, by
      their exact names. */
  function Dropped(n: Node): set<string> {
    set c | c in n.orphans && c !in n.fsm.classes :: Fold(c)
  }

  predicate Shared(classes: map<string, ClassMeta>, id: string) {
    exists c, c' :: c in classes && c' in classes && c != c' && Fold(c) == id && Fold(c') == id
  }

  /** The class whose index goes by this id; which one it is if several do is left open. */
  ghost function Owner(classes: map<string, ClassMeta>, id: string): (o: Option<string>)
    ensures o.Some? ==> o.value in classes && Fold(o.value) == id
    ensures o.None? <==> forall c :: c in classes ==> Fold(c) != id
  {
    if c :| c in classes && Fold(c) == id then Some(c) else None
  }

  lemma OwnerIs(classes: map<string, ClassMeta>, c: string)
    requires c in classes && !Shared(classes, Fold(c))
    ensures Owner(classes, Fold(c)) == Some(c)
  {
  }

  /** UpdateIndex on an index that is open drops the shards it holds that the schema
      no longer names, if they are tenants; others are only shut down. */
  predicate Reconciled(open: Indexes, m: ClassMeta, d: Dir) {
    d.id in open && d.shard in open[d.id].shards && m.multiTenant && d.shard !in m.shards
  }

  /** What reload makes of classes that share an index depends on their order and on
      the timing of the goroutines; the lot decides it. */
  datatype Lot = Lot(open: Indexes, disk: Disk)

  /** A directory once the classes in done have been brought in line and the indexes
      in dropped removed. */
  ghost function ReloadTag(disk: Disk, open: Indexes, classes: map<string, ClassMeta>, done: set<string>,
                           dropped: set<string>, lot: Lot, d: Dir): Option<nat>
  {
    var owner := Owner(classes, d.id);
    if d.id in dropped then None
    else if Shared(classes, d.id) then Tag(lot.disk, d)
    else if owner.None? || owner.value !in done then Tag(disk, d)
    else if Reconciled(open, classes[owner.value], d) then None
    else if d in disk then Some(disk[d])
    else HotTag(classes[owner.value], d.shard)
  }

  ghost function ReloadIndex(open: Indexes, classes: map<string, ClassMeta>, done: set<string>,
                             dropped: set<string>, lot: Lot, id: string): Option<Index>
  {
    var owner := Owner(classes, id);
    if id in dropped then None
    else if Shared(classes, id) then At(lot.open, id)
    else if owner.None? || owner.value !in done then At(open, id)
    else Some(Index(if id in open then open[id].cls else owner.value, Hot(classes[owner.value])))
  }

  ghost function Dirs(classes: map<string, ClassMeta>): set<Dir> {
    set c, x | c in classes && x in classes[c].shards :: Dir(Fold(c), x)
  }

  ghost function ReloadDisk(disk: Disk, open: Indexes, classes: map<string, ClassMeta>, done: set<string>,
                            dropped: set<string>, lot: Lot): Disk
  {
    map d | d in disk.Keys + lot.disk.Keys + Dirs(classes) && ReloadTag(disk, open, classes, done, dropped, lot, d).Some? ::
      ReloadTag(disk, open, classes, done, dropped, lot, d).value
  }

  ghost function ReloadOpen(open: Indexes, classes: map<string, ClassMeta>, done: set<string>,
                            dropped: set<string>, lot: Lot): Indexes
  {
    map id | id in open.Keys + lot.open.Keys + (set c | c in classes :: Fold(c))
             && ReloadIndex(open, classes, done, dropped, lot, id).Some? ::
      ReloadIndex(open, classes, done, dropped, lot, id).value
  }

  lemma ReloadDiskAt(disk: Disk, open: Indexes, classes: map<string, ClassMeta>, done: set<string>,
                     dropped: set<string>, lot: Lot, d: Dir)
    ensures Tag(ReloadDisk(disk, open, classes, done, dropped, lot), d) == ReloadTag(disk, open, classes, done, dropped, lot, d)
  {
    var owner := Owner(classes, d.id);
    if owner.Some? && d.shard in classes[owner.value].shards {
      assert d in Dirs(classes);
    }
  }

  lemma ReloadOpenAt(open: Indexes, classes: map<string, ClassMeta>, done: set<string>,
                     dropped: set<string>, lot: Lot, id: string)
    ensures At(ReloadOpen(open, classes, done, dropped, lot), id) == ReloadIndex(open, classes, done, dropped, lot, id)
  {
    var owner := Owner(classes, id);
    if owner.Some? {
      assert id in (set c | c in classes :: Fold(c));
    }
  }

  /** reloadDBFromSchema: open what the schema names, then drop the orphans the
      schema does not name again. */
  ghost function Reload(n: Node, lot: Lot): Node {
    n.(open := ReloadOpen(n.open, n.fsm.classes, n.fsm.classes.Keys, Dropped(n), lot),
       disk := ReloadDisk(n.disk, n.open, n.fsm.classes, n.fsm.classes.Keys, Dropped(n), lot),
       orphans := {},
       dbLoaded := true)
  }

  predicate ReloadDue(n: Node, index: nat) {
    n.toDB != 0 && !n.dbLoaded && index != 0 && index >= n.toDB
  }

  /** Apply's deferred part: reload once caught up, then publish the index. */
  ghost function Finish(n: Node, index: nat, lot: Lot): Node {
    (if ReloadDue(n, index) then Reload(n, lot) else n).(published := index)
  }

  ghost function ApplyEntry(h: Handlers, n: Node, e: Entry, index: nat, lot: Lot): Node {
    if e.kind.Command? then Finish(Effect(h, n, e.req, index), index, lot) else n
  }

  /** Restore with snapIndex the newest index in the snapshot store. Before raft
      is constructed the reload also recomputes toDB, from a re-read of the log
      that counts as 0 when it fails. */
  ghost function RestoreStep(n: Node, snap: Snapshot, snapIndex: nat, raftUp: bool, reread: nat, lot: Lot): Node {
    var m := n.(fsm := Install(n.fsm, snap),
                orphans := n.orphans + (n.fsm.classes.Keys - snap.schema.Keys));
    if m.toDB <= snapIndex
    then if raftUp then Reload(m, lot) else Reload(m, lot).(toDB := Max(snapIndex, reread))
    else m
  }

  function Fresh(disk: Disk, staged: map<string, set<string>>): Node {
    Node(Init, map[], disk, staged, {}, false, 0, 0)
  }

  /** What restoring the newest snapshot makes of a fresh node, given the last command
      the log holds. */
  ghost function OpenedFrom(disk: Disk, staged: map<string, set<string>>, snap: Option<Stored>, lastCommand: nat,
                            rereadFails: bool, lot: Lot): Node
  {
    var n := Fresh(disk, staged).(toDB := Max(SnapIndex(snap), lastCommand));
    if snap.Some?
    then RestoreStep(n, snap.value.content, snap.value.index, false, if rereadFails then 0 else lastCommand, lot)
    else n
  }

  /** Open as one step. */
  ghost function Opened(disk: Disk, staged: map<string, set<string>>, snap: Option<Stored>, lastCommand: nat,
                        rereadFails: bool, lot: Lot): Node
  {
    var m := OpenedFrom(disk, staged, snap, lastCommand, rereadFails, lot);
    m.(dbLoaded := m.dbLoaded || (m.toDB == 0 && SnapIndex(snap) == 0),
       published := SnapIndex(snap))
  }
}
