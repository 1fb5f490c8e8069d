/** The store as it is written: fields updated step by step. Every method is
    proved to compute the transition of module Node it stands for. */
module Store {
  import opened F = Fsm
  import opened Node
  import opened LogScan

  datatype Response = Response(version: nat, applied: bool)

  datatype Wait = Reached | TimedOut

  class Store {
    const h: Handlers
    const logStore: LogStore

    var fsm: State

    var open: Indexes
    var disk: Disk
    var staged: map<string, set<string>>
    var orphans: set<string>

    var dbLoaded: bool
    var lastAppliedIndexToDB: nat
    var lastAppliedIndex: nat
    var raftUp: bool
    var snapshotStore: Option<Stored>

    function View(): Node
      reads this
    {
      Node(fsm, open, disk, staged, orphans, dbLoaded, lastAppliedIndexToDB, lastAppliedIndex)
    }

    /** NewFSM on a work directory that survived earlier processes. */
    constructor (h: Handlers, logStore: LogStore, disk: Disk, staged: map<string, set<string>>, snapshotStore: Option<Stored>)
      ensures View() == Fresh(disk, staged) && !raftUp
      ensures this.h == h && this.logStore == logStore && this.snapshotStore == snapshotStore
    {
      this.h, this.logStore, this.disk, this.staged, this.snapshotStore := h, logStore, disk, staged, snapshotStore;
      fsm, open, orphans := Init, map[], {};
      dbLoaded, lastAppliedIndexToDB, lastAppliedIndex, raftUp := false, 0, 0, false;
    }

    method SetClusterID(id: string)
      modifies this`fsm
      ensures fsm == old(fsm).(clusterID := SetOnce(old(fsm.clusterID), id))
    {
      if fsm.clusterID == "" {
        fsm := fsm.(clusterID := id);
      }
    }

    /** UpdateIndex of one class of the schema: open a missing index, or bring the
        shards of an open one in line. Tenants it holds that the schema dropped lose
        their directories, shards of a single-tenant class are only shut down. */
    method UpdateIndex(c: string)
      requires c in fsm.classes
      modifies this`open, this`disk
      ensures open == OpenUpdated(old(open), fsm.classes, c)
      ensures disk == DiskUpdated(old(disk), old(open), fsm.classes, c)
    {
      var id, meta := Fold(c), fsm.classes[c];
      disk := WithShards(disk, id, HotBorn(meta));
      if id !in open {
        open := open[id := Index(c, Hot(meta))];
        return;
      }
      if meta.multiTenant {
        disk := WithoutShards(disk, id, open[id].shards - meta.shards.Keys);
      }
      open := open[id := Index(open[id].cls, Hot(meta))];
    }

    /** ReloadLocalDB, class by class in any order. */
    method ReloadLocalDB()
      modifies this`open, this`disk
      ensures Reloaded(old(disk), old(open), fsm.classes, fsm.classes.Keys, {}, disk, open)
    {
      var classes := fsm.classes;
      ghost var disk0, open0, done := disk, open, {};
      NothingDone(disk, open, classes);
      var todo := classes.Keys;
      while todo != {}
        invariant todo !! done && todo + done == classes.Keys
        invariant Reloaded(disk0, open0, classes, done, {}, disk, open)
        decreases todo
      {
        var c :| c in todo;
        OneMoreIndex(disk0, open0, classes, done, c, disk, open);
        UpdateIndex(c);
        todo := todo - {c};
        done := done + {c};
      }
      assert done == classes.Keys;
    }

    /** dropOrphanedClasses: remove the recorded classes one at a time, skipping any
        the schema names again. What is removed goes by the name up to case. */
    method DropOrphanedClasses(ghost disk0: Disk, ghost open0: Indexes)
      requires Reloaded(disk0, open0, fsm.classes, fsm.classes.Keys, {}, disk, open)
      modifies this`open, this`disk, this`orphans
      ensures orphans == {}
      ensures Reloaded(disk0, open0, fsm.classes, fsm.classes.Keys, Gone(old(orphans), {}, fsm.classes.Keys), disk, open)
    {
      var classes, todo := fsm.classes, orphans;
      ghost var all := orphans;
      orphans := {};
      assert Gone(all, all, classes.Keys) == {};
      while todo != {}
        invariant todo <= all && orphans == {}
        invariant Reloaded(disk0, open0, classes, classes.Keys, Gone(all, todo, classes.Keys), disk, open)
        decreases todo
      {
        var c :| c in todo;
        GoneGrows(all, todo, classes.Keys, c);
        if c !in classes {
          OneMoreDrop(disk0, open0, classes, Gone(all, todo, classes.Keys), Fold(c), disk, open);
          DropOrphanedClass(c);
        }
        todo := todo - {c};
      }
    }

    method DropOrphanedClass(c: string)
      modifies this`open, this`disk
      ensures open == old(open) - {Fold(c)} && disk == WithoutIndex(old(disk), Fold(c))
    {
      open := open - {Fold(c)};
      disk := WithoutIndex(disk, Fold(c));
    }

    method ReloadDB()
      modifies this`open, this`disk, this`orphans, this`dbLoaded
      ensures View() == Reload(old(View()), Lot(open, disk))
    {
      ReloadLocalDB();
      DropOrphanedClasses(old(disk), old(open));
      assert Gone(old(orphans), {}, fsm.classes.Keys) == Dropped(old(View()));
      dbLoaded := true;
    }

    /** reloadDBFromSchema: outside a running raft it also recomputes the index
        up to which replay must leave the database alone. reread is what reading
        the log again returns; a failed read is only logged. */
    method ReloadDBFromSchema(reread: Read)
      modifies this`open, this`disk, this`orphans, this`dbLoaded, this`lastAppliedIndexToDB
      ensures raftUp ==> View() == Reload(old(View()), Lot(open, disk))
      ensures !raftUp ==> View() == Reload(old(View()), Lot(open, disk)).(toDB := Max(SnapIndex(snapshotStore), OrZero(reread)))
    {
      ReloadDB();
      if raftUp {
        return;
      }
      var lastLogApplied := 0;
      if reread.Found? {
        lastLogApplied := reread.index;
      }
      lastAppliedIndexToDB := Max(SnapIndex(snapshotStore), lastLogApplied);
    }

    /** The store half. Without an open index, tenants are neither added nor deleted
        on disk, and a class keeps its directories. */
    method UpdateStore(r: Request, before: map<string, ClassMeta>)
      modifies this`open, this`disk
      ensures open == StoreOpen(old(open), before, fsm.classes, r)
      ensures disk == StoreDisk(old(open), old(disk), before, fsm.classes, r)
    {
      match r {
        case AddClass(c, _, _) => AddIndex(c);
        case RestoreClass(c, _, _) => AddIndex(c);
        case DeleteClass(c) => DeleteIndex(c);
        case AddTenants(c, _, _) => SwitchShards(Fold(c), Warmed(before, fsm.classes, c), {});
        case UpdateTenants(c, _, _) =>
          SwitchShards(Fold(c), Warmed(before, fsm.classes, c), Cooled(before, fsm.classes, c));
        case DeleteTenants(c, names) => DropShards(Fold(c), Lost(before, c, names));
        case _ =>
      }
    }

    /** The migrator's AddClass: an index that is open already is an error. */
    method AddIndex(c: string)
      modifies this`open, this`disk
      ensures open == OpenAdded(old(open), fsm.classes, c) && disk == DiskAdded(old(open), old(disk), fsm.classes, c)
    {
      if Fold(c) in open || c !in fsm.classes {
        return;
      }
      disk := WithShards(disk, Fold(c), HotBorn(fsm.classes[c]));
      open := open[Fold(c) := Index(c, Hot(fsm.classes[c]))];
    }

    method DeleteIndex(c: string)
      modifies this`open, this`disk
      ensures open == old(open) - {Fold(c)} && disk == DiskDeleted(old(open), old(disk), Fold(c))
    {
      if Fold(c) in open {
        disk := WithoutIndex(disk, Fold(c));
      }
      open := open - {Fold(c)};
    }

    /** NewTenants and updateTenants: load what became active, then shut down what
        became inactive. */
    method SwitchShards(id: string, loads: map<string, nat>, unloads: set<string>)
      modifies this`open, this`disk
      ensures open == OpenSwitched(old(open), id, loads, unloads) && disk == DiskLoaded(old(open), old(disk), id, loads)
    {
      if id in open {
        disk := WithShards(disk, id, loads);
        open := open[id := Index(open[id].cls, open[id].shards + loads.Keys)];
        open := open[id := Index(open[id].cls, open[id].shards - unloads)];
      }
    }

    method DropShards(id: string, shards: set<string>)
      modifies this`open, this`disk
      ensures open == OpenDropped(old(open), id, shards) && disk == DiskDropped(old(open), old(disk), id, shards)
    {
      if id in open {
        disk := WithoutShards(disk, id, shards);
        open := open[id := Index(open[id].cls, open[id].shards - shards)];
      }
    }

    /** RestoreClassDir: whatever the move comes to, nothing stays staged. */
    method RestoreClassDir(c: string, index: nat)
      modifies this`disk, this`staged
      ensures disk == Adopt(old(disk), old(staged), c, index) && staged == old(staged) - {c}
    {
      if c in staged {
        if !HasDir(disk, Fold(c)) {
          disk := WithShards(disk, Fold(c), Stamped(staged[c], index));
        }
        staged := staged - {c};
      }
    }

    /** Staged files first, then the schema, then the database unless the entry is a
        replay. */
    method Dispatch(r: Request, index: nat, schemaOnly: bool) returns (ok: bool)
      requires schemaOnly == CatchingUp(View(), index)
      modifies this`fsm, this`open, this`disk, this`staged, this`orphans
      ensures ok == Accepts(h, old(fsm), r, index)
      ensures View() == Effect(h, old(View()), r, index)
    {
      if r.RestoreClass? && !h.refuses(fsm, r, index) {
        RestoreClassDir(r.cls, index);
      }
      ok := Accepts(h, fsm, r, index);
      if !ok {
        return;
      }
      if schemaOnly && r.DeleteClass? && r.cls in fsm.classes {
        orphans := orphans + {r.cls};
      }
      var before := fsm.classes;
      fsm := F.Apply(h, fsm, r, index);
      if !schemaOnly {
        UpdateStore(r, before);
      }
    }

    /** Apply is called by raft for every committed entry, in order. */
    method Apply(e: Entry, index: nat) returns (ret: Response)
      requires raftUp
      modifies this
      ensures View() == ApplyEntry(h, old(View()), e, index, Lot(open, disk))
      ensures raftUp && snapshotStore == old(snapshotStore)
      ensures ret.version == index
      ensures e.kind.Command? ==> lastAppliedIndex == index
      ensures ret.applied <==> e.kind.Command? && Accepts(h, old(fsm), e.req, index)
    {
      if e.kind != Command {
        return Response(index, false);
      }
      var catchingUp := index != 0 && index <= lastAppliedIndexToDB;
      var ok := Dispatch(e.req, index, catchingUp);
      var dbReloadRequired := lastAppliedIndexToDB != 0 && !dbLoaded;
      if dbReloadRequired && index != 0 && index >= lastAppliedIndexToDB {
        ReloadDBFromSchema(Failed);
      }
      lastAppliedIndex := index;
      return Response(index, ok);
    }

    /** Persist writes the captured value, whatever the store holds by then. */
    method Persist(captured: Stored)
      modifies this`snapshotStore
      ensures snapshotStore == Some(if SnapIndex(old(snapshotStore)) <= captured.index
                                    then captured else old(snapshotStore).value)
    {
      if SnapIndex(snapshotStore) <= captured.index {
        snapshotStore := Some(captured);
      }
    }

    /** Restore overwrites the managers one after the other. */
    method RestoreManagers(snap: Snapshot)
      modifies this`fsm, this`orphans
      ensures fsm == Install(old(fsm), snap)
      ensures orphans == old(orphans) + (old(fsm).classes.Keys - snap.schema.Keys)
    {
      orphans := orphans + (fsm.classes.Keys - snap.schema.Keys);
      fsm := fsm.(classes := snap.schema);
      fsm := fsm.(aliases := OrElse(snap.aliases, fsm.aliases));
      fsm := fsm.(rbac := OrElse(snap.rbac, fsm.rbac));
      fsm := fsm.(tasks := OrElse(snap.tasks, fsm.tasks));
      fsm := fsm.(replication := OrElse(snap.replication, fsm.replication));
      fsm := fsm.(users := OrElse(snap.users, fsm.users));
      fsm := fsm.(namespaces := OrElse(snap.namespaces, fsm.namespaces));
      if snap.clusterID != "" {
        SetClusterID(snap.clusterID);
      }
    }

    method Restore(snap: Snapshot, reread: Read)
      modifies this
      ensures View() == RestoreStep(old(View()), snap, SnapIndex(old(snapshotStore)), old(raftUp), OrZero(reread),
                                    Lot(open, disk))
      ensures raftUp == old(raftUp) && snapshotStore == old(snapshotStore)
    {
      RestoreManagers(snap);
      var snapIndex := SnapIndex(snapshotStore);
      if lastAppliedIndexToDB <= snapIndex {
        ReloadDBFromSchema(reread);
      }
    }

    /** The log scan and the restore that raft runs while it is constructed. */
    method OpenDatabase(lastCommand: nat, rereadFails: bool)
      requires !raftUp && View() == Fresh(disk, staged)
      modifies this
      ensures View() == OpenedFrom(old(disk), old(staged), snapshotStore, lastCommand, rereadFails, Lot(open, disk))
      ensures snapshotStore == old(snapshotStore) && !raftUp
    {
      lastAppliedIndexToDB := Max(SnapIndex(snapshotStore), lastCommand);
      ghost var n := View();
      assert n == Fresh(disk, staged).(toDB := Max(SnapIndex(snapshotStore), lastCommand));
      if snapshotStore.Some? {
        Restore(snapshotStore.value.content, if rereadFails then Failed else Found(lastCommand));
      }
    }

    /** Open on a fresh store. An unreadable log panics, which leaves the node
        down; a failed second read does not. */
    method Open(rereadFails: bool) returns (ok: bool, lastCommand: nat)
      requires !raftUp && logStore.Valid() && View() == Fresh(disk, staged)
      modifies this
      ensures snapshotStore == old(snapshotStore) && raftUp == ok
      ensures ok <==> !Blocked(logStore.entries, logStore.first, logStore.last, logStore.unreadable)
      ensures ok ==> IsLastCommand(logStore.entries, lastCommand)
      ensures ok ==> View() == Opened(old(disk), old(staged), snapshotStore, lastCommand, rereadFails, Lot(open, disk))
      ensures !ok ==> View() == old(View())
    {
      var read := logStore.LastAppliedCommand();
      if read.Failed? {
        return false, 0;
      }
      lastCommand := read.index;
      OpenDatabase(lastCommand, rereadFails);
      raftUp := true;
      if lastAppliedIndexToDB == 0 && SnapIndex(snapshotStore) == 0 {
        dbLoaded := true;
      }
      lastAppliedIndex := SnapIndex(snapshotStore);
      ok := true;
    }

    /** WaitForAppliedIndex polls the published index; polls are the values it
        reads until the deadline. */
    method WaitForAppliedIndex(version: nat, polls: seq<nat>) returns (w: Wait)
      ensures w.Reached? <==> lastAppliedIndex >= version || exists k :: 0 <= k < |polls| && polls[k] >= version
    {
      if lastAppliedIndex >= version {
        return Reached;
      }
      var k := 0;
      while k < |polls|
        invariant 0 <= k <= |polls|
        invariant forall j :: 0 <= j < k ==> polls[j] < version
      {
        if polls[k] >= version {
          return Reached;
        }
        k := k + 1;
      }
      return TimedOut;
    }
  }

  function OrZero(r: Read): nat {
    if r.Found? then r.index else 0
  }

  /** The indexes of the recorded classes that have been looked at and are not in the
      schema. */
  function Gone(all: set<string>, todo: set<string>, present: set<string>): set<string> {
    set c | c in all && c !in todo && c !in present :: Fold(c)
  }

  lemma GoneGrows(all: set<string>, todo: set<string>, present: set<string>, c: string)
    requires c in todo && todo <= all
    ensures Gone(all, todo - {c}, present)
            == if c in present then Gone(all, todo, present) else Gone(all, todo, present) + {Fold(c)}
  {
    var now, was := Gone(all, todo - {c}, present), Gone(all, todo, present);
    forall id | id in now ensures id in was || (c !in present && id == Fold(c)) {
      var x :| x in all && x !in todo - {c} && x !in present && Fold(x) == id;
    }
    forall id | id in was ensures id in now {
      var x :| x in all && x !in todo && x !in present && Fold(x) == id;
      assert x !in todo - {c};
    }
  }

  /** Where a reload stands when the classes in done have been brought in line and
      the indexes in dropped removed. Of classes that share an index it says only
      that it is as it is. */
  ghost predicate Reloaded(disk0: Disk, open0: Indexes, classes: map<string, ClassMeta>, done: set<string>,
                           dropped: set<string>, disk: Disk, open: Indexes)
  {
    && open == ReloadOpen(open0, classes, done, dropped, Lot(open, disk))
    && disk == ReloadDisk(disk0, open0, classes, done, dropped, Lot(open, disk))
  }

  /** It is enough to look at each index and each directory. */
  lemma ReloadedAt(disk0: Disk, open0: Indexes, classes: map<string, ClassMeta>, done: set<string>,
                   dropped: set<string>, disk: Disk, open: Indexes)
    requires forall id :: At(open, id) == ReloadIndex(open0, classes, done, dropped, Lot(open, disk), id)
    requires forall d :: Tag(disk, d) == ReloadTag(disk0, open0, classes, done, dropped, Lot(open, disk), d)
    ensures Reloaded(disk0, open0, classes, done, dropped, disk, open)
  {
    var lot := Lot(open, disk);
    forall id ensures At(open, id) == At(ReloadOpen(open0, classes, done, dropped, lot), id) {
      ReloadOpenAt(open0, classes, done, dropped, lot, id);
    }
    SameOpen(open, ReloadOpen(open0, classes, done, dropped, lot));
    forall d ensures Tag(disk, d) == Tag(ReloadDisk(disk0, open0, classes, done, dropped, lot), d) {
      ReloadDiskAt(disk0, open0, classes, done, dropped, lot, d);
    }
    SameDisk(disk, ReloadDisk(disk0, open0, classes, done, dropped, lot));
  }

  lemma ReadReloaded(disk0: Disk, open0: Indexes, classes: map<string, ClassMeta>, done: set<string>,
                     dropped: set<string>, disk: Disk, open: Indexes, d: Dir)
    requires Reloaded(disk0, open0, classes, done, dropped, disk, open)
    ensures At(open, d.id) == ReloadIndex(open0, classes, done, dropped, Lot(open, disk), d.id)
    ensures Tag(disk, d) == ReloadTag(disk0, open0, classes, done, dropped, Lot(open, disk), d)
  {
    ReloadOpenAt(open0, classes, done, dropped, Lot(open, disk), d.id);
    ReloadDiskAt(disk0, open0, classes, done, dropped, Lot(open, disk), d);
  }

  lemma NothingDone(disk: Disk, open: Indexes, classes: map<string, ClassMeta>)
    ensures Reloaded(disk, open, classes, {}, {}, disk, open)
  {
    ReloadedAt(disk, open, classes, {}, {}, disk, open);
  }

  /** The database after UpdateIndex of one class. */
  function OpenUpdated(open: Indexes, classes: map<string, ClassMeta>, c: string): Indexes
    requires c in classes
  {
    var id := Fold(c);
    open[id := Index(if id in open then open[id].cls else c, Hot(classes[c]))]
  }

  function DiskUpdated(disk: Disk, open: Indexes, classes: map<string, ClassMeta>, c: string): Disk
    requires c in classes
  {
    var id, meta := Fold(c), classes[c];
    var loaded := WithShards(disk, id, HotBorn(meta));
    if id in open && meta.multiTenant then WithoutShards(loaded, id, open[id].shards - meta.shards.Keys) else loaded
  }

  lemma DiskUpdatedAt(disk: Disk, open: Indexes, classes: map<string, ClassMeta>, c: string, d: Dir)
    requires c in classes
    ensures Tag(DiskUpdated(disk, open, classes, c), d)
            == if d.id != Fold(c) then Tag(disk, d)
               else if Reconciled(open, classes[c], d) then None
               else if d in disk then Some(disk[d])
               else HotTag(classes[c], d.shard)
  {
    WithShardsAt(disk, Fold(c), HotBorn(classes[c]), d);
  }

  lemma OneMoreIndex(disk0: Disk, open0: Indexes, classes: map<string, ClassMeta>, done: set<string>, c: string,
                     disk: Disk, open: Indexes)
    requires c in classes && c !in done && Reloaded(disk0, open0, classes, done, {}, disk, open)
    ensures Reloaded(disk0, open0, classes, done + {c}, {}, DiskUpdated(disk, open, classes, c), OpenUpdated(open, classes, c))
  {
    var disk', open' := DiskUpdated(disk, open, classes, c), OpenUpdated(open, classes, c);
    forall d ensures Tag(disk', d) == ReloadTag(disk0, open0, classes, done + {c}, {}, Lot(open', disk'), d)
             ensures At(open', d.id) == ReloadIndex(open0, classes, done + {c}, {}, Lot(open', disk'), d.id)
    {
      OneMoreIndexAt(disk0, open0, classes, done, c, disk, open, d);
    }
    forall id ensures At(open', id) == ReloadIndex(open0, classes, done + {c}, {}, Lot(open', disk'), id) {
      assert Dir(id, "").id == id;
      OneMoreIndexAt(disk0, open0, classes, done, c, disk, open, Dir(id, ""));
    }
    ReloadedAt(disk0, open0, classes, done + {c}, {}, disk', open');
  }

  lemma OneMoreIndexAt(disk0: Disk, open0: Indexes, classes: map<string, ClassMeta>, done: set<string>, c: string,
                       disk: Disk, open: Indexes, d: Dir)
    requires c in classes && c !in done && Reloaded(disk0, open0, classes, done, {}, disk, open)
    ensures var disk', open' := DiskUpdated(disk, open, classes, c), OpenUpdated(open, classes, c);
            && Tag(disk', d) == ReloadTag(disk0, open0, classes, done + {c}, {}, Lot(open', disk'), d)
            && At(open', d.id) == ReloadIndex(open0, classes, done + {c}, {}, Lot(open', disk'), d.id)
  {
    if d.id != Fold(c) {
      OtherIndexKept(disk0, open0, classes, done, c, disk, open, d);
    } else if !Shared(classes, d.id) {
      OwnIndexDone(disk0, open0, classes, done, c, disk, open, d);
    }
  }

  lemma OtherIndexKept(disk0: Disk, open0: Indexes, classes: map<string, ClassMeta>, done: set<string>, c: string,
                       disk: Disk, open: Indexes, d: Dir)
    requires c in classes && Reloaded(disk0, open0, classes, done, {}, disk, open) && d.id != Fold(c)
    ensures var disk', open' := DiskUpdated(disk, open, classes, c), OpenUpdated(open, classes, c);
            && Tag(disk', d) == ReloadTag(disk0, open0, classes, done + {c}, {}, Lot(open', disk'), d)
            && At(open', d.id) == ReloadIndex(open0, classes, done + {c}, {}, Lot(open', disk'), d.id)
  {
    ReadReloaded(disk0, open0, classes, done, {}, disk, open, d);
    DiskUpdatedAt(disk, open, classes, c, d);
    DoneElsewhere(disk0, open0, classes, done, c, Lot(open, disk),
                  Lot(OpenUpdated(open, classes, c), DiskUpdated(disk, open, classes, c)), d);
  }

  lemma DoneElsewhere(disk0: Disk, open0: Indexes, classes: map<string, ClassMeta>, done: set<string>, c: string,
                      lot: Lot, lot': Lot, d: Dir)
    requires d.id != Fold(c) && Tag(lot.disk, d) == Tag(lot'.disk, d) && At(lot.open, d.id) == At(lot'.open, d.id)
    ensures ReloadTag(disk0, open0, classes, done + {c}, {}, lot', d) == ReloadTag(disk0, open0, classes, done, {}, lot, d)
    ensures ReloadIndex(open0, classes, done + {c}, {}, lot', d.id) == ReloadIndex(open0, classes, done, {}, lot, d.id)
  {
    var owner := Owner(classes, d.id);
    assert owner.Some? ==> owner.value != c;
  }

  lemma OwnIndexDone(disk0: Disk, open0: Indexes, classes: map<string, ClassMeta>, done: set<string>, c: string,
                     disk: Disk, open: Indexes, d: Dir)
    requires c in classes && c !in done && Reloaded(disk0, open0, classes, done, {}, disk, open)
    requires d.id == Fold(c) && !Shared(classes, d.id)
    ensures var disk', open' := DiskUpdated(disk, open, classes, c), OpenUpdated(open, classes, c);
            && Tag(disk', d) == ReloadTag(disk0, open0, classes, done + {c}, {}, Lot(open', disk'), d)
            && At(open', d.id) == ReloadIndex(open0, classes, done + {c}, {}, Lot(open', disk'), d.id)
  {
    ReadReloaded(disk0, open0, classes, done, {}, disk, open, d);
    OwnerIs(classes, c);
    OwnIndexUpdated(disk0, open0, classes, c, disk, open, d);
  }

  lemma OwnIndexUpdated(disk0: Disk, open0: Indexes, classes: map<string, ClassMeta>, c: string,
                        disk: Disk, open: Indexes, d: Dir)
    requires c in classes && d.id == Fold(c) && At(open, d.id) == At(open0, d.id) && Tag(disk, d) == Tag(disk0, d)
    ensures Tag(DiskUpdated(disk, open, classes, c), d)
            == if Reconciled(open0, classes[c], d) then None
               else if d in disk0 then Some(disk0[d])
               else HotTag(classes[c], d.shard)
    ensures At(OpenUpdated(open, classes, c), d.id)
            == Some(Index(if d.id in open0 then open0[d.id].cls else c, Hot(classes[c])))
  {
    DiskUpdatedAt(disk, open, classes, c, d);
  }

  lemma OneMoreDrop(disk0: Disk, open0: Indexes, classes: map<string, ClassMeta>, gone: set<string>, id: string,
                    disk: Disk, open: Indexes)
    requires Reloaded(disk0, open0, classes, classes.Keys, gone, disk, open)
    ensures Reloaded(disk0, open0, classes, classes.Keys, gone + {id}, WithoutIndex(disk, id), open - {id})
  {
    var disk', open' := WithoutIndex(disk, id), open - {id};
    forall d ensures Tag(disk', d) == ReloadTag(disk0, open0, classes, classes.Keys, gone + {id}, Lot(open', disk'), d) {
      ReadReloaded(disk0, open0, classes, classes.Keys, gone, disk, open, d);
    }
    forall x ensures At(open', x) == ReloadIndex(open0, classes, classes.Keys, gone + {id}, Lot(open', disk'), x) {
      ReadReloaded(disk0, open0, classes, classes.Keys, gone, disk, open, Dir(x, ""));
    }
    ReloadedAt(disk0, open0, classes, classes.Keys, gone + {id}, disk', open');
  }

  /** Where no names differ only in case, the order of a reload does not matter. */
  lemma ReloadIsOrderFree(n: Node, a: Lot, b: Lot)
    requires forall id :: !Shared(n.fsm.classes, id)
    ensures Reload(n, a) == Reload(n, b)
  {
    var classes, gone := n.fsm.classes, Dropped(n);
    forall id ensures At(Reload(n, a).open, id) == At(Reload(n, b).open, id) {
      ReloadOpenAt(n.open, classes, classes.Keys, gone, a, id);
      ReloadOpenAt(n.open, classes, classes.Keys, gone, b, id);
    }
    SameOpen(Reload(n, a).open, Reload(n, b).open);
    forall d ensures Tag(Reload(n, a).disk, d) == Tag(Reload(n, b).disk, d) {
      ReloadDiskAt(n.disk, n.open, classes, classes.Keys, gone, a, d);
      ReloadDiskAt(n.disk, n.open, classes, classes.Keys, gone, b, d);
    }
    SameDisk(Reload(n, a).disk, Reload(n, b).disk);
  }
}
