/** Whole runs of a node: committed entries arrive, the log is replicated,
    overwritten past what was applied, and compacted; snapshots are captured,
    persisted and received; the process crashes and reopens at any point. */
module NodeRun {
  import opened Fsm
  import opened Node
  import opened LogScan
  import opened Snapshots
  import opened CatchUp
  import opened InStep

  /** committed is the cluster's log; log, snap, node.disk and node.staged survive a
      crash. delivered is raft's applied index; inFlight: the command after it has
      run but Apply has not returned. The rest is history. actions: the entries
      whose store half ran. moves: the entries that moved staged files, moved: the
      classes moved for, stagings: the classes staged, each as often as it happened.
      peak: the greatest index ever applied or restored. touched: a store half ran
      since the last open. session: what the process has done since then. */
  datatype Machine = Machine(
    committed: seq<Entry>,
    log: map<nat, Entry>,
    snap: Option<Stored>,
    up: bool,
    node: Node,
    delivered: nat,
    inFlight: bool,
    captured: Option<Stored>,
    restoring: bool,
    actions: seq<nat>,
    moves: multiset<nat>,
    moved: multiset<string>,
    stagings: multiset<string>,
    peak: nat,
    touched: bool,
    session: Session)

  /** The snapshot a process opened on, the directories it found, where installs took
      it from (see Recorded), and whether it moved staged files. */
  datatype Session = Session(base: nat, found: Disk, skips: map<nat, nat>, adopted: bool)

  const Blank: Machine :=
    Machine([], map[], None, false, Fresh(map[], map[]), 0, false, None, false, [], multiset{}, multiset{}, multiset{}, 0, false,
            Session(0, map[], map[], false))

  datatype Step =
    | Commit(entries: seq<Entry>)
    | Replicate(log: map<nat, Entry>)
    | Compact(upTo: nat)
    | Stage(cls: string, shards: set<string>)
    | Skip
    | Perform
    | Complete(lot: Lot)
    | CaptureCut
    | PersistCut
    | Receive(index: nat)
    | InstallCut(lot: Lot)
    | Crash
    | Reopen(lastCommand: nat, rereadFails: bool, lot: Lot)

  /** raft delivers the next committed entry from its own log. */
  predicate Deliverable(m: Machine) {
    && m.up && !m.inFlight && !m.restoring
    && m.delivered < |m.committed|
    && m.delivered + 1 in m.log
    && m.log[m.delivered + 1] == m.committed[m.delivered]
  }

  /** What raft promises about each step: it never rewrites an applied entry,
      drops only entries a stored snapshot covers, never installs a snapshot older
      than what was applied, and takes none of nothing. */
  ghost predicate Allowed(h: Handlers, m: Machine, step: Step) {
    match step
    case Commit(_) => true
    case Replicate(log) =>
      forall i :: 0 <= i <= m.peak ==> (i in log <==> i in m.log) && (i in log ==> log[i] == m.log[i])
    case Compact(upTo) => upTo <= SnapIndex(m.snap)
    case Stage(_, _) => m.up
    case Skip => Deliverable(m) && !m.committed[m.delivered].kind.Command?
    case Perform => Deliverable(m) && m.committed[m.delivered].kind.Command?
    case Complete(_) => m.up && m.inFlight
    case CaptureCut => m.up && !m.inFlight && !m.restoring && m.delivered > 0
    case PersistCut => m.up && m.captured.Some?
    case Receive(index) =>
      m.up && !m.inFlight && !m.restoring && 0 < index && m.delivered <= index <= |m.committed| && SnapIndex(m.snap) <= index
    case InstallCut(_) => m.up && m.restoring && m.snap.Some?
    case Crash => m.up
    case Reopen(lastCommand, _, _) => !m.up && IsLastCommand(m.log, lastCommand)
  }

  ghost function Do(h: Handlers, m: Machine, step: Step): Machine
    requires Allowed(h, m, step)
  {
    match step
    case Commit(entries) => m.(committed := m.committed + entries)
    case Replicate(log) => m.(log := log)
    case Compact(upTo) => m.(log := map i | i in m.log && i > upTo :: m.log[i])
    case Skip => m.(delivered := m.delivered + 1, peak := Max(m.peak, m.delivered + 1))
    case Stage(c, shards) =>
      m.(node := m.node.(staged := m.node.staged[c := shards]), stagings := m.stagings + multiset{c})
    case Perform =>
      var i, r := m.delivered + 1, m.committed[m.delivered].req;
      var touches := TouchesDb(h, m.node, r, i);
      m.(node := Effect(h, m.node, r, i), inFlight := true, peak := Max(m.peak, i),
         actions := if touches then m.actions + [i] else m.actions,
         moves := if Moves(h, m.node, r, i) then m.moves + multiset{i} else m.moves,
         moved := if Moves(h, m.node, r, i) then m.moved + multiset{r.cls} else m.moved,
         touched := m.touched || touches,
         session := m.session.(adopted := m.session.adopted || Moves(h, m.node, r, i)))
    case Complete(lot) =>
      m.(node := Finish(m.node, m.delivered + 1, lot), delivered := m.delivered + 1, inFlight := false)
    case CaptureCut => m.(captured := Some(Stored(m.delivered, Capture(m.node.fsm))))
    case PersistCut =>
      m.(snap := if SnapIndex(m.snap) <= m.captured.value.index then m.captured else m.snap, captured := None)
    case Receive(index) =>
      m.(snap := Some(Stored(index, Capture(StateAt(h, m.committed, index)))), restoring := true)
    case InstallCut(lot) =>
      var s := SnapIndex(m.snap);
      m.(node := RestoreStep(m.node, m.snap.value.content, s, true, 0, lot),
         delivered := s, peak := Max(m.peak, s), restoring := false,
         session := if s == m.delivered then m.session else m.session.(skips := m.session.skips[s := m.delivered]))
    case Crash =>
      m.(up := false, node := Fresh(m.node.disk, m.node.staged), delivered := 0, inFlight := false, captured := None,
         restoring := false, touched := false)
    case Reopen(lastCommand, rereadFails, lot) =>
      m.(up := true, node := Opened(m.node.disk, m.node.staged, m.snap, lastCommand, rereadFails, lot),
         delivered := SnapIndex(m.snap), peak := Max(m.peak, SnapIndex(m.snap)),
         session := Session(SnapIndex(m.snap), m.node.disk, map[], false))
  }

  /** The entry moves staged files: something is staged for its class. */
  predicate Moves(h: Handlers, n: Node, r: Request, i: nat) {
    Restores(h, n.fsm, r, i) && r.cls in n.staged
  }

  /** How much of the committed log the node's state holds right now. */
  function Absorbed(m: Machine): nat {
    if m.inFlight then m.delivered + 1 else m.delivered
  }

  predicate Increasing(xs: seq<nat>) {
    forall i, j :: 0 <= i < j < |xs| ==> xs[i] < xs[j]
  }

  ghost predicate IsCut(h: Handlers, m: Machine, c: Stored) {
    0 < c.index <= |m.committed| && c.content == Capture(StateAt(h, m.committed, c.index))
  }

  /** What survives crashes. */
  ghost predicate DurableInv(h: Handlers, m: Machine) {
    && m.peak <= |m.committed|
    && (m.snap.Some? ==> IsCut(h, m, m.snap.value))
    && (forall i :: 1 <= i <= m.peak ==>
          i <= SnapIndex(m.snap) || (i in m.log && m.log[i] == m.committed[i - 1]))
    && Increasing(m.actions)
    && (forall a :: a in m.actions ==> 1 <= a <= m.peak && m.committed[a - 1].kind.Command?)
  }

  /** A running node's state is the fold of a log prefix, and what it publishes
      lies inside that prefix. */
  ghost predicate SessionInv(h: Handlers, m: Machine) {
    m.up ==>
      && Absorbed(m) <= m.peak <= |m.committed|
      && m.node.fsm == StateAt(h, m.committed, Absorbed(m))
      && m.node.published <= m.delivered
      && (m.captured.Some? ==> IsCut(h, m, m.captured.value) && m.captured.value.index <= m.delivered)
      && (m.restoring ==> !m.inFlight && m.snap.Some? && m.delivered <= SnapIndex(m.snap))
      && (forall a :: a in m.actions ==> a <= m.node.toDB || a <= Absorbed(m))
  }

  /** The last entry replayed, or skipped by an install, since the process opened. */
  function Replayed(m: Machine): nat {
    if m.inFlight && m.delivered + 1 <= m.node.toDB then m.delivered + 1 else m.delivered
  }

  /** While catching up: the orphans are those of the entries passed, and unless staged
      files were moved, the disk is as the process found it, but for what the one
      live command whose Apply is about to load the database may have opened. */
  ghost predicate CatchInv(h: Handlers, m: Machine) {
    && m.session.base <= m.delivered && Replayed(m) <= |m.committed|
    && (forall s :: s in m.session.skips ==> s <= m.delivered)
    && m.node.orphans == Recorded(h, m.committed, m.session.skips, m.session.base, Replayed(m))
    && (m.touched || m.node.open == map[])
    && (!m.session.adopted ==> AsFound(m.node.disk, m.node.open, m.node.fsm.classes, m.session.found))
    && OpensNamed(m.node.open, m.node.fsm.classes)
  }

  /** Every open index is open for a class the schema has, with shards it has. */
  predicate OpensNamed(open: Indexes, classes: map<string, ClassMeta>) {
    forall id :: id in open ==>
      open[id].cls in classes && Fold(open[id].cls) == id && open[id].shards <= classes[open[id].cls].shards.Keys
  }

  predicate FoundOrOpened(disk: Disk, open: Indexes, classes: map<string, ClassMeta>, found: Disk, d: Dir) {
    || Tag(disk, d) == Tag(found, d)
    || (d !in found && d.id in open && open[d.id].cls in classes && Tag(disk, d) == HotTag(classes[open[d.id].cls], d.shard))
  }

  ghost predicate AsFound(disk: Disk, open: Indexes, classes: map<string, ClassMeta>, found: Disk) {
    forall d :: FoundOrOpened(disk, open, classes, found, d)
  }

  lemma NothingOpened(disk: Disk, open: Indexes, classes: map<string, ClassMeta>, found: Disk)
    requires open == map[]
    ensures AsFound(disk, open, classes, found) <==> disk == found
  {
    if AsFound(disk, open, classes, found) {
      forall d ensures Tag(disk, d) == Tag(found, d) {
        assert FoundOrOpened(disk, open, classes, found, d);
      }
      SameDisk(disk, found);
    }
  }

  ghost predicate DbInv(h: Handlers, m: Machine) {
    m.up ==>
      if m.node.dbLoaded then m.node.toDB <= m.delivered && m.node.orphans == {}
      else m.node.toDB != 0 && (m.touched <==> Untimely(h, m)) && CatchInv(h, m)
  }

  /** A command past the boundary is under way. */
  ghost predicate Untimely(h: Handlers, m: Machine) {
    && m.inFlight && m.delivered + 1 > m.node.toDB
    && m.delivered + 1 <= |m.committed| && Takes(h, m.committed, m.delivered + 1)
  }

  predicate DownInv(m: Machine) {
    !m.up ==> !m.inFlight && !m.restoring && m.captured.None? && !m.touched
  }

  ghost predicate Inv(h: Handlers, m: Machine) {
    DurableInv(h, m) && SessionInv(h, m) && DbInv(h, m) && DownInv(m)
  }

  lemma CommitKeepsInv(h: Handlers, m: Machine, entries: seq<Entry>)
    requires Inv(h, m)
    ensures Inv(h, Do(h, m, Commit(entries)))
  {
    var m' := Do(h, m, Commit(entries));
    forall n: nat | n <= |m.committed| ensures StateAt(h, m'.committed, n) == StateAt(h, m.committed, n) {
      assert m'.committed[..n] == m.committed[..n];
      PrefixDeterminesState(h, m'.committed, m.committed, n);
    }
    if m.up && !m.node.dbLoaded {
      RecordedPrefix(h, m.committed, m'.committed, m.session.skips, m.session.base, Replayed(m));
      CommitKeepsUntimely(h, m, entries);
    }
  }

  lemma CommitKeepsUntimely(h: Handlers, m: Machine, entries: seq<Entry>)
    requires Inv(h, m) && m.up
    ensures Untimely(h, Do(h, m, Commit(entries))) <==> Untimely(h, m)
  {
    var m' := Do(h, m, Commit(entries));
    assert m'.committed[..m.delivered] == m.committed[..m.delivered];
    PrefixDeterminesState(h, m'.committed, m.committed, m.delivered);
  }

  lemma ReplicateKeepsInv(h: Handlers, m: Machine, log: map<nat, Entry>)
    requires Inv(h, m) && Allowed(h, m, Replicate(log))
    ensures Inv(h, Do(h, m, Replicate(log)))
  {
  }

  lemma CompactKeepsInv(h: Handlers, m: Machine, upTo: nat)
    requires Inv(h, m) && Allowed(h, m, Compact(upTo))
    ensures Inv(h, Do(h, m, Compact(upTo)))
  {
  }

  lemma CrashKeepsInv(h: Handlers, m: Machine)
    requires Inv(h, m) && Allowed(h, m, Crash)
    ensures Inv(h, Do(h, m, Crash))
  {
  }

  lemma StageKeepsInv(h: Handlers, m: Machine, c: string, shards: set<string>)
    requires Inv(h, m) && Allowed(h, m, Stage(c, shards))
    ensures Inv(h, Do(h, m, Stage(c, shards)))
  {
  }

  lemma SkipKeepsInv(h: Handlers, m: Machine)
    requires Inv(h, m) && Allowed(h, m, Skip)
    ensures Inv(h, Do(h, m, Skip))
  {
  }

  /** The next command is above everything whose store half already ran. */
  lemma LiveEntryIsNew(h: Handlers, m: Machine)
    requires Inv(h, m) && Allowed(h, m, Perform)
    requires TouchesDb(h, m.node, m.committed[m.delivered].req, m.delivered + 1)
    ensures forall a :: a in m.actions ==> a < m.delivered + 1
  {
  }

  lemma PerformKeepsDurable(h: Handlers, m: Machine)
    requires Inv(h, m) && Allowed(h, m, Perform)
    ensures DurableInv(h, Do(h, m, Perform))
  {
    var i := m.delivered + 1;
    if TouchesDb(h, m.node, m.committed[m.delivered].req, i) {
      LiveEntryIsNew(h, m);
      AppendIncreasing(m.actions, i);
      DurableGrows(h, m, i, m.actions + [i]);
    } else {
      DurableGrows(h, m, i, m.actions);
    }
  }

  /** What survives, once entry i is under way. */
  lemma DurableGrows(h: Handlers, m: Machine, i: nat, actions: seq<nat>)
    requires DurableInv(h, m) && 1 <= i <= |m.committed| && m.committed[i - 1].kind.Command? && Increasing(actions)
    requires i in m.log && m.log[i] == m.committed[i - 1] && i <= m.peak + 1
    requires forall a :: a in actions ==> a in m.actions || a == i
    ensures DurableInv(h, m.(peak := Max(m.peak, i), actions := actions))
  {
  }

  lemma AppendIncreasing(xs: seq<nat>, i: nat)
    requires Increasing(xs) && forall a :: a in xs ==> a < i
    ensures Increasing(xs + [i])
  {
    forall j, k | 0 <= j < k < |xs + [i]| ensures (xs + [i])[j] < (xs + [i])[k] {
      assert (xs + [i])[j] == xs[j] && xs[j] in xs;
    }
  }

  lemma PerformKeepsSession(h: Handlers, m: Machine)
    requires Inv(h, m) && Allowed(h, m, Perform)
    ensures SessionInv(h, Do(h, m, Perform))
  {
  }

  lemma PerformKeepsDb(h: Handlers, m: Machine)
    requires Inv(h, m) && Allowed(h, m, Perform)
    ensures DbInv(h, Do(h, m, Perform))
  {
    var r, i := m.committed[m.delivered].req, m.delivered + 1;
    assert Takes(h, m.committed, i) <==> Accepts(h, m.node.fsm, r, i);
    if !m.node.dbLoaded {
      PerformKeepsCatch(h, m);
    }
  }

  lemma PerformKeepsCatch(h: Handlers, m: Machine)
    requires Inv(h, m) && Allowed(h, m, Perform) && !m.node.dbLoaded
    ensures CatchInv(h, Do(h, m, Perform))
  {
    var r, i, m' := m.committed[m.delivered].req, m.delivered + 1, Do(h, m, Perform);
    assert i !in m.session.skips;
    if i <= m.node.toDB {
      assert m'.node.orphans == Recorded(h, m.committed, m.session.skips, m.session.base, i);
    }
    NothingOpened(m.node.disk, m.node.open, m.node.fsm.classes, m.session.found);
    if !m'.session.adopted {
      PerformKeepsFound(h, m.node, r, i);
    }
    OpensOne(h, m.node, r, i);
  }

  /** A command on a database that is not open creates at most the directories of the
      class it opens. */
  lemma PerformKeepsFound(h: Handlers, n: Node, r: Request, i: nat)
    requires n.open == map[] && !Moves(h, n, r, i)
    ensures var n' := Effect(h, n, r, i); AsFound(n'.disk, n'.open, n'.fsm.classes, n.disk)
  {
    var n' := Effect(h, n, r, i);
    assert Moved(h, n, r, i) == n.disk;
    if TouchesDb(h, n, r, i) && (r.AddClass? || r.RestoreClass?) {
      OpeningKeepsFound(n.disk, n'.fsm.classes, r.cls);
    } else {
      assert n'.disk == n.disk;
    }
  }

  lemma OpeningKeepsFound(disk: Disk, classes: map<string, ClassMeta>, c: string)
    ensures AsFound(DiskAdded(map[], disk, classes, c), OpenAdded(map[], classes, c), classes, disk)
  {
    if c in classes {
      forall d ensures FoundOrOpened(DiskAdded(map[], disk, classes, c), OpenAdded(map[], classes, c), classes, disk, d) {
        WithShardsAt(disk, Fold(c), HotBorn(classes[c]), d);
      }
    }
  }

  lemma OpensOne(h: Handlers, n: Node, r: Request, i: nat)
    requires n.open == map[]
    ensures var n' := Effect(h, n, r, i); OpensNamed(n'.open, n'.fsm.classes)
  {
  }

  lemma CompleteKeepsInv(h: Handlers, m: Machine, lot: Lot)
    requires Inv(h, m) && Allowed(h, m, Complete(lot))
    ensures Inv(h, Do(h, m, Complete(lot)))
  {
  }

  lemma CaptureKeepsInv(h: Handlers, m: Machine)
    requires Inv(h, m) && Allowed(h, m, CaptureCut)
    ensures Inv(h, Do(h, m, CaptureCut))
  {
  }

  lemma PersistKeepsInv(h: Handlers, m: Machine)
    requires Inv(h, m) && Allowed(h, m, PersistCut)
    ensures Inv(h, Do(h, m, PersistCut))
  {
    PersistKeepsDurable(h, m);
  }

  lemma PersistKeepsDurable(h: Handlers, m: Machine)
    requires Inv(h, m) && Allowed(h, m, PersistCut)
    ensures DurableInv(h, Do(h, m, PersistCut))
  {
  }

  lemma ReceiveKeepsInv(h: Handlers, m: Machine, index: nat)
    requires Inv(h, m) && Allowed(h, m, Receive(index))
    ensures Inv(h, Do(h, m, Receive(index)))
  {
  }

  lemma InstallKeepsInv(h: Handlers, m: Machine, lot: Lot)
    requires Inv(h, m) && Allowed(h, m, InstallCut(lot))
    ensures Inv(h, Do(h, m, InstallCut(lot)))
  {
    InstallReachesCut(h, m.committed, m.delivered, SnapIndex(m.snap));
    InstallKeepsSession(h, m, lot);
    InstallKeepsDb(h, m, lot);
  }

  lemma InstallKeepsSession(h: Handlers, m: Machine, lot: Lot)
    requires Inv(h, m) && Allowed(h, m, InstallCut(lot))
    requires Install(m.node.fsm, m.snap.value.content) == StateAt(h, m.committed, SnapIndex(m.snap))
    ensures DurableInv(h, Do(h, m, InstallCut(lot))) && SessionInv(h, Do(h, m, InstallCut(lot)))
  {
  }

  lemma InstallKeepsDb(h: Handlers, m: Machine, lot: Lot)
    requires Inv(h, m) && Allowed(h, m, InstallCut(lot))
    requires Install(m.node.fsm, m.snap.value.content) == StateAt(h, m.committed, SnapIndex(m.snap))
    ensures DbInv(h, Do(h, m, InstallCut(lot)))
  {
    var s := SnapIndex(m.snap);
    if !m.node.dbLoaded {
      if m.delivered < s {
        SkipsAhead(h, m.committed, m.session.skips, m.session.base, m.delivered, s, m.delivered);
      }
      NothingOpened(m.node.disk, m.node.open, m.node.fsm.classes, m.session.found);
      NothingOpened(m.node.disk, m.node.open, StateAt(h, m.committed, s).classes, m.session.found);
    }
  }

  /** Everything whose store half ever ran is at or below the boundary the next
      open computes, so its replay leaves the database alone; a failed second
      read of the log cannot lower that boundary. */
  lemma ReopenCoversActions(h: Handlers, m: Machine, lastCommand: nat, rereadFails: bool, lot: Lot)
    requires Inv(h, m) && Allowed(h, m, Reopen(lastCommand, rereadFails, lot))
    ensures Opened(m.node.disk, m.node.staged, m.snap, lastCommand, rereadFails, lot).toDB == Max(SnapIndex(m.snap), lastCommand)
    ensures forall a :: a in m.actions ==> a <= Max(SnapIndex(m.snap), lastCommand)
  {
    forall a | a in m.actions ensures a <= Max(SnapIndex(m.snap), lastCommand) {
      assert a <= SnapIndex(m.snap) || (a in m.log && m.log[a].kind.Command?);
    }
  }

  lemma ReopenKeepsInv(h: Handlers, m: Machine, lastCommand: nat, rereadFails: bool, lot: Lot)
    requires Inv(h, m) && Allowed(h, m, Reopen(lastCommand, rereadFails, lot))
    ensures Inv(h, Do(h, m, Reopen(lastCommand, rereadFails, lot)))
  {
    ReopenCoversActions(h, m, lastCommand, rereadFails, lot);
    if m.snap.Some? {
      InstallReachesCut(h, m.committed, 0, SnapIndex(m.snap));
    }
  }

  lemma StepKeepsInv(h: Handlers, m: Machine, step: Step)
    requires Inv(h, m) && Allowed(h, m, step)
    ensures Inv(h, Do(h, m, step))
  {
    match step {
      case Commit(entries) => CommitKeepsInv(h, m, entries);
      case Skip => SkipKeepsInv(h, m);
      case Perform =>
        PerformKeepsDurable(h, m);
        PerformKeepsSession(h, m);
        PerformKeepsDb(h, m);
      case Complete(lot) => CompleteKeepsInv(h, m, lot);
      case InstallCut(lot) => InstallKeepsInv(h, m, lot);
      case Reopen(lastCommand, rereadFails, lot) => ReopenKeepsInv(h, m, lastCommand, rereadFails, lot);
      case CaptureCut => CaptureKeepsInv(h, m);
      case PersistCut => PersistKeepsInv(h, m);
      case Receive(index) => ReceiveKeepsInv(h, m, index);
      case Replicate(log) => ReplicateKeepsInv(h, m, log);
      case Compact(upTo) => CompactKeepsInv(h, m, upTo);
      case Crash => CrashKeepsInv(h, m);
      case Stage(c, shards) => StageKeepsInv(h, m, c, shards);
    }
  }

  /** run[k] is the machine before steps[k]; a run starts on an empty node. */
  ghost predicate IsRun(h: Handlers, run: seq<Machine>, steps: seq<Step>) {
    && |run| == |steps| + 1
    && run[0] == Blank
    && forall k :: 0 <= k < |steps| ==> Allowed(h, run[k], steps[k]) && run[k + 1] == Do(h, run[k], steps[k])
  }

  lemma {:induction false} RunKeepsInv(h: Handlers, run: seq<Machine>, steps: seq<Step>, k: nat)
    requires IsRun(h, run, steps) && k < |run|
    ensures Inv(h, run[k])
  {
    if k > 0 {
      RunKeepsInv(h, run, steps, k - 1);
      StepKeepsInv(h, run[k - 1], steps[k - 1]);
    }
  }

  lemma ActionsGrow(h: Handlers, m: Machine, step: Step)
    requires Inv(h, m) && Allowed(h, m, step)
    ensures var m' := Do(h, m, step);
            && m.actions <= m'.actions
            && (m'.actions != m.actions ==>
                  step.Perform? && m.delivered + 1 !in m.actions && m'.actions == m.actions + [m.delivered + 1])
  {
    if step.Perform? && TouchesDb(h, m.node, m.committed[m.delivered].req, m.delivered + 1) {
      LiveEntryIsNew(h, m);
    }
  }

  /** Across any number of crashes and reopens the store half of a log entry runs
      at most once: when it runs, it never ran before, and every open puts its
      replay at or below the schema-only boundary. */
  lemma DbActionRunsAtMostOnce(h: Handlers, run: seq<Machine>, steps: seq<Step>, k: nat)
    requires IsRun(h, run, steps) && k < |steps|
    ensures Increasing(run[k + 1].actions) && run[k].actions <= run[k + 1].actions
    ensures run[k + 1].actions != run[k].actions ==>
              steps[k].Perform? && run[k].delivered + 1 !in run[k].actions
              && run[k + 1].actions == run[k].actions + [run[k].delivered + 1]
    ensures steps[k].Reopen? ==> forall a :: a in run[k].actions ==> CatchingUp(run[k + 1].node, a)
  {
    RunKeepsInv(h, run, steps, k);
    RunKeepsInv(h, run, steps, k + 1);
    ActionsGrow(h, run[k], steps[k]);
    if steps[k].Reopen? {
      ReopenCoversActions(h, run[k], steps[k].lastCommand, steps[k].rereadFails, steps[k].lot);
    }
  }

  /** A cut that was captured, and a snapshot that was stored, is the fold of exactly
      the entries its index counts, however long after the capture it is looked at. */
  lemma CutIsFold(h: Handlers, run: seq<Machine>, steps: seq<Step>, k: nat)
    requires IsRun(h, run, steps) && k < |run|
    ensures run[k].captured.Some? ==> IsCut(h, run[k], run[k].captured.value)
    ensures run[k].snap.Some? ==> IsCut(h, run[k], run[k].snap.value)
  {
    RunKeepsInv(h, run, steps, k);
  }

  /** Replay leaves the disk and the staging area alone exactly when the entry does
      not restore a class that has files staged: the move of staged files is not
      held back while catching up. */
  lemma ReplayLeavesDiskAloneIff(h: Handlers, n: Node, r: Request, i: nat)
    requires CatchingUp(n, i)
    ensures Effect(h, n, r, i).disk == n.disk && Effect(h, n, r, i).staged == n.staged <==> !Moves(h, n, r, i)
  {
    if Moves(h, n, r, i) {
      assert r.cls !in Effect(h, n, r, i).staged;
    }
  }

  /** Files are moved no more often than they are staged. */
  ghost predicate MovesInv(m: Machine) {
    forall c :: m.moved[c] + (if c in m.node.staged then 1 else 0) <= m.stagings[c]
  }

  lemma StepKeepsMoves(h: Handlers, m: Machine, step: Step)
    requires Allowed(h, m, step) && MovesInv(m)
    ensures MovesInv(Do(h, m, step))
  {
    var m' := Do(h, m, step);
    forall c ensures m'.moved[c] + (if c in m'.node.staged then 1 else 0) <= m'.stagings[c] {
      assert m.moved[c] + (if c in m.node.staged then 1 else 0) <= m.stagings[c];
    }
  }

  /** Over every run each staging of a class is moved into place at most once, but
      which entry does it is not said: one entry can move files more than once. */
  lemma {:induction false} MovesBoundedByStagings(h: Handlers, run: seq<Machine>, steps: seq<Step>, k: nat, c: string)
    requires IsRun(h, run, steps) && k < |run|
    ensures run[k].moved[c] <= run[k].stagings[c] && MovesInv(run[k])
  {
    if k > 0 {
      MovesBoundedByStagings(h, run, steps, k - 1, c);
      StepKeepsMoves(h, run[k - 1], steps[k - 1]);
    }
    assert run[k].moved[c] + (if c in run[k].node.staged then 1 else 0) <= run[k].stagings[c];
  }

  /** At every point of every run: before the database is loaded a store half has run
      since open exactly while an accepted command past the boundary is under way,
      and otherwise nothing is open. */
  lemma UnloadedDbIsTouchedIff(h: Handlers, run: seq<Machine>, steps: seq<Step>, k: nat)
    requires IsRun(h, run, steps) && k < |run| && run[k].up && !run[k].node.dbLoaded
    ensures run[k].touched <==> Untimely(h, run[k])
    ensures !run[k].touched ==> run[k].node.open == map[]
  {
    RunKeepsInv(h, run, steps, k);
  }

  /** Read your writes: once a node publishes an index that reaches version, its
      state is the fold of a committed prefix at least that long. */
  lemma PublishedIndexIsAbsorbed(h: Handlers, run: seq<Machine>, steps: seq<Step>, k: nat, version: nat)
    requires IsRun(h, run, steps) && k < |run| && run[k].up
    requires run[k].node.published >= version
    ensures version <= Absorbed(run[k]) <= |run[k].committed|
    ensures run[k].node.fsm == StateAt(h, run[k].committed, Absorbed(run[k]))
  {
    RunKeepsInv(h, run, steps, k);
  }

  /** Cluster identity on one node: whatever mix of applies, replays and restores
      got it there, it is the first id set in the prefix it absorbed. */
  lemma NodeClusterID(h: Handlers, run: seq<Machine>, steps: seq<Step>, k: nat)
    requires IsRun(h, run, steps) && k < |run| && run[k].up
    ensures Absorbed(run[k]) <= |run[k].committed|
    ensures run[k].node.fsm.clusterID == FirstClusterID(run[k].committed, Absorbed(run[k]))
  {
    RunKeepsInv(h, run, steps, k);
    ClusterIDIsFirstSet(h, run[k].committed, Absorbed(run[k]));
  }

  /** Two nodes of one cluster, at any two points of their runs, never hold
      different identities. */
  lemma NodesAgreeOnClusterID(h: Handlers, run: seq<Machine>, steps: seq<Step>, k: nat,
                              run': seq<Machine>, steps': seq<Step>, k': nat)
    requires IsRun(h, run, steps) && k < |run| && run[k].up
    requires IsRun(h, run', steps') && k' < |run'| && run'[k'].up
    requires run[k].committed <= run'[k'].committed
    requires run[k].node.fsm.clusterID != "" && run'[k'].node.fsm.clusterID != ""
    ensures run[k].node.fsm.clusterID == run'[k'].node.fsm.clusterID
  {
    RunKeepsInv(h, run, steps, k);
    RunKeepsInv(h, run', steps', k');
    var a, b, log := Absorbed(run[k]), Absorbed(run'[k']), run'[k'].committed;
    assert run[k].committed[..a] == log[..a];
    PrefixDeterminesState(h, run[k].committed, log, a);
    if a <= b {
      ClusterIDIsStable(h, log, a, b);
    } else {
      ClusterIDIsStable(h, log, b, a);
    }
  }
}
