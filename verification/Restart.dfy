/** The database over whole runs: what is open and on disk when a process has loaded
    it, and from then on, through any interleaving of commits, log overwrites,
    compactions, captures, installs and commands. */
module Restart {
  import opened Fsm
  import opened Node
  import opened Snapshots
  import opened Incarnations
  import opened CatchUp
  import opened InStep
  import opened NodeRun

  // ---- loading ----

  /** The step at which a process loads its database. */
  predicate Loads(m: Machine, m': Machine) {
    !(m.up && m.node.dbLoaded) && m'.up && m'.node.dbLoaded
  }

  /** The classes recorded as orphans by then. */
  ghost function Gone(h: Handlers, m: Machine, step: Step): set<string>
    requires Inv(h, m) && Allowed(h, m, step) && Loads(m, Do(h, m, step))
  {
    if step.Complete? then Recorded(h, m.committed, m.session.skips, m.session.base, Replayed(m))
    else if step.InstallCut? then
      Recorded(h, m.committed, m.session.skips, m.session.base, m.delivered)
      + (m.node.fsm.classes.Keys - Do(h, m, step).node.fsm.classes.Keys)
    else {}
  }

  /** One of these classes went by the index and is not in the schema now. */
  predicate Hits(gone: set<string>, classes: map<string, ClassMeta>, id: string) {
    exists c :: c in gone && c !in classes && Fold(c) == id
  }

  /** The node that a loading step reloads. */
  ghost function Reloading(h: Handlers, m: Machine, step: Step): Node
    requires Inv(h, m) && Allowed(h, m, step)
  {
    if step.Complete? then m.node
    else if step.InstallCut? then Restored(m.node, StateAt(h, m.committed, SnapIndex(m.snap)))
    else if step.Reopen? && m.snap.Some? then
      Restored(Fresh(m.node.disk, m.node.staged), StateAt(h, m.committed, SnapIndex(m.snap)))
    else Fresh(m.node.disk, m.node.staged)
  }

  ghost function LotOf(step: Step): Lot {
    if step.Complete? || step.InstallCut? || step.Reopen? then step.lot else Lot(map[], map[])
  }

  /** n' is what reloading n leaves. */
  ghost predicate ReloadsTo(n: Node, n': Node, lot: Lot) {
    n.fsm.classes == n'.fsm.classes && n'.open == Reload(n, lot).open && n'.disk == Reload(n, lot).disk
  }

  lemma LoadIsReload(h: Handlers, m: Machine, step: Step)
    requires Inv(h, m) && Allowed(h, m, step) && Loads(m, Do(h, m, step))
    ensures ReloadsTo(Reloading(h, m, step), Do(h, m, step).node, LotOf(step))
    ensures Reloading(h, m, step).orphans == Gone(h, m, step)
  {
    match step {
      case Complete(lot) => CompleteReloads(h, m, lot);
      case InstallCut(lot) => InstallReloads(h, m, lot);
      case Reopen(b, fails, lot) => ReopenReloads(h, m, b, fails, lot);
      case _ => NothingElseLoads(h, m, step);
    }
  }

  lemma NothingElseLoads(h: Handlers, m: Machine, step: Step)
    requires Allowed(h, m, step) && !step.Complete? && !step.InstallCut? && !step.Reopen?
    ensures !Loads(m, Do(h, m, step))
  {
  }

  lemma CompleteReloads(h: Handlers, m: Machine, lot: Lot)
    requires Inv(h, m) && Allowed(h, m, Complete(lot)) && Loads(m, Do(h, m, Complete(lot)))
    ensures ReloadsTo(m.node, Do(h, m, Complete(lot)).node, lot)
    ensures m.node.orphans == Gone(h, m, Complete(lot))
  {
  }

  lemma InstallReloads(h: Handlers, m: Machine, lot: Lot)
    requires Inv(h, m) && Allowed(h, m, InstallCut(lot)) && m.node.toDB <= SnapIndex(m.snap)
    ensures ReloadsTo(Restored(m.node, StateAt(h, m.committed, SnapIndex(m.snap))), Do(h, m, InstallCut(lot)).node, lot)
    ensures Loads(m, Do(h, m, InstallCut(lot))) ==>
              Restored(m.node, StateAt(h, m.committed, SnapIndex(m.snap))).orphans == Gone(h, m, InstallCut(lot))
  {
    InstallReachesCut(h, m.committed, m.delivered, SnapIndex(m.snap));
  }

  lemma ReopenReloads(h: Handlers, m: Machine, b: nat, fails: bool, lot: Lot)
    requires Inv(h, m) && Allowed(h, m, Reopen(b, fails, lot)) && Loads(m, Do(h, m, Reopen(b, fails, lot)))
    ensures var n := Reloading(h, m, Reopen(b, fails, lot));
            ReloadsTo(n, Do(h, m, Reopen(b, fails, lot)).node, lot) && n.orphans == {}
  {
    if m.snap.Some? {
      InstallReachesCut(h, m.committed, 0, SnapIndex(m.snap));
      OpenedReloads(m.node.disk, m.node.staged, m.snap.value, StateAt(h, m.committed, SnapIndex(m.snap)), b, fails, lot);
    } else {
      ReloadOfNothing(m.node.disk, m.node.staged, lot);
    }
  }

  lemma OpenedReloads(disk: Disk, staged: map<string, set<string>>, snap: Stored, s: State, b: nat, fails: bool, lot: Lot)
    requires snap.index > 0 && Install(Init, snap.content) == s && snap.content.schema == s.classes
    requires Opened(disk, staged, Some(snap), b, fails, lot).dbLoaded
    ensures ReloadsTo(Restored(Fresh(disk, staged), s), Opened(disk, staged, Some(snap), b, fails, lot), lot)
    ensures Restored(Fresh(disk, staged), s).orphans == {}
  {
    assert Fresh(disk, staged).(toDB := Max(snap.index, b)).fsm == Init;
  }

  lemma ReloadOfNothing(disk: Disk, staged: map<string, set<string>>, lot: Lot)
    ensures Reload(Fresh(disk, staged), lot).open == map[] && Reload(Fresh(disk, staged), lot).disk == disk
  {
    var n := Fresh(disk, staged);
    forall id ensures At(Reload(n, lot).open, id) == None {
      ReloadOpenAt(map[], map[], {}, {}, lot, id);
    }
    SameOpen(Reload(n, lot).open, map[]);
    forall d ensures Tag(Reload(n, lot).disk, d) == Tag(disk, d) {
      ReloadDiskAt(disk, map[], map[], {}, {}, lot, d);
    }
    SameDisk(Reload(n, lot).disk, disk);
  }

  /** Before it loads a node has at most the class open that a live command is adding,
      and unless it moved staged files, the directories it found and that class's. */
  lemma BeforeLoading(h: Handlers, m: Machine, step: Step)
    requires Inv(h, m) && Allowed(h, m, step) && Loads(m, Do(h, m, step))
    ensures var n, after := Reloading(h, m, step), Do(h, m, step).session;
            && OpensNamed(n.open, n.fsm.classes)
            && (!after.adopted ==> AsFound(n.disk, n.open, n.fsm.classes, after.found))
  {
    match step {
      case Complete(_) =>
      case InstallCut(_) =>
        NothingOpened(m.node.disk, m.node.open, m.node.fsm.classes, m.session.found);
      case Reopen(_, _, _) =>
      case _ => NothingElseLoads(h, m, step);
    }
  }

  lemma DroppedIsHit(n: Node, gone: set<string>, id: string)
    requires n.orphans == gone
    ensures id in Dropped(n) <==> Hits(gone, n.fsm.classes, id)
  {
  }

  /** Loading, at every point of every run: an index follows the schema if and only if
      one class at most goes by it, and none does if it went by a class recorded as an
      orphan under another spelling. */
  lemma LoadFollowsIff(h: Handlers, run: seq<Machine>, steps: seq<Step>, k: nat, id: string)
    requires IsRun(h, run, steps) && k < |steps| && Loads(run[k], run[k + 1])
    ensures Inv(h, run[k])
    ensures var classes := run[k + 1].node.fsm.classes;
            FollowsAt(run[k + 1].node.open, classes, id) <==>
              !Shared(classes, id) && (Owner(classes, id).None? || !Hits(Gone(h, run[k], steps[k]), classes, id))
  {
    RunKeepsInv(h, run, steps, k);
    var n := Reloading(h, run[k], steps[k]);
    LoadIsReload(h, run[k], steps[k]);
    BeforeLoading(h, run[k], steps[k]);
    ReloadFollowsIff(n, LotOf(steps[k]), id);
    DroppedIsHit(n, Gone(h, run[k], steps[k]), id);
    if id in n.open && !Shared(n.fsm.classes, id) {
      OwnerIs(n.fsm.classes, n.open[id].cls);
    }
  }

  /** Whatever the process did before: the directories of an index end as the schema
      wants them if and only if one class at most goes by it, and either it went by an
      orphan and that class has no active shard, or all directories there just before
      loading settle. */
  lemma LoadSettlesIff(h: Handlers, run: seq<Machine>, steps: seq<Step>, k: nat, id: string)
    requires IsRun(h, run, steps) && k < |steps| && Loads(run[k], run[k + 1])
    ensures Inv(h, run[k])
    ensures var classes, n := run[k + 1].node.fsm.classes, Reloading(h, run[k], steps[k]);
            AgreesAt(run[k + 1].node.disk, classes, id) <==>
              && !Shared(classes, id)
              && if Hits(Gone(h, run[k], steps[k]), classes, id) then NoneHot(classes, Owner(classes, id))
                 else forall x :: Dir(id, x) in n.disk ==> Settles(n.disk, n.open, classes, Dir(id, x))
  {
    RunKeepsInv(h, run, steps, k);
    var n := Reloading(h, run[k], steps[k]);
    LoadIsReload(h, run[k], steps[k]);
    ReloadAgreesIff(n, LotOf(steps[k]), id);
    DroppedIsHit(n, Gone(h, run[k], steps[k]), id);
  }

  /** A directory found that is of the present incarnation of its shard. */
  ghost predicate Current(found: Disk, classes: map<string, ClassMeta>, id: string, x: string)
    requires Dir(id, x) in found
  {
    var owner := Owner(classes, id);
    && owner.Some? && x in classes[owner.value].shards
    && classes[owner.value].shards[x].born == found[Dir(id, x)]
  }

  lemma SettlesIffCurrent(n: Node, found: Disk, id: string)
    requires !Shared(n.fsm.classes, id) && OpensNamed(n.open, n.fsm.classes) && AsFound(n.disk, n.open, n.fsm.classes, found)
    ensures (forall x :: Dir(id, x) in n.disk ==> Settles(n.disk, n.open, n.fsm.classes, Dir(id, x)))
            <==> forall x :: Dir(id, x) in found ==> Current(found, n.fsm.classes, id, x)
  {
    var classes := n.fsm.classes;
    forall x
      ensures (Dir(id, x) in n.disk ==> Settles(n.disk, n.open, classes, Dir(id, x)))
              <==> (Dir(id, x) in found ==> Current(found, classes, id, x))
    {
      assert FoundOrOpened(n.disk, n.open, classes, found, Dir(id, x));
      if id in n.open {
        OwnerIs(classes, n.open[id].cls);
      }
    }
  }

  /** Loading, at every point of every run in which the process moved no staged files:
      the directories of an index are as the schema wants them if and only if one
      class at most goes by it, and either it went by an orphan and that class has no
      active shard, or all directories found are current. */
  lemma LoadAgreesIff(h: Handlers, run: seq<Machine>, steps: seq<Step>, k: nat, id: string)
    requires IsRun(h, run, steps) && k < |steps| && Loads(run[k], run[k + 1]) && !run[k + 1].session.adopted
    ensures Inv(h, run[k])
    ensures var classes, found := run[k + 1].node.fsm.classes, run[k + 1].session.found;
            AgreesAt(run[k + 1].node.disk, classes, id) <==>
              && !Shared(classes, id)
              && if Hits(Gone(h, run[k], steps[k]), classes, id) then NoneHot(classes, Owner(classes, id))
                 else forall x :: Dir(id, x) in found ==> Current(found, classes, id, x)
  {
    LoadSettlesIff(h, run, steps, k, id);
    var n := Reloading(h, run[k], steps[k]);
    LoadIsReload(h, run[k], steps[k]);
    BeforeLoading(h, run[k], steps[k]);
    if !Shared(n.fsm.classes, id) {
      SettlesIffCurrent(n, run[k + 1].session.found, id);
    }
  }

  /** The same read off the log, when the directories found are those of state d: a
      directory is current if and only if its shard is there and was not created
      after d, by whatever spelling of the class. */
  lemma CurrentIff(h: Handlers, log: seq<Entry>, found: Disk, d: nat, l: nat, id: string, x: string)
    requires d <= l <= |log| && AgreesAt(found, StateAt(h, log, d).classes, id) && Dir(id, x) in found
    requires !Shared(StateAt(h, log, l).classes, id)
    ensures var now := StateAt(h, log, l).classes; var owner := Owner(now, id);
            Current(found, now, id, x)
            <==> owner.Some? && x in now[owner.value].shards && now[owner.value].shards[x].born <= d
  {
    var was, now := StateAt(h, log, d).classes, StateAt(h, log, l).classes;
    assert Fits(found, was, Dir(id, x));
    var c, owner := Owner(was, id).value, Owner(now, id);
    ShardBornInRange(h, log, d, c, x);
    if owner.Some? && x in now[owner.value].shards {
      OneClassPerBirth(h, log, d, c, x);
      OneClassPerBirth(h, log, l, owner.value, x);
      if now[owner.value].shards[x].born <= d {
        ShardBornStable(h, log, l, owner.value, x, d);
        OwnerIs(was, owner.value);
      }
    }
  }

  lemma RestartAgreesIff(h: Handlers, run: seq<Machine>, steps: seq<Step>, k: nat, d: nat, id: string)
    requires IsRun(h, run, steps) && k < |steps| && Loads(run[k], run[k + 1]) && !run[k + 1].session.adopted
    requires d <= run[k + 1].delivered <= |run[k + 1].committed|
    requires AgreesAt(run[k + 1].session.found, StateAt(h, run[k + 1].committed, d).classes, id)
    ensures Inv(h, run[k])
    ensures var classes, found := run[k + 1].node.fsm.classes, run[k + 1].session.found;
            AgreesAt(run[k + 1].node.disk, classes, id) <==>
              && !Shared(classes, id)
              && if Hits(Gone(h, run[k], steps[k]), classes, id) then NoneHot(classes, Owner(classes, id))
                 else forall x :: Dir(id, x) in found ==> Kept(classes, id, x, d)
  {
    LoadAgreesIff(h, run, steps, k, id);
    RunKeepsInv(h, run, steps, k + 1);
    var m := run[k + 1];
    var classes, found := m.node.fsm.classes, m.session.found;
    LoadedNotInFlight(h, run[k], steps[k]);
    if !Shared(classes, id) {
      forall x | Dir(id, x) in found ensures Current(found, classes, id, x) <==> Kept(classes, id, x, d) {
        CurrentIff(h, m.committed, found, d, m.delivered, id, x);
      }
    }
  }

  /** The shard is there and was not created after d. */
  ghost predicate Kept(classes: map<string, ClassMeta>, id: string, x: string, d: nat) {
    var owner := Owner(classes, id);
    owner.Some? && x in classes[owner.value].shards && classes[owner.value].shards[x].born <= d
  }

  lemma LoadedNotInFlight(h: Handlers, m: Machine, step: Step)
    requires Inv(h, m) && Allowed(h, m, step) && Loads(m, Do(h, m, step))
    ensures !Do(h, m, step).inFlight
  {
    match step {
      case Complete(_) =>
      case InstallCut(_) =>
      case Reopen(_, _, _) =>
      case _ => NothingElseLoads(h, m, step);
    }
  }

  // ---- once loaded ----

  /** The process is running and has loaded its database. */
  predicate Up(m: Machine) {
    m.up && m.node.dbLoaded
  }

  ghost predicate Follows(m: Machine, id: string) {
    FollowsAt(m.node.open, m.node.fsm.classes, id)
  }

  ghost predicate InStepAt(m: Machine, id: string) {
    Follows(m, id) && AgreesAt(m.node.disk, m.node.fsm.classes, id)
  }

  /** The steps that put an index out of step: a command that does, and the install of a
      snapshot with two classes that go by it, or one in place of another. */
  ghost predicate StepBreaks(h: Handlers, m: Machine, step: Step, id: string) {
    match step
    case Perform =>
      m.delivered < |m.committed| && BreaksAt(h, m.node.fsm, m.committed[m.delivered].req, m.delivered + 1, id)
    case InstallCut(_) =>
      var s := SnapIndex(m.snap);
      && s <= |m.committed|
      && var now := StateAt(h, m.committed, s).classes; Shared(now, id) || Replaces(m.node.fsm.classes, now, id)
    case _ => false
  }

  /** The same for its directories. */
  ghost predicate StepUpsets(h: Handlers, m: Machine, step: Step, id: string) {
    match step
    case Perform =>
      m.delivered < |m.committed| && UpsetsAt(h, m.node, m.committed[m.delivered].req, m.delivered + 1, id)
    case InstallCut(_) =>
      var s := SnapIndex(m.snap);
      && s <= |m.committed|
      && var was, now := m.node.fsm.classes, StateAt(h, m.committed, s).classes;
         || Shared(now, id)
         || if Replaces(was, now, id) then !NoneHot(now, Owner(now, id))
            else exists x :: Dir(id, x) in m.node.disk && Owner(now, id).Some? && !Survives(was, now, m.delivered, id, x)
    case _ => false
  }

  lemma PerformNode(h: Handlers, m: Machine)
    requires Allowed(h, m, Perform)
    ensures Do(h, m, Perform).node == Effect(h, m.node, m.committed[m.delivered].req, m.delivered + 1)
  {
  }

  lemma EffectKeepsLoaded(h: Handlers, n: Node, r: Request, i: nat)
    ensures Effect(h, n, r, i).dbLoaded == n.dbLoaded
  {
  }

  /** All other steps leave what is open, the schema and the disk alone. */
  lemma QuietStep(h: Handlers, m: Machine, step: Step)
    requires Allowed(h, m, step) && Up(m) && !step.Perform? && !step.InstallCut? && !step.Crash?
    ensures var m' := Do(h, m, step);
            Up(m') && m'.node.open == m.node.open && m'.node.disk == m.node.disk && m'.node.fsm == m.node.fsm
  {
  }

  lemma InstallStep(h: Handlers, m: Machine, lot: Lot)
    requires Inv(h, m) && Allowed(h, m, InstallCut(lot)) && Up(m)
    ensures Up(Do(h, m, InstallCut(lot))) && m.delivered <= SnapIndex(m.snap) <= |m.committed| && m.node.orphans == {}
    ensures m.node.fsm == StateAt(h, m.committed, m.delivered)
    ensures ReloadsTo(Restored(m.node, StateAt(h, m.committed, SnapIndex(m.snap))), Do(h, m, InstallCut(lot)).node, lot)
  {
    InstallReloads(h, m, lot);
  }

  /** What a live command starts from and makes of the node. */
  lemma LivePerform(h: Handlers, m: Machine)
    requires Inv(h, m) && Allowed(h, m, Perform) && Up(m)
    ensures Runs(h, m, Do(h, m, Perform))
  {
    BornBeforeNext(h, m.committed, m.delivered);
  }

  predicate Runs(h: Handlers, m: Machine, m': Machine) {
    && m.delivered < |m.committed| && !CatchingUp(m.node, m.delivered + 1)
    && BornBefore(m.node.fsm.classes, m.delivered + 1)
    && m'.node == Effect(h, m.node, m.committed[m.delivered].req, m.delivered + 1)
  }

  lemma PerformFollowsIff(h: Handlers, m: Machine, m': Machine, id: string)
    requires Runs(h, m, m') && Follows(m, id)
    ensures Follows(m', id) <==> !StepBreaks(h, m, Perform, id)
  {
    CommandFollowsIff(h, m.node, m.committed[m.delivered].req, m.delivered + 1, id);
  }

  lemma PerformAgreesIff(h: Handlers, m: Machine, m': Machine, id: string)
    requires Runs(h, m, m') && InStepAt(m, id)
    ensures AgreesAt(m'.node.disk, m'.node.fsm.classes, id) <==> !StepUpsets(h, m, Perform, id)
  {
    CommandAgreesIff(h, m.node, m.committed[m.delivered].req, m.delivered + 1, id);
  }

  lemma InstallStepFollowsIff(h: Handlers, m: Machine, lot: Lot, id: string)
    requires Inv(h, m) && Allowed(h, m, InstallCut(lot)) && Up(m) && Follows(m, id)
    ensures Follows(Do(h, m, InstallCut(lot)), id) <==> !StepBreaks(h, m, InstallCut(lot), id)
  {
    InstallStep(h, m, lot);
    InstallFollowsIff(m.node, StateAt(h, m.committed, SnapIndex(m.snap)), lot, id);
  }

  lemma StaysUp(h: Handlers, m: Machine, step: Step)
    requires Inv(h, m) && Allowed(h, m, step) && Up(m) && !step.Crash?
    ensures Up(Do(h, m, step))
  {
    if step.Perform? {
      PerformNode(h, m);
      EffectKeepsLoaded(h, m.node, m.committed[m.delivered].req, m.delivered + 1);
    } else if step.InstallCut? {
      InstallStep(h, m, step.lot);
    } else {
      QuietStep(h, m, step);
    }
  }

  /** One step of a loaded process, exactly. */
  lemma StepFollowsIff(h: Handlers, m: Machine, step: Step, id: string)
    requires Inv(h, m) && Allowed(h, m, step) && Up(m) && !step.Crash? && Follows(m, id)
    ensures Follows(Do(h, m, step), id) <==> !StepBreaks(h, m, step, id)
  {
    if step.Perform? {
      LivePerform(h, m);
      PerformFollowsIff(h, m, Do(h, m, step), id);
    } else if step.InstallCut? {
      InstallStepFollowsIff(h, m, step.lot, id);
    } else {
      QuietStep(h, m, step);
    }
  }

  lemma BornBeforeNext(h: Handlers, log: seq<Entry>, n: nat)
    requires n <= |log|
    ensures BornBefore(StateAt(h, log, n).classes, n + 1)
  {
    var classes := StateAt(h, log, n).classes;
    forall c, x | c in classes && x in classes[c].shards ensures classes[c].shards[x].born < n + 1 {
      ShardBornInRange(h, log, n, c, x);
    }
  }

  lemma InstallStepAgreesIff(h: Handlers, m: Machine, lot: Lot, id: string)
    requires Inv(h, m) && Allowed(h, m, InstallCut(lot)) && Up(m) && InStepAt(m, id)
    ensures var m' := Do(h, m, InstallCut(lot));
            AgreesAt(m'.node.disk, m'.node.fsm.classes, id) <==> !StepUpsets(h, m, InstallCut(lot), id)
  {
    InstallStep(h, m, lot);
    InstallAgreesIff(h, m.committed, m.node, m.delivered, SnapIndex(m.snap), lot, id);
  }

  lemma StepAgreesIff(h: Handlers, m: Machine, step: Step, id: string)
    requires Inv(h, m) && Allowed(h, m, step) && Up(m) && !step.Crash? && InStepAt(m, id)
    ensures var m' := Do(h, m, step);
            AgreesAt(m'.node.disk, m'.node.fsm.classes, id) <==> !StepUpsets(h, m, step, id)
  {
    if step.Perform? {
      LivePerform(h, m);
      PerformAgreesIff(h, m, Do(h, m, step), id);
    } else if step.InstallCut? {
      InstallStepAgreesIff(h, m, step.lot, id);
    } else {
      QuietStep(h, m, step);
    }
  }

  /** One step of a run, whatever the run. */
  lemma RunStep(h: Handlers, run: seq<Machine>, steps: seq<Step>, j: nat, id: string)
    requires IsRun(h, run, steps) && j < |steps| && Up(run[j]) && !steps[j].Crash?
    ensures Up(run[j + 1])
    ensures Follows(run[j], id) ==> (Follows(run[j + 1], id) <==> !StepBreaks(h, run[j], steps[j], id))
    ensures InStepAt(run[j], id) ==>
              (InStepAt(run[j + 1], id) <==> !StepBreaks(h, run[j], steps[j], id) && !StepUpsets(h, run[j], steps[j], id))
  {
    RunKeepsInv(h, run, steps, j);
    StaysUp(h, run[j], steps[j]);
    if Follows(run[j], id) {
      StepFollowsIff(h, run[j], steps[j], id);
    }
    if InStepAt(run[j], id) {
      StepAgreesIff(h, run[j], steps[j], id);
    }
  }

  lemma {:induction false} LoadedStaysUp(h: Handlers, run: seq<Machine>, steps: seq<Step>, a: nat, k: nat)
    requires IsRun(h, run, steps) && a <= k <= |steps| && Up(run[a])
    requires forall j :: a <= j < k ==> !steps[j].Crash?
    ensures Up(run[k])
    decreases k
  {
    if a < k {
      LoadedStaysUp(h, run, steps, a, k - 1);
      RunKeepsInv(h, run, steps, k - 1);
      StaysUp(h, run[k - 1], steps[k - 1]);
    }
  }

  /** p holds from a to k exactly if q does, when q decides whether p goes on. */
  lemma {:induction false} Chain(p: seq<bool>, q: seq<bool>, a: nat, k: nat)
    requires a <= k < |p| && k <= |q| && p[a]
    requires forall j :: a <= j < k ==> p[j] ==> (p[j + 1] <==> q[j])
    ensures (forall j :: a <= j <= k ==> p[j]) <==> (forall j :: a <= j < k ==> q[j])
    decreases k
  {
    if a < k {
      Chain(p, q, a, k - 1);
      assert p[k - 1] ==> (p[k - 1 + 1] <==> q[k - 1]);
    }
  }

  ghost function FollowsAlong(run: seq<Machine>, id: string): (p: seq<bool>)
    ensures |p| == |run| && forall j :: 0 <= j < |run| ==> p[j] == Follows(run[j], id)
  {
    seq(|run|, j requires 0 <= j < |run| => Follows(run[j], id))
  }

  ghost function InStepAlong(run: seq<Machine>, id: string): (p: seq<bool>)
    ensures |p| == |run| && forall j :: 0 <= j < |run| ==> p[j] == InStepAt(run[j], id)
  {
    seq(|run|, j requires 0 <= j < |run| => InStepAt(run[j], id))
  }

  ghost function Steady(h: Handlers, run: seq<Machine>, steps: seq<Step>, id: string): (q: seq<bool>)
    requires |run| == |steps| + 1
    ensures |q| == |steps| && forall j :: 0 <= j < |steps| ==> q[j] == !StepBreaks(h, run[j], steps[j], id)
  {
    seq(|steps|, j requires 0 <= j < |steps| => !StepBreaks(h, run[j], steps[j], id))
  }

  ghost function Calm(h: Handlers, run: seq<Machine>, steps: seq<Step>, id: string): (q: seq<bool>)
    requires |run| == |steps| + 1
    ensures |q| == |steps|
    ensures forall j :: 0 <= j < |steps| ==>
              q[j] == (!StepBreaks(h, run[j], steps[j], id) && !StepUpsets(h, run[j], steps[j], id))
  {
    seq(|steps|, j requires 0 <= j < |steps| => !StepBreaks(h, run[j], steps[j], id) && !StepUpsets(h, run[j], steps[j], id))
  }

  /** Over every stretch of every run from a point where the database is loaded and the
      index in step: it stays open for its class, with exactly the active shards, at
      every point if and only if no step of the stretch is one of those named. */
  lemma DbFollowsSchemaIff(h: Handlers, run: seq<Machine>, steps: seq<Step>, a: nat, k: nat, id: string)
    requires IsRun(h, run, steps) && a <= k <= |steps| && Up(run[a]) && Follows(run[a], id)
    requires forall j :: a <= j < k ==> !steps[j].Crash?
    ensures (forall j :: a <= j <= k ==> Follows(run[j], id))
            <==> forall j :: a <= j < k ==> !StepBreaks(h, run[j], steps[j], id)
  {
    var p, q := FollowsAlong(run, id), Steady(h, run, steps, id);
    forall j | a <= j < k ensures p[j] ==> (p[j + 1] <==> q[j]) {
      LoadedStaysUp(h, run, steps, a, j);
      RunStep(h, run, steps, j, id);
    }
    Chain(p, q, a, k);
  }

  /** The same for what is open and on disk together. */
  lemma DiskFollowsSchemaIff(h: Handlers, run: seq<Machine>, steps: seq<Step>, a: nat, k: nat, id: string)
    requires IsRun(h, run, steps) && a <= k <= |steps| && Up(run[a]) && InStepAt(run[a], id)
    requires forall j :: a <= j < k ==> !steps[j].Crash?
    ensures (forall j :: a <= j <= k ==> InStepAt(run[j], id)) <==>
              (forall j :: a <= j < k ==> !StepBreaks(h, run[j], steps[j], id) && !StepUpsets(h, run[j], steps[j], id))
  {
    var p, q := InStepAlong(run, id), Calm(h, run, steps, id);
    forall j | a <= j < k ensures p[j] ==> (p[j + 1] <==> q[j]) {
      LoadedStaysUp(h, run, steps, a, j);
      RunStep(h, run, steps, j, id);
    }
    Chain(p, q, a, k);
  }
}
