/** Runs that every log of commands has: one that applies it live, one that restarts in
    the middle and replays it, one that skips the rest by installing a snapshot. */
module Scenarios {
  import opened Fsm
  import opened Node
  import opened LogScan
  import opened Snapshots
  import opened Incarnations
  import opened CatchUp
  import opened InStep
  import opened NodeRun
  import opened Restart

  ghost predicate Willing(h: Handlers) {
    forall s, r, i :: !h.refuses(s, r, i)
  }

  const NoLot: Lot := Lot(map[], map[])

  /** What decides which steps raft allows, when the database loads, and what is staged
      and moved, in a run without snapshots. */
  datatype Skeleton = Skeleton(committed: seq<Entry>, log: map<nat, Entry>, up: bool, delivered: nat, inFlight: bool,
                               peak: nat, staged: map<string, set<string>>, moves: multiset<nat>,
                               toDB: nat, loaded: bool, found: Disk, adopted: bool)

  ghost predicate Has(m: Machine, k: Skeleton) {
    && m.committed == k.committed && m.log == k.log && m.up == k.up && m.delivered == k.delivered
    && m.inFlight == k.inFlight && m.peak == k.peak && m.node.staged == k.staged && m.moves == k.moves
    && m.node.toDB == k.toDB && m.node.dbLoaded == k.loaded
    && m.session == Session(0, k.found, map[], k.adopted)
    && m.snap == None && m.captured == None && !m.restoring
  }

  ghost predicate Reaches(h: Handlers, run: seq<Machine>, steps: seq<Step>, k: Skeleton) {
    IsRun(h, run, steps) && Has(run[|steps|], k)
  }

  const Start: Skeleton := Skeleton([], map[], false, 0, false, 0, map[], multiset{}, 0, false, map[], false)

  // One lemma per step, over skeletons.

  lemma Next(h: Handlers, run: seq<Machine>, steps: seq<Step>, step: Step) returns (run': seq<Machine>, steps': seq<Step>)
    requires IsRun(h, run, steps) && Allowed(h, run[|steps|], step)
    ensures steps' == steps + [step] && run' == run + [Do(h, run[|steps|], step)] && IsRun(h, run', steps')
  {
    run', steps' := run + [Do(h, run[|steps|], step)], steps + [step];
  }

  lemma DoReopen(h: Handlers, run: seq<Machine>, steps: seq<Step>, k: Skeleton, b: nat) returns (run': seq<Machine>, steps': seq<Step>)
    requires Reaches(h, run, steps, k) && !k.up && IsLastCommand(k.log, b) && k.delivered == 0 && !k.inFlight
    ensures steps' == steps + [Reopen(b, false, NoLot)] && run <= run' && |run'| == |run| + 1
    ensures Reaches(h, run', steps', k.(up := true, toDB := b, loaded := b == 0, adopted := false,
                                        found := run[|steps|].node.disk))
  {
    run', steps' := Next(h, run, steps, Reopen(b, false, NoLot));
  }

  lemma DoCommit(h: Handlers, run: seq<Machine>, steps: seq<Step>, k: Skeleton, es: seq<Entry>) returns (run': seq<Machine>, steps': seq<Step>)
    requires Reaches(h, run, steps, k)
    ensures steps' == steps + [Commit(es)] && run <= run' && |run'| == |run| + 1
    ensures Reaches(h, run', steps', k.(committed := k.committed + es))
  {
    run', steps' := Next(h, run, steps, Commit(es));
  }

  lemma DoReplicate(h: Handlers, run: seq<Machine>, steps: seq<Step>, k: Skeleton, log: map<nat, Entry>) returns (run': seq<Machine>, steps': seq<Step>)
    requires Reaches(h, run, steps, k)
    requires forall i :: 0 <= i <= k.peak ==> (i in log <==> i in k.log) && (i in log ==> log[i] == k.log[i])
    ensures steps' == steps + [Replicate(log)] && run <= run' && |run'| == |run| + 1
    ensures Reaches(h, run', steps', k.(log := log))
  {
    run', steps' := Next(h, run, steps, Replicate(log));
  }

  lemma DoStage(h: Handlers, run: seq<Machine>, steps: seq<Step>, k: Skeleton, c: string, shards: set<string>)
    returns (run': seq<Machine>, steps': seq<Step>)
    requires Reaches(h, run, steps, k) && k.up
    ensures steps' == steps + [Stage(c, shards)] && run <= run' && |run'| == |run| + 1
    ensures Reaches(h, run', steps', k.(staged := k.staged[c := shards]))
  {
    run', steps' := Next(h, run, steps, Stage(c, shards));
  }

  ghost predicate Ready(k: Skeleton) {
    && k.up && !k.inFlight && k.delivered < |k.committed|
    && k.delivered + 1 in k.log && k.log[k.delivered + 1] == k.committed[k.delivered]
  }

  lemma DoSkip(h: Handlers, run: seq<Machine>, steps: seq<Step>, k: Skeleton) returns (run': seq<Machine>, steps': seq<Step>)
    requires Reaches(h, run, steps, k) && Ready(k) && !k.committed[k.delivered].kind.Command?
    ensures steps' == steps + [Skip] && run <= run' && |run'| == |run| + 1
    ensures Reaches(h, run', steps', k.(delivered := k.delivered + 1, peak := Max(k.peak, k.delivered + 1)))
  {
    run', steps' := Next(h, run, steps, Skip);
  }

  /** The skeleton after the next command runs. */
  function Performed(k: Skeleton): Skeleton
    requires k.delivered < |k.committed|
  {
    var i, r := k.delivered + 1, k.committed[k.delivered].req;
    var moves := r.RestoreClass? && r.cls in k.staged;
    k.(inFlight := true, peak := Max(k.peak, i),
       staged := if r.RestoreClass? then k.staged - {r.cls} else k.staged,
       moves := if moves then k.moves + multiset{i} else k.moves,
       adopted := k.adopted || moves)
  }

  lemma DoPerform(h: Handlers, run: seq<Machine>, steps: seq<Step>, k: Skeleton) returns (run': seq<Machine>, steps': seq<Step>)
    requires Willing(h) && Reaches(h, run, steps, k) && Ready(k) && k.committed[k.delivered].kind.Command?
    ensures steps' == steps + [Perform] && run <= run' && |run'| == |run| + 1
    ensures Reaches(h, run', steps', Performed(k))
  {
    PerformHas(h, run[|steps|], k);
    run', steps' := Next(h, run, steps, Perform);
  }

  lemma PerformHas(h: Handlers, m: Machine, k: Skeleton)
    requires Willing(h) && Has(m, k) && Ready(k) && k.committed[k.delivered].kind.Command?
    ensures Allowed(h, m, Perform) && Has(Do(h, m, Perform), Performed(k))
  {
    var i, r := m.delivered + 1, m.committed[m.delivered].req;
    EffectHas(h, m.node, r, i);
    PerformRest(h, m);
  }

  /** What a command leaves alone, and what it moves. */
  lemma EffectHas(h: Handlers, n: Node, r: Request, i: nat)
    requires Willing(h)
    ensures var n' := Effect(h, n, r, i);
            && n'.toDB == n.toDB && n'.dbLoaded == n.dbLoaded
            && n'.staged == (if r.RestoreClass? then n.staged - {r.cls} else n.staged)
            && (Moves(h, n, r, i) <==> r.RestoreClass? && r.cls in n.staged)
  {
  }

  lemma PerformRest(h: Handlers, m: Machine)
    requires Allowed(h, m, Perform)
    ensures var m', i, r := Do(h, m, Perform), m.delivered + 1, m.committed[m.delivered].req;
            && m'.node == Effect(h, m.node, r, i) && m'.inFlight && m'.peak == Max(m.peak, i)
            && m'.committed == m.committed && m'.log == m.log && m'.up == m.up && m'.delivered == m.delivered
            && m'.moves == (if Moves(h, m.node, r, i) then m.moves + multiset{i} else m.moves)
            && m'.session == m.session.(adopted := m.session.adopted || Moves(h, m.node, r, i))
            && m'.snap == m.snap && m'.captured == m.captured && m'.restoring == m.restoring
  {
  }

  lemma DoComplete(h: Handlers, run: seq<Machine>, steps: seq<Step>, k: Skeleton) returns (run': seq<Machine>, steps': seq<Step>)
    requires Reaches(h, run, steps, k) && k.up && k.inFlight
    ensures steps' == steps + [Complete(NoLot)] && run <= run' && |run'| == |run| + 1
    ensures Reaches(h, run', steps', k.(delivered := k.delivered + 1, inFlight := false,
                                        loaded := k.loaded || (k.toDB != 0 && k.toDB <= k.delivered + 1)))
  {
    run', steps' := Next(h, run, steps, Complete(NoLot));
  }

  lemma DoCrash(h: Handlers, run: seq<Machine>, steps: seq<Step>, k: Skeleton) returns (run': seq<Machine>, steps': seq<Step>)
    requires Reaches(h, run, steps, k) && k.up
    ensures steps' == steps + [Crash] && run <= run' && |run'| == |run| + 1 && run'[|run|].node.disk == run[|steps|].node.disk
    ensures Reaches(h, run', steps', k.(up := false, delivered := 0, inFlight := false, toDB := 0, loaded := false))
  {
    run', steps' := Next(h, run, steps, Crash);
  }

  // ---- the two runs every log of commands has ----

  function EntryAt(log: seq<Entry>, i: nat): Entry
    requires 1 <= i <= |log|
  {
    log[i - 1]
  }

  function LogMap(log: seq<Entry>): map<nat, Entry> {
    map i: nat | 1 <= i <= |log| :: EntryAt(log, i)
  }

  predicate AllCommands(log: seq<Entry>) {
    forall i :: 0 <= i < |log| ==> log[i].kind.Command?
  }

  /** The skeleton after delivering up to n, with the last command still under way or
      not. */
  function Delivered(k: Skeleton, n: nat): Skeleton {
    k.(delivered := n, peak := Max(k.peak, n), loaded := k.loaded || (k.delivered < n && k.toDB != 0 && k.toDB <= n))
  }

  function Delivering(k: Skeleton, n: nat): Skeleton
    requires n > 0
  {
    Delivered(k, n - 1).(inFlight := true, peak := Max(k.peak, n))
  }

  predicate Deliverables(k: Skeleton, n: nat) {
    && k.up && !k.inFlight && k.delivered <= k.peak && k.delivered <= n <= |k.committed| && k.staged == map[]
    && forall i :: k.delivered < i <= n ==> i in k.log && k.log[i] == k.committed[i - 1] && k.log[i].kind.Command?
  }

  /** run' goes on from run by commands alone. */
  ghost predicate Extends(run: seq<Machine>, steps: seq<Step>, run': seq<Machine>, steps': seq<Step>) {
    && |run| == |steps| + 1 && |run'| == |steps'| + 1 && run <= run' && steps <= steps'
    && forall j :: |steps| <= j < |steps'| ==> steps'[j].Perform? || steps'[j].Complete?
  }

  lemma DeliverOne(h: Handlers, run: seq<Machine>, steps: seq<Step>, k: Skeleton) returns (run': seq<Machine>, steps': seq<Step>)
    requires Willing(h) && Reaches(h, run, steps, k) && Deliverables(k, k.delivered + 1)
    ensures steps' == steps + [Perform, Complete(NoLot)] && run <= run' && |run'| == |run| + 2
    ensures Reaches(h, run', steps', Delivered(k, k.delivered + 1)) && Has(run'[|run|], Delivering(k, k.delivered + 1))
  {
    run', steps' := DoPerform(h, run, steps, k);
    assert Performed(k) == Delivering(k, k.delivered + 1);
    run', steps' := DoComplete(h, run', steps', Delivering(k, k.delivered + 1));
  }

  lemma DeliverMore(h: Handlers, run: seq<Machine>, steps: seq<Step>, mid: seq<Machine>, sofar: seq<Step>, k: Skeleton, n: nat)
    returns (run': seq<Machine>, steps': seq<Step>)
    requires Willing(h) && Deliverables(k, n) && k.delivered < n
    requires Extends(run, steps, mid, sofar) && Reaches(h, mid, sofar, Delivered(k, n - 1))
    ensures Extends(run, steps, run', steps') && Reaches(h, run', steps', Delivered(k, n))
    ensures |steps'| > |steps| && steps'[|steps'| - 1] == Complete(NoLot) && Has(run'[|steps'| - 1], Delivering(k, n))
  {
    run', steps' := DeliverOne(h, mid, sofar, Delivered(k, n - 1));
    assert Delivered(Delivered(k, n - 1), n) == Delivered(k, n);
    assert Delivering(Delivered(k, n - 1), n) == Delivering(k, n);
    assert forall j :: 0 <= j < |sofar| ==> steps'[j] == sofar[j];
  }

  lemma {:induction false} Deliver(h: Handlers, run: seq<Machine>, steps: seq<Step>, k: Skeleton, n: nat)
    returns (run': seq<Machine>, steps': seq<Step>)
    requires Willing(h) && Reaches(h, run, steps, k) && Deliverables(k, n)
    ensures Extends(run, steps, run', steps') && Reaches(h, run', steps', Delivered(k, n))
    ensures k.delivered < n ==>
              |steps'| > |steps| && steps'[|steps'| - 1] == Complete(NoLot) && Has(run'[|steps'| - 1], Delivering(k, n))
    decreases n
  {
    if k.delivered == n {
      assert Delivered(k, n) == k;
      run', steps' := run, steps;
    } else {
      run', steps' := Deliver(h, run, steps, k, n - 1);
      run', steps' := DeliverMore(h, run, steps, run', steps', k, n);
    }
  }

  /** A command that keeps the database in step whatever is on disk. */
  ghost predicate Harmless(h: Handlers, log: seq<Entry>, i: nat)
    requires 1 <= i <= |log|
  {
    var s := StateAt(h, log, i - 1);
    match log[i - 1].req
    case AddClass(c, _, _) => Owner(s.classes, Fold(c)).None?
    case DeleteClass(c) => c in s.classes
    case AddTenants(_, _, _) => true
    case UpdateTenants(_, _, _) => true
    case DeleteTenants(_, names) => names != []
    case _ => false
  }

  lemma HarmlessStep(h: Handlers, m: Machine, id: string)
    requires Inv(h, m) && Up(m) && Allowed(h, m, Perform) && Harmless(h, m.committed, m.delivered + 1)
    ensures !StepBreaks(h, m, Perform, id) && !StepUpsets(h, m, Perform, id)
  {
  }

  ghost predicate AllInStep(m: Machine) {
    Up(m) && forall id :: InStepAt(m, id)
  }

  lemma HarmlessRunStep(h: Handlers, run: seq<Machine>, steps: seq<Step>, j: nat)
    requires IsRun(h, run, steps) && j < |steps| && AllInStep(run[j])
    requires match steps[j]
             case Perform => Harmless(h, run[j].committed, run[j].delivered + 1)
             case Complete(_) => true
             case Commit(_) => true
             case Replicate(_) => true
             case _ => false
    ensures AllInStep(run[j + 1])
  {
    RunKeepsInv(h, run, steps, j);
    RunStep(h, run, steps, j, "");
    var m' := run[j + 1];
    forall id ensures InStepAt(m', id) {
      RunStep(h, run, steps, j, id);
      if steps[j].Perform? {
        HarmlessStep(h, run[j], id);
      }
    }
  }

  ghost predicate AllHarmless(h: Handlers, log: seq<Entry>) {
    forall i :: 1 <= i <= |log| ==> Harmless(h, log, i)
  }

  lemma CommandsKeepCommitted(h: Handlers, m: Machine, step: Step)
    requires Allowed(h, m, step) && (step.Perform? || step.Complete?)
    ensures Do(h, m, step).committed == m.committed && (step.Perform? ==> m.delivered < |m.committed|)
  {
  }

  lemma {:induction false} HarmlessAlong(h: Handlers, run: seq<Machine>, steps: seq<Step>, a: nat, b: nat)
    requires IsRun(h, run, steps) && a <= b <= |steps| && AllInStep(run[a]) && AllHarmless(h, run[a].committed)
    requires forall j :: a <= j < b ==> steps[j].Perform? || steps[j].Complete?
    ensures AllInStep(run[b]) && run[b].committed == run[a].committed
    decreases b
  {
    if a < b {
      HarmlessAlong(h, run, steps, a, b - 1);
      CommandsKeepCommitted(h, run[b - 1], steps[b - 1]);
      HarmlessRunStep(h, run, steps, b - 1);
    }
  }

  /** A node that has applied the whole log live and is running. */
  function LiveAt(log: seq<Entry>): Skeleton {
    Skeleton(log, LogMap(log), true, |log|, false, |log|, map[], multiset{}, 0, true, map[], false)
  }

  lemma StartsInStep(h: Handlers)
    ensures Allowed(h, Blank, Reopen(0, false, NoLot)) && AllInStep(Do(h, Blank, Reopen(0, false, NoLot)))
  {
    var m := Do(h, Blank, Reopen(0, false, NoLot));
    forall id ensures InStepAt(m, id) {
    }
  }

  /** An empty node opens and is given a log. */
  lemma Opening(h: Handlers, log: seq<Entry>) returns (run: seq<Machine>, steps: seq<Step>)
    requires AllCommands(log)
    ensures Reaches(h, run, steps, Skeleton(log, LogMap(log), true, 0, false, 0, map[], multiset{}, 0, true, map[], false))
    ensures |steps| == 3 && AllInStep(run[3])
  {
    run, steps := [Blank], [];
    run, steps := DoReopen(h, run, steps, Start, 0);
    StartsInStep(h);
    var k := Start.(up := true, loaded := true);
    run, steps := DoCommit(h, run, steps, k, log);
    assert [] + log == log;
    HarmlessRunStep(h, run, steps, 1);
    run, steps := DoReplicate(h, run, steps, k.(committed := log), LogMap(log));
    HarmlessRunStep(h, run, steps, 2);
  }

  /** Every log of harmless commands has a run that applies it live, and at its end the
      database is in step with the schema everywhere. */
  lemma Live(h: Handlers, log: seq<Entry>) returns (run: seq<Machine>, steps: seq<Step>)
    requires Willing(h) && AllCommands(log) && AllHarmless(h, log)
    ensures Reaches(h, run, steps, LiveAt(log)) && AllInStep(run[|steps|])
  {
    var prefix, first := Opening(h, log);
    var k := Skeleton(log, LogMap(log), true, 0, false, 0, map[], multiset{}, 0, true, map[], false);
    run, steps := Deliver(h, prefix, first, k, |log|);
    assert Delivered(k, |log|) == LiveAt(log);
    assert run[3] == prefix[3];
    HarmlessAlong(h, run, steps, 3, |steps|);
  }

  /** The node loads at the last step, having replayed all of log on what a process
      left that had applied d entries. */
  ghost predicate AboutToLoad(h: Handlers, run: seq<Machine>, steps: seq<Step>, log: seq<Entry>, d: nat) {
    && IsRun(h, run, steps) && |steps| > 0 && steps[|steps| - 1] == Complete(NoLot) && 0 < d <= |log|
    && var m, m' := run[|steps| - 1], run[|steps|];
       && Loads(m, m') && m'.committed == log && m'.delivered == |log| && !m'.session.adopted && m'.up && !m'.inFlight
       && m.session.skips == map[] && m.session.base == 0 && m.inFlight && m.delivered + 1 == |log| && m.node.toDB == |log|
       && m.committed == log
       && forall id :: AgreesAt(m'.session.found, StateAt(h, log, d).classes, id)
  }

  lemma Restarts(h: Handlers, log: seq<Entry>, d: nat) returns (run: seq<Machine>, steps: seq<Step>)
    requires Willing(h) && AllCommands(log) && 0 < d <= |log| && AllHarmless(h, log[..d])
    ensures AboutToLoad(h, run, steps, log, d)
  {
    run, steps := Live(h, log[..d]);
    var k := LiveAt(log[..d]);
    FoundAgrees(h, run, steps, log, d);
    var disk := run[|steps|].node.disk;
    run, steps := DoCommit(h, run, steps, k, log[d..]);
    assert log[..d] + log[d..] == log;
    k := k.(committed := log);
    run, steps := DoReplicate(h, run, steps, k, LogMap(log));
    k := k.(log := LogMap(log));
    assert run[|steps|].node.disk == disk;
    run, steps := DoCrash(h, run, steps, k);
    k := k.(up := false, delivered := 0, toDB := 0, loaded := false);
    run, steps := DoReopen(h, run, steps, k, |log|);
    k := k.(up := true, toDB := |log|, loaded := false, adopted := false, found := disk);
    run, steps := Deliver(h, run, steps, k, |log|);
  }

  /** What such a node ends with. */
  ghost predicate LoadedAs(h: Handlers, log: seq<Entry>, d: nat, found: Disk, n: Node) {
    && d <= |log| && n.dbLoaded && n.fsm == StateAt(h, log, |log|)
    && forall id :: LoadedIndex(h, log, d, found, n, id)
  }

  ghost predicate LoadedIndex(h: Handlers, log: seq<Entry>, d: nat, found: Disk, n: Node, id: string)
    requires d <= |log|
  {
    var classes, gone := n.fsm.classes, Recorded(h, log, map[], 0, |log|);
    && AgreesAt(found, StateAt(h, log, d).classes, id)
    && (FollowsAt(n.open, classes, id) <==> !Shared(classes, id) && (Owner(classes, id).None? || !Hits(gone, classes, id)))
    && (AgreesAt(n.disk, classes, id) <==>
          && !Shared(classes, id)
          && if Hits(gone, classes, id) then NoneHot(classes, Owner(classes, id))
             else forall x :: Dir(id, x) in found ==> Kept(classes, id, x, d))
  }

  lemma LoadVerdict(h: Handlers, run: seq<Machine>, steps: seq<Step>, log: seq<Entry>, d: nat, id: string)
    requires AboutToLoad(h, run, steps, log, d)
    ensures run[|steps|].node.fsm == StateAt(h, log, |log|)
    ensures LoadedIndex(h, log, d, run[|steps|].session.found, run[|steps|].node, id)
  {
    var k := |steps| - 1;
    RunKeepsInv(h, run, steps, k + 1);
    LoadFollowsIff(h, run, steps, k, id);
    RestartAgreesIff(h, run, steps, k, d, id);
    assert Gone(h, run[k], steps[k]) == Recorded(h, log, map[], 0, |log|);
  }

  /** The node dies after d entries, finds the rest in its log when it opens again,
      replays everything and loads. */
  lemma Restarted(h: Handlers, log: seq<Entry>, d: nat) returns (run: seq<Machine>, steps: seq<Step>)
    requires Willing(h) && AllCommands(log) && 0 < d <= |log| && AllHarmless(h, log[..d])
    ensures IsRun(h, run, steps) && LoadedAs(h, log, d, run[|steps|].session.found, run[|steps|].node)
  {
    run, steps := Restarts(h, log, d);
    var found, n := run[|steps|].session.found, run[|steps|].node;
    LoadVerdict(h, run, steps, log, d, "");
    forall id ensures LoadedIndex(h, log, d, found, n, id) {
      LoadVerdict(h, run, steps, log, d, id);
    }
  }

  lemma FoundAgrees(h: Handlers, run: seq<Machine>, steps: seq<Step>, log: seq<Entry>, d: nat)
    requires d <= |log| && Reaches(h, run, steps, LiveAt(log[..d])) && AllInStep(run[|steps|])
    ensures forall id :: AgreesAt(run[|steps|].node.disk, StateAt(h, log, d).classes, id)
  {
    var m := run[|steps|];
    RunKeepsInv(h, run, steps, |steps|);
    PrefixDeterminesState(h, log[..d], log, d);
    forall id ensures AgreesAt(m.node.disk, StateAt(h, log, d).classes, id) {
      assert InStepAt(m, id);
    }
  }

  /** A node in step that has applied log, and what one more command makes of it. */
  ghost predicate OneMore(h: Handlers, log: seq<Entry>, r: Request, n: Node, n': Node) {
    && n.fsm == StateAt(h, log, |log|) && !CatchingUp(n, |log| + 1) && n' == Effect(h, n, r, |log| + 1)
    && forall id :: FollowsAt(n.open, n.fsm.classes, id) && AgreesAt(n.disk, n.fsm.classes, id)
  }

  /** The node applies one more command live. */
  lemma Continued(h: Handlers, log: seq<Entry>, e: Entry) returns (run: seq<Machine>, steps: seq<Step>)
    requires Willing(h) && AllCommands(log) && AllHarmless(h, log) && e.kind.Command?
    ensures IsRun(h, run, steps) && |steps| > 0 && steps[|steps| - 1] == Perform
    ensures OneMore(h, log, e.req, run[|steps| - 1].node, run[|steps|].node)
  {
    run, steps := Live(h, log);
    var k := LiveAt(log);
    run, steps := DoCommit(h, run, steps, k, [e]);
    HarmlessRunStep(h, run, steps, |steps| - 1);
    k := k.(committed := log + [e]);
    run, steps := DoReplicate(h, run, steps, k, LogMap(log + [e]));
    HarmlessRunStep(h, run, steps, |steps| - 1);
    run, steps := DoPerform(h, run, steps, k.(log := LogMap(log + [e])));
    OneMoreCommand(h, run, steps, log, e);
  }

  lemma OneMoreCommand(h: Handlers, run: seq<Machine>, steps: seq<Step>, log: seq<Entry>, e: Entry)
    requires IsRun(h, run, steps) && |steps| > 0 && steps[|steps| - 1] == Perform
    requires var m := run[|steps| - 1]; AllInStep(m) && m.committed == log + [e] && m.delivered == |log| && !m.inFlight
    ensures OneMore(h, log, e.req, run[|steps| - 1].node, run[|steps|].node)
  {
    var m := run[|steps| - 1];
    RunKeepsInv(h, run, steps, |steps| - 1);
    LivePerform(h, m);
    BeforeLast(h, m, log, e);
    forall id ensures FollowsAt(m.node.open, m.node.fsm.classes, id) && AgreesAt(m.node.disk, m.node.fsm.classes, id) {
      assert InStepAt(m, id);
    }
  }

  /** The state before the last entry of a log does not depend on that entry. */
  lemma BeforeLast(h: Handlers, m: Machine, log: seq<Entry>, e: Entry)
    requires Inv(h, m) && m.up && !m.inFlight && m.committed == log + [e] && m.delivered == |log|
    ensures m.node.fsm == StateAt(h, log, |log|)
  {
    assert (log + [e])[..|log|] == log[..|log|];
    PrefixDeterminesState(h, log + [e], log, |log|);
  }

  /** A node in step that has applied d entries, and what installing a snapshot of all
      of log makes of it. */
  ghost predicate Jumps(h: Handlers, log: seq<Entry>, d: nat, n: Node, n': Node) {
    && d <= |log| && n.fsm == StateAt(h, log, d) && n'.fsm == StateAt(h, log, |log|) && n.orphans == {}
    && ReloadsTo(Restored(n, StateAt(h, log, |log|)), n', NoLot)
    && forall id :: FollowsAt(n.open, n.fsm.classes, id) && AgreesAt(n.disk, n.fsm.classes, id)
  }

  /** A running node in step is sent a snapshot of a longer log and installs it. */
  lemma InstallOn(h: Handlers, run: seq<Machine>, steps: seq<Step>, k: Skeleton, rest: seq<Entry>)
    returns (run': seq<Machine>, steps': seq<Step>)
    requires Reaches(h, run, steps, k) && AllInStep(run[|steps|]) && rest != []
    requires k.up && !k.inFlight && k.delivered == |k.committed|
    ensures IsRun(h, run', steps') && |steps'| > 0
    ensures Jumps(h, k.committed + rest, |k.committed|, run'[|steps'| - 1].node, run'[|steps'|].node)
    ensures run'[|steps'| - 1].node.disk == run[|steps|].node.disk
    ensures steps'[|steps'| - 1] == InstallCut(NoLot) && run'[|steps'| - 1].up && run'[|steps'| - 1].delivered == |k.committed|
    ensures SnapIndex(run'[|steps'| - 1].snap) == |k.committed + rest|
  {
    var disk, log, d := run[|steps|].node.disk, k.committed + rest, |k.committed|;
    run', steps' := DoCommit(h, run, steps, k, rest);
    HarmlessRunStep(h, run', steps', |steps'| - 1);
    assert run'[|steps'|].node.disk == disk;
    run', steps' := DoReceive(h, run', steps', k.(committed := log), |log|);
    RunKeepsInv(h, run', steps', |steps'|);
    InstallJumps(h, run'[|steps'|], log, d);
    run', steps' := Next(h, run', steps', InstallCut(NoLot));
  }

  lemma Installed(h: Handlers, log: seq<Entry>, d: nat) returns (run: seq<Machine>, steps: seq<Step>)
    requires Willing(h) && AllCommands(log) && d < |log| && AllHarmless(h, log[..d])
    ensures IsRun(h, run, steps) && |steps| > 0 && Jumps(h, log, d, run[|steps| - 1].node, run[|steps|].node)
  {
    run, steps := Live(h, log[..d]);
    assert log[..d] + log[d..] == log;
    run, steps := InstallOn(h, run, steps, LiveAt(log[..d]), log[d..]);
  }

  lemma InstallJumps(h: Handlers, m: Machine, log: seq<Entry>, d: nat)
    requires Inv(h, m) && AllInStep(m) && m.committed == log && m.delivered == d && SnapIndex(m.snap) == |log|
    requires !m.inFlight && m.restoring && m.snap.Some?
    ensures Allowed(h, m, InstallCut(NoLot)) && Jumps(h, log, d, m.node, Do(h, m, InstallCut(NoLot)).node)
  {
    InstallStep(h, m, NoLot);
    InstallReachesCut(h, log, d, |log|);
    forall id ensures FollowsAt(m.node.open, m.node.fsm.classes, id) && AgreesAt(m.node.disk, m.node.fsm.classes, id) {
      assert InStepAt(m, id);
    }
  }

  lemma DoReceive(h: Handlers, run: seq<Machine>, steps: seq<Step>, k: Skeleton, s: nat) returns (run': seq<Machine>, steps': seq<Step>)
    requires Reaches(h, run, steps, k) && k.up && !k.inFlight && k.delivered <= s <= |k.committed| && 0 < s
    requires AllInStep(run[|steps|])
    ensures IsRun(h, run', steps') && |run'| == |run| + 1
    ensures var m := run'[|run|];
            && m.committed == k.committed && m.delivered == k.delivered && SnapIndex(m.snap) == s && m.snap.Some?
            && m.restoring && m.up && !m.inFlight && AllInStep(m) && m.node.disk == run[|steps|].node.disk
  {
    run', steps' := Next(h, run, steps, Receive(s));
    var m, m' := run[|steps|], run'[|run|];
    forall id ensures InStepAt(m', id) {
      assert InStepAt(m, id);
    }
  }
}
