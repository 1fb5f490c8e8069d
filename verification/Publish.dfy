/** The index a node publishes, which readers wait on: at every point of every run the
    greatest command it has applied since it opened, or the snapshot it opened on. */
module Publish {
  import opened Fsm
  import opened Node
  import opened LogScan
  import opened NodeRun
  import opened Scenarios

  predicate IsCommand(log: seq<Entry>, v: int) {
    1 <= v <= |log| && log[v - 1].kind.Command?
  }

  /** Entry v was jumped over by the install of a snapshot. */
  predicate Skipped(skips: map<nat, nat>, v: int) {
    exists s :: s in skips && skips[s] < v <= s
  }

  /** The process applied command v itself, on its way from base to j. */
  predicate Applied(log: seq<Entry>, skips: map<nat, nat>, base: nat, j: nat, v: int) {
    base < v <= j && IsCommand(log, v) && !Skipped(skips, v)
  }

  ghost predicate IsPublished(log: seq<Entry>, skips: map<nat, nat>, base: nat, j: nat, p: nat) {
    && base <= p && (p == base || Applied(log, skips, base, j, p))
    && forall v :: Applied(log, skips, base, j, v) ==> v <= p
  }

  predicate InOrder(skips: map<nat, nat>, base: nat, j: nat) {
    forall s :: s in skips ==> base <= skips[s] < s <= j
  }

  ghost predicate PubInv(m: Machine) {
    m.up ==>
      && m.session.base <= m.delivered <= |m.committed|
      && (m.inFlight ==> IsCommand(m.committed, m.delivered + 1))
      && InOrder(m.session.skips, m.session.base, m.delivered)
      && IsPublished(m.committed, m.session.skips, m.session.base, m.delivered, m.node.published)
  }

  /** The next command is applied. */
  lemma AppliedNext(log: seq<Entry>, skips: map<nat, nat>, base: nat, j: nat, p: nat)
    requires InOrder(skips, base, j) && IsPublished(log, skips, base, j, p) && base <= j && IsCommand(log, j + 1)
    ensures IsPublished(log, skips, base, j + 1, j + 1)
  {
  }

  /** An entry that is no command goes by. */
  lemma PassedNext(log: seq<Entry>, skips: map<nat, nat>, base: nat, j: nat, p: nat)
    requires IsPublished(log, skips, base, j, p) && !IsCommand(log, j + 1)
    ensures IsPublished(log, skips, base, j + 1, p)
  {
    var next := j + 1;
    forall v ensures Applied(log, skips, base, next, v) <==> Applied(log, skips, base, j, v) {
    }
  }

  /** Entries up to s are jumped over. */
  lemma JumpedTo(log: seq<Entry>, skips: map<nat, nat>, base: nat, j: nat, s: nat, p: nat)
    requires InOrder(skips, base, j) && IsPublished(log, skips, base, j, p) && base <= j < s
    ensures InOrder(skips[s := j], base, s) && IsPublished(log, skips[s := j], base, s, p)
  {
    var skips' := skips[s := j];
    forall v ensures Applied(log, skips', base, s, v) <==> Applied(log, skips, base, j, v) {
      if v <= j {
        assert Skipped(skips', v) <==> Skipped(skips, v) by {
          if t :| t in skips' && skips'[t] < v <= t {
            assert t in skips && skips[t] < v <= t;
          }
          if t :| t in skips && skips[t] < v <= t {
            assert t in skips' && skips'[t] < v <= t;
          }
        }
      } else if v <= s {
        assert s in skips' && skips'[s] < v <= s;
      }
    }
  }

  lemma Extended(a: seq<Entry>, b: seq<Entry>, skips: map<nat, nat>, base: nat, j: nat, p: nat)
    requires a <= b && j <= |a| && IsPublished(a, skips, base, j, p)
    ensures IsPublished(b, skips, base, j, p)
  {
    forall v ensures Applied(b, skips, base, j, v) <==> Applied(a, skips, base, j, v) {
    }
  }

  lemma OpensPublished(log: seq<Entry>, base: nat)
    ensures IsPublished(log, map[], base, base, base)
  {
  }

  // What each step does to the published index.

  lemma CompleteFields(h: Handlers, m: Machine, lot: Lot)
    requires Allowed(h, m, Complete(lot))
    ensures var m' := Do(h, m, Complete(lot));
            && m'.up == m.up && m'.committed == m.committed && m'.session == m.session && !m'.inFlight
            && m'.delivered == m.delivered + 1 && m'.node.published == m.delivered + 1
  {
  }

  lemma InstallFields(h: Handlers, m: Machine, lot: Lot)
    requires Allowed(h, m, InstallCut(lot))
    ensures var m', s := Do(h, m, InstallCut(lot)), SnapIndex(m.snap);
            && m'.up == m.up && m'.committed == m.committed && m'.inFlight == m.inFlight && m'.delivered == s
            && m'.session.base == m.session.base && m'.node.published == m.node.published
            && m'.session.skips == (if s == m.delivered then m.session.skips else m.session.skips[s := m.delivered])
  {
  }

  lemma PerformFields(h: Handlers, m: Machine)
    requires Allowed(h, m, Perform)
    ensures var m' := Do(h, m, Perform);
            && m'.up == m.up && m'.committed == m.committed && m'.inFlight && m'.delivered == m.delivered
            && m'.session.base == m.session.base && m'.session.skips == m.session.skips && m'.node.published == m.node.published
            && IsCommand(m.committed, m.delivered + 1)
  {
  }

  lemma ReopenFields(h: Handlers, m: Machine, b: nat, fails: bool, lot: Lot)
    requires Allowed(h, m, Reopen(b, fails, lot))
    ensures var m', s := Do(h, m, Reopen(b, fails, lot)), SnapIndex(m.snap);
            && m'.committed == m.committed && m'.inFlight == m.inFlight && m'.delivered == s
            && m'.session.base == s && m'.session.skips == map[] && m'.node.published == s
  {
  }

  lemma OtherFields(h: Handlers, m: Machine, step: Step)
    requires Allowed(h, m, step) && m.up
    requires !step.Complete? && !step.InstallCut? && !step.Perform? && !step.Crash? && !step.Reopen?
    ensures var m' := Do(h, m, step);
            && m'.up && m.committed <= m'.committed && m'.inFlight == m.inFlight && m'.session == m.session
            && m'.node.published == m.node.published
            && (if step.Skip? then m'.committed == m.committed && m'.delivered == m.delivered + 1
                                   && !IsCommand(m.committed, m.delivered + 1) && m.delivered < |m.committed|
                else m'.delivered == m.delivered)
  {
  }

  lemma StepKeepsPub(h: Handlers, m: Machine, step: Step)
    requires Inv(h, m) && PubInv(m) && Allowed(h, m, step)
    ensures PubInv(Do(h, m, step))
  {
    var log, skips, base, p := m.committed, m.session.skips, m.session.base, m.node.published;
    match step {
      case Complete(lot) =>
        CompleteFields(h, m, lot);
        AppliedNext(log, skips, base, m.delivered, p);
      case InstallCut(lot) =>
        InstallPub(h, m, lot);
      case Perform =>
        PerformFields(h, m);
      case Crash =>
      case Reopen(b, fails, lot) =>
        ReopenPub(h, m, b, fails, lot);
      case _ =>
        OtherPub(h, m, step);
    }
  }

  lemma InstallPub(h: Handlers, m: Machine, lot: Lot)
    requires Inv(h, m) && PubInv(m) && Allowed(h, m, InstallCut(lot))
    ensures PubInv(Do(h, m, InstallCut(lot)))
  {
    InstallFields(h, m, lot);
    if m.delivered < SnapIndex(m.snap) {
      JumpedTo(m.committed, m.session.skips, m.session.base, m.delivered, SnapIndex(m.snap), m.node.published);
    }
  }

  lemma ReopenPub(h: Handlers, m: Machine, b: nat, fails: bool, lot: Lot)
    requires Inv(h, m) && Allowed(h, m, Reopen(b, fails, lot))
    ensures PubInv(Do(h, m, Reopen(b, fails, lot)))
  {
    ReopenFields(h, m, b, fails, lot);
    OpensPublished(m.committed, SnapIndex(m.snap));
  }

  lemma OtherPub(h: Handlers, m: Machine, step: Step)
    requires PubInv(m) && Allowed(h, m, step)
    requires !step.Complete? && !step.InstallCut? && !step.Perform? && !step.Crash? && !step.Reopen?
    ensures PubInv(Do(h, m, step))
  {
    if m.up {
      OtherFields(h, m, step);
      var m' := Do(h, m, step);
      if step.Skip? {
        PassedNext(m.committed, m.session.skips, m.session.base, m.delivered, m.node.published);
      } else {
        Extended(m.committed, m'.committed, m.session.skips, m.session.base, m.delivered, m.node.published);
      }
    }
  }

  /** At every point of every run of a node: what it publishes is the greatest command it
      has applied since it opened, or else the index of the snapshot it opened on. */
  lemma {:induction false} PublishedIsLastApplied(h: Handlers, run: seq<Machine>, steps: seq<Step>, k: nat)
    requires IsRun(h, run, steps) && k < |run|
    ensures PubInv(run[k])
  {
    if k > 0 {
      PublishedIsLastApplied(h, run, steps, k - 1);
      RunKeepsInv(h, run, steps, k - 1);
      StepKeepsPub(h, run[k - 1], steps[k - 1]);
    }
  }

  lemma PublishingStep(h: Handlers, m: Machine, step: Step)
    requires PubInv(m) && Allowed(h, m, step) && m.up && !step.Crash?
    ensures Do(h, m, step).up && Do(h, m, step).node.published >= m.node.published
  {
    match step {
      case Complete(lot) => CompleteFields(h, m, lot);
      case InstallCut(lot) => InstallFields(h, m, lot);
      case Perform => PerformFields(h, m);
      case _ => OtherFields(h, m, step);
    }
  }

  /** Read your writes: the version that Apply answered is published when Apply returns,
      and stays reached at every later point of the process. */
  lemma {:induction false} AnsweredStaysReached(h: Handlers, run: seq<Machine>, steps: seq<Step>, k: nat, j: nat)
    requires IsRun(h, run, steps) && k < j < |run| && steps[k].Complete? && forall i :: k < i < j ==> !steps[i].Crash?
    ensures run[k + 1].node.published == run[k + 1].delivered == run[k].delivered + 1
    ensures run[j].up && run[j].node.published >= run[k].delivered + 1
    decreases j
  {
    PublishedIsLastApplied(h, run, steps, j - 1);
    if j == k + 1 {
      CompleteFields(h, run[k], steps[k].lot);
    } else {
      AnsweredStaysReached(h, run, steps, k, j - 1);
      PublishingStep(h, run[j - 1], steps[j - 1]);
    }
  }

  /** Every command of the prefix a node holds is published. */
  ghost predicate AllPublished(m: Machine) {
    forall v :: v <= m.delivered && IsCommand(m.committed, v) ==> v <= m.node.published
  }

  /** A command lies among the entries an install jumped over to s. */
  predicate JumpsCommand(log: seq<Entry>, from: nat, s: nat) {
    exists v :: from < v <= s && IsCommand(log, v)
  }

  /** At every point of every run: what the node holds is all published if and only if
      every install that jumped over a command was followed by a command. */
  lemma AllPublishedIff(h: Handlers, run: seq<Machine>, steps: seq<Step>, k: nat)
    requires IsRun(h, run, steps) && k < |run| && run[k].up
    ensures var m := run[k]; var skips := m.session.skips;
            AllPublished(m) <==>
              forall s :: s in skips && JumpsCommand(m.committed, skips[s], s) ==>
                exists w :: s < w && Applied(m.committed, skips, m.session.base, m.delivered, w)
  {
    PublishedIsLastApplied(h, run, steps, k);
    var m := run[k];
    var log, skips, base, p := m.committed, m.session.skips, m.session.base, m.node.published;
    if AllPublished(m) {
      forall s | s in skips && JumpsCommand(log, skips[s], s) ensures exists w :: s < w && Applied(log, skips, base, m.delivered, w) {
        var v :| skips[s] < v <= s && IsCommand(log, v);
        assert v <= p && p != base;
        assert !(skips[s] < p <= s);
        assert s < p;
      }
    } else {
      var v :| v <= m.delivered && IsCommand(log, v) && p < v;
      assert !Applied(log, skips, base, m.delivered, v) && Skipped(skips, v);
      var s :| s in skips && skips[s] < v <= s;
      assert JumpsCommand(log, skips[s], s);
      assert forall w :: Applied(log, skips, base, m.delivered, w) ==> w <= p;
    }
  }

  /** Without installs everything is published. */
  lemma NoInstallAllPublished(h: Handlers, run: seq<Machine>, steps: seq<Step>, k: nat)
    requires IsRun(h, run, steps) && k < |run| && run[k].up && run[k].session.skips == map[]
    ensures AllPublished(run[k])
  {
    AllPublishedIff(h, run, steps, k);
  }

  const Noted: seq<Entry> := [Entry(Command, 1, 0, ClusterIDSet("x"))]

  /** A run in which a node holds a command that it has not published, so that whoever
      waits for that version waits until the next command: it came with a snapshot. */
  lemma InstallHidesVersion(h: Handlers) returns (run: seq<Machine>, steps: seq<Step>)
    requires Willing(h)
    ensures IsRun(h, run, steps)
    ensures var m := run[|steps|];
            m.up && !m.inFlight && m.delivered == 1 && m.node.fsm.clusterID == "x" && m.node.published == 0
  {
    run, steps := Live(h, []);
    run, steps := InstallOn(h, run, steps, LiveAt([]), Noted);
    assert [] + Noted == Noted;
    Hidden(h, run, steps);
    NotedState(h);
  }

  lemma NotedState(h: Handlers)
    ensures StateAt(h, Noted, 1).clusterID == "x"
  {
    assert StateAt(h, Noted, 0) == Init;
    assert StateAt(h, Noted, 1) == Apply(h, Init, Noted[0].req, 1);
  }

  lemma Hidden(h: Handlers, run: seq<Machine>, steps: seq<Step>)
    requires IsRun(h, run, steps) && |steps| > 0 && steps[|steps| - 1] == InstallCut(NoLot)
    requires run[|steps| - 1].up && run[|steps| - 1].delivered == 0 && SnapIndex(run[|steps| - 1].snap) == 1
    ensures var m := run[|steps|]; m.up && !m.inFlight && m.delivered == 1 && m.node.published == 0
  {
    RunKeepsInv(h, run, steps, |steps| - 1);
    NothingPublished(h, run[|steps| - 1]);
  }

  lemma NothingPublished(h: Handlers, m: Machine)
    requires Inv(h, m) && Allowed(h, m, InstallCut(NoLot)) && m.delivered == 0 && SnapIndex(m.snap) == 1
    ensures var m' := Do(h, m, InstallCut(NoLot)); m'.up && !m'.inFlight && m'.delivered == 1 && m'.node.published == 0
  {
    Quiescent(h, m);
    InstallFields(h, m, NoLot);
  }

  lemma Quiescent(h: Handlers, m: Machine)
    requires Inv(h, m) && m.up && m.restoring
    ensures !m.inFlight && m.node.published <= m.delivered
  {
  }
}
