/** Every committed log a cluster can produce is good, on every run. */
module ClusterSafety {
  import opened Fsm
  import opened Cluster

  lemma GoodEntryOnPrefix(g: Rules, a: seq<Entry>, b: seq<Entry>, i: nat)
    requires 1 <= i <= |a| && a <= b && a[i - 1].kind.Command?
    ensures GoodEntry(g, a, i) <==> GoodEntry(g, b, i)
  {
    var j := a[i - 1].judged;
    if j < i {
      assert a[..j] == b[..j];
      PrefixDeterminesState(g.h, a, b, j);
    }
  }

  lemma GoodPrefix(g: Rules, a: seq<Entry>, b: seq<Entry>)
    requires a <= b && GoodLog(g, b)
    ensures GoodLog(g, a)
  {
    forall i | 0 <= i < |a| && a[i].kind.Command? ensures GoodEntry(g, a, i + 1) {
      assert b[i] == a[i];
      GoodEntryOnPrefix(g, a, b, i + 1);
    }
  }

  lemma GoodExtension(g: Rules, log: seq<Entry>, e: Entry)
    requires GoodLog(g, log)
    requires e.kind.Command? ==> GoodEntry(g, log + [e], |log| + 1)
    ensures GoodLog(g, log + [e])
  {
    var b := log + [e];
    forall i | 0 <= i < |b| && b[i].kind.Command? ensures GoodEntry(g, b, i + 1) {
      if i < |log| {
        assert log[i] == b[i];
        GoodEntryOnPrefix(g, log, b, i + 1);
      }
    }
  }

  /** What an append rests on: the judged prefix is part of the leader's own log,
      covers everything its term inherited, and every addition to its class. */
  lemma AppendedWasJudged(g: Rules, c: Cluster, p: nat)
    requires Inv(g, c) && CanAppend(g, c, p)
    ensures var q := c.proposals[p];
            var log, j := c.terms[q.phase.term].log, q.phase.prefix;
            && j <= |log| && j <= |c.committed| && log[..j] == c.committed[..j]
            && c.terms[q.phase.term].inherited <= j
            && g.passes(StateAt(g.h, c.committed, j), q.req)
            && (NeedsLock(g, q.req) ==> forall k :: 0 <= k < |log| && IsAdd(log[k], q.req.cls) ==> k < j)
  {
    var q := c.proposals[p];
    assert PhaseOk(g, q, c.leading, c.terms, At(c.current, q.node), At(c.applied, q.node), c.committed);
    assert LeaderOk(q.node, q.phase.term, c.terms[q.phase.term], At(c.current, q.node), At(c.applied, q.node),
                    c.committed, At(c.stamp, q.node));
    assert NeedsLock(g, q.req) ==> SeenAdds(q, c.leading, c.terms);
  }

  lemma InheritedEntriesAreOlder(terms: map<nat, TermLog>, current: map<nat, nat>, t: nat, log: seq<Entry>)
    requires TermsInv(terms, current) && Inherits(terms, t, log)
    ensures forall k :: 0 <= k < |log| ==> log[k].term < t
  {
    if log != [] {
      var t0 :| t0 in terms && t0 < t && log <= terms[t0].log;
      assert TermOk(t0, terms[t0], current);
    }
  }

  lemma ElectKeepsTerms(g: Rules, c: Cluster, n: nat, t: nat, log: seq<Entry>)
    requires TermsInv(c.terms, c.current) && CanElect(g, c, n, t, log)
    ensures var d := AfterElect(g, c, n, t, log); TermsInv(d.terms, d.current)
  {
    InheritedEntriesAreOlder(c.terms, c.current, t, log);
    var d := AfterElect(g, c, n, t, log);
    assert TermOk(t, d.terms[t], d.current);
    forall t' | t' in c.terms ensures TermOk(t', c.terms[t'], d.current) {
      assert TermOk(t', c.terms[t'], c.current);
    }
  }

  lemma ElectKeepsRaft(g: Rules, c: Cluster, n: nat, t: nat, log: seq<Entry>)
    requires RaftInv(c) && CallersInv(g, c) && CanElect(g, c, n, t, log)
    ensures var d := AfterElect(g, c, n, t, log); RaftInv(d)
  {
    ElectKeepsTerms(g, c, n, t, log);
    ElectKeepsBounds(g, c, n, t, log);
    ElectKeepsLeaders(g, c, n, t, log);
  }

  lemma ElectKeepsBounds(g: Rules, c: Cluster, n: nat, t: nat, log: seq<Entry>)
    requires RaftInv(c) && CanElect(g, c, n, t, log)
    ensures var d := AfterElect(g, c, n, t, log); BoundsInv(d.applied, d.committed, d.stamp, d.current)
  {
  }

  lemma ElectKeepsLeaders(g: Rules, c: Cluster, n: nat, t: nat, log: seq<Entry>)
    requires RaftInv(c) && CanElect(g, c, n, t, log)
    ensures var d := AfterElect(g, c, n, t, log); LeadersInv(d.leading, d.terms, d.current, d.applied, d.committed, d.stamp)
  {
  }

  lemma ElectKeepsBarriers(g: Rules, c: Cluster, n: nat, t: nat, log: seq<Entry>)
    requires RaftInv(c) && CallersInv(g, c) && CanElect(g, c, n, t, log)
    ensures var d := AfterElect(g, c, n, t, log); BarriersInv(d.barrier, d.proposals, d.terms, d.current)
  {
  }

  lemma ElectKeepsLocks(g: Rules, c: Cluster, n: nat, t: nat, log: seq<Entry>)
    requires RaftInv(c) && CallersInv(g, c) && CanElect(g, c, n, t, log)
    ensures var d := AfterElect(g, c, n, t, log); LocksInv(g, d.proposals, d.locks)
  {
  }

  lemma ElectKeepsPhases(g: Rules, c: Cluster, n: nat, t: nat, log: seq<Entry>)
    requires RaftInv(c) && CallersInv(g, c) && CanElect(g, c, n, t, log)
    ensures var d := AfterElect(g, c, n, t, log); PhasesInv(g, d.proposals, d.leading, d.terms, d.current, d.applied, d.committed)
  {
  }

  lemma ElectKeepsCallers(g: Rules, c: Cluster, n: nat, t: nat, log: seq<Entry>)
    requires RaftInv(c) && CallersInv(g, c) && CanElect(g, c, n, t, log)
    ensures var d := AfterElect(g, c, n, t, log); CallersInv(g, d)
  {
    ElectKeepsBarriers(g, c, n, t, log);
    ElectKeepsLocks(g, c, n, t, log);
    ElectKeepsPhases(g, c, n, t, log);
  }

  lemma ElectKeepsTenants(g: Rules, c: Cluster, n: nat, t: nat, log: seq<Entry>)
    requires RaftInv(c) && CallersInv(g, c) && TenantInv(g, c) && CanElect(g, c, n, t, log)
    ensures var d := AfterElect(g, c, n, t, log); TenantInv(g, d)
  {
  }

  lemma ElectKeepsLogs(g: Rules, c: Cluster, n: nat, t: nat, log: seq<Entry>)
    requires Inv(g, c) && CanElect(g, c, n, t, log)
    ensures var d := AfterElect(g, c, n, t, log); LogsInv(g, d.terms, d.committed)
  {
    if log != [] {
      var t0 :| t0 in c.terms && t0 < t && log <= c.terms[t0].log;
      GoodPrefix(g, log, c.terms[t0].log);
    }
  }

  lemma ElectKeeps(g: Rules, c: Cluster, n: nat, t: nat, log: seq<Entry>)
    requires Inv(g, c) && CanElect(g, c, n, t, log)
    ensures var d := AfterElect(g, c, n, t, log); Inv(g, d)
  {
    ElectKeepsRaft(g, c, n, t, log);
    ElectKeepsCallers(g, c, n, t, log);
    ElectKeepsTenants(g, c, n, t, log);
    ElectKeepsLogs(g, c, n, t, log);
  }

  lemma NewTermKeepsCallers(g: Rules, c: Cluster, n: nat, t: nat)
    requires RaftInv(c) && CallersInv(g, c) && CanNewTerm(g, c, n, t)
    ensures var d := AfterNewTerm(g, c, n, t); CallersInv(g, d)
  {
  }

  lemma NewTermKeeps(g: Rules, c: Cluster, n: nat, t: nat)
    requires Inv(g, c) && CanNewTerm(g, c, n, t)
    ensures var d := AfterNewTerm(g, c, n, t); Inv(g, d)
  {
    NewTermKeepsCallers(g, c, n, t);
  }

  lemma StepDownKeeps(g: Rules, c: Cluster, n: nat)
    requires Inv(g, c) && CanStepDown(g, c, n)
    ensures var d := AfterStepDown(g, c, n); Inv(g, d)
  {
  }

  lemma CrashKeepsBarriers(g: Rules, c: Cluster, n: nat, keeps: nat)
    requires RaftInv(c) && CallersInv(g, c) && CanCrash(g, c, n, keeps)
    ensures var d := AfterCrash(g, c, n, keeps); BarriersInv(d.barrier, d.proposals, d.terms, d.current)
  {
  }

  lemma CrashKeepsLocks(g: Rules, c: Cluster, n: nat, keeps: nat)
    requires RaftInv(c) && CallersInv(g, c) && CanCrash(g, c, n, keeps)
    ensures var d := AfterCrash(g, c, n, keeps); LocksInv(g, d.proposals, d.locks)
  {
  }

  lemma CrashKeepsPhases(g: Rules, c: Cluster, n: nat, keeps: nat)
    requires RaftInv(c) && CallersInv(g, c) && CanCrash(g, c, n, keeps)
    ensures var d := AfterCrash(g, c, n, keeps); PhasesInv(g, d.proposals, d.leading, d.terms, d.current, d.applied, d.committed)
  {
  }

  lemma CrashKeepsCallers(g: Rules, c: Cluster, n: nat, keeps: nat)
    requires RaftInv(c) && CallersInv(g, c) && CanCrash(g, c, n, keeps)
    ensures var d := AfterCrash(g, c, n, keeps); CallersInv(g, d)
  {
    CrashKeepsBarriers(g, c, n, keeps);
    CrashKeepsLocks(g, c, n, keeps);
    CrashKeepsPhases(g, c, n, keeps);
  }

  lemma CrashKeepsTenants(g: Rules, c: Cluster, n: nat, keeps: nat)
    requires RaftInv(c) && CallersInv(g, c) && TenantInv(g, c) && CanCrash(g, c, n, keeps)
    ensures var d := AfterCrash(g, c, n, keeps); TenantInv(g, d)
  {
  }

  lemma CrashKeeps(g: Rules, c: Cluster, n: nat, keeps: nat)
    requires Inv(g, c) && CanCrash(g, c, n, keeps)
    ensures var d := AfterCrash(g, c, n, keeps); Inv(g, d)
  {
    CrashKeepsCallers(g, c, n, keeps);
    CrashKeepsTenants(g, c, n, keeps);
  }

  lemma AppendOtherKeepsRaft(g: Rules, c: Cluster, n: nat, kind: Kind)
    requires RaftInv(c) && CallersInv(g, c) && CanAppendOther(g, c, n, kind)
    ensures var d := AfterAppendOther(g, c, n, kind); RaftInv(d)
  {
  }

  lemma AppendOtherKeepsCallers(g: Rules, c: Cluster, n: nat, kind: Kind)
    requires RaftInv(c) && CallersInv(g, c) && CanAppendOther(g, c, n, kind)
    ensures var d := AfterAppendOther(g, c, n, kind); CallersInv(g, d)
  {
  }

  lemma AppendOtherKeepsTenants(g: Rules, c: Cluster, n: nat, kind: Kind)
    requires RaftInv(c) && CallersInv(g, c) && TenantInv(g, c) && CanAppendOther(g, c, n, kind)
    ensures var d := AfterAppendOther(g, c, n, kind); TenantInv(g, d)
  {
  }

  lemma AppendOtherKeepsLogs(g: Rules, c: Cluster, n: nat, kind: Kind)
    requires Inv(g, c) && CanAppendOther(g, c, n, kind)
    ensures var d := AfterAppendOther(g, c, n, kind); LogsInv(g, d.terms, d.committed)
  {
    var t := c.leading[n];
    GoodExtension(g, c.terms[t].log, Entry(kind, t, 0, Unknown));
  }

  lemma AppendOtherKeeps(g: Rules, c: Cluster, n: nat, kind: Kind)
    requires Inv(g, c) && CanAppendOther(g, c, n, kind)
    ensures var d := AfterAppendOther(g, c, n, kind); Inv(g, d)
  {
    AppendOtherKeepsRaft(g, c, n, kind);
    AppendOtherKeepsCallers(g, c, n, kind);
    AppendOtherKeepsTenants(g, c, n, kind);
    AppendOtherKeepsLogs(g, c, n, kind);
  }

  lemma CommitKeepsCallers(g: Rules, c: Cluster, t: nat, k: nat)
    requires RaftInv(c) && CallersInv(g, c) && CanCommit(g, c, t, k)
    ensures var d := AfterCommit(g, c, t, k); CallersInv(g, d)
  {
    var d := AfterCommit(g, c, t, k);
    forall p | p in c.proposals && c.proposals[p].phase.Judged?
      ensures var j := c.proposals[p].phase.prefix;
              j <= |c.committed| && StateAt(g.h, d.committed, j) == StateAt(g.h, c.committed, j)
    {
      var j := c.proposals[p].phase.prefix;
      assert PhaseOk(g, c.proposals[p], c.leading, c.terms, At(c.current, c.proposals[p].node),
                     At(c.applied, c.proposals[p].node), c.committed);
      assert d.committed[..j] == c.committed[..j];
      PrefixDeterminesState(g.h, d.committed, c.committed, j);
    }
  }

  lemma CommitKeepsLogs(g: Rules, c: Cluster, t: nat, k: nat)
    requires Inv(g, c) && CanCommit(g, c, t, k)
    ensures var d := AfterCommit(g, c, t, k); LogsInv(g, d.terms, d.committed)
  {
    GoodPrefix(g, c.terms[t].log[..k], c.terms[t].log);
  }

  lemma CommitKeeps(g: Rules, c: Cluster, t: nat, k: nat)
    requires Inv(g, c) && CanCommit(g, c, t, k)
    ensures var d := AfterCommit(g, c, t, k); Inv(g, d)
  {
    CommitKeepsCallers(g, c, t, k);
    CommitKeepsLogs(g, c, t, k);
  }

  lemma AbsorbKeepsRaft(g: Rules, c: Cluster, n: nat)
    requires RaftInv(c) && CanAbsorb(g, c, n)
    ensures var d := AfterAbsorb(g, c, n); RaftInv(d)
  {
  }

  lemma AbsorbKeepsCallers(g: Rules, c: Cluster, n: nat)
    requires RaftInv(c) && CallersInv(g, c) && CanAbsorb(g, c, n)
    ensures var d := AfterAbsorb(g, c, n); CallersInv(g, d)
  {
  }

  lemma AbsorbKeeps(g: Rules, c: Cluster, n: nat)
    requires Inv(g, c) && CanAbsorb(g, c, n)
    ensures var d := AfterAbsorb(g, c, n); Inv(g, d)
  {
    AbsorbKeepsRaft(g, c, n);
    AbsorbKeepsCallers(g, c, n);
  }

  lemma CatchUpToKeepsRaft(g: Rules, c: Cluster, n: nat, k: nat)
    requires RaftInv(c) && CanCatchUpTo(g, c, n, k)
    ensures var d := AfterCatchUpTo(g, c, n, k); RaftInv(d)
  {
  }

  lemma CatchUpToKeepsCallers(g: Rules, c: Cluster, n: nat, k: nat)
    requires RaftInv(c) && CallersInv(g, c) && CanCatchUpTo(g, c, n, k)
    ensures var d := AfterCatchUpTo(g, c, n, k); CallersInv(g, d)
  {
  }

  lemma CatchUpToKeeps(g: Rules, c: Cluster, n: nat, k: nat)
    requires Inv(g, c) && CanCatchUpTo(g, c, n, k)
    ensures var d := AfterCatchUpTo(g, c, n, k); Inv(g, d)
  {
    CatchUpToKeepsRaft(g, c, n, k);
    CatchUpToKeepsCallers(g, c, n, k);
  }

  lemma ProposeKeepsTenants(g: Rules, c: Cluster, p: nat, n: nat, req: Request)
    requires RaftInv(c) && CallersInv(g, c) && TenantInv(g, c) && CanPropose(g, c, p, n, req)
    ensures var d := AfterPropose(g, c, p, n, req); TenantInv(g, d)
  {
  }

  lemma ProposeKeeps(g: Rules, c: Cluster, p: nat, n: nat, req: Request)
    requires Inv(g, c) && CanPropose(g, c, p, n, req)
    ensures var d := AfterPropose(g, c, p, n, req); Inv(g, d)
  {
    ProposeKeepsTenants(g, c, p, n, req);
  }

  lemma LockKeepsTenants(g: Rules, c: Cluster, p: nat)
    requires RaftInv(c) && CallersInv(g, c) && TenantInv(g, c) && CanLock(g, c, p)
    ensures var d := AfterLock(g, c, p); TenantInv(g, d)
  {
  }

  lemma LockKeeps(g: Rules, c: Cluster, p: nat)
    requires Inv(g, c) && CanLock(g, c, p)
    ensures var d := AfterLock(g, c, p); Inv(g, d)
  {
    LockKeepsTenants(g, c, p);
  }

  lemma ConfirmMemoKeepsTenants(g: Rules, c: Cluster, p: nat)
    requires RaftInv(c) && CallersInv(g, c) && TenantInv(g, c) && CanConfirmMemo(g, c, p)
    ensures var d := AfterConfirmMemo(g, c, p); TenantInv(g, d)
  {
  }

  lemma ConfirmMemoKeeps(g: Rules, c: Cluster, p: nat)
    requires Inv(g, c) && CanConfirmMemo(g, c, p)
    ensures var d := AfterConfirmMemo(g, c, p); Inv(g, d)
  {
    ConfirmMemoKeepsTenants(g, c, p);
  }

  lemma BarrierStartKeeps(g: Rules, c: Cluster, p: nat)
    requires Inv(g, c) && CanBarrierStart(g, c, p)
    ensures var d := AfterBarrierStart(g, c, p); Inv(g, d)
  {
  }

  lemma BarrierAppendKeepsRaft(g: Rules, c: Cluster, n: nat)
    requires RaftInv(c) && CallersInv(g, c) && CanBarrierAppend(g, c, n)
    ensures var d := AfterBarrierAppend(g, c, n); RaftInv(d)
  {
  }

  lemma BarrierAppendKeepsCallers(g: Rules, c: Cluster, n: nat)
    requires RaftInv(c) && CallersInv(g, c) && CanBarrierAppend(g, c, n)
    ensures var d := AfterBarrierAppend(g, c, n); CallersInv(g, d)
  {
  }

  lemma BarrierAppendKeepsTenants(g: Rules, c: Cluster, n: nat)
    requires RaftInv(c) && CallersInv(g, c) && TenantInv(g, c) && CanBarrierAppend(g, c, n)
    ensures var d := AfterBarrierAppend(g, c, n); TenantInv(g, d)
  {
  }

  lemma BarrierAppendKeepsLogs(g: Rules, c: Cluster, n: nat)
    requires Inv(g, c) && CanBarrierAppend(g, c, n)
    ensures var d := AfterBarrierAppend(g, c, n); LogsInv(g, d.terms, d.committed)
  {
    var t := c.leading[n];
    GoodExtension(g, c.terms[t].log, Entry(Barrier, t, 0, Unknown));
  }

  lemma BarrierAppendKeeps(g: Rules, c: Cluster, n: nat)
    requires Inv(g, c) && CanBarrierAppend(g, c, n)
    ensures var d := AfterBarrierAppend(g, c, n); Inv(g, d)
  {
    BarrierAppendKeepsRaft(g, c, n);
    BarrierAppendKeepsCallers(g, c, n);
    BarrierAppendKeepsTenants(g, c, n);
    BarrierAppendKeepsLogs(g, c, n);
  }

  lemma BarrierDoneKeepsRaft(g: Rules, c: Cluster, n: nat)
    requires RaftInv(c) && CallersInv(g, c) && CanBarrierDone(g, c, n)
    ensures var d := AfterBarrierDone(g, c, n); RaftInv(d)
  {
  }

  lemma BarrierDoneKeepsCallers(g: Rules, c: Cluster, n: nat)
    requires RaftInv(c) && CallersInv(g, c) && CanBarrierDone(g, c, n)
    ensures var d := AfterBarrierDone(g, c, n); CallersInv(g, d)
  {
  }

  lemma BarrierDoneKeepsTenants(g: Rules, c: Cluster, n: nat)
    requires RaftInv(c) && CallersInv(g, c) && TenantInv(g, c) && CanBarrierDone(g, c, n)
    ensures var d := AfterBarrierDone(g, c, n); TenantInv(g, d)
  {
  }

  lemma BarrierDoneKeeps(g: Rules, c: Cluster, n: nat)
    requires Inv(g, c) && CanBarrierDone(g, c, n)
    ensures var d := AfterBarrierDone(g, c, n); Inv(g, d)
  {
    BarrierDoneKeepsRaft(g, c, n);
    BarrierDoneKeepsCallers(g, c, n);
    BarrierDoneKeepsTenants(g, c, n);
  }

  lemma BarrierFailKeeps(g: Rules, c: Cluster, n: nat)
    requires Inv(g, c) && CanBarrierFail(g, c, n)
    ensures var d := AfterBarrierFail(g, c, n); Inv(g, d)
  {
  }

  lemma JudgeKeepsTenants(g: Rules, c: Cluster, p: nat)
    requires RaftInv(c) && CallersInv(g, c) && TenantInv(g, c) && CanJudge(g, c, p)
    ensures var d := AfterJudge(g, c, p); TenantInv(g, d)
  {
  }

  lemma JudgeKeeps(g: Rules, c: Cluster, p: nat)
    requires Inv(g, c) && CanJudge(g, c, p)
    ensures var d := AfterJudge(g, c, p); Inv(g, d)
  {
    JudgeKeepsTenants(g, c, p);
  }

  lemma AppendKeepsRaft(g: Rules, c: Cluster, p: nat)
    requires RaftInv(c) && CallersInv(g, c) && CanAppend(g, c, p)
    ensures var d := AfterAppend(g, c, p); RaftInv(d)
  {
  }

  lemma AppendKeepsBarriers(g: Rules, c: Cluster, p: nat)
    requires RaftInv(c) && CallersInv(g, c) && CanAppend(g, c, p)
    ensures var d := AfterAppend(g, c, p); BarriersInv(d.barrier, d.proposals, d.terms, d.current)
  {
  }

  lemma AppendKeepsLocks(g: Rules, c: Cluster, p: nat)
    requires RaftInv(c) && CallersInv(g, c) && CanAppend(g, c, p)
    ensures var d := AfterAppend(g, c, p); LocksInv(g, d.proposals, d.locks)
  {
  }

  lemma AppendKeepsPhases(g: Rules, c: Cluster, p: nat)
    requires RaftInv(c) && CallersInv(g, c) && CanAppend(g, c, p)
    ensures var d := AfterAppend(g, c, p); PhasesInv(g, d.proposals, d.leading, d.terms, d.current, d.applied, d.committed)
  {
  }

  lemma AppendKeepsCallers(g: Rules, c: Cluster, p: nat)
    requires RaftInv(c) && CallersInv(g, c) && CanAppend(g, c, p)
    ensures var d := AfterAppend(g, c, p); CallersInv(g, d)
  {
    AppendKeepsBarriers(g, c, p);
    AppendKeepsLocks(g, c, p);
    AppendKeepsPhases(g, c, p);
  }

  lemma AppendKeepsAdds(g: Rules, c: Cluster, p: nat)
    requires g.capped && RaftInv(c) && CallersInv(g, c) && TenantInv(g, c) && CanAppend(g, c, p)
    ensures var d := AfterAppend(g, c, p); AddsInv(d.leading, d.terms, d.applied, d.proposals, d.locks)
  {
  }

  lemma AppendKeepsSeen(g: Rules, c: Cluster, p: nat)
    requires g.capped && RaftInv(c) && CallersInv(g, c) && TenantInv(g, c) && CanAppend(g, c, p)
    ensures var d := AfterAppend(g, c, p); SeenInv(d.proposals, d.leading, d.terms)
  {
  }

  lemma AppendKeepsTenants(g: Rules, c: Cluster, p: nat)
    requires RaftInv(c) && CallersInv(g, c) && TenantInv(g, c) && CanAppend(g, c, p)
    ensures var d := AfterAppend(g, c, p); TenantInv(g, d)
  {
    if g.capped {
      AppendKeepsAdds(g, c, p);
      AppendKeepsSeen(g, c, p);
    }
  }

  lemma AppendKeepsLogs(g: Rules, c: Cluster, p: nat)
    requires Inv(g, c) && CanAppend(g, c, p)
    ensures var d := AfterAppend(g, c, p); LogsInv(g, d.terms, d.committed)
  {
    var q := c.proposals[p];
    var t, j := q.phase.term, q.phase.prefix;
    var log, e := c.terms[t].log, Entry(Command, t, j, q.req);
    var b := log + [e];
    AppendedWasJudged(g, c, p);
    assert b[..j] == log[..j] == c.committed[..j];
    PrefixDeterminesState(g.h, b, c.committed, j);
    GoodExtension(g, log, e);
  }

  lemma AppendKeeps(g: Rules, c: Cluster, p: nat)
    requires Inv(g, c) && CanAppend(g, c, p)
    ensures var d := AfterAppend(g, c, p); Inv(g, d)
  {
    AppendKeepsRaft(g, c, p);
    AppendKeepsCallers(g, c, p);
    AppendKeepsTenants(g, c, p);
    AppendKeepsLogs(g, c, p);
  }

  lemma ReturnKeepsTenants(g: Rules, c: Cluster, p: nat)
    requires RaftInv(c) && CallersInv(g, c) && TenantInv(g, c) && CanReturn(g, c, p)
    ensures var d := AfterReturn(g, c, p); TenantInv(g, d)
  {
  }

  lemma ReturnKeeps(g: Rules, c: Cluster, p: nat)
    requires Inv(g, c) && CanReturn(g, c, p)
    ensures var d := AfterReturn(g, c, p); Inv(g, d)
  {
    ReturnKeepsTenants(g, c, p);
  }

  lemma StepKeepsInv(g: Rules, c: Cluster, step: Step)
    requires Inv(g, c) && Allowed(g, c, step)
    ensures Inv(g, Do(g, c, step))
  {
    match step {
      case Elect(n, t, log) => ElectKeeps(g, c, n, t, log);
      case NewTerm(n, t) => NewTermKeeps(g, c, n, t);
      case StepDown(n) => StepDownKeeps(g, c, n);
      case Crash(n, keeps) => CrashKeeps(g, c, n, keeps);
      case AppendOther(n, kind) => AppendOtherKeeps(g, c, n, kind);
      case Commit(t, k) => CommitKeeps(g, c, t, k);
      case Absorb(n) => AbsorbKeeps(g, c, n);
      case CatchUpTo(n, k) => CatchUpToKeeps(g, c, n, k);
      case Propose(p, n, req) => ProposeKeeps(g, c, p, n, req);
      case Lock(p) => LockKeeps(g, c, p);
      case ConfirmMemo(p) => ConfirmMemoKeeps(g, c, p);
      case BarrierStart(p) => BarrierStartKeeps(g, c, p);
      case BarrierAppend(n) => BarrierAppendKeeps(g, c, n);
      case BarrierDone(n) => BarrierDoneKeeps(g, c, n);
      case BarrierFail(n) => BarrierFailKeeps(g, c, n);
      case Judge(p) => JudgeKeeps(g, c, p);
      case Append(p) => AppendKeeps(g, c, p);
      case Return(p) => ReturnKeeps(g, c, p);
    }
  }

  /** run[k] is the cluster before steps[k]; a run starts with no term led. */
  ghost predicate IsRun(g: Rules, run: seq<Cluster>, steps: seq<Step>) {
    && |run| == |steps| + 1
    && run[0] == Empty
    && forall k :: 0 <= k < |steps| ==> Allowed(g, run[k], steps[k]) && run[k + 1] == Do(g, run[k], steps[k])
  }

  lemma {:induction false} RunKeepsInv(g: Rules, run: seq<Cluster>, steps: seq<Step>, k: nat)
    requires IsRun(g, run, steps) && k < |run|
    ensures Inv(g, run[k])
  {
    if k > 0 {
      RunKeepsInv(g, run, steps, k - 1);
      StepKeepsInv(g, run[k - 1], steps[k - 1]);
    }
  }

  /** Every committed log, at every point of every run, is good. */
  lemma CommittedLogIsGood(g: Rules, run: seq<Cluster>, steps: seq<Step>, k: nat)
    requires IsRun(g, run, steps) && k < |run|
    ensures GoodLog(g, run[k].committed)
  {
    RunKeepsInv(g, run, steps, k);
  }

  /** Whenever a proposal is judged by the leader of the term its catch-up check
      vouched for, the state it is judged against already holds every entry that
      term inherited, and those are exactly the entries of earlier terms. */
  lemma JudgedAfterInheritance(g: Rules, run: seq<Cluster>, steps: seq<Step>, k: nat, p: nat)
    requires IsRun(g, run, steps) && k < |steps| && steps[k] == Judge(p)
    requires var q := run[k].proposals[p]; Leads(run[k], q.node, q.phase.term)
    ensures var q := run[k].proposals[p];
            var l, a := run[k].terms[q.phase.term], At(run[k].applied, q.node);
            && l.inherited <= a <= |l.log| && l.log[..a] == run[k].committed[..a]
            && forall i :: 0 <= i < |l.log| && l.log[i].term < q.phase.term ==> i < a
  {
    RunKeepsInv(g, run, steps, k);
    var c, q := run[k], run[k].proposals[p];
    var t := q.phase.term;
    assert PhaseOk(g, q, c.leading, c.terms, At(c.current, q.node), At(c.applied, q.node), c.committed);
    assert LeaderOk(q.node, t, c.terms[t], At(c.current, q.node), At(c.applied, q.node), c.committed, At(c.stamp, q.node));
    assert TermOk(t, c.terms[t], c.current);
  }

  /** After a barrier stamped r on node n: the stamp never falls back, and any
      barrier started since has read a later term. */
  predicate StampedSince(c: Cluster, n: nat, r: nat) {
    && r <= At(c.stamp, n) && 0 < At(c.current, n)
    && (n in c.barrier ==> r < c.barrier[n].read)
  }

  /** Steps that leave terms, stamps and barriers alone. */
  predicate Quiet(step: Step) {
    || step.StepDown? || step.AppendOther? || step.Commit? || step.Absorb? || step.CatchUpTo? || step.Propose?
    || step.Lock? || step.ConfirmMemo? || step.Judge? || step.Append? || step.Return?
  }

  lemma QuietStep(g: Rules, c: Cluster, step: Step)
    requires Allowed(g, c, step) && Quiet(step)
    ensures var d := Do(g, c, step); d.stamp == c.stamp && d.current == c.current && d.barrier == c.barrier
  {
  }

  lemma StampStep(g: Rules, c: Cluster, step: Step, n: nat, r: nat)
    requires Allowed(g, c, step) && !(step.Crash? && step.n == n)
    requires StampedSince(c, n, r) && At(c.stamp, n) <= At(c.current, n)
    ensures StampedSince(Do(g, c, step), n, r)
  {
    if Quiet(step) {
      QuietStep(g, c, step);
    }
  }

  lemma StampBelowCurrent(g: Rules, c: Cluster, n: nat)
    requires Inv(g, c)
    ensures At(c.stamp, n) <= At(c.current, n)
  {
  }

  lemma StampStart(g: Rules, c: Cluster, n: nat)
    requires Inv(g, c) && Allowed(g, c, BarrierDone(n))
    ensures StampedSince(Do(g, c, BarrierDone(n)), n, c.barrier[n].read)
  {
    assert BarrierOk(n, c.barrier[n], c.proposals, c.terms, At(c.current, n));
  }

  /** On a node that stays up, every successful barrier stamps a later term than
      the one before: at most one per term, however many proposals wait. */
  lemma {:induction false} BarrierStampsRise(g: Rules, run: seq<Cluster>, steps: seq<Step>, i: nat, j: nat, n: nat)
    requires IsRun(g, run, steps) && i < j < |run|
    requires steps[i] == BarrierDone(n)
    requires forall k :: i < k < j ==> !(steps[k].Crash? && steps[k].n == n)
    ensures StampedSince(run[j], n, run[i].barrier[n].read)
    decreases j
  {
    RunKeepsInv(g, run, steps, j - 1);
    StampBelowCurrent(g, run[j - 1], n);
    if i == j - 1 {
      StampStart(g, run[i], n);
    } else {
      BarrierStampsRise(g, run, steps, i, j - 1, n);
      StampStep(g, run[j - 1], steps[j - 1], n, run[i].barrier[n].read);
    }
  }

  lemma OneBarrierPerTerm(g: Rules, run: seq<Cluster>, steps: seq<Step>, i: nat, j: nat, n: nat)
    requires IsRun(g, run, steps) && i < j < |steps|
    requires steps[i] == BarrierDone(n) && steps[j] == BarrierDone(n)
    requires forall k :: i < k < j ==> !(steps[k].Crash? && steps[k].n == n)
    ensures At(run[i + 1].stamp, n) < At(run[j + 1].stamp, n)
  {
    BarrierStampsRise(g, run, steps, i, j, n);
  }

  /** Only a barrier stamps a node. */
  lemma StampsByBarrier(g: Rules, c: Cluster, step: Step, n: nat)
    requires Allowed(g, c, step) && step != BarrierDone(n) && At(c.stamp, n) == 0
    ensures At(Do(g, c, step).stamp, n) == 0
  {
    if Quiet(step) {
      QuietStep(g, c, step);
    }
  }

  lemma CrashUnstamps(g: Rules, c: Cluster, n: nat, keeps: nat)
    requires Allowed(g, c, Crash(n, keeps))
    ensures At(Do(g, c, Crash(n, keeps)).stamp, n) == 0
  {
  }

  lemma {:induction false} UnstampedSince(g: Rules, run: seq<Cluster>, steps: seq<Step>, i: nat, j: nat, n: nat)
    requires IsRun(g, run, steps) && i < j < |run| && steps[i].Crash? && steps[i].n == n
    requires forall k :: i < k < j ==> steps[k] != BarrierDone(n)
    ensures At(run[j].stamp, n) == 0
    decreases j
  {
    if i == j - 1 {
      CrashUnstamps(g, run[i], n, steps[i].keeps);
    } else {
      UnstampedSince(g, run, steps, i, j - 1, n);
      StampsByBarrier(g, run[j - 1], steps[j - 1], n);
    }
  }

  /** A node that crashed takes no proposal on trust: between its crash and the first one
      confirmed from memory lies a barrier of its own. */
  lemma CrashForgetsConfirmation(g: Rules, run: seq<Cluster>, steps: seq<Step>, i: nat, j: nat, p: nat)
    requires IsRun(g, run, steps) && i < j < |steps| && steps[i].Crash? && steps[j] == ConfirmMemo(p)
    requires p in run[j].proposals && run[j].proposals[p].node == steps[i].n
    ensures exists k :: i < k < j && steps[k] == BarrierDone(steps[i].n)
  {
    var n := steps[i].n;
    if forall k :: i < k < j ==> steps[k] != BarrierDone(n) {
      UnstampedSince(g, run, steps, i, j, n);
    }
  }

  /** Proposal p waits, on its node, for a mutex that another call holds. */
  ghost predicate WaitsFor(g: Rules, c: Cluster, p: nat, other: nat)
    requires p in c.proposals
  {
    && other in c.proposals && other != p && c.proposals[other].node == c.proposals[p].node
    && if c.proposals[p].phase.Started?
       then NeedsLock(g, c.proposals[p].req) && NeedsLock(g, c.proposals[other].req) && !c.proposals[other].phase.Started?
            && c.proposals[other].req.cls == c.proposals[p].req.cls
       else c.proposals[other].phase.Ready? && c.proposals[p].node in c.barrier && c.barrier[c.proposals[p].node].caller == other
  }

  lemma StartedMoves(g: Rules, c: Cluster, p: nat)
    requires Inv(g, c) && p in c.proposals && c.proposals[p].phase.Started?
    ensures Allowed(g, c, Lock(p)) || exists other :: WaitsFor(g, c, p, other)
  {
    var q := c.proposals[p];
    if !Allowed(g, c, Lock(p)) {
      var other := c.locks[(q.node, q.req.cls)];
      assert Holds(g, c.proposals[other], (q.node, q.req.cls));
      assert WaitsFor(g, c, p, other);
    }
  }

  lemma ReadyMoves(g: Rules, c: Cluster, p: nat)
    requires Inv(g, c) && p in c.proposals && c.proposals[p].phase.Ready?
    ensures var n := c.proposals[p].node;
            || Allowed(g, c, ConfirmMemo(p)) || Allowed(g, c, BarrierStart(p))
            || (n in c.barrier && c.barrier[n].caller == p)
            || exists other :: WaitsFor(g, c, p, other)
  {
    var n := c.proposals[p].node;
    if n in c.barrier && c.barrier[n].caller != p {
      assert BarrierOk(n, c.barrier[n], c.proposals, c.terms, At(c.current, n));
      assert WaitsFor(g, c, p, c.barrier[n].caller);
    }
  }

  /** No mutex stays locked behind a call that is gone. At every point of every run a
      call before its gate can go on, runs its own barrier, or waits for another call
      on the same node: one past its start that holds the lock of the class, or the one
      that runs the barrier. A later call may return, once its entry, if it has one, is
      applied or its leadership over. */
  lemma NoCallIsStranded(g: Rules, run: seq<Cluster>, steps: seq<Step>, k: nat, p: nat)
    requires IsRun(g, run, steps) && k < |run| && p in run[k].proposals
    ensures var c, q := run[k], run[k].proposals[p];
            match q.phase
            case Started => Allowed(g, c, Lock(p)) || exists other :: WaitsFor(g, c, p, other)
            case Ready =>
              || Allowed(g, c, ConfirmMemo(p)) || Allowed(g, c, BarrierStart(p))
              || (q.node in c.barrier && c.barrier[q.node].caller == p)
              || exists other :: WaitsFor(g, c, p, other)
            case Appended(t, i) => Allowed(g, c, Return(p)) <==> (Leads(c, q.node, t) ==> i <= At(c.applied, q.node))
            case _ => Allowed(g, c, Return(p))
  {
    RunKeepsInv(g, run, steps, k);
    var c := run[k];
    if c.proposals[p].phase.Started? {
      StartedMoves(g, c, p);
    } else if c.proposals[p].phase.Ready? {
      ReadyMoves(g, c, p);
    } else {
      forall n | n in c.barrier ensures c.barrier[n].caller != p {
        assert BarrierOk(n, c.barrier[n], c.proposals, c.terms, At(c.current, n));
      }
    }
  }
}
