/** A cluster of nodes proposing through raft: elections, lost leaderships,
    crashes, the catch-up barrier, the per-class tenant lock and the admission
    of every proposal, interleaved in any order.

    Raft itself is taken at its word: a term has one leader, which appends after
    everything it inherited; a leader's log holds every committed entry; a
    leader applies entries of its own log. */
module Cluster {
  import opened Fsm

  /** What the checks before the append decide is left open here: passes is
      admitPropose and PreApplyFilter together, capped whether a tenant cap is
      enforced. */
  datatype Rules = Rules(h: Handlers, passes: (State, Request) -> bool, capped: bool)

  /** The log of the leader of one term; the first `inherited` entries come from
      earlier terms. */
  datatype TermLog = TermLog(leader: nat, inherited: nat, log: seq<Entry>)

  /** Where a call of Execute stands. Confirmed carries the term its catch-up
      check vouches for, Judged also the applied prefix it was judged against. */
  datatype Phase =
    | Started
    | Ready
    | Confirmed(term: nat)
    | Judged(term: nat, prefix: nat)
    | Appended(term: nat, index: nat)

  datatype Proposal = Proposal(node: nat, req: Request, phase: Phase)

  /** A barrier in flight: the term read before it and, once appended (index is
      not 0), the term and index it got. */
  datatype Pending = Pending(caller: nat, read: nat, term: nat, index: nat)

  /** stamp is fsmCaughtUpTerm; locks maps a node and a class to the proposal
      holding its tenant lock; barrier is keyed by node because one mutex covers
      the check, the barrier and the stamp. */
  datatype Cluster = Cluster(
    terms: map<nat, TermLog>,
    committed: seq<Entry>,
    leading: map<nat, nat>,
    current: map<nat, nat>,
    applied: map<nat, nat>,
    stamp: map<nat, nat>,
    barrier: map<nat, Pending>,
    proposals: map<nat, Proposal>,
    locks: map<(nat, string), nat>)

  const Empty: Cluster := Cluster(map[], [], map[], map[], map[], map[], map[], map[], map[])

  function At(m: map<nat, nat>, n: nat): nat {
    if n in m then m[n] else 0
  }

  datatype Step =
    | Elect(n: nat, t: nat, log: seq<Entry>)
    | NewTerm(n: nat, t: nat)
    | StepDown(n: nat)
    | Crash(n: nat, keeps: nat)
    | AppendOther(n: nat, kind: Kind)
    | Commit(t: nat, k: nat)
    | Absorb(n: nat)
    | CatchUpTo(n: nat, k: nat)
    | Propose(p: nat, n: nat, req: Request)
    | Lock(p: nat)
    | ConfirmMemo(p: nat)
    | BarrierStart(p: nat)
    | BarrierAppend(n: nat)
    | BarrierDone(n: nat)
    | BarrierFail(n: nat)
    | Judge(p: nat)
    | Append(p: nat)
    | Return(p: nat)

  predicate Leads(c: Cluster, n: nat, t: nat) {
    n in c.leading && c.leading[n] == t && t in c.terms && c.terms[t].leader == n
  }

  predicate NeedsLock(g: Rules, r: Request) {
    r.AddTenants? && g.capped
  }

  predicate Waits(c: Cluster, p: nat, phase: Phase) {
    p in c.proposals && c.proposals[p].phase == phase
  }

  /** The future of an appended command has resolved: applied here, or the
      leadership it was appended under is over. */
  predicate Resolved(c: Cluster, q: Proposal)
    requires q.phase.Appended?
  {
    q.phase.index <= At(c.applied, q.node) || !Leads(c, q.node, q.phase.term)
  }

  predicate IsAdd(e: Entry, cls: string) {
    e.kind.Command? && e.req.AddTenants? && e.req.cls == cls
  }

  function Extend(c: Cluster, t: nat, e: Entry): map<nat, TermLog>
    requires t in c.terms
  {
    c.terms[t := c.terms[t].(log := c.terms[t].log + [e])]
  }

  /** A log a candidate of term t may hold: part of an earlier leader's log. */
  ghost predicate Inherits(terms: map<nat, TermLog>, t: nat, log: seq<Entry>) {
    log == [] || exists t0 :: t0 in terms && t0 < t && log <= terms[t0].log
  }

  ghost predicate CanElect(g: Rules, c: Cluster, n: nat, t: nat, log: seq<Entry>) {
    && t > At(c.current, n) && t !in c.terms
    && c.committed <= log
    && Inherits(c.terms, t, log)
  }

  function AfterElect(g: Rules, c: Cluster, n: nat, t: nat, log: seq<Entry>): Cluster
    requires CanElect(g, c, n, t, log)
  {
    c.(terms := c.terms[t := TermLog(n, |log|, log)], leading := c.leading[n := t], current := c.current[n := t])
  }

  ghost predicate CanNewTerm(g: Rules, c: Cluster, n: nat, t: nat) {
    t > At(c.current, n)
  }

  function AfterNewTerm(g: Rules, c: Cluster, n: nat, t: nat): Cluster
    requires CanNewTerm(g, c, n, t)
  {
    c.(leading := c.leading - {n}, current := c.current[n := t])
  }

  ghost predicate CanStepDown(g: Rules, c: Cluster, n: nat) {
    true
  }

  function AfterStepDown(g: Rules, c: Cluster, n: nat): Cluster
    requires CanStepDown(g, c, n)
  {
    c.(leading := c.leading - {n})
  }

  ghost predicate CanCrash(g: Rules, c: Cluster, n: nat, keeps: nat) {
    keeps <= |c.committed|
  }

  function AfterCrash(g: Rules, c: Cluster, n: nat, keeps: nat): Cluster
    requires CanCrash(g, c, n, keeps)
  {
    c.(leading := c.leading - {n},
       applied := c.applied[n := keeps],
       stamp := c.stamp - {n},
       barrier := c.barrier - {n},
       proposals := map p | p in c.proposals && c.proposals[p].node != n :: c.proposals[p],
       locks := map l | l in c.locks && l.0 != n :: c.locks[l])
  }

  ghost predicate CanAppendOther(g: Rules, c: Cluster, n: nat, kind: Kind) {
    n in c.leading && Leads(c, n, c.leading[n]) && !kind.Command?
  }

  function AfterAppendOther(g: Rules, c: Cluster, n: nat, kind: Kind): Cluster
    requires CanAppendOther(g, c, n, kind)
  {
    c.(terms := Extend(c, c.leading[n], Entry(kind, c.leading[n], 0, Unknown)))
  }

  ghost predicate CanCommit(g: Rules, c: Cluster, t: nat, k: nat) {
    t in c.terms && k <= |c.terms[t].log| && c.committed <= c.terms[t].log[..k]
  }

  function AfterCommit(g: Rules, c: Cluster, t: nat, k: nat): Cluster
    requires CanCommit(g, c, t, k)
  {
    c.(committed := c.terms[t].log[..k])
  }

  ghost predicate CanAbsorb(g: Rules, c: Cluster, n: nat) {
    && At(c.applied, n) < |c.committed|
    && (n in c.leading && Leads(c, n, c.leading[n]) ==>
          c.committed[..At(c.applied, n) + 1] <= c.terms[c.leading[n]].log)
  }

  function AfterAbsorb(g: Rules, c: Cluster, n: nat): Cluster
    requires CanAbsorb(g, c, n)
  {
    c.(applied := c.applied[n := At(c.applied, n) + 1])
  }

  ghost predicate CanCatchUpTo(g: Rules, c: Cluster, n: nat, k: nat) {
    n !in c.leading && At(c.applied, n) <= k <= |c.committed|
  }

  function AfterCatchUpTo(g: Rules, c: Cluster, n: nat, k: nat): Cluster
    requires CanCatchUpTo(g, c, n, k)
  {
    c.(applied := c.applied[n := k])
  }

  ghost predicate CanPropose(g: Rules, c: Cluster, p: nat, n: nat, req: Request) {
    p !in c.proposals
  }

  function AfterPropose(g: Rules, c: Cluster, p: nat, n: nat, req: Request): Cluster
    requires CanPropose(g, c, p, n, req)
  {
    c.(proposals := c.proposals[p := Proposal(n, req, Started)])
  }

  ghost predicate CanLock(g: Rules, c: Cluster, p: nat) {
    && Waits(c, p, Started)
    && (NeedsLock(g, c.proposals[p].req) ==> (c.proposals[p].node, c.proposals[p].req.cls) !in c.locks)
  }

  function AfterLock(g: Rules, c: Cluster, p: nat): Cluster
    requires CanLock(g, c, p)
  {
    var q := c.proposals[p];
    c.(proposals := c.proposals[p := q.(phase := Ready)],
       locks := if NeedsLock(g, q.req) then c.locks[(q.node, q.req.cls) := p] else c.locks)
  }

  ghost predicate CanConfirmMemo(g: Rules, c: Cluster, p: nat) {
    && Waits(c, p, Ready)
    && var n := c.proposals[p].node;
       n !in c.barrier && At(c.current, n) != 0 && At(c.stamp, n) == At(c.current, n)
  }

  function AfterConfirmMemo(g: Rules, c: Cluster, p: nat): Cluster
    requires CanConfirmMemo(g, c, p)
  {
    var q := c.proposals[p];
    c.(proposals := c.proposals[p := q.(phase := Confirmed(At(c.current, q.node)))])
  }

  ghost predicate CanBarrierStart(g: Rules, c: Cluster, p: nat) {
    && Waits(c, p, Ready)
    && var n := c.proposals[p].node;
       n !in c.barrier && (At(c.current, n) == 0 || At(c.stamp, n) != At(c.current, n))
  }

  function AfterBarrierStart(g: Rules, c: Cluster, p: nat): Cluster
    requires CanBarrierStart(g, c, p)
  {
    var n := c.proposals[p].node;
    c.(barrier := c.barrier[n := Pending(p, At(c.current, n), 0, 0)])
  }

  ghost predicate CanBarrierAppend(g: Rules, c: Cluster, n: nat) {
    n in c.barrier && c.barrier[n].index == 0 && n in c.leading && Leads(c, n, c.leading[n])
  }

  function AfterBarrierAppend(g: Rules, c: Cluster, n: nat): Cluster
    requires CanBarrierAppend(g, c, n)
  {
    var t := c.leading[n];
    c.(terms := Extend(c, t, Entry(Barrier, t, 0, Unknown)),
       barrier := c.barrier[n := c.barrier[n].(term := t, index := |c.terms[t].log| + 1)])
  }

  ghost predicate CanBarrierDone(g: Rules, c: Cluster, n: nat) {
    && n in c.barrier && Waits(c, c.barrier[n].caller, Ready)
    && var b := c.barrier[n];
       && b.index != 0 && b.index <= At(c.applied, n) <= |c.committed|
       && b.term in c.terms && c.committed[..b.index] <= c.terms[b.term].log
  }

  function AfterBarrierDone(g: Rules, c: Cluster, n: nat): Cluster
    requires CanBarrierDone(g, c, n)
  {
    var b := c.barrier[n];
    c.(stamp := c.stamp[n := b.read],
       barrier := c.barrier - {n},
       proposals := c.proposals[b.caller := c.proposals[b.caller].(phase := Confirmed(b.term))])
  }

  ghost predicate CanBarrierFail(g: Rules, c: Cluster, n: nat) {
    n in c.barrier
  }

  function AfterBarrierFail(g: Rules, c: Cluster, n: nat): Cluster
    requires CanBarrierFail(g, c, n)
  {
    c.(barrier := c.barrier - {n})
  }

  ghost predicate CanJudge(g: Rules, c: Cluster, p: nat) {
    && p in c.proposals && c.proposals[p].phase.Confirmed?
    && var q := c.proposals[p];
       && At(c.applied, q.node) <= |c.committed|
       && g.passes(StateAt(g.h, c.committed, At(c.applied, q.node)), q.req)
  }

  function AfterJudge(g: Rules, c: Cluster, p: nat): Cluster
    requires CanJudge(g, c, p)
  {
    var q := c.proposals[p];
    c.(proposals := c.proposals[p := q.(phase := Judged(q.phase.term, At(c.applied, q.node)))])
  }

  ghost predicate CanAppend(g: Rules, c: Cluster, p: nat) {
    && p in c.proposals && c.proposals[p].phase.Judged?
    && Leads(c, c.proposals[p].node, c.proposals[p].phase.term)
  }

  function AfterAppend(g: Rules, c: Cluster, p: nat): Cluster
    requires CanAppend(g, c, p)
  {
    var q := c.proposals[p];
    var t := q.phase.term;
    c.(terms := Extend(c, t, Entry(Command, t, q.phase.prefix, q.req)),
       proposals := c.proposals[p := q.(phase := Appended(t, |c.terms[t].log| + 1))])
  }

  ghost predicate CanReturn(g: Rules, c: Cluster, p: nat) {
    && p in c.proposals && (c.proposals[p].phase.Appended? ==> Resolved(c, c.proposals[p]))
    && forall n :: n in c.barrier ==> c.barrier[n].caller != p
  }

  function AfterReturn(g: Rules, c: Cluster, p: nat): Cluster
    requires CanReturn(g, c, p)
  {
    c.(proposals := c.proposals - {p},
       locks := map l | l in c.locks && c.locks[l] != p :: c.locks[l])
  }

  ghost predicate Allowed(g: Rules, c: Cluster, step: Step) {
    match step
    case Elect(n, t, log) => CanElect(g, c, n, t, log)
    case NewTerm(n, t) => CanNewTerm(g, c, n, t)
    case StepDown(n) => CanStepDown(g, c, n)
    case Crash(n, keeps) => CanCrash(g, c, n, keeps)
    case AppendOther(n, kind) => CanAppendOther(g, c, n, kind)
    case Commit(t, k) => CanCommit(g, c, t, k)
    case Absorb(n) => CanAbsorb(g, c, n)
    case CatchUpTo(n, k) => CanCatchUpTo(g, c, n, k)
    case Propose(p, n, req) => CanPropose(g, c, p, n, req)
    case Lock(p) => CanLock(g, c, p)
    case ConfirmMemo(p) => CanConfirmMemo(g, c, p)
    case BarrierStart(p) => CanBarrierStart(g, c, p)
    case BarrierAppend(n) => CanBarrierAppend(g, c, n)
    case BarrierDone(n) => CanBarrierDone(g, c, n)
    case BarrierFail(n) => CanBarrierFail(g, c, n)
    case Judge(p) => CanJudge(g, c, p)
    case Append(p) => CanAppend(g, c, p)
    case Return(p) => CanReturn(g, c, p)
  }

  function Do(g: Rules, c: Cluster, step: Step): Cluster
    requires Allowed(g, c, step)
  {
    match step
    case Elect(n, t, log) => AfterElect(g, c, n, t, log)
    case NewTerm(n, t) => AfterNewTerm(g, c, n, t)
    case StepDown(n) => AfterStepDown(g, c, n)
    case Crash(n, keeps) => AfterCrash(g, c, n, keeps)
    case AppendOther(n, kind) => AfterAppendOther(g, c, n, kind)
    case Commit(t, k) => AfterCommit(g, c, t, k)
    case Absorb(n) => AfterAbsorb(g, c, n)
    case CatchUpTo(n, k) => AfterCatchUpTo(g, c, n, k)
    case Propose(p, n, req) => AfterPropose(g, c, p, n, req)
    case Lock(p) => AfterLock(g, c, p)
    case ConfirmMemo(p) => AfterConfirmMemo(g, c, p)
    case BarrierStart(p) => AfterBarrierStart(g, c, p)
    case BarrierAppend(n) => AfterBarrierAppend(g, c, n)
    case BarrierDone(n) => AfterBarrierDone(g, c, n)
    case BarrierFail(n) => AfterBarrierFail(g, c, n)
    case Judge(p) => AfterJudge(g, c, p)
    case Append(p) => AfterAppend(g, c, p)
    case Return(p) => AfterReturn(g, c, p)
  }

  /** What the cap and the deletion of a namespace rest on: the command at i was
      judged against a prefix that held everything earlier terms left behind and
      every earlier tenant addition to its class, and passed both checks there. */
  ghost predicate GoodEntry(g: Rules, log: seq<Entry>, i: nat)
    requires 1 <= i <= |log|
  {
    var e := log[i - 1];
    && e.judged < i
    && (forall k :: 0 <= k < i && log[k].term < e.term ==> k < e.judged)
    && g.passes(StateAt(g.h, log, e.judged), e.req)
    && (NeedsLock(g, e.req) ==> forall k :: 0 <= k < i - 1 && IsAdd(log[k], e.req.cls) ==> k < e.judged)
  }

  ghost predicate GoodLog(g: Rules, log: seq<Entry>) {
    forall i :: 0 <= i < |log| && log[i].kind.Command? ==> GoodEntry(g, log, i + 1)
  }

  ghost predicate TermOk(t: nat, l: TermLog, current: map<nat, nat>) {
    && l.inherited <= |l.log|
    && t <= At(current, l.leader)
    && forall k :: 0 <= k < |l.log| ==> if k < l.inherited then l.log[k].term < t else l.log[k].term == t
  }

  ghost predicate TermsInv(terms: map<nat, TermLog>, current: map<nat, nat>) {
    forall t :: t in terms ==> TermOk(t, terms[t], current)
  }

  ghost predicate LogsInv(g: Rules, terms: map<nat, TermLog>, committed: seq<Entry>) {
    GoodLog(g, committed) && forall t :: t in terms ==> GoodLog(g, terms[t].log)
  }

  ghost predicate BoundsInv(applied: map<nat, nat>, committed: seq<Entry>, stamp: map<nat, nat>, current: map<nat, nat>) {
    && (forall n :: n in applied ==> applied[n] <= |committed|)
    && (forall n :: n in stamp ==> stamp[n] <= At(current, n))
  }

  /** n leads t, has applied only entries of its own log, and a stamp for t means
      everything t inherited is applied. */
  ghost predicate LeaderOk(n: nat, t: nat, l: TermLog, current: nat, applied: nat, committed: seq<Entry>, stamp: nat) {
    && l.leader == n && 0 < t == current
    && applied <= |committed| && committed[..applied] <= l.log
    && (stamp == t ==> l.inherited <= applied)
  }

  ghost predicate LeadersInv(leading: map<nat, nat>, terms: map<nat, TermLog>, current: map<nat, nat>,
                             applied: map<nat, nat>, committed: seq<Entry>, stamp: map<nat, nat>)
  {
    forall n :: n in leading ==>
      && leading[n] in terms
      && LeaderOk(n, leading[n], terms[leading[n]], At(current, n), At(applied, n), committed, At(stamp, n))
  }

  ghost predicate BarrierOk(n: nat, b: Pending, proposals: map<nat, Proposal>, terms: map<nat, TermLog>, current: nat) {
    && b.read <= current
    && b.caller in proposals && proposals[b.caller].node == n && proposals[b.caller].phase.Ready?
    && (b.index != 0 ==> b.term in terms && terms[b.term].inherited < b.index && 0 < b.term && b.read <= b.term <= current)
  }

  ghost predicate BarriersInv(barrier: map<nat, Pending>, proposals: map<nat, Proposal>,
                              terms: map<nat, TermLog>, current: map<nat, nat>)
  {
    forall n :: n in barrier ==> BarrierOk(n, barrier[n], proposals, terms, At(current, n))
  }

  predicate LeadsIn(leading: map<nat, nat>, terms: map<nat, TermLog>, n: nat, t: nat) {
    n in leading && leading[n] == t && t in terms
  }

  ghost predicate LockOk(g: Rules, p: nat, q: Proposal, locks: map<(nat, string), nat>) {
    NeedsLock(g, q.req) && !q.phase.Started? ==>
      (q.node, q.req.cls) in locks && locks[(q.node, q.req.cls)] == p
  }

  ghost predicate LocksInv(g: Rules, proposals: map<nat, Proposal>, locks: map<(nat, string), nat>) {
    && (forall p :: p in proposals ==> LockOk(g, p, proposals[p], locks))
    && (forall l :: l in locks ==> locks[l] in proposals && Holds(g, proposals[locks[l]], l))
  }

  /** A proposal past its start holds the lock of its node and class. */
  predicate Holds(g: Rules, q: Proposal, l: (nat, string)) {
    NeedsLock(g, q.req) && !q.phase.Started? && q.node == l.0 && q.req.cls == l.1
  }

  ghost predicate PhaseOk(g: Rules, q: Proposal, leading: map<nat, nat>, terms: map<nat, TermLog>,
                          current: nat, applied: nat, committed: seq<Entry>)
  {
    match q.phase
    case Confirmed(t) =>
      t <= current && (LeadsIn(leading, terms, q.node, t) ==> terms[t].inherited <= applied)
    case Judged(t, j) =>
      && t <= current && j <= applied && j <= |committed|
      && g.passes(StateAt(g.h, committed, j), q.req)
      && (LeadsIn(leading, terms, q.node, t) ==> terms[t].inherited <= j)
    case Appended(t, _) => t <= current
    case _ => true
  }

  ghost predicate PhasesInv(g: Rules, proposals: map<nat, Proposal>, leading: map<nat, nat>, terms: map<nat, TermLog>,
                            current: map<nat, nat>, applied: map<nat, nat>, committed: seq<Entry>)
  {
    forall p :: p in proposals ==>
      PhaseOk(g, proposals[p], leading, terms, At(current, proposals[p].node), At(applied, proposals[p].node), committed)
  }

  /** Entry k of the log of n's term t, if it is a tenant addition made in t, is
      applied or still held by the lock of its class. */
  ghost predicate AddHeld(n: nat, t: nat, e: Entry, k: nat, applied: nat,
                          proposals: map<nat, Proposal>, locks: map<(nat, string), nat>)
  {
    e.term == t && e.kind.Command? && e.req.AddTenants? && k >= applied ==>
      && (n, e.req.cls) in locks
      && locks[(n, e.req.cls)] in proposals
      && proposals[locks[(n, e.req.cls)]].phase == Appended(t, k + 1)
  }

  ghost predicate AddsInv(leading: map<nat, nat>, terms: map<nat, TermLog>, applied: map<nat, nat>,
                          proposals: map<nat, Proposal>, locks: map<(nat, string), nat>)
  {
    forall n, k :: n in leading && leading[n] in terms && 0 <= k < |terms[leading[n]].log| ==>
      AddHeld(n, leading[n], terms[leading[n]].log[k], k, At(applied, n), proposals, locks)
  }

  /** A tenant addition that has been judged saw every addition to its class
      that its term already holds. */
  ghost predicate SeenAdds(q: Proposal, leading: map<nat, nat>, terms: map<nat, TermLog>) {
    q.phase.Judged? && q.req.AddTenants? && LeadsIn(leading, terms, q.node, q.phase.term) ==>
      forall k :: 0 <= k < |terms[q.phase.term].log| && IsAdd(terms[q.phase.term].log[k], q.req.cls) ==> k < q.phase.prefix
  }

  ghost predicate SeenInv(proposals: map<nat, Proposal>, leading: map<nat, nat>, terms: map<nat, TermLog>) {
    forall p :: p in proposals ==> SeenAdds(proposals[p], leading, terms)
  }

  ghost predicate RaftInv(c: Cluster) {
    && TermsInv(c.terms, c.current)
    && BoundsInv(c.applied, c.committed, c.stamp, c.current)
    && LeadersInv(c.leading, c.terms, c.current, c.applied, c.committed, c.stamp)
  }

  ghost predicate CallersInv(g: Rules, c: Cluster) {
    && BarriersInv(c.barrier, c.proposals, c.terms, c.current)
    && LocksInv(g, c.proposals, c.locks)
    && PhasesInv(g, c.proposals, c.leading, c.terms, c.current, c.applied, c.committed)
  }

  ghost predicate TenantInv(g: Rules, c: Cluster) {
    g.capped ==>
      && AddsInv(c.leading, c.terms, c.applied, c.proposals, c.locks)
      && SeenInv(c.proposals, c.leading, c.terms)
  }

  ghost predicate Inv(g: Rules, c: Cluster) {
    RaftInv(c) && LogsInv(g, c.terms, c.committed) && CallersInv(g, c) && TenantInv(g, c)
  }
}
