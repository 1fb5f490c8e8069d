/** The proposing side as it is written: the catch-up gate, Store.Execute on the
    leader, and the retry loop of Raft.Execute around it. */
module Propose {
  import opened Fsm
  import opened Admission

  /** What the environment answers during one call: whether raft is running, the
      current term, whether a barrier succeeds, the state machine at judgement,
      and the future of the append. */
  datatype Env = Env(raftUp: bool, term: nat, barrierOk: bool, fsm: State, future: Future)

  datatype Future = Resolved(version: nat, ok: bool) | LeadershipLost | NotLeader | Timeout

  datatype Outcome = NotCaughtUp | Refused(why: Refusal) | Done(future: Future)

  predicate CaughtUpForTerm(stamp: nat, term: nat) {
    term != 0 && stamp == term
  }

  class Proposer {
    var fsmCaughtUpTerm: nat
    var barriers: nat
    var tenantAddLocks: set<string>

    constructor ()
      ensures fsmCaughtUpTerm == 0 && barriers == 0 && tenantAddLocks == {}
    {
      fsmCaughtUpTerm, barriers, tenantAddLocks := 0, 0, {};
    }

    /** waitLeaderFSMCaughtUp, under its mutex. Term 0 never reads as caught up. */
    method WaitLeaderFSMCaughtUp(env: Env) returns (ok: bool)
      modifies this`fsmCaughtUpTerm, this`barriers
      ensures ok <==> !env.raftUp || (env.term != 0 && old(fsmCaughtUpTerm) == env.term) || env.barrierOk
      ensures ok && env.raftUp ==> fsmCaughtUpTerm == env.term
      ensures !ok || !env.raftUp ==> fsmCaughtUpTerm == old(fsmCaughtUpTerm)
      ensures barriers == old(barriers) +
                (if env.raftUp && !(env.term != 0 && old(fsmCaughtUpTerm) == env.term) then 1 else 0)
    {
      if !env.raftUp {
        return true;
      }
      if CaughtUpForTerm(fsmCaughtUpTerm, env.term) {
        return true;
      }
      barriers := barriers + 1;
      if !env.barrierOk {
        return false;
      }
      fsmCaughtUpTerm := env.term;
      return true;
    }

    /** Store.Execute: lock, gate, admission, filter, append, in this order. A
        command reaches raft exactly when the gate opened and both checks passed,
        and the tenant lock is given back on every path. */
    method Execute(req: Request, cap: int, env: Env) returns (out: Outcome)
      requires req.AddTenants? && cap >= 0 ==> req.cls !in tenantAddLocks
      modifies this
      ensures tenantAddLocks == old(tenantAddLocks)
      ensures out.NotCaughtUp? <==> env.raftUp && !(env.term != 0 && old(fsmCaughtUpTerm) == env.term) && !env.barrierOk
      ensures out.Done? <==> !out.NotCaughtUp? && Admits(env.fsm, req) && Filtered(env.fsm, req, cap)
      ensures out.Done? ==> out.future == env.future && (env.raftUp ==> fsmCaughtUpTerm == env.term)
    {
      var locked := req.AddTenants? && cap >= 0;
      if locked {
        tenantAddLocks := tenantAddLocks + {req.cls};
      }
      var up := WaitLeaderFSMCaughtUp(env);
      if !up {
        out := NotCaughtUp;
      } else {
        var v := AdmitPropose(env.fsm, req);
        if v.None? {
          v := PreApplyFilter(env.fsm, req, cap);
        }
        out := if v.Some? then Refused(v.value) else Done(env.future);
      }
      if locked {
        tenantAddLocks := tenantAddLocks - {req.cls};
      }
    }
  }

  /** One turn of the retry loop: this node led and executed, no leader was
      known, or the command was forwarded to the leader. */
  datatype Attempt = Led(out: Outcome) | NoLeader | Forwarded(version: nat) | ForwardFailed

  /** No leader was known, this one's state machine had not caught up, or it was losing
      the leadership. */
  predicate Retries(a: Attempt) {
    || a.NoLeader?
    || (a.Led? && (a.out.NotCaughtUp? || (a.out.Done? && (a.out.future.LeadershipLost? || a.out.future.NotLeader?))))
  }

  const MaxAttempts: nat := 11

  /** Raft.Execute: at most one attempt and ten retries; only a lost leadership, an
      unknown leader or a state machine still catching up is retried, and only while
      the caller's context lives, so an answer is always that of the last attempt
      made. A lost leadership is retried although its entry may be in the log: the
      command is proposed at least once, not at most once. ended(k) says whether the
      context has ended once k attempts were made. */
  method ExecuteWithRetry(known: bool, attempts: seq<Attempt>, ended: nat -> bool) returns (version: nat, ok: bool, used: nat)
    requires |attempts| >= MaxAttempts
    ensures used <= 11 && (used == 0 <==> !known)
    ensures known ==> forall i :: 0 <= i < used - 1 ==> Retries(attempts[i])
    ensures known ==> forall i :: 1 <= i < used ==> !ended(i)
    ensures known && Retries(attempts[used - 1]) ==> used == 11 || ended(used)
    ensures known ==> var a := attempts[used - 1];
                      a == NoLeader || a in {Led(NotCaughtUp), Led(Done(LeadershipLost)), Led(Done(NotLeader))} ==> used == 11 || ended(used)
    ensures ok <==> known && var a := attempts[used - 1];
                             a.Forwarded? || (a.Led? && a.out.Done? && a.out.future.Resolved? && a.out.future.ok)
    ensures ok ==> var a := attempts[used - 1]; version == if a.Forwarded? then a.version else a.out.future.version
  {
    version := 0;
    if !known {
      return 0, false, 0;
    }
    used := 0;
    while true
      invariant 0 <= used < MaxAttempts
      invariant forall i :: 0 <= i < used ==> Retries(attempts[i])
      invariant forall i :: 1 <= i <= used ==> !ended(i)
      decreases MaxAttempts - used
    {
      var a := attempts[used];
      used := used + 1;
      match a {
        case Led(Done(Resolved(v, fine))) => return v, fine, used;
        case Led(Done(Timeout)) => return 0, false, used;
        case Led(Refused(_)) => return 0, false, used;
        case Forwarded(v) => return v, true, used;
        case ForwardFailed => return version, false, used;
        case _ =>
      }
      if used == MaxAttempts || ended(used) {
        return version, false, used;
      }
    }
  }
}
