/** What the checks before an append do not prevent: a run of a cluster in which two
    commands are both judged before either is applied. It goes over the tenant cap,
    and it commits two classes whose names differ only in case. And a log over the
    cap that only an append outside the confirmed term could produce. */
module RaceWitness {
  import opened Fsm
  import opened Admission
  import opened Cluster
  import opened ClusterSafety
  import opened LogSafety

  const Create: Request := AddClass("A", true, map[])

  function Add(x: string): Request {
    AddTenants("A", [x], {x})
  }

  lemma PlainNames()
    ensures NamespaceOf("A") == "" && NamespaceOf("Ab") == "" && NamespaceOf("AB") == ""
  {
    assert SeparatorAt("") == 0;
    assert "A"[1..] == "";
    assert "Ab"[1..] == "b" && "b"[1..] == "";
    assert "AB"[1..] == "B" && "B"[1..] == "";
  }

  /** The class exists after n entries with these tenants. */
  ghost predicate Holds(s: State, tenants: set<string>) {
    "A" in s.classes && s.classes["A"].multiTenant && s.classes["A"].shards.Keys == tenants
  }

  lemma CreateA(h: Handlers, s: State, i: nat)
    requires !h.refuses(s, Create, i) && "A" !in s.classes
    ensures Holds(Apply(h, s, Create, i), {})
  {
  }

  lemma AddTenant(h: Handlers, s: State, tenants: set<string>, x: string, i: nat)
    requires Holds(s, tenants) && !h.refuses(s, Add(x), i)
    ensures Holds(Apply(h, s, Add(x), i), tenants + {x})
  {
    assert Names([x]) == {x};
  }

  // ---- the run ----

  const Barrier1: Entry := Entry(Barrier, 1, 0, Unknown)

  function Late(r: Request): Entry {
    Entry(Command, 1, 1, r)
  }

  /** Two commands that pass while nothing exists; the first takes no lock. */
  ghost predicate Pass(h: Handlers, a: Request, b: Request) {
    !a.AddTenants? && Checks(h, 0).passes(Init, a) && Checks(h, 0).passes(Init, b)
  }

  /** Their proposals in given phases, on node 0, which leads term 1. */
  function At(a: Request, b: Request, log: seq<Entry>, committed: seq<Entry>, applied: map<nat, nat>, stamp: map<nat, nat>,
              barrier: map<nat, Pending>, p: Phase, q: Phase): Cluster
  {
    Cluster(map[1 := TermLog(0, 0, log)], committed, map[0 := 1], map[0 := 1], applied, stamp, barrier,
            map[0 := Proposal(0, a, p), 1 := Proposal(0, b, q)],
            if q == Started || !b.AddTenants? then map[] else map[(0, b.cls) := 1])
  }

  const S0: Cluster := Empty
  const S1: Cluster := Empty.(terms := map[1 := TermLog(0, 0, [])], leading := map[0 := 1], current := map[0 := 1])

  function Alone(a: Request): Cluster {
    S1.(proposals := map[0 := Proposal(0, a, Started)])
  }

  function Waiting(a: Request, b: Request, p: Phase, q: Phase): Cluster {
    At(a, b, [], [], map[], map[], map[], p, q)
  }

  function Barred(a: Request, b: Request, log: seq<Entry>, committed: seq<Entry>, applied: map<nat, nat>, at: nat): Cluster {
    At(a, b, log, committed, applied, map[], map[0 := Pending(0, 1, at, at)], Ready, Ready)
  }

  function Past(a: Request, b: Request, log: seq<Entry>, committed: seq<Entry>, p: Phase, q: Phase): Cluster {
    At(a, b, log, committed, map[0 := 1], map[0 := 1], map[], p, q)
  }

  /** A run of the cluster with cap 0 that ends in state d. */
  ghost predicate Reaches(h: Handlers, run: seq<Cluster>, steps: seq<Step>, d: Cluster) {
    IsRun(Checks(h, 0), run, steps) && run[|steps|] == d
  }

  ghost predicate Goes(h: Handlers, c: Cluster, step: Step, d: Cluster) {
    Allowed(Checks(h, 0), c, step) && Do(Checks(h, 0), c, step) == d
  }

  lemma Next(h: Handlers, run: seq<Cluster>, steps: seq<Step>, c: Cluster, step: Step, d: Cluster)
    returns (run': seq<Cluster>, steps': seq<Step>)
    requires Reaches(h, run, steps, c) && Goes(h, c, step, d)
    ensures Reaches(h, run', steps', d)
  {
    run', steps' := run + [d], steps + [step];
  }

  lemma StillEmpty(h: Handlers)
    ensures StateAt(h, [Barrier1], 1) == Init
  {
    assert StateAt(h, [Barrier1], 0) == Init;
  }

  // One lemma per step.

  lemma Electing(h: Handlers, a: Request, b: Request)
    ensures Goes(h, S0, Elect(0, 1, []), S1)
  {
  }

  lemma FirstProposed(h: Handlers, a: Request, b: Request)
    ensures Goes(h, S1, Propose(0, 0, a), Alone(a))
  {
  }

  lemma SecondProposed(h: Handlers, a: Request, b: Request)
    ensures Goes(h, Alone(a), Propose(1, 0, b), Waiting(a, b, Started, Started))
  {
  }

  lemma FirstReady(h: Handlers, a: Request, b: Request)
    requires Pass(h, a, b)
    ensures Goes(h, Waiting(a, b, Started, Started), Lock(0), Waiting(a, b, Ready, Started))
  {
  }

  lemma SecondReady(h: Handlers, a: Request, b: Request)
    requires Pass(h, a, b)
    ensures Goes(h, Waiting(a, b, Ready, Started), Lock(1), Waiting(a, b, Ready, Ready))
  {
  }

  lemma BarrierStarts(h: Handlers, a: Request, b: Request)
    ensures Goes(h, Waiting(a, b, Ready, Ready), BarrierStart(0), Barred(a, b, [], [], map[], 0))
  {
  }

  lemma BarrierAppended(h: Handlers, a: Request, b: Request)
    ensures Goes(h, Barred(a, b, [], [], map[], 0), BarrierAppend(0), Barred(a, b, [Barrier1], [], map[], 1))
  {
    assert [] + [Barrier1] == [Barrier1];
  }

  lemma BarrierCommitted(h: Handlers, a: Request, b: Request)
    ensures Goes(h, Barred(a, b, [Barrier1], [], map[], 1), Commit(1, 1),
                 Barred(a, b, [Barrier1], [Barrier1], map[], 1))
  {
  }

  lemma BarrierAbsorbed(h: Handlers, a: Request, b: Request)
    ensures Goes(h, Barred(a, b, [Barrier1], [Barrier1], map[], 1), Absorb(0),
                 Barred(a, b, [Barrier1], [Barrier1], map[0 := 1], 1))
  {
  }

  lemma FirstConfirmed(h: Handlers, a: Request, b: Request)
    ensures Goes(h, Barred(a, b, [Barrier1], [Barrier1], map[0 := 1], 1), BarrierDone(0),
                 Past(a, b, [Barrier1], [Barrier1], Confirmed(1), Ready))
  {
  }

  lemma SecondConfirmed(h: Handlers, a: Request, b: Request)
    ensures Goes(h, Past(a, b, [Barrier1], [Barrier1], Confirmed(1), Ready), ConfirmMemo(1),
                 Past(a, b, [Barrier1], [Barrier1], Confirmed(1), Confirmed(1)))
  {
  }

  lemma FirstJudged(h: Handlers, a: Request, b: Request)
    requires Pass(h, a, b)
    ensures Goes(h, Past(a, b, [Barrier1], [Barrier1], Confirmed(1), Confirmed(1)), Judge(0),
                 Past(a, b, [Barrier1], [Barrier1], Judged(1, 1), Confirmed(1)))
  {
    StillEmpty(h);
  }

  lemma SecondJudged(h: Handlers, a: Request, b: Request)
    requires Pass(h, a, b)
    ensures Goes(h, Past(a, b, [Barrier1], [Barrier1], Judged(1, 1), Confirmed(1)), Judge(1),
                 Past(a, b, [Barrier1], [Barrier1], Judged(1, 1), Judged(1, 1)))
  {
    StillEmpty(h);
  }

  lemma FirstAppended(h: Handlers, a: Request, b: Request)
    requires Pass(h, a, b)
    ensures Goes(h, Past(a, b, [Barrier1], [Barrier1], Judged(1, 1), Judged(1, 1)), Append(0),
                 Past(a, b, [Barrier1, Late(a)], [Barrier1], Appended(1, 2), Judged(1, 1)))
  {
    assert [Barrier1] + [Late(a)] == [Barrier1, Late(a)];
  }

  lemma SecondAppended(h: Handlers, a: Request, b: Request)
    requires Pass(h, a, b)
    ensures Goes(h, Past(a, b, [Barrier1, Late(a)], [Barrier1], Appended(1, 2), Judged(1, 1)), Append(1),
                 Past(a, b, [Barrier1, Late(a), Late(b)], [Barrier1], Appended(1, 2), Appended(1, 3)))
  {
    assert [Barrier1, Late(a)] + [Late(b)] == [Barrier1, Late(a), Late(b)];
  }

  lemma BothCommitted(h: Handlers, a: Request, b: Request)
    ensures Goes(h, Past(a, b, [Barrier1, Late(a), Late(b)], [Barrier1], Appended(1, 2), Appended(1, 3)), Commit(1, 3),
                 Past(a, b, [Barrier1, Late(a), Late(b)], [Barrier1, Late(a), Late(b)], Appended(1, 2), Appended(1, 3)))
  {
    var log := [Barrier1, Late(a), Late(b)];
    assert log[..3] == log;
  }

  lemma ProposalsArrive(h: Handlers, a: Request, b: Request, run: seq<Cluster>, steps: seq<Step>)
    returns (run': seq<Cluster>, steps': seq<Step>)
    requires Reaches(h, run, steps, S0)
    ensures Reaches(h, run', steps', Waiting(a, b, Started, Started))
  {
    Electing(h, a, b);
    run', steps' := Next(h, run, steps, S0, Elect(0, 1, []), S1);
    FirstProposed(h, a, b);
    run', steps' := Next(h, run', steps', S1, Propose(0, 0, a), Alone(a));
    SecondProposed(h, a, b);
    run', steps' := Next(h, run', steps', Alone(a), Propose(1, 0, b), Waiting(a, b, Started, Started));
  }

  lemma CallersWait(h: Handlers, a: Request, b: Request, run: seq<Cluster>, steps: seq<Step>)
    returns (run': seq<Cluster>, steps': seq<Step>)
    requires Pass(h, a, b) && Reaches(h, run, steps, Waiting(a, b, Started, Started))
    ensures Reaches(h, run', steps', Barred(a, b, [], [], map[], 0))
  {
    FirstReady(h, a, b);
    run', steps' := Next(h, run, steps, Waiting(a, b, Started, Started), Lock(0), Waiting(a, b, Ready, Started));
    SecondReady(h, a, b);
    run', steps' := Next(h, run', steps', Waiting(a, b, Ready, Started), Lock(1), Waiting(a, b, Ready, Ready));
    BarrierStarts(h, a, b);
    run', steps' := Next(h, run', steps', Waiting(a, b, Ready, Ready), BarrierStart(0), Barred(a, b, [], [], map[], 0));
  }

  lemma BarrierRuns(h: Handlers, a: Request, b: Request, run: seq<Cluster>, steps: seq<Step>)
    returns (run': seq<Cluster>, steps': seq<Step>)
    requires Reaches(h, run, steps, Barred(a, b, [], [], map[], 0))
    ensures Reaches(h, run', steps', Barred(a, b, [Barrier1], [Barrier1], map[0 := 1], 1))
  {
    BarrierAppended(h, a, b);
    run', steps' := Next(h, run, steps, Barred(a, b, [], [], map[], 0), BarrierAppend(0),
                         Barred(a, b, [Barrier1], [], map[], 1));
    BarrierCommitted(h, a, b);
    run', steps' := Next(h, run', steps', Barred(a, b, [Barrier1], [], map[], 1), Commit(1, 1),
                         Barred(a, b, [Barrier1], [Barrier1], map[], 1));
    BarrierAbsorbed(h, a, b);
    run', steps' := Next(h, run', steps', Barred(a, b, [Barrier1], [Barrier1], map[], 1), Absorb(0),
                         Barred(a, b, [Barrier1], [Barrier1], map[0 := 1], 1));
  }

  lemma BothConfirm(h: Handlers, a: Request, b: Request, run: seq<Cluster>, steps: seq<Step>)
    returns (run': seq<Cluster>, steps': seq<Step>)
    requires Reaches(h, run, steps, Barred(a, b, [Barrier1], [Barrier1], map[0 := 1], 1))
    ensures Reaches(h, run', steps', Past(a, b, [Barrier1], [Barrier1], Confirmed(1), Confirmed(1)))
  {
    FirstConfirmed(h, a, b);
    run', steps' := Next(h, run, steps, Barred(a, b, [Barrier1], [Barrier1], map[0 := 1], 1), BarrierDone(0),
                         Past(a, b, [Barrier1], [Barrier1], Confirmed(1), Ready));
    SecondConfirmed(h, a, b);
    run', steps' := Next(h, run', steps', Past(a, b, [Barrier1], [Barrier1], Confirmed(1), Ready), ConfirmMemo(1),
                         Past(a, b, [Barrier1], [Barrier1], Confirmed(1), Confirmed(1)));
  }

  lemma BothJudge(h: Handlers, a: Request, b: Request, run: seq<Cluster>, steps: seq<Step>)
    returns (run': seq<Cluster>, steps': seq<Step>)
    requires Pass(h, a, b) && Reaches(h, run, steps, Past(a, b, [Barrier1], [Barrier1], Confirmed(1), Confirmed(1)))
    ensures Reaches(h, run', steps', Past(a, b, [Barrier1], [Barrier1], Judged(1, 1), Judged(1, 1)))
  {
    FirstJudged(h, a, b);
    run', steps' := Next(h, run, steps, Past(a, b, [Barrier1], [Barrier1], Confirmed(1), Confirmed(1)), Judge(0),
                         Past(a, b, [Barrier1], [Barrier1], Judged(1, 1), Confirmed(1)));
    SecondJudged(h, a, b);
    run', steps' := Next(h, run', steps', Past(a, b, [Barrier1], [Barrier1], Judged(1, 1), Confirmed(1)), Judge(1),
                         Past(a, b, [Barrier1], [Barrier1], Judged(1, 1), Judged(1, 1)));
  }

  lemma BothAppend(h: Handlers, a: Request, b: Request, run: seq<Cluster>, steps: seq<Step>)
    returns (run': seq<Cluster>, steps': seq<Step>)
    requires Pass(h, a, b) && Reaches(h, run, steps, Past(a, b, [Barrier1], [Barrier1], Judged(1, 1), Judged(1, 1)))
    ensures Reaches(h, run', steps', Past(a, b, [Barrier1, Late(a), Late(b)], [Barrier1], Appended(1, 2), Appended(1, 3)))
  {
    FirstAppended(h, a, b);
    run', steps' := Next(h, run, steps, Past(a, b, [Barrier1], [Barrier1], Judged(1, 1), Judged(1, 1)), Append(0),
                         Past(a, b, [Barrier1, Late(a)], [Barrier1], Appended(1, 2), Judged(1, 1)));
    SecondAppended(h, a, b);
    run', steps' := Next(h, run', steps', Past(a, b, [Barrier1, Late(a)], [Barrier1], Appended(1, 2), Judged(1, 1)), Append(1),
                         Past(a, b, [Barrier1, Late(a), Late(b)], [Barrier1], Appended(1, 2), Appended(1, 3)));
  }

  lemma BothCommit(h: Handlers, a: Request, b: Request, run: seq<Cluster>, steps: seq<Step>)
    returns (run': seq<Cluster>, steps': seq<Step>)
    requires Reaches(h, run, steps, Past(a, b, [Barrier1, Late(a), Late(b)], [Barrier1], Appended(1, 2), Appended(1, 3)))
    ensures Reaches(h, run', steps', Past(a, b, [Barrier1, Late(a), Late(b)], [Barrier1, Late(a), Late(b)], Appended(1, 2), Appended(1, 3)))
  {
    BothCommitted(h, a, b);
    run', steps' := Next(h, run, steps, Past(a, b, [Barrier1, Late(a), Late(b)], [Barrier1], Appended(1, 2), Appended(1, 3)), Commit(1, 3),
                         Past(a, b, [Barrier1, Late(a), Late(b)], [Barrier1, Late(a), Late(b)], Appended(1, 2), Appended(1, 3)));
  }

  /** Any two commands that pass while nothing exists, of which the first takes no lock,
      can be judged together and committed one after the other. */
  lemma BothLand(h: Handlers, a: Request, b: Request) returns (run: seq<Cluster>, steps: seq<Step>)
    requires Pass(h, a, b)
    ensures IsRun(Checks(h, 0), run, steps) && run[|steps|].committed == [Barrier1, Late(a), Late(b)]
  {
    run, steps := [S0], [];
    run, steps := ProposalsArrive(h, a, b, run, steps);
    run, steps := CallersWait(h, a, b, run, steps);
    run, steps := BarrierRuns(h, a, b, run, steps);
    run, steps := BothConfirm(h, a, b, run, steps);
    run, steps := BothJudge(h, a, b, run, steps);
    run, steps := BothAppend(h, a, b, run, steps);
    run, steps := BothCommit(h, a, b, run, steps);
  }

  // ---- what it leads to ----

  /** The tenant cap: the addition is judged when its class does not exist, so it is not
      counted, and the class lands first. */
  lemma RunExceedsCap(h: Handlers) returns (run: seq<Cluster>, steps: seq<Step>)
    requires forall s, r, i :: !h.refuses(s, r, i)
    ensures IsRun(Checks(h, 0), run, steps)
    ensures var log := run[|steps|].committed; |log| == 3 && Tenants(h, log, 3, "A") == {"x"}
  {
    PlainNames();
    run, steps := BothLand(h, Create, Add("x"));
    RaceLog(h);
  }

  /** Names distinct up to case: both spellings are judged when neither exists. */
  lemma RunCommitsBothSpellings(h: Handlers) returns (run: seq<Cluster>, steps: seq<Step>)
    requires forall s, r, i :: !h.refuses(s, r, i)
    ensures IsRun(Checks(h, 0), run, steps)
    ensures var log := run[|steps|].committed; |log| == 3 && StateAt(h, log, 3).classes.Keys == {"Ab", "AB"}
    ensures Fold("Ab") == Fold("AB")
  {
    PlainNames();
    run, steps := BothLand(h, AddClass("Ab", false, map[]), AddClass("AB", false, map[]));
    BothSpellings(h);
    assert Fold("Ab") == "ab" && Fold("AB") == "ab";
  }

  lemma BothSpellings(h: Handlers)
    requires forall s, r, i :: !h.refuses(s, r, i)
    ensures var log := [Barrier1, Late(AddClass("Ab", false, map[])), Late(AddClass("AB", false, map[]))];
            StateAt(h, log, 3).classes.Keys == {"Ab", "AB"}
  {
    var a, b := AddClass("Ab", false, map[]), AddClass("AB", false, map[]);
    var log := [Barrier1, Late(a), Late(b)];
    assert StateAt(h, log, 0) == Init;
    assert StateAt(h, log, 1) == Init;
    assert StateAt(h, log, 2) == Apply(h, Init, a, 2);
    assert StateAt(h, log, 3) == Apply(h, StateAt(h, log, 2), b, 3);
  }

  lemma RaceLog(h: Handlers)
    requires forall s, r, i :: !h.refuses(s, r, i)
    ensures Tenants(h, [Barrier1, Late(Create), Late(Add("x"))], 3, "A") == {"x"}
  {
    var log := [Barrier1, Late(Create), Late(Add("x"))];
    assert StateAt(h, log, 0) == Init;
    assert StateAt(h, log, 1) == Init;
    CreateA(h, Init, 2);
    AddTenant(h, StateAt(h, log, 2), {}, "x", 3);
  }

  /** Why the append must happen in the confirmed term: the third entry passes both
      checks against the prefix it was judged on, but that prefix misses an addition
      of an earlier term, and the cap of 1 is exceeded. */
  lemma StaleJudgementBreaksCap(h: Handlers)
    requires forall s, r, i :: !h.refuses(s, r, i)
    ensures var log := [Entry(Command, 1, 0, Create), Entry(Command, 1, 1, Add("x")), Entry(Command, 2, 1, Add("y"))];
            && Admits(StateAt(h, log, 1), Add("y")) && Filtered(StateAt(h, log, 1), Add("y"), 1)
            && Tenants(h, log, 3, "A") == {"x", "y"}
  {
    var log := [Entry(Command, 1, 0, Create), Entry(Command, 1, 1, Add("x")), Entry(Command, 2, 1, Add("y"))];
    var s1, s2 := StateAt(h, log, 1), StateAt(h, log, 2);
    assert StateAt(h, log, 0) == Init;
    CreateA(h, Init, 1);
    AddTenant(h, s1, {}, "x", 2);
    AddTenant(h, s2, {"x"}, "y", 3);
    OneFits(s1, "y");
  }

  lemma OneFits(s: State, x: string)
    requires Holds(s, {})
    ensures Admits(s, Add(x)) && Filtered(s, Add(x), 1)
  {
    PlainNames();
    assert [x][1..] == [];
  }
}
