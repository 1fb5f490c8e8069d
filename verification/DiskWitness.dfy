/** Concrete runs of a node in which the database and the schema part ways. */
module DiskWitness {
  import opened Fsm
  import opened Admission
  import opened Node
  import opened LogScan
  import opened Incarnations
  import opened CatchUp
  import opened InStep
  import opened NodeRun
  import opened Restart
  import opened Scenarios

  function Cmd(r: Request): Entry {
    Entry(Command, 1, 0, r)
  }

  const One: map<string, bool> := map["s" := true]
  const AddA: Entry := Cmd(AddClass("A", false, One))
  const DeleteA: Entry := Cmd(DeleteClass("A"))
  const AddTenanted: Entry := Cmd(AddClass("A", true, map[]))
  const AddX: Entry := Cmd(AddTenants("A", ["x"], {"x"}))

  lemma Spellings()
    ensures Fold("A") == "a" && Fold("Ab") == "ab" && Fold("AB") == "ab" && "Ab" != "AB"
  {
    assert Fold("A") == "a";
    assert Fold("Ab") == "ab";
    assert Fold("AB") == "ab";
  }

  lemma Sole(classes: map<string, ClassMeta>, c: string)
    requires c in classes && classes.Keys == {c}
    ensures Owner(classes, Fold(c)) == Some(c) && !Shared(classes, Fold(c))
  {
  }

  // ---- a tenant deletion without names ----

  const Tenanted: seq<Entry> := [AddTenanted, AddX]
  const DeleteNone: Entry := Cmd(DeleteTenants("A", []))

  lemma TenantedStates(h: Handlers)
    requires Willing(h)
    ensures StateAt(h, Tenanted, 1).classes.Keys == {"A"} && StateAt(h, Tenanted, 1).classes["A"].multiTenant
    ensures var classes := StateAt(h, Tenanted, 2).classes;
            classes.Keys == {"A"} && classes["A"].multiTenant && classes["A"].shards == map["x" := Partition(2, true)]
    ensures AllHarmless(h, Tenanted)
  {
    assert Names(["x"]) == {"x"};
    assert StateAt(h, Tenanted, 0) == Init;
    assert StateAt(h, Tenanted, 1) == Apply(h, Init, Tenanted[0].req, 1);
    assert StateAt(h, Tenanted, 2) == Apply(h, StateAt(h, Tenanted, 1), Tenanted[1].req, 2);
    assert Harmless(h, Tenanted, 1) && Harmless(h, Tenanted, 2);
  }

  /** A run in which a tenant stays in the schema, active, while its shard is closed and
      its directory removed. */
  lemma EmptyDeletionDropsAll(h: Handlers) returns (run: seq<Machine>, steps: seq<Step>)
    requires Willing(h)
    ensures IsRun(h, run, steps) && |steps| > 0
    ensures var n, n' := run[|steps| - 1].node, run[|steps|].node;
            && FollowsAt(n.open, n.fsm.classes, "a") && !FollowsAt(n'.open, n'.fsm.classes, "a")
            && "A" in n'.fsm.classes && "x" in Hot(n'.fsm.classes["A"])
            && Dir("a", "x") in n.disk && Dir("a", "x") !in n'.disk
  {
    TenantedStates(h);
    run, steps := Continued(h, Tenanted, DeleteNone);
    EmptyDeletion(h, run[|steps| - 1].node, run[|steps|].node);
  }

  lemma EmptyDeletion(h: Handlers, n: Node, n': Node)
    requires Willing(h) && OneMore(h, Tenanted, DeleteNone.req, n, n')
    ensures FollowsAt(n.open, n.fsm.classes, "a") && !FollowsAt(n'.open, n'.fsm.classes, "a")
    ensures "A" in n'.fsm.classes && "x" in Hot(n'.fsm.classes["A"])
    ensures Dir("a", "x") in n.disk && Dir("a", "x") !in n'.disk
  {
    Spellings();
    TenantedStates(h);
    assert FollowsAt(n.open, n.fsm.classes, "a") && AgreesAt(n.disk, n.fsm.classes, "a");
    CommandFollowsIff(h, n, DeleteNone.req, 3, "a");
    Sole(n.fsm.classes, "A");
    assert "x" in Hot(n.fsm.classes["A"]);
    assert Fits(n.disk, n.fsm.classes, Dir("a", "x"));
    FollowedOwner(n.open, n.fsm.classes, "a");
    ShardTag(h, n, DeleteNone.req, 3, "x");
    SwitchedHot(h, n.fsm, DeleteNone.req, 3);
  }

  // ---- names that differ only in case ----

  const AddAb: Entry := Cmd(AddClass("Ab", false, One))
  const DeleteAb: Entry := Cmd(DeleteClass("Ab"))
  const AddAB: Entry := Cmd(AddClass("AB", false, One))
  const DeleteAB: Entry := Cmd(DeleteClass("AB"))
  const Respelled: seq<Entry> := [AddAb, DeleteAb, AddAB]

  lemma AbStates(h: Handlers)
    requires Willing(h)
    ensures var classes := StateAt(h, [AddAb], 1).classes; classes.Keys == {"Ab"} && Hot(classes["Ab"]) == {"s"}
    ensures AllHarmless(h, [AddAb])
  {
    assert StateAt(h, [AddAb], 0) == Init;
    assert StateAt(h, [AddAb], 1) == Apply(h, Init, AddAb.req, 1);
    assert Harmless(h, [AddAb], 1);
  }

  lemma RespelledStates(h: Handlers)
    requires Willing(h)
    ensures StateAt(h, Respelled, 1).classes.Keys == {"Ab"} && StateAt(h, Respelled, 2).classes == map[]
    ensures StateAt(h, Respelled, 2).aliases == map[]
    ensures var classes := StateAt(h, Respelled, 3).classes; classes.Keys == {"AB"} && Hot(classes["AB"]) == {"s"}
    ensures AllHarmless(h, Respelled) && "Ab" in Recorded(h, Respelled, map[], 0, 3)
  {
    assert StateAt(h, Respelled, 0) == Init;
    assert StateAt(h, Respelled, 1) == Apply(h, Init, AddAb.req, 1);
    assert StateAt(h, Respelled, 2) == Apply(h, StateAt(h, Respelled, 1), DeleteAb.req, 2);
    assert StateAt(h, Respelled, 3) == Apply(h, StateAt(h, Respelled, 2), AddAB.req, 3);
    assert Harmless(h, Respelled, 1) && Harmless(h, Respelled, 2) && Harmless(h, Respelled, 3);
    assert DeletedBy(h, Respelled, 2) == {"Ab"};
    assert "Ab" in Recorded(h, Respelled, map[], 0, 2);
  }

  /** Each of these commands passes the filter on the state before it. */
  lemma RespellingIsAdmitted(h: Handlers)
    requires Willing(h)
    ensures forall i :: 0 <= i < 3 ==> Filtered(StateAt(h, Respelled, i), Respelled[i].req, -1)
  {
    RespelledStates(h);
    assert StateAt(h, Respelled, 0) == Init;
  }

  /** A run in which everything was applied live, and the restart removes the index and
      the files of a class the schema names: its replay records the earlier spelling
      as an orphan. */
  lemma RespelledClassIsDropped(h: Handlers) returns (run: seq<Machine>, steps: seq<Step>)
    requires Willing(h)
    ensures IsRun(h, run, steps)
    ensures var n := run[|steps|].node;
            && n.dbLoaded && n.fsm.classes.Keys == {"AB"} && Hot(n.fsm.classes["AB"]) == {"s"}
            && !FollowsAt(n.open, n.fsm.classes, "ab") && !AgreesAt(n.disk, n.fsm.classes, "ab")
  {
    RespelledStates(h);
    assert Respelled[..3] == Respelled;
    run, steps := Restarted(h, Respelled, 3);
    RespelledVerdict(h, run[|steps|].session.found, run[|steps|].node);
  }

  lemma RespelledVerdict(h: Handlers, found: Disk, n: Node)
    requires Willing(h) && LoadedAs(h, Respelled, 3, found, n)
    ensures !FollowsAt(n.open, n.fsm.classes, "ab") && !AgreesAt(n.disk, n.fsm.classes, "ab")
  {
    Spellings();
    RespelledStates(h);
    Sole(n.fsm.classes, "AB");
    assert LoadedIndex(h, Respelled, 3, found, n, "ab");
    assert Hits(Recorded(h, Respelled, map[], 0, 3), n.fsm.classes, "ab");
  }

  /** The same by a snapshot that a loaded node installs. */
  lemma RespelledSnapshotDrops(h: Handlers) returns (run: seq<Machine>, steps: seq<Step>)
    requires Willing(h)
    ensures IsRun(h, run, steps)
    ensures var n := run[|steps|].node; n.fsm.classes.Keys == {"AB"} && !FollowsAt(n.open, n.fsm.classes, "ab")
  {
    RespelledStates(h);
    AbStates(h);
    assert Respelled[..1] == [AddAb];
    run, steps := Installed(h, Respelled, 1);
    RespelledJump(h, run[|steps| - 1].node, run[|steps|].node);
  }

  lemma RespelledJump(h: Handlers, n: Node, n': Node)
    requires Willing(h) && Jumps(h, Respelled, 1, n, n')
    ensures !FollowsAt(n'.open, n'.fsm.classes, "ab")
  {
    Spellings();
    RespelledStates(h);
    Sole(n'.fsm.classes, "AB");
    assert FollowsAt(n.open, n.fsm.classes, "ab") && "Ab" in n.fsm.classes;
    InstallFollowsIff(n, StateAt(h, Respelled, 3), NoLot, "ab");
    assert Replaces(n.fsm.classes, n'.fsm.classes, "ab");
  }

  /** A live delete that spells a class otherwise changes nothing in the schema and drops
      the class's index and files. */
  lemma MisspelledDeleteDrops(h: Handlers) returns (run: seq<Machine>, steps: seq<Step>)
    requires Willing(h)
    ensures IsRun(h, run, steps) && |steps| > 0
    ensures var n, n' := run[|steps| - 1].node, run[|steps|].node;
            && n'.fsm.classes.Keys == {"Ab"} && FollowsAt(n.open, n.fsm.classes, "ab")
            && !FollowsAt(n'.open, n'.fsm.classes, "ab") && HasDir(n.disk, "ab") && !HasDir(n'.disk, "ab")
  {
    AbStates(h);
    run, steps := Continued(h, [AddAb], DeleteAB);
    MisspelledDelete(h, run[|steps| - 1].node, run[|steps|].node);
  }

  lemma MisspelledDelete(h: Handlers, n: Node, n': Node)
    requires Willing(h) && OneMore(h, [AddAb], DeleteAB.req, n, n')
    ensures n'.fsm.classes.Keys == {"Ab"} && FollowsAt(n.open, n.fsm.classes, "ab")
    ensures !FollowsAt(n'.open, n'.fsm.classes, "ab") && HasDir(n.disk, "ab") && !HasDir(n'.disk, "ab")
  {
    Spellings();
    AbStates(h);
    assert FollowsAt(n.open, n.fsm.classes, "ab") && AgreesAt(n.disk, n.fsm.classes, "ab");
    Sole(n.fsm.classes, "Ab");
    CommandFollowsIff(h, n, DeleteAB.req, 2, "ab");
    FollowedOwner(n.open, n.fsm.classes, "ab");
    assert Fits(n.disk, n.fsm.classes, Dir("ab", "s"));
  }

  /** A class added live beside one that goes by the same index has none of its own. Only
      a race lets both through. */
  lemma SecondSpellingHasNoIndex(h: Handlers) returns (run: seq<Machine>, steps: seq<Step>)
    requires Willing(h)
    ensures IsRun(h, run, steps)
    ensures var n := run[|steps|].node;
            && n.fsm.classes.Keys == {"Ab", "AB"} && "ab" in n.open && n.open["ab"].cls == "Ab"
            && !FollowsAt(n.open, n.fsm.classes, "ab")
  {
    AbStates(h);
    run, steps := Continued(h, [AddAb], AddAB);
    SecondSpelling(h, run[|steps| - 1].node, run[|steps|].node);
  }

  lemma SecondSpelling(h: Handlers, n: Node, n': Node)
    requires Willing(h) && OneMore(h, [AddAb], AddAB.req, n, n')
    ensures n'.fsm.classes.Keys == {"Ab", "AB"} && "ab" in n'.open && n'.open["ab"].cls == "Ab"
    ensures !FollowsAt(n'.open, n'.fsm.classes, "ab")
  {
    Spellings();
    AbStates(h);
    assert FollowsAt(n.open, n.fsm.classes, "ab");
    Sole(n.fsm.classes, "Ab");
    CommandFollowsIff(h, n, AddAB.req, 2, "ab");
    FollowedOwner(n.open, n.fsm.classes, "ab");
  }

  // ---- restarts and installs that miss what happened in between ----

  const TenantGone: seq<Entry> := [AddTenanted, AddX, Cmd(DeleteTenants("A", ["x"]))]

  lemma TenantGoneStates(h: Handlers)
    requires Willing(h)
    ensures TenantGone[..2] == Tenanted
    ensures var classes := StateAt(h, TenantGone, 2).classes; classes.Keys == {"A"} && "x" in Hot(classes["A"])
    ensures var classes := StateAt(h, TenantGone, 3).classes; classes.Keys == {"A"} && classes["A"].shards == map[]
    ensures Recorded(h, TenantGone, map[], 0, 3) == {}
  {
    TenantedStates(h);
    assert TenantGone[..2] == Tenanted[..2];
    PrefixDeterminesState(h, TenantGone, Tenanted, 2);
    assert Names(["x"]) == {"x"};
    assert StateAt(h, TenantGone, 3) == Apply(h, StateAt(h, TenantGone, 2), TenantGone[2].req, 3);
    assert DeletedBy(h, TenantGone, 1) == {} && DeletedBy(h, TenantGone, 2) == {} && DeletedBy(h, TenantGone, 3) == {};
    assert Recorded(h, TenantGone, map[], 0, 1) == {} && Recorded(h, TenantGone, map[], 0, 2) == {};
  }

  /** A run in which a tenant deleted in the part of the log that is only replayed keeps
      its files. */
  lemma ReplayedTenantDeleteKeepsFiles(h: Handlers) returns (run: seq<Machine>, steps: seq<Step>)
    requires Willing(h)
    ensures IsRun(h, run, steps)
    ensures var n := run[|steps|].node;
            && n.dbLoaded && n.fsm.classes.Keys == {"A"} && n.fsm.classes["A"].shards == map[]
            && FollowsAt(n.open, n.fsm.classes, "a") && !AgreesAt(n.disk, n.fsm.classes, "a")
  {
    TenantGoneStates(h);
    TenantedStates(h);
    run, steps := Restarted(h, TenantGone, 2);
    TenantGoneVerdict(h, run[|steps|].session.found, run[|steps|].node);
  }

  lemma TenantGoneVerdict(h: Handlers, found: Disk, n: Node)
    requires Willing(h) && LoadedAs(h, TenantGone, 2, found, n)
    ensures FollowsAt(n.open, n.fsm.classes, "a") && !AgreesAt(n.disk, n.fsm.classes, "a")
  {
    Spellings();
    TenantGoneStates(h);
    Sole(n.fsm.classes, "A");
    Sole(StateAt(h, TenantGone, 2).classes, "A");
    assert LoadedIndex(h, TenantGone, 2, found, n, "a");
    assert Fits(found, StateAt(h, TenantGone, 2).classes, Dir("a", "x"));
    assert !Kept(n.fsm.classes, "a", "x", 2);
  }

  const Again: seq<Entry> := [AddA, DeleteA, AddA]

  lemma AgainStates(h: Handlers)
    requires Willing(h)
    ensures AllHarmless(h, [AddA]) && Again[..1] == [AddA]
    ensures var classes := StateAt(h, Again, 1).classes; classes.Keys == {"A"} && "s" in Hot(classes["A"])
    ensures var classes := StateAt(h, Again, 3).classes;
            classes.Keys == {"A"} && "s" in Hot(classes["A"]) && classes["A"].shards["s"].born == 3
  {
    assert StateAt(h, [AddA], 0) == Init && StateAt(h, Again, 0) == Init;
    assert Harmless(h, [AddA], 1);
    assert StateAt(h, Again, 1) == Apply(h, Init, AddA.req, 1);
    assert StateAt(h, Again, 2) == Apply(h, StateAt(h, Again, 1), DeleteA.req, 2);
    assert StateAt(h, Again, 3) == Apply(h, StateAt(h, Again, 2), AddA.req, 3);
  }

  /** A run in which a class dropped and created again in that part keeps the files of
      its first incarnation under the second. */
  lemma RecreatedClassKeepsOldFiles(h: Handlers) returns (run: seq<Machine>, steps: seq<Step>)
    requires Willing(h)
    ensures IsRun(h, run, steps)
    ensures var n := run[|steps|].node;
            && n.dbLoaded && n.fsm.classes.Keys == {"A"}
            && FollowsAt(n.open, n.fsm.classes, "a") && !AgreesAt(n.disk, n.fsm.classes, "a")
  {
    AgainStates(h);
    run, steps := Restarted(h, Again, 1);
    AgainVerdict(h, run[|steps|].session.found, run[|steps|].node);
  }

  lemma AgainVerdict(h: Handlers, found: Disk, n: Node)
    requires Willing(h) && LoadedAs(h, Again, 1, found, n)
    ensures FollowsAt(n.open, n.fsm.classes, "a") && !AgreesAt(n.disk, n.fsm.classes, "a")
  {
    Spellings();
    AgainStates(h);
    Sole(n.fsm.classes, "A");
    Sole(StateAt(h, Again, 1).classes, "A");
    assert LoadedIndex(h, Again, 1, found, n, "a");
    assert Fits(found, StateAt(h, Again, 1).classes, Dir("a", "s"));
    assert !Kept(n.fsm.classes, "a", "s", 1);
    NotHit(h, n.fsm.classes);
  }

  lemma NotHit(h: Handlers, classes: map<string, ClassMeta>)
    requires Willing(h) && classes.Keys == {"A"}
    ensures !Hits(Recorded(h, Again, map[], 0, 3), classes, "a")
  {
    assert Recorded(h, Again, map[], 0, 1) == {};
    assert Recorded(h, Again, map[], 0, 2) <= {"A"};
    assert Recorded(h, Again, map[], 0, 3) <= {"A"};
  }

  /** So does a class created again in a snapshot that a loaded node installs. */
  lemma InstalledClassKeepsOldFiles(h: Handlers) returns (run: seq<Machine>, steps: seq<Step>)
    requires Willing(h)
    ensures IsRun(h, run, steps)
    ensures var n := run[|steps|].node;
            FollowsAt(n.open, n.fsm.classes, "a") && !AgreesAt(n.disk, n.fsm.classes, "a")
  {
    AgainStates(h);
    run, steps := Installed(h, Again, 1);
    AgainJump(h, run[|steps| - 1].node, run[|steps|].node);
  }

  lemma AgainJump(h: Handlers, n: Node, n': Node)
    requires Willing(h) && Jumps(h, Again, 1, n, n')
    ensures FollowsAt(n'.open, n'.fsm.classes, "a") && !AgreesAt(n'.disk, n'.fsm.classes, "a")
  {
    Spellings();
    AgainStates(h);
    Sole(n.fsm.classes, "A");
    Sole(n'.fsm.classes, "A");
    assert FollowsAt(n.open, n.fsm.classes, "a") && AgreesAt(n.disk, n.fsm.classes, "a");
    InstallFollowsIff(n, StateAt(h, Again, 3), NoLot, "a");
    InstallAgreesIff(h, Again, n, 1, 3, NoLot, "a");
    assert Fits(n.disk, n.fsm.classes, Dir("a", "s"));
    assert !Survives(n.fsm.classes, n'.fsm.classes, 1, "a", "s");
  }

  // ---- an inactive tenant that a snapshot drops ----

  const CoolX: Entry := Cmd(UpdateTenants("A", {}, {"x"}))
  const DropX: Entry := Cmd(DeleteTenants("A", ["x"]))
  const Cooled3: seq<Entry> := [AddTenanted, AddX, CoolX]
  const Cooled4: seq<Entry> := [AddTenanted, AddX, CoolX, DropX]

  ghost predicate LetsGo(h: Handlers) {
    Willing(h) && forall s, r, i :: "x" in h.free(s, r, i)
  }

  lemma CooledOnce(h: Handlers)
    requires LetsGo(h)
    ensures Cooled3[..2] == Tenanted && Cooled4[..3] == Cooled3
    ensures var classes := StateAt(h, Cooled3, 3).classes;
            classes.Keys == {"A"} && classes["A"].multiTenant && classes["A"].shards == map["x" := Partition(2, false)]
  {
    TenantedStates(h);
    assert Cooled3[..2] == Tenanted[..2];
    PrefixDeterminesState(h, Cooled3, Tenanted, 2);
    assert StateAt(h, Cooled3, 3) == Apply(h, StateAt(h, Cooled3, 2), CoolX.req, 3);
  }

  lemma CooledStates(h: Handlers)
    requires LetsGo(h)
    ensures Cooled3[..2] == Tenanted && Cooled4[..3] == Cooled3
    ensures var classes := StateAt(h, Cooled3, 3).classes;
            classes.Keys == {"A"} && classes["A"].multiTenant && classes["A"].shards == map["x" := Partition(2, false)]
    ensures var classes := StateAt(h, Cooled4, 4).classes;
            classes.Keys == {"A"} && classes["A"].multiTenant && classes["A"].shards == map[]
  {
    CooledOnce(h);
    assert Cooled4[..3] == Cooled3[..3];
    PrefixDeterminesState(h, Cooled4, Cooled3, 3);
    TenantDropped(h, StateAt(h, Cooled4, 3));
    assert StateAt(h, Cooled4, 4) == Apply(h, StateAt(h, Cooled4, 3), DropX.req, 4);
  }

  lemma TenantDropped(h: Handlers, s: State)
    requires Willing(h) && s.classes.Keys == {"A"} && s.classes["A"].multiTenant && s.classes["A"].shards.Keys == {"x"}
    ensures var classes := Apply(h, s, DropX.req, 4).classes;
            classes.Keys == {"A"} && classes["A"].multiTenant && classes["A"].shards == map[]
  {
    assert Names(["x"]) == {"x"};
  }

  /** The tenant is active, then not; its directory stays. */
  lemma Cooling(h: Handlers) returns (run: seq<Machine>, steps: seq<Step>)
    requires LetsGo(h)
    ensures Reaches(h, run, steps, LiveAt(Cooled3)) && AllInStep(run[|steps|]) && Dir("a", "x") in run[|steps|].node.disk
  {
    TenantedStates(h);
    CooledStates(h);
    run, steps := Live(h, Tenanted);
    TenantHasFiles(h, run, steps);
    var k := LiveAt(Tenanted);
    run, steps := DoCommit(h, run, steps, k, [CoolX]);
    HarmlessRunStep(h, run, steps, |steps| - 1);
    assert Tenanted + [CoolX] == Cooled3;
    k := k.(committed := Cooled3);
    run, steps := DoReplicate(h, run, steps, k, LogMap(Cooled3));
    HarmlessRunStep(h, run, steps, |steps| - 1);
    k := k.(log := LogMap(Cooled3));
    ghost var live, sofar := run, steps;
    assert Dir("a", "x") in live[|sofar|].node.disk;
    run, steps := DeliverOne(h, run, steps, k);
    assert Delivered(k, 3) == LiveAt(Cooled3);
    CoolingKeeps(h, run, steps, |sofar|);
  }

  lemma TenantHasFiles(h: Handlers, run: seq<Machine>, steps: seq<Step>)
    requires Willing(h) && Reaches(h, run, steps, LiveAt(Tenanted)) && AllInStep(run[|steps|])
    ensures Dir("a", "x") in run[|steps|].node.disk
  {
    Spellings();
    TenantedStates(h);
    var m := run[|steps|];
    RunKeepsInv(h, run, steps, |steps|);
    Sole(m.node.fsm.classes, "A");
    assert InStepAt(m, "a");
    assert Fits(m.node.disk, m.node.fsm.classes, Dir("a", "x"));
  }

  lemma CoolingKeeps(h: Handlers, run: seq<Machine>, steps: seq<Step>, j: nat)
    requires LetsGo(h) && IsRun(h, run, steps) && j + 2 == |steps| && steps[j] == Perform && steps[j + 1] == Complete(NoLot)
    requires AllInStep(run[j]) && run[j].committed == Cooled3 && run[j].delivered == 2 && Dir("a", "x") in run[j].node.disk
    ensures AllInStep(run[j + 2]) && Dir("a", "x") in run[j + 2].node.disk
  {
    Spellings();
    HarmlessRunStep(h, run, steps, j);
    HarmlessRunStep(h, run, steps, j + 1);
    RunKeepsInv(h, run, steps, j);
    LivePerform(h, run[j]);
    assert InStepAt(run[j], "a");
    CoolingNode(h, run[j].node);
    QuietStep(h, run[j + 1], steps[j + 1]);
  }

  lemma CoolingNode(h: Handlers, n: Node)
    requires LetsGo(h) && n.fsm == StateAt(h, Cooled3, 2) && !CatchingUp(n, 3) && Dir("a", "x") in n.disk
    requires FollowsAt(n.open, n.fsm.classes, "a") && AgreesAt(n.disk, n.fsm.classes, "a")
    ensures Dir("a", "x") in Effect(h, n, CoolX.req, 3).disk
  {
    Spellings();
    CooledStates(h);
    Sole(StateAt(h, Cooled3, 3).classes, "A");
    assert StateAt(h, Cooled3, 3) == Apply(h, n.fsm, CoolX.req, 3);
    CommandKeepsNamedIff(h, n, CoolX.req, 3, "a");
  }

  /** A run in which an inactive tenant dropped by an installed snapshot keeps its files. */
  lemma ColdTenantKeepsFiles(h: Handlers) returns (run: seq<Machine>, steps: seq<Step>)
    requires LetsGo(h)
    ensures IsRun(h, run, steps)
    ensures var n := run[|steps|].node;
            && n.fsm.classes.Keys == {"A"} && n.fsm.classes["A"].shards == map[]
            && FollowsAt(n.open, n.fsm.classes, "a") && !AgreesAt(n.disk, n.fsm.classes, "a")
  {
    CooledStates(h);
    run, steps := Cooling(h);
    run, steps := InstallOn(h, run, steps, LiveAt(Cooled3), [DropX]);
    assert Cooled3 + [DropX] == Cooled4;
    ColdJump(h, run[|steps| - 1].node, run[|steps|].node);
  }

  lemma ColdJump(h: Handlers, n: Node, n': Node)
    requires LetsGo(h) && Jumps(h, Cooled4, 3, n, n') && Dir("a", "x") in n.disk
    ensures FollowsAt(n'.open, n'.fsm.classes, "a") && !AgreesAt(n'.disk, n'.fsm.classes, "a")
  {
    Spellings();
    CooledStates(h);
    PrefixDeterminesState(h, Cooled4, Cooled3, 3);
    Sole(n.fsm.classes, "A");
    Sole(n'.fsm.classes, "A");
    assert FollowsAt(n.open, n.fsm.classes, "a") && AgreesAt(n.disk, n.fsm.classes, "a");
    InstallFollowsIff(n, StateAt(h, Cooled4, 4), NoLot, "a");
    InstallAgreesIff(h, Cooled4, n, 3, 4, NoLot, "a");
    assert !Survives(n.fsm.classes, n'.fsm.classes, 3, "a", "x");
  }

  // ---- an overwritten log tail ----

  const Lost2: Entry := Cmd(Manager([]))
  const Noop2: Entry := Entry(NoOp, 2, 0, Unknown)
  const Delete3: Entry := Entry(Command, 2, 0, DeleteClass("A"))
  const Tail: seq<Entry> := [AddA, Noop2, Delete3]

  function TailAt(delivered: nat, inFlight: bool, peak: nat, loaded: bool, found: Disk): Skeleton {
    Skeleton(Tail, LogMap(Tail), true, delivered, inFlight, peak, map[], multiset{}, 2, loaded, found, false)
  }

  /** The class is added live, an uncommitted command reaches the log, and the process
      dies. The next one counts the lost command into its boundary. */
  lemma LostTail(h: Handlers) returns (run: seq<Machine>, steps: seq<Step>)
    requires Willing(h)
    ensures |run| == |steps| + 1
    ensures var found := run[|steps|].session.found;
            && Reaches(h, run, steps, Skeleton([AddA], map[1 := AddA, 2 := Lost2], true, 0, false, 1, map[], multiset{}, 2, false, found, false))
            && AgreesAt(found, StateAt(h, [AddA], 1).classes, "a")
  {
    AgainStates(h);
    run, steps := Live(h, [AddA]);
    assert [AddA][..1] == [AddA];
    FoundAgrees(h, run, steps, [AddA], 1);
    var k, disk := LiveAt([AddA]), run[|steps|].node.disk;
    run, steps := DoReplicate(h, run, steps, k, map[1 := AddA, 2 := Lost2]);
    assert run[|steps|].node.disk == disk;
    k := k.(log := map[1 := AddA, 2 := Lost2]);
    run, steps := DoCrash(h, run, steps, k);
    k := k.(up := false, delivered := 0, toDB := 0, loaded := false);
    run, steps := DoReopen(h, run, steps, k, 2);
  }

  /** But what commits is a no-op and then the delete, which runs live before the
      database is loaded. */
  lemma TailRun(h: Handlers) returns (run: seq<Machine>, steps: seq<Step>)
    requires Willing(h)
    ensures IsRun(h, run, steps) && |steps| > 1 && steps[|steps| - 1] == Complete(NoLot)
    ensures var found := run[|steps|].session.found;
            && Has(run[|steps| - 1], TailAt(2, true, 3, false, found)) && Has(run[|steps|], TailAt(3, false, 3, true, found))
            && AgreesAt(found, StateAt(h, [AddA], 1).classes, "a")
  {
    run, steps := LostTail(h);
    var found := run[|steps|].session.found;
    var k := Skeleton([AddA], map[1 := AddA, 2 := Lost2], true, 0, false, 1, map[], multiset{}, 2, false, found, false);
    run, steps := DoCommit(h, run, steps, k, [Noop2, Delete3]);
    assert [AddA] + [Noop2, Delete3] == Tail;
    k := k.(committed := Tail);
    run, steps := DoReplicate(h, run, steps, k, LogMap(Tail));
    run, steps := DeliverOne(h, run, steps, TailAt(0, false, 1, false, found));
    run, steps := DoSkip(h, run, steps, TailAt(1, false, 1, false, found));
    run, steps := DoPerform(h, run, steps, TailAt(2, false, 2, false, found));
    run, steps := DoComplete(h, run, steps, TailAt(2, true, 3, false, found));
  }

  lemma TailStates(h: Handlers)
    requires Willing(h)
    ensures var classes := StateAt(h, [AddA], 1).classes; classes.Keys == {"A"} && "s" in Hot(classes["A"])
    ensures StateAt(h, Tail, 3).classes == map[] && Takes(h, Tail, 3) && Recorded(h, Tail, map[], 0, 2) == {}
  {
    assert StateAt(h, [AddA], 0) == Init && StateAt(h, Tail, 0) == Init;
    assert StateAt(h, [AddA], 1) == Apply(h, Init, AddA.req, 1);
    assert StateAt(h, Tail, 1) == Apply(h, Init, AddA.req, 1);
    assert StateAt(h, Tail, 2) == StateAt(h, Tail, 1);
    assert StateAt(h, Tail, 3) == Apply(h, StateAt(h, Tail, 2), Delete3.req, 3);
    assert DeletedBy(h, Tail, 1) == {} && DeletedBy(h, Tail, 2) == {};
    assert Recorded(h, Tail, map[], 0, 1) == {};
  }

  /** A run whose end state is loaded, has no class in its schema, and still has a
      directory of one; before its last step the database is touched but not loaded. */
  lemma OverwrittenTailKeepsFiles(h: Handlers) returns (run: seq<Machine>, steps: seq<Step>)
    requires Willing(h)
    ensures IsRun(h, run, steps) && |steps| > 0
    ensures run[|steps| - 1].up && run[|steps| - 1].touched && !run[|steps| - 1].node.dbLoaded
    ensures var n := run[|steps|].node; n.dbLoaded && n.fsm.classes == map[] && HasDir(n.disk, "a")
  {
    run, steps := TailRun(h);
    TailStates(h);
    UnloadedDbIsTouchedIff(h, run, steps, |steps| - 1);
    TailEnds(h, run, steps);
  }

  lemma TailEnds(h: Handlers, run: seq<Machine>, steps: seq<Step>)
    requires Willing(h) && IsRun(h, run, steps) && |steps| > 1 && steps[|steps| - 1] == Complete(NoLot)
    requires var found := run[|steps|].session.found;
             && Has(run[|steps| - 1], TailAt(2, true, 3, false, found)) && Has(run[|steps|], TailAt(3, false, 3, true, found))
             && AgreesAt(found, StateAt(h, [AddA], 1).classes, "a")
    ensures run[|steps|].node.fsm.classes == map[] && HasDir(run[|steps|].node.disk, "a")
  {
    Spellings();
    TailStates(h);
    var k, found, n := |steps| - 1, run[|steps|].session.found, run[|steps|].node;
    RunKeepsInv(h, run, steps, |steps|);
    Sole(StateAt(h, [AddA], 1).classes, "A");
    assert Fits(found, StateAt(h, [AddA], 1).classes, Dir("a", "s"));
    LoadAgreesIff(h, run, steps, k, "a");
    assert Gone(h, run[k], steps[k]) == {};
    assert !Current(found, map[], "a", "s");
    var x :| !Fits(n.disk, n.fsm.classes, Dir("a", x));
    assert Dir("a", x) in n.disk;
  }

  // ---- a restore replayed over files staged for the next one ----

  const RestoreA: Entry := Cmd(RestoreClass("A", false, One))
  const Restored2: seq<Entry> := [RestoreA, DeleteA]
  const OneStaged: map<string, set<string>> := map["A" := {"s"}]

  function RestoredAt(up: bool, delivered: nat, peak: nat, staged: map<string, set<string>>, moves: multiset<nat>,
                      loaded: bool, adopted: bool): Skeleton
  {
    Skeleton(Restored2, LogMap(Restored2), up, delivered, false, peak, staged, moves, 0, loaded, map[], adopted)
  }

  /** Stage, restore, delete, stage again, die. */
  lemma RestoreAndStage(h: Handlers) returns (run: seq<Machine>, steps: seq<Step>)
    requires Willing(h)
    ensures Reaches(h, run, steps, RestoredAt(false, 0, 2, OneStaged, multiset{1}, false, true))
  {
    run, steps := Opening(h, Restored2);
    var k := RestoredAt(true, 0, 0, map[], multiset{}, true, false);
    run, steps := DoStage(h, run, steps, k, "A", {"s"});
    k := k.(staged := OneStaged);
    run, steps := DoPerform(h, run, steps, k);
    assert Performed(k) == RestoredAt(true, 0, 1, map[], multiset{1}, true, true).(inFlight := true);
    run, steps := DoComplete(h, run, steps, Performed(k));
    run, steps := DeleteAndStage(h, run, steps);
  }

  lemma DeleteAndStage(h: Handlers, run: seq<Machine>, steps: seq<Step>) returns (run': seq<Machine>, steps': seq<Step>)
    requires Willing(h) && Reaches(h, run, steps, RestoredAt(true, 1, 1, map[], multiset{1}, true, true))
    ensures Reaches(h, run', steps', RestoredAt(false, 0, 2, OneStaged, multiset{1}, false, true))
  {
    run', steps' := DeliverOne(h, run, steps, RestoredAt(true, 1, 1, map[], multiset{1}, true, true));
    var k := RestoredAt(true, 2, 2, map[], multiset{1}, true, true);
    run', steps' := DoStage(h, run', steps', k, "A", {"s"});
    run', steps' := DoCrash(h, run', steps', k.(staged := OneStaged));
  }

  /** The restore is replayed. */
  lemma ReplayRestore(h: Handlers) returns (run: seq<Machine>, steps: seq<Step>, staged: nat)
    requires Willing(h)
    ensures IsRun(h, run, steps) && staged < |steps| && steps[|steps| - 1] == Complete(NoLot)
    ensures run[staged].node.staged == OneStaged
    ensures var m, m' := run[|steps| - 1], run[|steps|];
            && Loads(m, m') && m'.committed == Restored2 && m'.delivered == 2 && !m'.inFlight && m'.node.staged == map[]
            && m.committed == Restored2 && m.session.skips == map[] && m.session.base == 0
            && m.inFlight && m.delivered == 1 && m.node.toDB == 2 && m'.moves[1] == 2
  {
    run, steps := RestoreAndStage(h);
    staged := |steps|;
    ghost var disk, first := run[|steps|].node.disk, run;
    run, steps := DoReopen(h, run, steps, RestoredAt(false, 0, 2, OneStaged, multiset{1}, false, true), 2);
    var k := RestoredAt(true, 0, 2, OneStaged, multiset{1}, false, false).(toDB := 2, found := disk);
    run, steps := DoPerform(h, run, steps, k);
    assert Performed(k).staged == map[] && Performed(k).moves == multiset{1, 1};
    run, steps := DoComplete(h, run, steps, Performed(k));
    run, steps := DeliverOne(h, run, steps, Performed(k).(delivered := 1, inFlight := false));
    assert run[staged] == first[staged];
  }

  /** A run in which one entry moves staged files twice: its replay adopts what was
      staged for the next restore, and loading then deletes it with the orphan. */
  lemma ReplayAdoptsStagedFiles(h: Handlers) returns (run: seq<Machine>, steps: seq<Step>, staged: nat)
    requires Willing(h)
    ensures IsRun(h, run, steps) && staged < |steps|
    ensures run[staged].node.staged == OneStaged && run[|steps|].moves[1] == 2
    ensures var n := run[|steps|].node; n.dbLoaded && n.staged == map[] && !HasDir(n.disk, "a")
  {
    run, steps, staged := ReplayRestore(h);
    StagedFilesLost(h, run, steps);
  }

  lemma StagedFilesLost(h: Handlers, run: seq<Machine>, steps: seq<Step>)
    requires Willing(h) && IsRun(h, run, steps) && |steps| > 0 && steps[|steps| - 1] == Complete(NoLot)
    requires var m, m' := run[|steps| - 1], run[|steps|];
             && Loads(m, m') && m'.committed == Restored2 && m'.delivered == 2 && !m'.inFlight
             && m.committed == Restored2 && m.session.skips == map[] && m.session.base == 0
             && m.inFlight && m.delivered == 1 && m.node.toDB == 2
    ensures !HasDir(run[|steps|].node.disk, "a")
  {
    Spellings();
    RestoredStates(h);
    var k, n := |steps| - 1, run[|steps|].node;
    RunKeepsInv(h, run, steps, |steps|);
    LoadSettlesIff(h, run, steps, k, "a");
    assert Gone(h, run[k], steps[k]) == Recorded(h, Restored2, map[], 0, 2);
    assert Hits(Gone(h, run[k], steps[k]), n.fsm.classes, "a");
    NoFiles(n.disk, n.fsm.classes, "a");
  }

  lemma RestoredStates(h: Handlers)
    requires Willing(h)
    ensures StateAt(h, Restored2, 2).classes == map[] && "A" in Recorded(h, Restored2, map[], 0, 2)
  {
    assert StateAt(h, Restored2, 0) == Init;
    assert StateAt(h, Restored2, 1) == Apply(h, Init, RestoreA.req, 1);
    assert StateAt(h, Restored2, 1).classes.Keys == {"A"};
    assert StateAt(h, Restored2, 2) == Apply(h, StateAt(h, Restored2, 1), DeleteA.req, 2);
    assert DeletedBy(h, Restored2, 2) == {"A"};
  }
}
