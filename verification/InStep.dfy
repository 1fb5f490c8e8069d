/** When the database is in step with the schema: index by index for what is open,
    directory by directory for what is on disk. For each way a node changes, a
    reload, a live command, the install of a snapshot, exactly when it stays so. */
module InStep {
  import opened Fsm
  import opened Node
  import opened Snapshots
  import opened Incarnations

  /** The index with this id is open for the one class that goes by it, with exactly
      the active shards of the class, or there is neither. */
  ghost predicate FollowsAt(open: Indexes, classes: map<string, ClassMeta>, id: string) {
    if id !in open then forall c :: c in classes ==> Fold(c) != id
    else
      && open[id].cls in classes && Fold(open[id].cls) == id && open[id].shards == Hot(classes[open[id].cls])
      && forall c :: c in classes && Fold(c) == id ==> c == open[id].cls
  }

  /** A directory that is there is of the shard's present incarnation, and one that is
      not there is of no active shard. An inactive shard need not have one. */
  ghost predicate Fits(disk: Disk, classes: map<string, ClassMeta>, d: Dir) {
    var owner := Owner(classes, d.id);
    if d in disk then
      owner.Some? && d.shard in classes[owner.value].shards && classes[owner.value].shards[d.shard].born == disk[d]
    else owner.None? || d.shard !in Hot(classes[owner.value])
  }

  ghost predicate AgreesAt(disk: Disk, classes: map<string, ClassMeta>, id: string) {
    !Shared(classes, id) && forall x :: Fits(disk, classes, Dir(id, x))
  }

  predicate NoneHot(classes: map<string, ClassMeta>, owner: Option<string>)
    requires owner.Some? ==> owner.value in classes
  {
    owner.None? || Hot(classes[owner.value]) == {}
  }

  lemma FollowedOwner(open: Indexes, classes: map<string, ClassMeta>, id: string)
    requires FollowsAt(open, classes, id)
    ensures !Shared(classes, id) && (Owner(classes, id).Some? <==> id in open)
    ensures id in open ==> Owner(classes, id) == Some(open[id].cls)
  {
  }

  // ---- reload ----

  /** What reload leaves open follows the schema at an index if and only if no other
      class shares it, no orphan that is dropped goes by it, and it was not open for
      another class. */
  lemma ReloadFollowsIff(n: Node, lot: Lot, id: string)
    ensures var classes := n.fsm.classes; var owner := Owner(classes, id);
            FollowsAt(Reload(n, lot).open, classes, id) <==>
              && !Shared(classes, id)
              && if owner.None? then id in Dropped(n) || id !in n.open
                 else id !in Dropped(n) && (id in n.open ==> n.open[id].cls == owner.value)
  {
    var classes := n.fsm.classes;
    ReloadOpenAt(n.open, classes, classes.Keys, Dropped(n), lot, id);
    assert At(Reload(n, lot).open, id) == ReloadIndex(n.open, classes, classes.Keys, Dropped(n), lot, id);
    if Shared(classes, id) {
      SharedNeverFollows(Reload(n, lot).open, classes, id);
    }
  }

  lemma SharedNeverFollows(open: Indexes, classes: map<string, ClassMeta>, id: string)
    requires Shared(classes, id)
    ensures !FollowsAt(open, classes, id)
  {
  }

  /** A directory that reload leaves as the schema wants it. */
  ghost predicate Settles(disk: Disk, open: Indexes, classes: map<string, ClassMeta>, d: Dir)
    requires d in disk
  {
    var owner := Owner(classes, d.id);
    && owner.Some?
    && var m := classes[owner.value];
       if d.shard in m.shards then m.shards[d.shard].born == disk[d] else Reconciled(open, m, d)
  }

  /** The directories of an index end as the schema wants them if and only if no other
      class shares it and either it is dropped and the class that goes by it, if any,
      has no active shard, or every directory found settles. */
  lemma ReloadAgreesIff(n: Node, lot: Lot, id: string)
    ensures var classes := n.fsm.classes;
            AgreesAt(Reload(n, lot).disk, classes, id) <==>
              && !Shared(classes, id)
              && if id in Dropped(n) then NoneHot(classes, Owner(classes, id))
                 else forall x :: Dir(id, x) in n.disk ==> Settles(n.disk, n.open, classes, Dir(id, x))
  {
    var classes, disk' := n.fsm.classes, Reload(n, lot).disk;
    if !Shared(classes, id) {
      forall x
        ensures Fits(disk', classes, Dir(id, x)) <==>
                  if id in Dropped(n) then Owner(classes, id).None? || x !in Hot(classes[Owner(classes, id).value])
                  else Dir(id, x) in n.disk ==> Settles(n.disk, n.open, classes, Dir(id, x))
      {
        ReloadFitsIff(n, lot, Dir(id, x));
      }
    }
  }

  lemma ReloadFitsIff(n: Node, lot: Lot, d: Dir)
    requires !Shared(n.fsm.classes, d.id)
    ensures var classes := n.fsm.classes;
            Fits(Reload(n, lot).disk, classes, d) <==>
              if d.id in Dropped(n) then Owner(classes, d.id).None? || d.shard !in Hot(classes[Owner(classes, d.id).value])
              else d in n.disk ==> Settles(n.disk, n.open, classes, d)
  {
    var classes := n.fsm.classes;
    ReloadDiskAt(n.disk, n.open, classes, classes.Keys, Dropped(n), lot, d);
    assert Tag(Reload(n, lot).disk, d) == ReloadTag(n.disk, n.open, classes, classes.Keys, Dropped(n), lot, d);
  }

  // ---- a live command ----

  /** The command names the class that goes by this id, and the class's shards. */
  predicate Concerns(r: Request, id: string) {
    match r
    case AddClass(c, _, _) => Fold(c) == id
    case RestoreClass(c, _, _) => Fold(c) == id
    case UpdateClass(c, _, _) => Fold(c) == id
    case DeleteClass(c) => Fold(c) == id
    case EditClass(c) => Fold(c) == id
    case AddTenants(c, _, _) => Fold(c) == id
    case UpdateTenants(c, _, _) => Fold(c) == id
    case DeleteTenants(c, _) => Fold(c) == id
    case _ => false
  }

  /** The accepted commands that leave the index out of step: a class added beside one
      that goes by the same index, a delete that spells the class otherwise, an
      update that replaces the active shards, and a tenant deletion without names
      while tenants are active. */
  ghost predicate BreaksAt(h: Handlers, s: State, r: Request, i: nat, id: string) {
    && Accepts(h, s, r, i) && Concerns(r, id)
    && match r
       case AddClass(_, _, _) => Owner(s.classes, id).Some?
       case RestoreClass(_, _, _) => Owner(s.classes, id).Some?
       case DeleteClass(c) => c !in s.classes && Owner(s.classes, id).Some?
       case UpdateClass(c, _, _) => Hot(Apply(h, s, r, i).classes[c]) != Hot(s.classes[c])
       case DeleteTenants(c, names) => names == [] && Hot(s.classes[c]) != {}
       case _ => false
  }

  /** Commands that concern another index change no class that goes by this one. */
  lemma OthersKeepClasses(h: Handlers, s: State, r: Request, i: nat, id: string)
    requires !(Accepts(h, s, r, i) && Concerns(r, id))
    ensures SameClasses(s.classes, Apply(h, s, r, i).classes, id)
  {
  }

  ghost predicate SameClasses(a: map<string, ClassMeta>, b: map<string, ClassMeta>, id: string) {
    && (forall c :: c in a && Fold(c) == id ==> c in b && b[c] == a[c])
    && (forall c :: c in b && Fold(c) == id ==> c in a)
  }

  lemma SameOwner(a: map<string, ClassMeta>, b: map<string, ClassMeta>, id: string)
    requires SameClasses(a, b, id) && !Shared(a, id)
    ensures !Shared(b, id) && Owner(b, id) == Owner(a, id)
    ensures Owner(a, id).Some? ==> b[Owner(a, id).value] == a[Owner(a, id).value]
  {
  }

  lemma OthersKeepIndex(h: Handlers, n: Node, r: Request, i: nat, id: string)
    requires !(Accepts(h, n.fsm, r, i) && Concerns(r, id))
    ensures At(Effect(h, n, r, i).open, id) == At(n.open, id)
  {
  }

  /** A live command keeps an index in step if and only if it is none of those. */
  lemma CommandFollowsIff(h: Handlers, n: Node, r: Request, i: nat, id: string)
    requires FollowsAt(n.open, n.fsm.classes, id) && !CatchingUp(n, i)
    ensures var n' := Effect(h, n, r, i);
            FollowsAt(n'.open, n'.fsm.classes, id) <==> !BreaksAt(h, n.fsm, r, i, id)
  {
    if !(Accepts(h, n.fsm, r, i) && Concerns(r, id)) {
      OthersKeepClasses(h, n.fsm, r, i, id);
      OthersKeepIndex(h, n, r, i, id);
    } else {
      FollowedOwner(n.open, n.fsm.classes, id);
      if r.AddClass? || r.RestoreClass? || r.DeleteClass? {
        ClassFollowsIff(h, n, r, i, id);
      } else {
        ShardsFollowIff(h, n, r, i, id);
      }
    }
  }

  lemma ClassFollowsIff(h: Handlers, n: Node, r: Request, i: nat, id: string)
    requires FollowsAt(n.open, n.fsm.classes, id) && !CatchingUp(n, i) && Accepts(h, n.fsm, r, i) && Concerns(r, id)
    requires r.AddClass? || r.RestoreClass? || r.DeleteClass?
    ensures var n' := Effect(h, n, r, i);
            FollowsAt(n'.open, n'.fsm.classes, id) <==> !BreaksAt(h, n.fsm, r, i, id)
  {
    FollowedOwner(n.open, n.fsm.classes, id);
  }

  lemma ShardsFollowIff(h: Handlers, n: Node, r: Request, i: nat, id: string)
    requires FollowsAt(n.open, n.fsm.classes, id) && !CatchingUp(n, i) && Accepts(h, n.fsm, r, i) && Concerns(r, id)
    requires !(r.AddClass? || r.RestoreClass? || r.DeleteClass?)
    ensures var n' := Effect(h, n, r, i);
            FollowsAt(n'.open, n'.fsm.classes, id) <==> !BreaksAt(h, n.fsm, r, i, id)
  {
    var n' := Effect(h, n, r, i);
    var c := r.cls;
    assert n.open[id].cls == c;
    assert n'.fsm.classes == n.fsm.classes[c := n'.fsm.classes[c]];
    SwitchedHot(h, n.fsm, r, i);
    assert FollowsAt(n'.open, n'.fsm.classes, id) <==> n'.open[id].shards == Hot(n'.fsm.classes[c]);
  }

  /** The active shards after a command that keeps its class. */
  lemma SwitchedHot(h: Handlers, s: State, r: Request, i: nat)
    requires Accepts(h, s, r, i) && (r.EditClass? || r.AddTenants? || r.UpdateTenants? || r.DeleteTenants? || r.UpdateClass?)
    ensures var before, after := s.classes, Apply(h, s, r, i).classes;
            && (r.EditClass? ==> Hot(after[r.cls]) == Hot(before[r.cls]))
            && (r.AddTenants? ==> Hot(after[r.cls]) == Hot(before[r.cls]) + Warmed(before, after, r.cls).Keys - {})
            && (r.UpdateTenants? ==>
                  Hot(after[r.cls]) == Hot(before[r.cls]) + Warmed(before, after, r.cls).Keys - Cooled(before, after, r.cls))
            && (r.DeleteTenants? && r.names != [] ==> Hot(after[r.cls]) == Hot(before[r.cls]) - Lost(before, r.cls, r.names))
            && (r.DeleteTenants? && r.names == [] ==>
                  Hot(after[r.cls]) == Hot(before[r.cls]) && Hot(before[r.cls]) - Lost(before, r.cls, r.names) == {})
  {
  }

  /** The commands that leave the directories of an index out of step. */
  ghost predicate UpsetsAt(h: Handlers, n: Node, r: Request, i: nat, id: string) {
    && Concerns(r, id)
    && match r
       case AddClass(_, _, _) => Accepts(h, n.fsm, r, i) && Owner(n.fsm.classes, id).Some?
       case RestoreClass(c, _, shards) =>
         if Accepts(h, n.fsm, r, i)
         then Owner(n.fsm.classes, id).Some? || (c in n.staged && !(n.staged[c] <= shards.Keys))
         else Restores(h, n.fsm, r, i) && c in n.staged && n.staged[c] != {} && !HasDir(n.disk, id)
       case DeleteClass(c) =>
         Accepts(h, n.fsm, r, i) && c !in n.fsm.classes && !NoneHot(n.fsm.classes, Owner(n.fsm.classes, id))
       case UpdateClass(c, _, _) =>
         Accepts(h, n.fsm, r, i) && !ShardsCovered(n.disk, id, Apply(h, n.fsm, r, i).classes[c])
       case DeleteTenants(c, names) => Accepts(h, n.fsm, r, i) && names == [] && Hot(n.fsm.classes[c]) != {}
       case _ => false
  }

  /** Every directory there is of a shard the class has, and every active shard has one. */
  ghost predicate ShardsCovered(disk: Disk, id: string, m: ClassMeta) {
    && (forall x :: Dir(id, x) in disk ==> x in m.shards)
    && (forall x :: x in Hot(m) ==> Dir(id, x) in disk)
  }

  lemma StoreElsewhere(open: Indexes, disk: Disk, before: map<string, ClassMeta>, after: map<string, ClassMeta>,
                       r: Request, d: Dir)
    requires !Concerns(r, d.id)
    ensures Tag(StoreDisk(open, disk, before, after, r), d) == Tag(disk, d)
  {
    if (r.AddClass? || r.RestoreClass?) && r.cls in after {
      WithShardsAt(disk, Fold(r.cls), HotBorn(after[r.cls]), d);
    } else if r.AddTenants? || r.UpdateTenants? {
      WithShardsAt(disk, Fold(r.cls), Warmed(before, after, r.cls), d);
    }
  }

  lemma MovedElsewhere(h: Handlers, n: Node, r: Request, i: nat, d: Dir)
    requires !Concerns(r, d.id)
    ensures Tag(Moved(h, n, r, i), d) == Tag(n.disk, d)
  {
    if r.RestoreClass? && r.cls in n.staged {
      WithShardsAt(n.disk, Fold(r.cls), Stamped(n.staged[r.cls], i), d);
    }
  }

  lemma OthersKeepFiles(h: Handlers, n: Node, r: Request, i: nat, id: string, x: string)
    requires !Concerns(r, id) || (!Accepts(h, n.fsm, r, i) && !Restores(h, n.fsm, r, i))
    ensures Tag(Effect(h, n, r, i).disk, Dir(id, x)) == Tag(n.disk, Dir(id, x))
  {
    if !Concerns(r, id) {
      MovedElsewhere(h, n, r, i, Dir(id, x));
      StoreElsewhere(n.open, Moved(h, n, r, i), n.fsm.classes, Apply(h, n.fsm, r, i).classes, r, Dir(id, x));
    }
  }

  lemma UntouchedAgrees(a: Disk, b: Disk, before: map<string, ClassMeta>, after: map<string, ClassMeta>, id: string)
    requires SameClasses(before, after, id) && AgreesAt(a, before, id)
    requires forall x :: Tag(b, Dir(id, x)) == Tag(a, Dir(id, x))
    ensures AgreesAt(b, after, id)
  {
    SameOwner(before, after, id);
    forall x ensures Fits(b, after, Dir(id, x)) {
      assert Fits(a, before, Dir(id, x)) && Tag(b, Dir(id, x)) == Tag(a, Dir(id, x));
    }
  }

  /** A live command keeps the directories of an index that is in step as the schema
      wants them if and only if it is none of those. */
  lemma CommandAgreesIff(h: Handlers, n: Node, r: Request, i: nat, id: string)
    requires FollowsAt(n.open, n.fsm.classes, id) && AgreesAt(n.disk, n.fsm.classes, id)
    requires !CatchingUp(n, i) && BornBefore(n.fsm.classes, i)
    ensures var n' := Effect(h, n, r, i);
            AgreesAt(n'.disk, n'.fsm.classes, id) <==> !UpsetsAt(h, n, r, i, id)
  {
    var n' := Effect(h, n, r, i);
    if !Concerns(r, id) || (!Accepts(h, n.fsm, r, i) && !Restores(h, n.fsm, r, i)) {
      OthersKeepClasses(h, n.fsm, r, i, id);
      forall x ensures Tag(n'.disk, Dir(id, x)) == Tag(n.disk, Dir(id, x)) {
        OthersKeepFiles(h, n, r, i, id, x);
      }
      UntouchedAgrees(n.disk, n'.disk, n.fsm.classes, n'.fsm.classes, id);
    } else if r.AddClass? || r.RestoreClass? {
      if Accepts(h, n.fsm, r, i) {
        AddedAgreesIff(h, n, r, i, id);
      } else {
        RefusedRestoreAgreesIff(h, n, r, i, id);
      }
    } else if r.DeleteClass? {
      DeletedAgreesIff(h, n, r, i, id);
    } else {
      ShardsAgreeIff(h, n, r, i, id);
    }
  }

  lemma NoFiles(disk: Disk, classes: map<string, ClassMeta>, id: string)
    requires AgreesAt(disk, classes, id) && Owner(classes, id).None?
    ensures !HasDir(disk, id)
  {
    forall d | d in disk ensures d.id != id {
      assert d == Dir(d.id, d.shard);
      assert d.id == id ==> Fits(disk, classes, Dir(id, d.shard));
    }
  }

  /** The directories of a class that is added where there were none. */
  lemma AddedTag(h: Handlers, n: Node, r: Request, i: nat, x: string)
    requires (r.AddClass? || r.RestoreClass?) && Accepts(h, n.fsm, r, i) && !CatchingUp(n, i)
    requires Fold(r.cls) !in n.open && !HasDir(n.disk, Fold(r.cls))
    ensures var d, m := Dir(Fold(r.cls), x), Apply(h, n.fsm, r, i).classes[r.cls];
            Tag(Effect(h, n, r, i).disk, d)
            == if r.RestoreClass? && r.cls in n.staged && x in n.staged[r.cls] then Some(i) else HotTag(m, x)
  {
    var d, m := Dir(Fold(r.cls), x), Apply(h, n.fsm, r, i).classes[r.cls];
    assert d !in n.disk;
    if r.cls in n.staged {
      WithShardsAt(n.disk, Fold(r.cls), Stamped(n.staged[r.cls], i), d);
    }
    WithShardsAt(Moved(h, n, r, i), Fold(r.cls), HotBorn(m), d);
  }

  lemma AddedAgreesIff(h: Handlers, n: Node, r: Request, i: nat, id: string)
    requires FollowsAt(n.open, n.fsm.classes, id) && AgreesAt(n.disk, n.fsm.classes, id) && !CatchingUp(n, i)
    requires (r.AddClass? || r.RestoreClass?) && Accepts(h, n.fsm, r, i) && Fold(r.cls) == id
    ensures var n' := Effect(h, n, r, i);
            AgreesAt(n'.disk, n'.fsm.classes, id) <==> !UpsetsAt(h, n, r, i, id)
  {
    var n', owner := Effect(h, n, r, i), Owner(n.fsm.classes, id);
    FollowedOwner(n.open, n.fsm.classes, id);
    if owner.Some? {
      assert owner.value in n'.fsm.classes && r.cls in n'.fsm.classes && owner.value != r.cls;
      assert Shared(n'.fsm.classes, id);
    } else {
      NoFiles(n.disk, n.fsm.classes, id);
      AddedFitsIff(h, n, r, i, id);
    }
  }

  lemma AddedFitsIff(h: Handlers, n: Node, r: Request, i: nat, id: string)
    requires (r.AddClass? || r.RestoreClass?) && Accepts(h, n.fsm, r, i) && Fold(r.cls) == id && !CatchingUp(n, i)
    requires Owner(n.fsm.classes, id).None? && id !in n.open && !HasDir(n.disk, id)
    ensures var n' := Effect(h, n, r, i);
            AgreesAt(n'.disk, n'.fsm.classes, id)
            <==> (r.RestoreClass? && r.cls in n.staged ==> n.staged[r.cls] <= r.shards.Keys)
  {
    var n' := Effect(h, n, r, i);
    assert !Shared(n'.fsm.classes, id);
    OwnerIs(n'.fsm.classes, r.cls);
    forall x
      ensures Fits(n'.disk, n'.fsm.classes, Dir(id, x)) <==>
                (r.RestoreClass? && r.cls in n.staged && x in n.staged[r.cls] ==> x in r.shards)
    {
      AddedTag(h, n, r, i, x);
    }
    if r.RestoreClass? && r.cls in n.staged && !(n.staged[r.cls] <= r.shards.Keys) {
      var x :| x in n.staged[r.cls] && x !in r.shards;
      assert !Fits(n'.disk, n'.fsm.classes, Dir(id, x));
    }
  }

  /** A restore of a class that is there already still moves what is staged. */
  lemma RefusedRestoreAgreesIff(h: Handlers, n: Node, r: Request, i: nat, id: string)
    requires AgreesAt(n.disk, n.fsm.classes, id) && r.RestoreClass? && Fold(r.cls) == id
    requires Restores(h, n.fsm, r, i) && !Accepts(h, n.fsm, r, i) && BornBefore(n.fsm.classes, i)
    ensures var n' := Effect(h, n, r, i);
            AgreesAt(n'.disk, n'.fsm.classes, id) <==> !UpsetsAt(h, n, r, i, id)
  {
    var n' := Effect(h, n, r, i);
    assert n'.disk == Adopt(n.disk, n.staged, r.cls, i);
    if r.cls in n.staged && !HasDir(n.disk, id) {
      forall x ensures Tag(n'.disk, Dir(id, x)) == if x in n.staged[r.cls] then Some(i) else Tag(n.disk, Dir(id, x)) {
        WithShardsAt(n.disk, id, Stamped(n.staged[r.cls], i), Dir(id, x));
      }
      StagedDisagree(n.disk, n'.disk, n.fsm.classes, n.staged[r.cls], i, id);
    }
  }

  predicate BornBefore(classes: map<string, ClassMeta>, i: nat) {
    forall c, x :: c in classes && x in classes[c].shards ==> classes[c].shards[x].born < i
  }

  lemma StagedDisagree(disk: Disk, disk': Disk, classes: map<string, ClassMeta>, staged: set<string>, i: nat, id: string)
    requires AgreesAt(disk, classes, id) && BornBefore(classes, i)
    requires forall x :: Tag(disk', Dir(id, x)) == if x in staged then Some(i) else Tag(disk, Dir(id, x))
    ensures AgreesAt(disk', classes, id) <==> staged == {}
  {
    forall x ensures Fits(disk', classes, Dir(id, x)) <==> x !in staged {
      assert Fits(disk, classes, Dir(id, x));
      assert Tag(disk', Dir(id, x)) == if x in staged then Some(i) else Tag(disk, Dir(id, x));
    }
    if staged != {} {
      var x :| x in staged;
      assert !Fits(disk', classes, Dir(id, x));
    }
  }

  lemma DeletedAgreesIff(h: Handlers, n: Node, r: Request, i: nat, id: string)
    requires FollowsAt(n.open, n.fsm.classes, id) && AgreesAt(n.disk, n.fsm.classes, id) && !CatchingUp(n, i)
    requires r.DeleteClass? && Accepts(h, n.fsm, r, i) && Fold(r.cls) == id
    ensures var n' := Effect(h, n, r, i);
            AgreesAt(n'.disk, n'.fsm.classes, id) <==> !UpsetsAt(h, n, r, i, id)
  {
    var n', owner := Effect(h, n, r, i), Owner(n.fsm.classes, id);
    FollowedOwner(n.open, n.fsm.classes, id);
    if id !in n.open {
      assert n'.disk == n.disk;
      UntouchedAgrees(n.disk, n'.disk, n.fsm.classes, n'.fsm.classes, id);
    } else {
      forall x ensures Dir(id, x) !in n'.disk {
      }
      if r.cls in n.fsm.classes {
        assert Owner(n'.fsm.classes, id).None?;
      } else {
        SameOwner(n.fsm.classes, n'.fsm.classes, id);
        if Hot(n.fsm.classes[owner.value]) != {} {
          var x :| x in Hot(n.fsm.classes[owner.value]);
          assert !Fits(n'.disk, n'.fsm.classes, Dir(id, x));
        }
      }
    }
  }

  /** The directory of one shard around a command that keeps its class. */
  lemma ShardTag(h: Handlers, n: Node, r: Request, i: nat, x: string)
    requires Accepts(h, n.fsm, r, i) && !CatchingUp(n, i)
    requires r.EditClass? || r.AddTenants? || r.UpdateTenants? || r.DeleteTenants? || r.UpdateClass?
    requires Fold(r.cls) in n.open
    ensures var before, after, d := n.fsm.classes, Apply(h, n.fsm, r, i).classes, Dir(Fold(r.cls), x);
            Tag(Effect(h, n, r, i).disk, d)
            == if r.DeleteTenants? && x in Lost(before, r.cls, r.names) then None
               else if d in n.disk then Some(n.disk[d])
               else if (r.AddTenants? || r.UpdateTenants?) && x !in Hot(before[r.cls]) then HotTag(after[r.cls], x)
               else None
  {
    if r.AddTenants? || r.UpdateTenants? {
      WithShardsAt(n.disk, Fold(r.cls), Warmed(n.fsm.classes, Apply(h, n.fsm, r, i).classes, r.cls), Dir(Fold(r.cls), x));
    }
  }

  /** What such a command does to one shard of its class. */
  lemma ShardKept(h: Handlers, s: State, r: Request, i: nat, x: string)
    requires Accepts(h, s, r, i) && (r.EditClass? || r.AddTenants? || r.UpdateTenants? || r.DeleteTenants? || r.UpdateClass?)
    ensures var before, after := s.classes[r.cls].shards, Apply(h, s, r, i).classes[r.cls].shards;
            && (x in before && x in after ==> after[x].born == before[x].born)
            && (r.EditClass? ==> after == before)
            && (r.AddTenants? ==> (x in before ==> x in after && after[x] == before[x]))
            && (r.UpdateTenants? ==> (x in after <==> x in before))
            && (r.DeleteTenants? ==>
                  if x in before && x !in Names(r.names) then x in after && after[x] == before[x] else x !in after)
  {
  }

  /** A command that keeps its class keeps it the one that goes by the index. */
  lemma KeepsOwner(h: Handlers, s: State, r: Request, i: nat, open: Indexes, id: string)
    requires FollowsAt(open, s.classes, id) && Accepts(h, s, r, i) && Concerns(r, id)
    requires !(r.AddClass? || r.RestoreClass? || r.DeleteClass?)
    ensures Fold(r.cls) == id && id in open && Owner(s.classes, id) == Some(r.cls)
    ensures var after := Apply(h, s, r, i).classes; !Shared(after, id) && Owner(after, id) == Some(r.cls)
  {
    var after := Apply(h, s, r, i).classes;
    FollowedOwner(open, s.classes, id);
    assert after == s.classes[r.cls := after[r.cls]];
    assert !Shared(after, id);
    OwnerIs(after, r.cls);
  }

  lemma ShardsAgreeIff(h: Handlers, n: Node, r: Request, i: nat, id: string)
    requires FollowsAt(n.open, n.fsm.classes, id) && AgreesAt(n.disk, n.fsm.classes, id) && !CatchingUp(n, i)
    requires Accepts(h, n.fsm, r, i) && Concerns(r, id) && !(r.AddClass? || r.RestoreClass? || r.DeleteClass?)
    ensures var n' := Effect(h, n, r, i);
            AgreesAt(n'.disk, n'.fsm.classes, id) <==> !UpsetsAt(h, n, r, i, id)
  {
    var n', c := Effect(h, n, r, i), r.cls;
    KeepsOwner(h, n.fsm, r, i, n.open, id);
    forall x ensures Fits(n'.disk, n'.fsm.classes, Dir(id, x)) <==> !UpsetBy(h, n, r, i, x) {
      assert Fits(n.disk, n.fsm.classes, Dir(id, x));
      ShardFitsIff(h, n, r, i, x);
    }
    UpsetsByOne(h, n, r, i);
  }

  /** The command upsets the directory of this shard. */
  ghost predicate UpsetBy(h: Handlers, n: Node, r: Request, i: nat, x: string)
    requires Accepts(h, n.fsm, r, i) && (r.EditClass? || r.AddTenants? || r.UpdateTenants? || r.DeleteTenants? || r.UpdateClass?)
  {
    var d, after := Dir(Fold(r.cls), x), Apply(h, n.fsm, r, i).classes[r.cls];
    || (r.UpdateClass? && ((d in n.disk && x !in after.shards) || (d !in n.disk && x in Hot(after))))
    || (r.DeleteTenants? && r.names == [] && x in Hot(n.fsm.classes[r.cls]))
  }

  lemma UpsetsByOne(h: Handlers, n: Node, r: Request, i: nat)
    requires Accepts(h, n.fsm, r, i) && (r.EditClass? || r.AddTenants? || r.UpdateTenants? || r.DeleteTenants? || r.UpdateClass?)
    ensures UpsetsAt(h, n, r, i, Fold(r.cls)) <==> exists x :: UpsetBy(h, n, r, i, x)
  {
    var id, after := Fold(r.cls), Apply(h, n.fsm, r, i).classes[r.cls];
    if r.UpdateClass? && !ShardsCovered(n.disk, id, after) {
      if x :| Dir(id, x) in n.disk && x !in after.shards {
        assert UpsetBy(h, n, r, i, x);
      } else {
        var x :| x in Hot(after) && Dir(id, x) !in n.disk;
        assert UpsetBy(h, n, r, i, x);
      }
    }
    if r.DeleteTenants? && r.names == [] && Hot(n.fsm.classes[r.cls]) != {} {
      var x :| x in Hot(n.fsm.classes[r.cls]);
      assert UpsetBy(h, n, r, i, x);
    }
  }

  lemma ShardFitsIff(h: Handlers, n: Node, r: Request, i: nat, x: string)
    requires Accepts(h, n.fsm, r, i) && !CatchingUp(n, i)
    requires r.EditClass? || r.AddTenants? || r.UpdateTenants? || r.DeleteTenants? || r.UpdateClass?
    requires Fold(r.cls) in n.open
    requires Owner(n.fsm.classes, Fold(r.cls)) == Some(r.cls) && Owner(Apply(h, n.fsm, r, i).classes, Fold(r.cls)) == Some(r.cls)
    requires Fits(n.disk, n.fsm.classes, Dir(Fold(r.cls), x))
    ensures Fits(Effect(h, n, r, i).disk, Effect(h, n, r, i).fsm.classes, Dir(Fold(r.cls), x)) <==> !UpsetBy(h, n, r, i, x)
  {
    ShardTag(h, n, r, i, x);
    ShardKept(h, n.fsm, r, i, x);
  }

  // ---- what a live command takes away ----

  /** No directory goes whose shard the schema still names. */
  ghost predicate KeepsNamed(disk: Disk, disk': Disk, classes: map<string, ClassMeta>, id: string) {
    var owner := Owner(classes, id);
    forall x :: Dir(id, x) in disk && owner.Some? && x in classes[owner.value].shards ==> Dir(id, x) in disk'
  }

  predicate Overreaches(s: State, r: Request) {
    (r.DeleteTenants? && r.names == []) || (r.DeleteClass? && r.cls !in s.classes)
  }

  /** A live command on an index in step takes away the directory of a shard that stays
      in the schema, active or not, if and only if it is a tenant deletion without
      names or a delete that spells the class otherwise, and there is a directory. */
  lemma CommandKeepsNamedIff(h: Handlers, n: Node, r: Request, i: nat, id: string)
    requires FollowsAt(n.open, n.fsm.classes, id) && AgreesAt(n.disk, n.fsm.classes, id) && !CatchingUp(n, i)
    ensures var n' := Effect(h, n, r, i);
            KeepsNamed(n.disk, n'.disk, n'.fsm.classes, id) <==>
              !(Accepts(h, n.fsm, r, i) && Concerns(r, id) && HasDir(n.disk, id) && Overreaches(n.fsm, r))
  {
    if !Concerns(r, id) || (!Accepts(h, n.fsm, r, i) && !Restores(h, n.fsm, r, i)) {
      OthersKeepNamed(h, n, r, i, id);
    } else if r.AddClass? || r.RestoreClass? {
      AddingKeepsNamed(h, n, r, i, id);
    } else if r.DeleteClass? {
      DeleteKeepsNamedIff(h, n, r, i, id);
    } else {
      ShardsKeepNamedIff(h, n, r, i, id);
    }
  }

  lemma OthersKeepNamed(h: Handlers, n: Node, r: Request, i: nat, id: string)
    requires !Concerns(r, id) || (!Accepts(h, n.fsm, r, i) && !Restores(h, n.fsm, r, i))
    ensures var n' := Effect(h, n, r, i); KeepsNamed(n.disk, n'.disk, n'.fsm.classes, id)
  {
    var disk' := Effect(h, n, r, i).disk;
    forall x ensures Dir(id, x) in n.disk ==> Dir(id, x) in disk' {
      OthersKeepFiles(h, n, r, i, id, x);
    }
  }

  lemma AddingKeepsNamed(h: Handlers, n: Node, r: Request, i: nat, id: string)
    requires r.AddClass? || r.RestoreClass?
    ensures var n' := Effect(h, n, r, i); KeepsNamed(n.disk, n'.disk, n'.fsm.classes, id)
  {
    var disk' := Effect(h, n, r, i).disk;
    forall x ensures Dir(id, x) in n.disk ==> Dir(id, x) in disk' {
      AddingKeeps(h, n, r, i, Dir(id, x));
    }
  }

  lemma AddingKeeps(h: Handlers, n: Node, r: Request, i: nat, d: Dir)
    requires r.AddClass? || r.RestoreClass?
    ensures d in n.disk ==> d in Effect(h, n, r, i).disk
  {
    assert d in n.disk ==> d in Moved(h, n, r, i);
  }

  /** Every directory of an index in step is of a shard the schema names. */
  lemma NamedFiles(disk: Disk, classes: map<string, ClassMeta>, id: string, x: string)
    requires AgreesAt(disk, classes, id) && Dir(id, x) in disk
    ensures Owner(classes, id).Some? && x in classes[Owner(classes, id).value].shards
  {
    assert Fits(disk, classes, Dir(id, x));
  }

  lemma DeleteKeepsNamedIff(h: Handlers, n: Node, r: Request, i: nat, id: string)
    requires FollowsAt(n.open, n.fsm.classes, id) && AgreesAt(n.disk, n.fsm.classes, id) && !CatchingUp(n, i)
    requires r.DeleteClass? && Accepts(h, n.fsm, r, i) && Fold(r.cls) == id
    ensures var n' := Effect(h, n, r, i);
            KeepsNamed(n.disk, n'.disk, n'.fsm.classes, id) <==> !(HasDir(n.disk, id) && r.cls !in n.fsm.classes)
  {
    var n' := Effect(h, n, r, i);
    FollowedOwner(n.open, n.fsm.classes, id);
    if r.cls !in n.fsm.classes {
      assert n'.fsm.classes == n.fsm.classes;
      if HasDir(n.disk, id) {
        var d :| d in n.disk && d.id == id;
        assert d == Dir(id, d.shard);
        NamedFiles(n.disk, n.fsm.classes, id, d.shard);
        assert Dir(id, d.shard) !in n'.disk;
      }
    } else {
      assert Owner(n'.fsm.classes, id).None?;
    }
  }

  lemma ShardsKeepNamedIff(h: Handlers, n: Node, r: Request, i: nat, id: string)
    requires FollowsAt(n.open, n.fsm.classes, id) && AgreesAt(n.disk, n.fsm.classes, id) && !CatchingUp(n, i)
    requires Accepts(h, n.fsm, r, i) && Concerns(r, id) && !(r.AddClass? || r.RestoreClass? || r.DeleteClass?)
    ensures var n' := Effect(h, n, r, i);
            KeepsNamed(n.disk, n'.disk, n'.fsm.classes, id)
            <==> !(HasDir(n.disk, id) && r.DeleteTenants? && r.names == [])
  {
    var n', c := Effect(h, n, r, i), r.cls;
    KeepsOwner(h, n.fsm, r, i, n.open, id);
    forall x | Dir(id, x) in n.disk
      ensures x in n'.fsm.classes[c].shards && Dir(id, x) !in n'.disk <==> r.DeleteTenants? && r.names == []
    {
      NamedFiles(n.disk, n.fsm.classes, id, x);
      ShardGoesIff(h, n, r, i, x);
    }
    if HasDir(n.disk, id) {
      var d :| d in n.disk && d.id == id;
      assert d == Dir(id, d.shard);
    }
  }

  lemma ShardGoesIff(h: Handlers, n: Node, r: Request, i: nat, x: string)
    requires Accepts(h, n.fsm, r, i) && !CatchingUp(n, i)
    requires r.EditClass? || r.AddTenants? || r.UpdateTenants? || r.DeleteTenants? || r.UpdateClass?
    requires Fold(r.cls) in n.open && x in n.fsm.classes[r.cls].shards && Dir(Fold(r.cls), x) in n.disk
    ensures x in Apply(h, n.fsm, r, i).classes[r.cls].shards && Dir(Fold(r.cls), x) !in Effect(h, n, r, i).disk
            <==> r.DeleteTenants? && r.names == []
  {
    ShardTag(h, n, r, i, x);
    ShardKept(h, n.fsm, r, i, x);
  }

  // ---- the install of a snapshot on a loaded node ----

  /** What a restore makes of the node, before it reloads. */
  function Restored(n: Node, s: State): Node {
    n.(fsm := s, orphans := n.orphans + (n.fsm.classes.Keys - s.classes.Keys))
  }

  /** A class that goes by this index is gone, and another one goes by it. */
  ghost predicate Replaces(was: map<string, ClassMeta>, now: map<string, ClassMeta>, id: string) {
    Owner(now, id).Some? && exists c :: c in was && c !in now && Fold(c) == id
  }

  lemma DroppedByInstall(n: Node, s: State, id: string)
    requires n.orphans == {}
    ensures id in Dropped(Restored(n, s)) <==> exists c :: c in n.fsm.classes && c !in s.classes && Fold(c) == id
  {
    if c :| c in n.fsm.classes && c !in s.classes && Fold(c) == id {
      assert c in Restored(n, s).orphans;
    }
  }

  /** An index in step stays so if and only if the snapshot names one class at most that
      goes by it, and not one in place of another. */
  lemma InstallFollowsIff(n: Node, s: State, lot: Lot, id: string)
    requires FollowsAt(n.open, n.fsm.classes, id) && n.orphans == {}
    ensures FollowsAt(Reload(Restored(n, s), lot).open, s.classes, id)
            <==> !Shared(s.classes, id) && !Replaces(n.fsm.classes, s.classes, id)
  {
    ReloadFollowsIff(Restored(n, s), lot, id);
    DroppedByInstall(n, s, id);
    FollowedOwner(n.open, n.fsm.classes, id);
    if id in n.open && n.open[id].cls in s.classes && !Shared(s.classes, id) {
      OwnerIs(s.classes, n.open[id].cls);
    }
  }

  /** A directory found that the snapshot leaves in step: its shard was not created
      again, or is a tenant that is gone and was active, so that reload removes it. */
  ghost predicate Survives(was: map<string, ClassMeta>, now: map<string, ClassMeta>, d: nat, id: string, x: string) {
    var owner := Owner(now, id);
    && owner.Some?
    && if x in now[owner.value].shards then now[owner.value].shards[x].born <= d
       else now[owner.value].multiTenant && owner.value in was && x in Hot(was[owner.value])
  }

  /** The directories of an index in step stay so if and only if the snapshot names one
      class at most that goes by it, and either that class takes the place of another
      and has no active shard, or every directory survives. */
  lemma InstallAgreesIff(h: Handlers, log: seq<Entry>, n: Node, d: nat, s: nat, lot: Lot, id: string)
    requires d <= s <= |log| && n.fsm == StateAt(h, log, d) && n.orphans == {}
    requires FollowsAt(n.open, n.fsm.classes, id) && AgreesAt(n.disk, n.fsm.classes, id)
    ensures var was, now := n.fsm.classes, StateAt(h, log, s).classes;
            AgreesAt(Reload(Restored(n, StateAt(h, log, s)), lot).disk, now, id) <==>
              && !Shared(now, id)
              && if Replaces(was, now, id) then NoneHot(now, Owner(now, id))
                 else forall x :: Dir(id, x) in n.disk && Owner(now, id).Some? ==> Survives(was, now, d, id, x)
  {
    var was, now := n.fsm.classes, StateAt(h, log, s).classes;
    var m := Restored(n, StateAt(h, log, s));
    ReloadAgreesIff(m, lot, id);
    DroppedByInstall(n, StateAt(h, log, s), id);
    FollowedOwner(n.open, was, id);
    if !Shared(now, id) {
      if id in Dropped(m) {
      } else {
        forall x | Dir(id, x) in n.disk
          ensures Settles(m.disk, m.open, now, Dir(id, x)) <==> Survives(was, now, d, id, x)
        {
          assert Fits(n.disk, was, Dir(id, x));
          SettlesIffSurvives(h, log, n, d, s, id, x);
        }
      }
    }
  }

  lemma SettlesIffSurvives(h: Handlers, log: seq<Entry>, n: Node, d: nat, s: nat, id: string, x: string)
    requires d <= s <= |log| && n.fsm == StateAt(h, log, d) && Dir(id, x) in n.disk
    requires FollowsAt(n.open, n.fsm.classes, id) && Fits(n.disk, n.fsm.classes, Dir(id, x))
    requires var now := StateAt(h, log, s).classes; !Shared(now, id) && (id in n.open ==> n.open[id].cls in now)
    ensures Settles(n.disk, n.open, StateAt(h, log, s).classes, Dir(id, x))
            <==> Survives(n.fsm.classes, StateAt(h, log, s).classes, d, id, x)
  {
    var was, now := n.fsm.classes, StateAt(h, log, s).classes;
    FollowedOwner(n.open, was, id);
    var c := n.open[id].cls;
    OwnerIs(now, c);
    if x in now[c].shards {
      SurvivorKeepsIncarnation(h, log, d, s, c, x);
    }
  }
}
