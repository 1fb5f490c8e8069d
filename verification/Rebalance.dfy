/** Replica placement after a node has left: add replacements first, then take
    the departed node off the shard. */
module Rebalance {
  import opened Fsm

  predicate Distinct(xs: seq<string>) {
    forall i, j :: 0 <= i < j < |xs| ==> xs[i] != xs[j]
  }

  /** slices.Delete at the first occurrence. */
  function Without(xs: seq<string>, x: string): seq<string> {
    if xs == [] then [] else if xs[0] == x then xs[1..] else [xs[0]] + Without(xs[1..], x)
  }

  lemma {:induction false} WithoutRemovesOne(xs: seq<string>, x: string)
    requires Distinct(xs) && x in xs
    ensures |Without(xs, x)| == |xs| - 1
    ensures Names(Without(xs, x)) == Names(xs) - {x}
    ensures Distinct(Without(xs, x))
  {
    assert xs == [xs[0]] + xs[1..];
    if xs[0] != x {
      WithoutRemovesOne(xs[1..], x);
      var r := [xs[0]] + Without(xs[1..], x);
      forall y | y in Without(xs[1..], x) ensures y in xs[1..] {
        assert y in Names(Without(xs[1..], x));
      }
      assert Names(r) == {xs[0]} + Names(Without(xs[1..], x));
      assert Names(xs) == {xs[0]} + Names(xs[1..]);
    } else {
      assert Names(xs) == {x} + Names(xs[1..]);
    }
  }

  lemma {:induction false} SizeOfNames(xs: seq<string>)
    requires Distinct(xs)
    ensures |Names(xs)| == |xs|
  {
    if xs != [] {
      SizeOfNames(xs[1..]);
      assert xs == [xs[0]] + xs[1..];
      assert Names(xs) == {xs[0]} + Names(xs[1..]);
    }
  }

  predicate Eligible(node: string, current: seq<string>, removed: string) {
    node != removed && node !in current
  }

  /** The candidates that may take over, in order. */
  function EligibleOf(candidates: seq<string>, current: seq<string>, removed: string): seq<string> {
    if candidates == [] then []
    else
      (if Eligible(candidates[0], current, removed) then [candidates[0]] else [])
      + EligibleOf(candidates[1..], current, removed)
  }

  /** The replacements picked when `need` more are wanted. */
  function Picked(candidates: seq<string>, current: seq<string>, removed: string, need: int): seq<string> {
    var e := EligibleOf(candidates, current, removed);
    if need <= 0 then [] else if need < |e| then e[..need] else e
  }

  lemma {:induction false} EligibleAreEligible(candidates: seq<string>, current: seq<string>, removed: string)
    requires Distinct(candidates)
    ensures forall x :: x in EligibleOf(candidates, current, removed) ==> x in candidates && Eligible(x, current, removed)
    ensures Distinct(EligibleOf(candidates, current, removed))
  {
    if candidates != [] {
      assert candidates == [candidates[0]] + candidates[1..];
      EligibleAreEligible(candidates[1..], current, removed);
      assert forall x :: x in candidates[1..] ==> x != candidates[0];
    }
  }

  lemma {:induction false} EligibleSplit(a: seq<string>, b: seq<string>, current: seq<string>, removed: string)
    ensures EligibleOf(a + b, current, removed) == EligibleOf(a, current, removed) + EligibleOf(b, current, removed)
  {
    if a == [] {
      assert a + b == b;
    } else {
      assert (a + b)[1..] == a[1..] + b;
      EligibleSplit(a[1..], b, current, removed);
    }
  }

  lemma PickedStep(candidates: seq<string>, i: nat, current: seq<string>, removed: string, need: nat)
    requires i < |candidates|
    requires |Picked(candidates[..i], current, removed, need)| < need
    ensures Picked(candidates[..i + 1], current, removed, need)
            == Picked(candidates[..i], current, removed, need)
               + (if Eligible(candidates[i], current, removed) then [candidates[i]] else [])
  {
    assert candidates[..i + 1] == candidates[..i] + [candidates[i]];
    EligibleSplit(candidates[..i], [candidates[i]], current, removed);
    assert [candidates[i]][1..] == [];
  }

  lemma PickedDone(candidates: seq<string>, i: nat, current: seq<string>, removed: string, need: int)
    requires i <= |candidates|
    requires |Picked(candidates[..i], current, removed, need)| >= need
    ensures Picked(candidates, current, removed, need) == Picked(candidates[..i], current, removed, need)
  {
    assert candidates == candidates[..i] + candidates[i..];
    EligibleSplit(candidates[..i], candidates[i..], current, removed);
  }

  lemma PickedAreEligible(candidates: seq<string>, current: seq<string>, removed: string, need: int)
    requires Distinct(candidates)
    ensures forall x :: x in Picked(candidates, current, removed, need) ==> x in candidates && Eligible(x, current, removed)
    ensures Distinct(Picked(candidates, current, removed, need))
  {
    EligibleAreEligible(candidates, current, removed);
  }

  lemma NotPickedYet(candidates: seq<string>, i: nat, current: seq<string>, removed: string, need: int)
    requires Distinct(candidates) && i < |candidates|
    ensures candidates[i] !in Picked(candidates[..i], current, removed, need)
  {
    PickedAreEligible(candidates[..i], current, removed, need);
  }

  /** One class: its replication factor as ClassInfo reports it, the factor its
      sharding state enforces when a replica is deleted, and its shards. */
  datatype Placement = Placement(factor: int, shardingFactor: nat, shards: map<string, seq<string>>)

  datatype Outcome = Kept | Deleted | Failed

  /** replicaCandidates: a namespaced class may only use its home node, and only
      while that node is a storage candidate. */
  function ReplicaCandidates(cls: string, storage: seq<string>, namespaces: map<string, Namespace>): (r: Option<seq<string>>)
    ensures r.Some? <==> var ns := NamespaceOf(cls); ns == "" || (ns in namespaces && namespaces[ns].home in storage)
    ensures NamespaceOf(cls) == "" ==> r == Some(storage)
    ensures r.Some? ==> forall x :: x in r.value ==> x in storage
    ensures r.Some? && NamespaceOf(cls) != "" ==>
              NamespaceOf(cls) in namespaces && r.value == [namespaces[NamespaceOf(cls)].home]
    ensures Distinct(storage) && r.Some? ==> Distinct(r.value)
  {
    var ns := NamespaceOf(cls);
    if ns == "" then Some(storage)
    else if ns !in namespaces then None
    else if namespaces[ns].home !in storage then None
    else Some([namespaces[ns].home])
  }

  /** The replicas of a shard after topping up, before any deletion. */
  function ToppedUp(replicas: seq<string>, candidates: Option<seq<string>>, removed: string, rf: int): seq<string> {
    if |replicas| <= rf && candidates.Some?
    then replicas + Picked(candidates.value, replicas, removed, rf + 1 - |replicas|)
    else replicas
  }

  /** What becomes of a shard when both reads are current. */
  function Verdict(replicas: seq<string>, candidates: Option<seq<string>>, removed: string, rf: int, shardingFactor: nat): Outcome {
    var t := ToppedUp(replicas, candidates, removed, rf);
    if removed !in t || |t| <= 1 || |t| < rf then Kept
    else if |t| <= shardingFactor then Failed
    else Deleted
  }

  function After(replicas: seq<string>, candidates: Option<seq<string>>, removed: string, rf: int, shardingFactor: nat): seq<string> {
    var t := ToppedUp(replicas, candidates, removed, rf);
    if Verdict(replicas, candidates, removed, rf, shardingFactor) == Deleted then Without(t, removed) else t
  }

  function Supply(replicas: seq<string>, candidates: Option<seq<string>>, removed: string): nat {
    if candidates.Some? then |EligibleOf(candidates.value, replicas, removed)| else 0
  }

  /** The whole outcome for a class whose sharding state enforces its replication
      factor. The departed node goes exactly when the shard has more replicas than
      the factor or enough eligible nodes exist to reach one more, and then at
      least rf replicas remain. Falling short by exactly one does not skip the
      shard with a warning but fails the deletion, and with it the rebalance. */
  lemma DepartedNodeGoesIff(replicas: seq<string>, candidates: Option<seq<string>>, removed: string, rf: nat)
    requires Distinct(replicas) && (candidates.Some? ==> Distinct(candidates.value))
    requires removed in replicas && rf >= 1
    ensures var n, supply := |replicas|, Supply(replicas, candidates, removed);
            var v, after := Verdict(replicas, candidates, removed, rf, rf), After(replicas, candidates, removed, rf, rf);
            && (v == Deleted <==> n > rf || n + supply >= rf + 1)
            && (v == Failed <==> n <= rf && n + supply == rf && rf >= 2)
            && (v == Deleted ==> removed !in after && |after| >= rf)
            && (v == Deleted && n <= rf ==> |after| == rf)
            && (v != Deleted ==> replicas <= after)
  {
    var t := ToppedUp(replicas, candidates, removed, rf);
    assert removed in t;
    ToppedUpDistinct(replicas, candidates, removed, rf);
    WithoutRemovesOne(t, removed);
    assert removed !in Names(Without(t, removed));
  }

  lemma ToppedUpDistinct(replicas: seq<string>, candidates: Option<seq<string>>, removed: string, rf: int)
    requires Distinct(replicas) && (candidates.Some? ==> Distinct(candidates.value))
    ensures Distinct(ToppedUp(replicas, candidates, removed, rf))
  {
    if |replicas| <= rf && candidates.Some? {
      PickedAreEligible(candidates.value, replicas, removed, rf + 1 - |replicas|);
      var p := Picked(candidates.value, replicas, removed, rf + 1 - |replicas|);
      forall i | 0 <= i < |p| ensures p[i] !in replicas {
        assert p[i] in p;
      }
    }
  }

  /** What a shard of class c becomes in a whole rebalance. */
  function Settled(c: string, p: Placement, replicas: seq<string>, removed: string, storage: seq<string>,
                   namespaces: map<string, Namespace>): seq<string>
  {
    if p.factor > 0 && removed in replicas
    then After(replicas, ReplicaCandidates(c, storage, namespaces), removed, p.factor, p.shardingFactor)
    else replicas
  }

  predicate Stuck(c: string, p: Placement, replicas: seq<string>, removed: string, storage: seq<string>,
                  namespaces: map<string, Namespace>)
  {
    && p.factor > 0 && removed in replicas
    && Verdict(replicas, ReplicaCandidates(c, storage, namespaces), removed, p.factor, p.shardingFactor) == Failed
  }

  /** Whatever a rebalance does to a shard, it adds no node but a storage candidate
      that is not the departed one, for a namespaced class no node but the home
      node, and takes away no node but the departed one, never the last. */
  lemma SettledIsAllowed(c: string, p: Placement, replicas: seq<string>, removed: string, storage: seq<string>,
                         namespaces: map<string, Namespace>)
    requires Distinct(replicas) && Distinct(storage)
    ensures var after := Settled(c, p, replicas, removed, storage, namespaces);
            && AllowedChange(replicas, after, ReplicaCandidates(c, storage, namespaces), removed)
            && (forall x :: x in after && x !in replicas ==> x in storage && x != removed)
            && (NamespaceOf(c) != "" ==> forall x :: x in after && x !in replicas ==>
                  NamespaceOf(c) in namespaces && x == namespaces[NamespaceOf(c)].home)
            && (replicas != [] ==> after != [])
  {
    var candidates := ReplicaCandidates(c, storage, namespaces);
    if p.factor > 0 && removed in replicas {
      var t := ToppedUp(replicas, candidates, removed, p.factor);
      ToppedUpDistinct(replicas, candidates, removed, p.factor);
      if |replicas| <= p.factor && candidates.Some? {
        PickedAreEligible(candidates.value, replicas, removed, p.factor + 1 - |replicas|);
      }
      assert AllowedChange(replicas, t, candidates, removed);
      assert removed in t;
      WithoutAllowed(replicas, t, candidates, removed);
    }
  }

  /** What one shard may become: nothing but eligible nodes are added, and nothing
      but the departed node is taken away. */
  ghost predicate AllowedChange(before: seq<string>, after: seq<string>, candidates: Option<seq<string>>, removed: string) {
    && Distinct(after)
    && (forall x :: x in after && x !in before ==> x != removed && candidates.Some? && x in candidates.value)
    && (forall x :: x in before && x !in after ==> x == removed)
  }

  /** The replicas of a shard, if there is such a shard. */
  function At(classes: map<string, Placement>, c: string, s: string): Option<seq<string>> {
    if c in classes && s in classes[c].shards then Some(classes[c].shards[s]) else None
  }

  predicate SameShape(before: map<string, Placement>, after: map<string, Placement>) {
    && after.Keys == before.Keys
    && forall c :: c in after ==>
         && after[c].factor == before[c].factor
         && after[c].shardingFactor == before[c].shardingFactor
         && after[c].shards.Keys == before[c].shards.Keys
  }

  /** Everything but shard s of class c is as it was. */
  ghost predicate OnlyShard(before: map<string, Placement>, after: map<string, Placement>, c: string, s: string) {
    && SameShape(before, after)
    && forall c', s' :: c' != c || s' != s ==> At(after, c', s') == At(before, c', s')
  }

  lemma OnlyShardTwice(before: map<string, Placement>, mid: map<string, Placement>, after: map<string, Placement>,
                       c: string, s: string)
    requires OnlyShard(before, mid, c, s) && OnlyShard(mid, after, c, s)
    ensures OnlyShard(before, after, c, s)
  {
    forall c', s' | c' != c || s' != s ensures At(after, c', s') == At(before, c', s') {
      assert At(after, c', s') == At(mid, c', s');
    }
  }

  // ---- the world the commands go through ----

  /** How a command ends that is sent through the log: applied and acknowledged,
      not applied, or applied although its caller sees an error. */
  datatype Fate = Acked | Refused | Lost

  /** The fate of the k-th call, what a local read at the k-th call misses, which may
      lag behind additions but shows no replica that is not there, and whether the
      read of a class at the k-th call fails. */
  datatype World = World(fate: nat -> Fate, misses: nat -> set<string>, unread: nat -> bool)

  ghost predicate Reliable(w: World) {
    forall k :: w.fate(k) == Acked
  }

  ghost predicate Current(w: World) {
    forall k :: w.misses(k) == {}
  }

  /** Every read of a class succeeds and is current. */
  ghost predicate Thorough(w: World) {
    Current(w) && forall k :: !w.unread(k)
  }

  function Seen(xs: seq<string>, missed: set<string>): seq<string> {
    if xs == [] then [] else (if xs[0] in missed then [] else [xs[0]]) + Seen(xs[1..], missed)
  }

  lemma {:induction false} SeenIsPart(xs: seq<string>, missed: set<string>)
    ensures forall x :: x in Seen(xs, missed) ==> x in xs
    ensures |Seen(xs, missed)| <= |xs| && (missed == {} ==> Seen(xs, missed) == xs)
  {
    if xs != [] {
      SeenIsPart(xs[1..], missed);
      assert xs == [xs[0]] + xs[1..];
    }
  }

  /** The node that left, and where replicas may go. */
  datatype Departure = Departure(removed: string, storage: seq<string>, namespaces: map<string, Namespace>)

  function Options(t: Departure, c: string): Option<seq<string>> {
    ReplicaCandidates(c, t.storage, t.namespaces)
  }

  /** What holds of a shard whatever the world does: only eligible nodes come, only
      the departed one goes, and when it goes enough replicas stay. */
  ghost predicate Sound(t: Departure, c: string, p: Placement, before: seq<string>, after: seq<string>) {
    && AllowedChange(before, after, Options(t, c), t.removed)
    && (t.removed in before && t.removed !in after ==>
          |after| >= 1 && |after| >= p.factor - 1 && |after| >= p.shardingFactor)
  }

  predicate Affected(t: Departure, p: Placement, replicas: seq<string>) {
    p.factor > 0 && t.removed in replicas
  }

  /** A shard that was dealt with. */
  ghost predicate Finished(w: World, t: Departure, c: string, p: Placement, before: seq<string>, after: seq<string>) {
    && Sound(t, c, p, before, after) && Affected(t, p, before)
    && (Current(w) ==> after == Settled(c, p, before, t.removed, t.storage, t.namespaces)
                       && !Stuck(c, p, before, t.removed, t.storage, t.namespaces))
  }

  /** The shard at which a rebalance failed; it may be partly topped up. */
  ghost predicate Broken(w: World, t: Departure, c: string, p: Placement, before: seq<string>, after: seq<string>) {
    && Sound(t, c, p, before, after) && Affected(t, p, before)
    && (Current(w) && Reliable(w) ==> after == Settled(c, p, before, t.removed, t.storage, t.namespaces)
                                      && Stuck(c, p, before, t.removed, t.storage, t.namespaces))
  }

  type Shard = (string, string)

  ghost predicate ShardAt(w: World, t: Departure, before: map<string, Placement>, after: map<string, Placement>,
                          done: set<Shard>, failed: Option<Shard>, c: string, s: string)
  {
    var b, a := At(before, c, s), At(after, c, s);
    if (c, s) in done then c in before && b.Some? && a.Some? && Finished(w, t, c, before[c], b.value, a.value)
    else if failed == Some((c, s)) then c in before && b.Some? && a.Some? && Broken(w, t, c, before[c], b.value, a.value)
    else a == b
  }

  /** The shards in done are dealt with, one may have failed, the others are as they were. */
  ghost predicate Progress(w: World, t: Departure, before: map<string, Placement>, after: map<string, Placement>,
                           done: set<Shard>, failed: Option<Shard>)
  {
    && SameShape(before, after) && (failed.Some? ==> failed.value !in done)
    && forall c, s :: ShardAt(w, t, before, after, done, failed, c, s)
  }

  lemma ProgressStep(w: World, t: Departure, before: map<string, Placement>, mid: map<string, Placement>, after: map<string, Placement>,
                     done: set<Shard>, c: string, s: string, ok: bool)
    requires Progress(w, t, before, mid, done, None) && OnlyShard(mid, after, c, s) && (c, s) !in done
    requires c in before && At(before, c, s).Some? && At(after, c, s).Some?
    requires ok ==> Finished(w, t, c, before[c], At(before, c, s).value, At(after, c, s).value)
    requires !ok ==> Broken(w, t, c, before[c], At(before, c, s).value, At(after, c, s).value)
    ensures Progress(w, t, before, after, if ok then done + {(c, s)} else done, if ok then None else Some((c, s)))
  {
    var done', failed := if ok then done + {(c, s)} else done, if ok then None else Some((c, s));
    assert SameShape(before, after);
    forall c', s' ensures ShardAt(w, t, before, after, done', failed, c', s') {
      assert ShardAt(w, t, before, mid, done, None, c', s');
      if c' != c || s' != s {
        assert At(after, c', s') == At(mid, c', s');
      }
    }
  }

  class Schema {
    const world: World
    var classes: map<string, Placement>
    var calls: nat

    constructor (world: World, classes: map<string, Placement>)
      requires forall c, s :: c in classes && s in classes[c].shards ==> Distinct(classes[c].shards[s])
      ensures Valid() && this.world == world && this.classes == classes
    {
      this.world, this.classes, calls := world, classes, 0;
    }

    ghost predicate Valid()
      reads this
    {
      forall c, s :: c in classes && s in classes[c].shards ==> Distinct(classes[c].shards[s])
    }

    predicate Has(c: string, s: string)
      reads this
    {
      c in classes && s in classes[c].shards
    }

    function Replicas(c: string, s: string): seq<string>
      requires Has(c, s)
      reads this
    {
      classes[c].shards[s]
    }

    method SetReplicas(c: string, s: string, nodes: seq<string>)
      requires Valid() && Has(c, s) && Distinct(nodes)
      modifies this`classes
      ensures Valid() && Has(c, s) && Replicas(c, s) == nodes && OnlyShard(old(classes), classes, c, s)
    {
      classes := classes[c := classes[c].(shards := classes[c].shards[s := nodes])];
    }

    /** ShardReplicas on the local schema. */
    method ReadReplicas(c: string, s: string) returns (r: seq<string>)
      requires Valid() && Has(c, s)
      modifies this`calls
      ensures |r| <= |Replicas(c, s)| && forall x :: x in r ==> x in Replicas(c, s)
      ensures Current(world) ==> r == Replicas(c, s)
    {
      calls := calls + 1;
      SeenIsPart(classes[c].shards[s], world.misses(calls));
      return Seen(classes[c].shards[s], world.misses(calls));
    }

    /** AddReplicaToShard through the log: refused for a replica that is there. */
    method AddReplica(c: string, s: string, node: string) returns (ok: bool)
      requires Valid() && Has(c, s)
      modifies this`classes, this`calls
      ensures Valid() && Has(c, s) && OnlyShard(old(classes), classes, c, s)
      ensures Replicas(c, s) == old(Replicas(c, s)) || (node !in old(Replicas(c, s)) && Replicas(c, s) == old(Replicas(c, s)) + [node])
      ensures ok ==> node !in old(Replicas(c, s)) && Replicas(c, s) == old(Replicas(c, s)) + [node]
      ensures Reliable(world) ==> (ok <==> node !in old(Replicas(c, s)))
    {
      calls := calls + 1;
      var fate, nodes := world.fate(calls), classes[c].shards[s];
      if fate == Refused || node in nodes {
        return false;
      }
      SetReplicas(c, s, nodes + [node]);
      return fate == Acked;
    }

    /** DeleteReplicaFromShard through the log: refused at or below the sharding
        factor, a no-op for a node that holds no replica. */
    method DeleteReplica(c: string, s: string, node: string) returns (ok: bool)
      requires Valid() && Has(c, s)
      modifies this`classes, this`calls
      ensures Valid() && Has(c, s) && OnlyShard(old(classes), classes, c, s)
      ensures || Replicas(c, s) == old(Replicas(c, s))
              || (node in old(Replicas(c, s)) && |old(Replicas(c, s))| > classes[c].shardingFactor
                  && Replicas(c, s) == Without(old(Replicas(c, s)), node))
      ensures ok ==> |old(Replicas(c, s))| > classes[c].shardingFactor
                     && (node in old(Replicas(c, s)) ==> Replicas(c, s) == Without(old(Replicas(c, s)), node))
      ensures Reliable(world) ==> (ok <==> |old(Replicas(c, s))| > classes[c].shardingFactor)
      ensures !ok && Reliable(world) ==> Replicas(c, s) == old(Replicas(c, s))
    {
      calls := calls + 1;
      var fate, nodes := world.fate(calls), classes[c].shards[s];
      if fate == Refused || |nodes| <= classes[c].shardingFactor {
        return false;
      }
      if node in nodes {
        WithoutRemovesOne(nodes, node);
        SetReplicas(c, s, Without(nodes, node));
      }
      return fate == Acked;
    }

    /** Add eligible candidates in order until targetCount is reached, up to the first
        command that fails. */
    method AddCandidates(c: string, s: string, current: seq<string>, cs: seq<string>, removed: string, targetCount: int)
      returns (ok: bool, ghost i: nat, ghost added: seq<string>)
      requires Valid() && Has(c, s) && Distinct(cs)
      modifies this`classes, this`calls
      ensures Valid() && OnlyShard(old(classes), classes, c, s)
      ensures Has(c, s) && Replicas(c, s) == old(Replicas(c, s)) + added
      ensures i <= |cs| && added == Picked(cs[..i], current, removed, targetCount - |current|)
      ensures ok ==> added == Picked(cs, current, removed, targetCount - |current|)
      ensures current == old(Replicas(c, s)) && Reliable(world) ==> ok
    {
      var currentCount, k := |current|, 0;
      ghost var need, before, start := targetCount - |current|, Replicas(c, s), classes;
      added := [];
      while k < |cs|
        invariant 0 <= k <= |cs|
        invariant Valid() && Has(c, s) && OnlyShard(start, classes, c, s)
        invariant added == Picked(cs[..k], current, removed, need)
        invariant currentCount == |current| + |added|
        invariant Replicas(c, s) == before + added
      {
        if currentCount >= targetCount {
          PickedDone(cs, k, current, removed, need);
          return true, k, added;
        }
        PickedStep(cs, k, current, removed, need);
        var newNode := cs[k];
        if newNode != removed && newNode !in current {
          NotPickedYet(cs, k, current, removed, need);
          ghost var mid := classes;
          var placed := AddReplica(c, s, newNode);
          OnlyShardTwice(start, mid, classes, c, s);
          if !placed {
            ghost var applied := Replicas(c, s) != before + added;
            return false, if applied then k + 1 else k, if applied then added + [newNode] else added;
          }
          currentCount := currentCount + 1;
          added := added + [newNode];
        }
        k := k + 1;
      }
      assert cs[..k] == cs;
      return true, k, added;
    }

    /** addReplacementReplicas, given what the first read returned. */
    method AddReplacementReplicas(c: string, s: string, current: seq<string>, candidates: Option<seq<string>>,
                                  removed: string, rf: int)
      returns (ok: bool)
      requires Valid() && Has(c, s) && (candidates.Some? ==> Distinct(candidates.value))
      modifies this`classes, this`calls
      ensures Valid() && OnlyShard(old(classes), classes, c, s)
      ensures Has(c, s) && old(Replicas(c, s)) <= Replicas(c, s)
      ensures AllowedChange(old(Replicas(c, s)), Replicas(c, s), candidates, removed)
      ensures ok && candidates.Some? ==>
                Replicas(c, s) == old(Replicas(c, s)) + Picked(candidates.value, current, removed, rf + 1 - |current|)
      ensures candidates.None? ==> ok && Replicas(c, s) == old(Replicas(c, s))
      ensures current == old(Replicas(c, s)) && Reliable(world) ==> ok
    {
      if candidates.None? {
        return true;
      }
      ghost var i, added;
      ok, i, added := AddCandidates(c, s, current, candidates.value, removed, rf + 1);
      AddedAreAllowed(old(Replicas(c, s)), added, candidates.value, i, current, removed, rf + 1 - |current|);
    }

    /** The first half of processShardReplicaRemoval: read, and top up if needed. */
    method TopUp(c: string, s: string, removed: string, rf: int, candidates: Option<seq<string>>) returns (ok: bool)
      requires Valid() && Has(c, s) && (candidates.Some? ==> Distinct(candidates.value))
      modifies this`classes, this`calls
      ensures Valid() && OnlyShard(old(classes), classes, c, s)
      ensures Has(c, s) && old(Replicas(c, s)) <= Replicas(c, s)
      ensures AllowedChange(old(Replicas(c, s)), Replicas(c, s), candidates, removed)
      ensures Current(world) && ok ==> Replicas(c, s) == ToppedUp(old(Replicas(c, s)), candidates, removed, rf)
      ensures Current(world) && Reliable(world) ==> ok
    {
      var currentReplicas := ReadReplicas(c, s);
      if |currentReplicas| <= rf {
        ok := AddReplacementReplicas(c, s, currentReplicas, candidates, removed, rf);
      } else {
        ok := true;
      }
    }

    /** processShardReplicaRemoval, in any world. */
    method ProcessShard(c: string, s: string, removed: string, rf: int, candidates: Option<seq<string>>)
      returns (out: Outcome)
      requires Valid() && Has(c, s) && (candidates.Some? ==> Distinct(candidates.value))
      modifies this`classes, this`calls
      ensures Valid() && Has(c, s) && OnlyShard(old(classes), classes, c, s)
      ensures AllowedChange(old(Replicas(c, s)), Replicas(c, s), candidates, removed)
      ensures removed in old(Replicas(c, s)) && removed !in Replicas(c, s) ==>
                |Replicas(c, s)| >= 1 && |Replicas(c, s)| >= rf - 1 && |Replicas(c, s)| >= classes[c].shardingFactor
      ensures Current(world) && (out != Failed || Reliable(world)) ==>
                && out == Verdict(old(Replicas(c, s)), candidates, removed, rf, classes[c].shardingFactor)
                && Replicas(c, s) == After(old(Replicas(c, s)), candidates, removed, rf, classes[c].shardingFactor)
    {
      ghost var before, start := Replicas(c, s), classes;
      var ok := TopUp(c, s, removed, rf, candidates);
      if !ok {
        return Failed;
      }
      ghost var topped, mid := Replicas(c, s), classes;
      var finalReplicas := ReadReplicas(c, s);
      if removed !in finalReplicas {
        return Kept;
      }
      if |finalReplicas| <= 1 {
        return Kept;
      }
      if |finalReplicas| < rf {
        return Kept;
      }
      ok := DeleteReplica(c, s, removed);
      OnlyShardTwice(start, mid, classes, c, s);
      WithoutAllowed(before, topped, candidates, removed);
      return if ok then Deleted else Failed;
    }

    /** One shard that the departed node holds. */
    method SettleShard(c: string, s: string, t: Departure) returns (ok: bool)
      requires Valid() && Has(c, s) && Distinct(t.storage) && Affected(t, classes[c], Replicas(c, s))
      modifies this`classes, this`calls
      ensures Valid() && Has(c, s) && OnlyShard(old(classes), classes, c, s)
      ensures ok ==> Finished(world, t, c, old(classes[c]), old(Replicas(c, s)), Replicas(c, s))
      ensures !ok ==> Broken(world, t, c, old(classes[c]), old(Replicas(c, s)), Replicas(c, s))
    {
      var out := ProcessShard(c, s, t.removed, classes[c].factor, Options(t, c));
      return out != Failed;
    }

    /** One more shard of the rebalance. */
    method AdvanceShard(c: string, s: string, t: Departure, ghost before: map<string, Placement>, ghost done: set<Shard>)
      returns (ok: bool)
      requires Valid() && Distinct(t.storage) && (c, s) !in done && AffectedAt(t, before, c, s)
      requires Progress(world, t, before, classes, done, None)
      modifies this`classes, this`calls
      ensures Valid()
      ensures Progress(world, t, before, classes, if ok then done + {(c, s)} else done, if ok then None else Some((c, s)))
    {
      ghost var mid := classes;
      ShardUntouched(world, t, before, classes, done, c, s);
      ok := SettleShard(c, s, t);
      ProgressStep(world, t, before, mid, classes, done, c, s, ok);
    }

    /** The shards of a class that the local schema shows the departed node to hold; a
        class that cannot be read is skipped. */
    method SelectShards(c: string, t: Departure) returns (todo: set<string>)
      requires c in classes
      modifies this`calls
      ensures forall s :: s in todo ==> s in classes[c].shards && t.removed in classes[c].shards[s]
      ensures Thorough(world) ==> forall s :: s in classes[c].shards && t.removed in classes[c].shards[s] ==> s in todo
    {
      calls := calls + 1;
      if world.unread(calls) {
        return {};
      }
      var missed := world.misses(calls);
      forall xs ensures (forall x :: x in Seen(xs, missed) ==> x in xs) && (missed == {} ==> Seen(xs, missed) == xs) {
        SeenIsPart(xs, missed);
      }
      return set s | s in classes[c].shards && t.removed in Seen(classes[c].shards[s], missed);
    }

    /** The departed node's shards of one class, in any order, up to the first
        failure. */
    method RebalanceClass(c: string, t: Departure, ghost before: map<string, Placement>, ghost done0: set<Shard>)
      returns (ok: bool, ghost done: set<Shard>, ghost failed: Option<Shard>)
      requires Valid() && c in classes && Distinct(t.storage)
      requires Progress(world, t, before, classes, done0, None) && forall s :: (c, s) !in done0
      modifies this`classes, this`calls
      ensures Valid() && Progress(world, t, before, classes, done, failed) && (ok <==> failed.None?)
      ensures forall c', s :: c' != c ==> ((c', s) in done <==> (c', s) in done0)
      ensures ok && Thorough(world) ==> forall s :: (c, s) in done <==> AffectedAt(t, before, c, s)
    {
      var start := classes[c];
      ClassUntouched(world, t, before, classes, done0, c);
      done, failed := done0, None;
      var todo := SelectShards(c, t);
      if start.factor <= 0 {
        return true, done, None;
      }
      while todo != {}
        invariant Valid() && failed == None && Progress(world, t, before, classes, done, None)
        invariant forall s :: s in todo ==> AffectedAt(t, before, c, s)
        invariant forall c', s :: c' != c ==> ((c', s) in done <==> (c', s) in done0)
        invariant Thorough(world) ==> forall s :: AffectedAt(t, before, c, s) ==> (c, s) in done || s in todo
        invariant forall s :: (c, s) in done ==> AffectedAt(t, before, c, s) && s !in todo
        decreases |todo|
      {
        var s :| s in todo;
        ok := AdvanceShard(c, s, t, before, done);
        if !ok {
          return false, done, Some((c, s));
        }
        done := done + {(c, s)};
        todo := todo - {s};
      }
      return true, done, None;
    }

    /** rebalanceReplicasAfterNodeRemoval: class by class, in any order, up to the
        first failure. In any world every shard changes soundly, shards the departed
        node does not hold are as they were, and at most one shard is left partly
        done; with current reads all others have settled or are untouched. */
    method RebalanceAfterNodeRemoval(t: Departure) returns (ok: bool, ghost done: set<Shard>, ghost failed: Option<Shard>)
      requires Valid() && Distinct(t.storage)
      modifies this`classes, this`calls
      ensures Valid() && Progress(world, t, old(classes), classes, done, failed) && (ok <==> failed.None?)
      ensures ok && Thorough(world) ==> forall c, s :: (c, s) in done <==> AffectedAt(t, old(classes), c, s)
    {
      var todo := classes.Keys;
      ghost var start := classes;
      done, failed := {}, None;
      while todo != {}
        invariant Valid() && todo <= start.Keys && failed == None
        invariant Progress(world, t, start, classes, done, None)
        invariant forall c, s :: (c, s) in done ==> c !in todo
        invariant Thorough(world) ==> forall c, s :: (c, s) in done <==> AffectedAt(t, start, c, s) && c !in todo
        decreases |todo|
      {
        var c :| c in todo;
        ok, done, failed := RebalanceClass(c, t, start, done);
        if !ok {
          return;
        }
        todo := todo - {c};
      }
      return true, done, None;
    }
  }

  predicate AffectedAt(t: Departure, classes: map<string, Placement>, c: string, s: string) {
    c in classes && s in classes[c].shards && Affected(t, classes[c], classes[c].shards[s])
  }

  lemma ShardUntouched(w: World, t: Departure, before: map<string, Placement>, after: map<string, Placement>, done: set<Shard>,
                       c: string, s: string)
    requires Progress(w, t, before, after, done, None) && (c, s) !in done
    ensures At(after, c, s) == At(before, c, s)
  {
    assert ShardAt(w, t, before, after, done, None, c, s);
  }

  lemma SameShards(before: map<string, Placement>, after: map<string, Placement>, c: string)
    requires SameShape(before, after) && c in after && forall s :: At(after, c, s) == At(before, c, s)
    ensures c in before && after[c] == before[c]
  {
    forall s | s in before[c].shards ensures after[c].shards[s] == before[c].shards[s] {
      assert At(after, c, s) == At(before, c, s);
    }
    assert after[c].shards == before[c].shards;
  }

  lemma ClassUntouched(w: World, t: Departure, before: map<string, Placement>, after: map<string, Placement>, done: set<Shard>, c: string)
    requires Progress(w, t, before, after, done, None) && c in after && forall s :: (c, s) !in done
    ensures c in before && after[c] == before[c]
  {
    forall s ensures At(after, c, s) == At(before, c, s) {
      ShardUntouched(w, t, before, after, done, c, s);
    }
    SameShards(before, after, c);
  }

  /** With current reads and reliable calls the rebalance succeeds if and only if no
      shard of the departed node is stuck, and either way every shard has settled or
      is untouched. */
  lemma RebalanceSucceedsIff(w: World, t: Departure, before: map<string, Placement>, after: map<string, Placement>,
                             done: set<Shard>, failed: Option<Shard>)
    requires Current(w) && Reliable(w) && Progress(w, t, before, after, done, failed)
    requires failed.None? ==> forall c, s :: (c, s) in done <==> AffectedAt(t, before, c, s)
    ensures failed.None? <==> forall c, s :: AffectedAt(t, before, c, s) ==> !StuckAt(t, before, c, s)
    ensures forall c, s :: At(after, c, s) in {At(before, c, s), SettledAt(t, before, c, s)}
    ensures failed.None? ==> forall c, s :: At(after, c, s) == SettledAt(t, before, c, s)
  {
    forall c, s
      ensures At(after, c, s) in {At(before, c, s), SettledAt(t, before, c, s)}
      ensures failed.None? ==> At(after, c, s) == SettledAt(t, before, c, s)
      ensures failed.None? && AffectedAt(t, before, c, s) ==> !StuckAt(t, before, c, s)
    {
      assert ShardAt(w, t, before, after, done, failed, c, s);
    }
    if failed.Some? {
      var (c, s) := failed.value;
      assert ShardAt(w, t, before, after, done, failed, c, s);
      assert StuckAt(t, before, c, s) && AffectedAt(t, before, c, s);
    }
  }

  /** The storage nodes that could take a replica: neither the departed one nor one that
      has a replica. */
  function Spare(t: Departure, replicas: seq<string>): set<string> {
    set x | x in t.storage && x !in replicas && x != t.removed
  }

  /** How many of them the class may use: all without a namespace, else the home node of
      its namespace alone. */
  function Room(t: Departure, c: string, replicas: seq<string>): nat {
    var ns := NamespaceOf(c);
    if ns == "" then |Spare(t, replicas)|
    else if ns in t.namespaces && t.namespaces[ns].home in Spare(t, replicas) then 1
    else 0
  }

  lemma {:induction false} EligibleNames(candidates: seq<string>, current: seq<string>, removed: string)
    ensures Names(EligibleOf(candidates, current, removed)) == set x | x in candidates && x !in current && x != removed
  {
    if candidates != [] {
      EligibleNames(candidates[1..], current, removed);
      assert candidates == [candidates[0]] + candidates[1..];
      var first := if Eligible(candidates[0], current, removed) then [candidates[0]] else [];
      assert Names(first + EligibleOf(candidates[1..], current, removed))
        == Names(first) + Names(EligibleOf(candidates[1..], current, removed));
    }
  }

  lemma SupplyIsRoom(t: Departure, c: string, replicas: seq<string>)
    requires Distinct(t.storage)
    ensures Supply(replicas, Options(t, c), t.removed) == Room(t, c, replicas)
  {
    var options := Options(t, c);
    if options.Some? {
      EligibleAreEligible(options.value, replicas, t.removed);
      EligibleNames(options.value, replicas, t.removed);
      SizeOfNames(EligibleOf(options.value, replicas, t.removed));
      if NamespaceOf(c) != "" {
        var home := t.namespaces[NamespaceOf(c)].home;
        assert Names(EligibleOf([home], replicas, t.removed)) == if home in Spare(t, replicas) then {home} else {};
      } else {
        assert Names(EligibleOf(t.storage, replicas, t.removed)) == Spare(t, replicas);
      }
    }
  }

  /** A shard that a rebalance with current reads has dealt with, in terms of the nodes
      there are: the departed node is off it if and only if its replicas and the nodes
      the class may use exceed the factor; then at least factor replicas are left. */
  lemma DepartureOutcome(w: World, t: Departure, before: map<string, Placement>, after: map<string, Placement>,
                         done: set<Shard>, failed: Option<Shard>, c: string, s: string)
    requires Current(w) && Progress(w, t, before, after, done, failed) && (c, s) in done && Distinct(t.storage)
    requires c in before && s in before[c].shards && Distinct(before[c].shards[s])
    requires before[c].shardingFactor == before[c].factor
    ensures var replicas, left := before[c].shards[s], At(after, c, s);
            && left.Some?
            && (t.removed !in left.value <==> |replicas| + Room(t, c, replicas) > before[c].factor)
            && (t.removed !in left.value ==> |left.value| >= before[c].factor)
  {
    var p, replicas := before[c], before[c].shards[s];
    assert ShardAt(w, t, before, after, done, failed, c, s);
    SupplyIsRoom(t, c, replicas);
    DepartedNodeGoesIff(replicas, Options(t, c), t.removed, p.factor);
    assert At(after, c, s) == Some(After(replicas, Options(t, c), t.removed, p.factor, p.factor));
  }

  /** The rebalance as a whole, with reads current and calls reliable: it fails if and only
      if some shard of the departed node would end with exactly factor replicas, two or
      more, the departed one among them. */
  lemma RebalanceFailsIff(w: World, t: Departure, before: map<string, Placement>, after: map<string, Placement>,
                          done: set<Shard>, failed: Option<Shard>)
    requires Current(w) && Reliable(w) && Progress(w, t, before, after, done, failed) && Distinct(t.storage)
    requires failed.None? ==> forall c, s :: (c, s) in done <==> AffectedAt(t, before, c, s)
    requires forall c :: c in before ==> before[c].shardingFactor == before[c].factor
    requires forall c, s :: c in before && s in before[c].shards ==> Distinct(before[c].shards[s])
    ensures failed.Some? <==> exists c, s :: AffectedAt(t, before, c, s) && ShortByOne(t, c, before[c], before[c].shards[s])
  {
    RebalanceSucceedsIff(w, t, before, after, done, failed);
    forall c, s | AffectedAt(t, before, c, s)
      ensures StuckAt(t, before, c, s) <==> ShortByOne(t, c, before[c], before[c].shards[s])
    {
      SupplyIsRoom(t, c, before[c].shards[s]);
      DepartedNodeGoesIff(before[c].shards[s], Options(t, c), t.removed, before[c].factor);
    }
  }

  predicate ShortByOne(t: Departure, c: string, p: Placement, replicas: seq<string>) {
    |replicas| <= p.factor && |replicas| + Room(t, c, replicas) == p.factor && p.factor >= 2
  }

  function SettledAt(t: Departure, before: map<string, Placement>, c: string, s: string): Option<seq<string>> {
    if c in before && s in before[c].shards
    then Some(Settled(c, before[c], before[c].shards[s], t.removed, t.storage, t.namespaces))
    else None
  }

  predicate StuckAt(t: Departure, before: map<string, Placement>, c: string, s: string) {
    c in before && s in before[c].shards && Stuck(c, before[c], before[c].shards[s], t.removed, t.storage, t.namespaces)
  }

  lemma WithoutAllowed(before: seq<string>, topped: seq<string>, candidates: Option<seq<string>>, removed: string)
    requires AllowedChange(before, topped, candidates, removed) && removed in topped
    ensures AllowedChange(before, Without(topped, removed), candidates, removed)
    ensures |Without(topped, removed)| == |topped| - 1
  {
    WithoutRemovesOne(topped, removed);
    var r := Without(topped, removed);
    forall x | x in r ensures x in topped {
      assert x in Names(r);
    }
    forall x | x in topped && x != removed ensures x in r {
      assert x in Names(topped);
      assert x in Names(r);
    }
  }

  lemma AddedAreAllowed(before: seq<string>, added: seq<string>, candidates: seq<string>, i: nat,
                        current: seq<string>, removed: string, need: int)
    requires Distinct(candidates) && i <= |candidates| && added == Picked(candidates[..i], current, removed, need)
    requires Distinct(before + added)
    ensures AllowedChange(before, before + added, Some(candidates), removed)
  {
    PickedAreEligible(candidates[..i], current, removed, need);
    forall x | x in before + added && x !in before ensures x != removed && x in candidates {
      assert x in added;
    }
  }
}
