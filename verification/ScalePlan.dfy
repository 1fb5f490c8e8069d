/** Applying a replication scale plan: validation over unordered maps, the
    replica and transfer operations it issues, and their rollback. */
module ScalePlan {
  import opened Fsm
  import opened Rebalance

  datatype Actions = Actions(removeNodes: set<string>, addNodes: map<string, string>)

  type Plan = map<string, Actions>

  /** A registered transfer: to copy a replica, or to move it. */
  datatype Op = Op(shard: string, source: string, target: string, move: bool)

  datatype OpState = Registered | Hydrating | Finalizing | Integrating | Ready | Dehydrating | Cancelled

  /** What the world does at the k-th call: the fate of a command, what the local
      schema shows of the shard when it lags, and whether no random id is to be had. */
  datatype Env = Env(fate: nat -> Fate, view: nat -> Option<seq<string>>, noRandom: nat -> bool)

  ghost predicate CurrentReads(env: Env) {
    forall k :: env.view(k).None?
  }

  ghost predicate ReliableCalls(env: Env) {
    forall k :: env.fate(k) == Acked
  }

  /** Something goes wrong at the k-th call: a command is not applied or not
      acknowledged, a read lags, or there is no random id. */
  predicate Trouble(env: Env, k: nat) {
    env.fate(k) != Acked || env.view(k).Some? || env.noRandom(k)
  }

  ghost predicate Clean(env: Env, from: nat, to: nat) {
    forall k :: from < k <= to ==> !Trouble(env, k)
  }

  predicate AcceptableShard(a: Actions) {
    && (forall n :: n in a.addNodes ==> a.addNodes[n] != n && n !in a.removeNodes)
    && (forall n, m :: n in a.addNodes && m in a.addNodes && n != m && a.addNodes[n] == a.addNodes[m] != "" ==>
          a.addNodes[n] !in a.removeNodes)
  }

  /** No node is its own source, none is both added and removed, and no removed
      node is the source of two additions. */
  predicate Acceptable(plan: Plan) {
    forall s :: s in plan ==> AcceptableShard(plan[s])
  }

  /** The checks of one shard, in any order of its additions. */
  method ValidateShard(a: Actions) returns (ok: bool)
    ensures ok <==> AcceptableShard(a)
  {
    var todo := a.addNodes.Keys;
    var usage: map<string, nat> := map[];
    while todo != {}
      invariant todo <= a.addNodes.Keys
      invariant forall n :: n in a.addNodes && n !in todo ==>
                  && a.addNodes[n] != n && n !in a.removeNodes
                  && (a.addNodes[n] != "" ==> a.addNodes[n] in usage)
      invariant forall x :: x in usage ==>
                  usage[x] >= 1 && exists n :: n in a.addNodes && n !in todo && a.addNodes[n] == x
      invariant forall n, m | n in a.addNodes && m in a.addNodes && n !in todo && m !in todo ::
                  n != m && a.addNodes[n] == a.addNodes[m] != "" ==> a.addNodes[n] !in a.removeNodes
      decreases |todo|
    {
      var newNode :| newNode in todo;
      var sourceNode := a.addNodes[newNode];
      if newNode == sourceNode {
        return false;
      }
      if newNode in a.removeNodes {
        return false;
      }
      if sourceNode != "" {
        var used := if sourceNode in usage then usage[sourceNode] else 0;
        if used + 1 > 1 {
          if sourceNode in a.removeNodes {
            return false;
          }
        }
        usage := usage[sourceNode := used + 1];
      }
      todo := todo - {newNode};
    }
    return true;
  }

  method Validate(plan: Plan) returns (ok: bool)
    ensures ok <==> Acceptable(plan)
  {
    var todo := plan.Keys;
    while todo != {}
      invariant todo <= plan.Keys
      invariant forall s :: s in plan && s !in todo ==> AcceptableShard(plan[s])
      decreases |todo|
    {
      var s :| s in todo;
      var fine := ValidateShard(plan[s]);
      if !fine {
        return false;
      }
      todo := todo - {s};
    }
    return true;
  }

  predicate OnlyTransfers(plan: Plan) {
    forall s :: s in plan ==> plan[s].removeNodes == {} && forall n :: n in plan[s].addNodes ==> plan[s].addNodes[n] != ""
  }

  /** The transfers a plan asks for: one per addition with a source, a move exactly
      when the source is being removed. */
  ghost predicate Wanted(plan: Plan, op: Op) {
    && op.shard in plan && op.target in plan[op.shard].addNodes
    && op.source == plan[op.shard].addNodes[op.target] && op.source != ""
    && (op.move <==> op.source in plan[op.shard].removeNodes)
  }

  /** A plan is accepted exactly if no transfer it asks for goes from a node to itself, no
      node it adds is one it removes, and no two transfers move the same replica. */
  lemma AcceptableIff(plan: Plan)
    ensures Acceptable(plan) <==>
              && (forall op :: Wanted(plan, op) ==> op.source != op.target)
              && (forall s, n :: s in plan && n in plan[s].addNodes ==> n !in plan[s].removeNodes && (n == "" ==> plan[s].addNodes[n] != n))
              && (forall a, b :: Wanted(plan, a) && Wanted(plan, b) && a.move && a.shard == b.shard && a.source == b.source ==>
                    a.target == b.target)
  {
    forall s, n | s in plan && n in plan[s].addNodes && plan[s].addNodes[n] != ""
      ensures Wanted(plan, OpFor(plan, s, n))
    {
    }
    if !Acceptable(plan) {
      var s :| s in plan && !AcceptableShard(plan[s]);
      var a := plan[s];
      if n :| n in a.addNodes && (a.addNodes[n] == n || n in a.removeNodes) {
        if a.addNodes[n] == n && n != "" {
          assert Wanted(plan, OpFor(plan, s, n));
        }
      } else {
        var n, m :| n in a.addNodes && m in a.addNodes && n != m && a.addNodes[n] == a.addNodes[m] != "" && a.addNodes[n] in a.removeNodes;
        assert Wanted(plan, OpFor(plan, s, n)) && Wanted(plan, OpFor(plan, s, m));
        assert OpFor(plan, s, n).move && OpFor(plan, s, n).target != OpFor(plan, s, m).target;
      }
    }
  }

  function OpFor(plan: Plan, s: string, n: string): Op
    requires s in plan && n in plan[s].addNodes
  {
    Op(s, plan[s].addNodes[n], n, plan[s].addNodes[n] in plan[s].removeNodes)
  }

  lemma MoveSourcesDistinct(plan: Plan, a: Op, b: Op)
    requires Acceptable(plan) && Wanted(plan, a) && Wanted(plan, b)
    requires a.move && a.shard == b.shard && a.source == b.source
    ensures a == b
  {
    assert AcceptableShard(plan[a.shard]);
  }

  /** A wanted transfer whose turn has come. */
  ghost predicate Handled(plan: Plan, op: Op, todo: set<string>, shard: string, nodes: set<string>) {
    Wanted(plan, op) && op.shard !in todo && (op.shard == shard ==> op.target !in nodes)
  }

  ghost predicate Unique(sent: seq<Op>) {
    forall i, j :: 0 <= i < j < |sent| ==> sent[i] != sent[j]
  }

  ghost predicate SentIs(plan: Plan, sent: seq<Op>, todo: set<string>, shard: string, nodes: set<string>) {
    Unique(sent) && forall op :: op in sent <==> Handled(plan, op, todo, shard, nodes)
  }

  ghost predicate Increasing(ids: seq<nat>, start: nat, next: nat) {
    && start <= next
    && (forall i :: 0 <= i < |ids| ==> start <= ids[i] < next)
    && (forall i, j :: 0 <= i < j < |ids| ==> ids[i] < ids[j])
  }

  ghost predicate Bound(ops: map<nat, Op>, ids: seq<nat>, sent: seq<Op>) {
    |ids| == |sent| && forall i :: 0 <= i < |ids| ==> ids[i] in ops && ops[ids[i]] == sent[i]
  }

  /** Nothing is registered beyond what was before, the acknowledged ids, and
      perhaps one id whose caller saw an error. */
  ghost predicate Accounted(ops0: map<nat, Op>, ops: map<nat, Op>, start: nat, ids: seq<nat>, extra: Option<nat>) {
    && (forall id :: id in ops0 ==> id < start && id in ops && ops[id] == ops0[id])
    && (forall id :: id in ops && id !in ops0 ==> id in ids || extra == Some(id))
    && (extra.Some? ==> extra.value in ops && extra.value >= start && extra.value !in ids)
  }

  /** Acknowledged ids since start, in order, each bound to its transfer. */
  ghost predicate Tracked(ops0: map<nat, Op>, ops: map<nat, Op>, start: nat, next: nat, ids: seq<nat>, sent: seq<Op>,
                          extra: Option<nat>)
  {
    Increasing(ids, start, next) && Bound(ops, ids, sent) && Accounted(ops0, ops, start, ids, extra)
  }

  ghost predicate AckedAre(acked0: set<nat>, acked: set<nat>, ids: seq<nat>) {
    forall id :: id in acked <==> id in acked0 || id in ids
  }

  /** The nodes that hold a replica of a shard. */
  function Holders(shards: Shards, s: string): set<string> {
    if s in shards then Names(shards[s]) else {}
  }

  lemma {:induction false} WithoutAbsent(xs: seq<string>, x: string)
    requires x !in xs
    ensures Without(xs, x) == xs
  {
    if xs != [] {
      WithoutAbsent(xs[1..], x);
    }
  }

  /** The nodes a shard gets an empty replica on. */
  function Empties(a: Actions): set<string> {
    set n | n in a.addNodes && a.addNodes[n] == ""
  }

  /** The holders a shard is left with when its actions have all succeeded. */
  function Placed(shards: Shards, plan: Plan, s: string): set<string> {
    if s in plan then Holders(shards, s) - plan[s].removeNodes + Empties(plan[s]) else Holders(shards, s)
  }

  /** The removals of a shard go through in every order: they are all of holders and
      leave the factor, or leave more than the factor. */
  predicate RemovalsFit(holders: set<string>, nodes: set<string>, factor: nat) {
    "" !in nodes && ((nodes <= holders && |holders - nodes| >= factor) || |holders - nodes| > factor)
  }

  predicate Removable(known: set<string>, holders: set<string>, shard: string, nodes: set<string>, factor: nat) {
    nodes != {} ==> shard != "" && shard in known && RemovalsFit(holders, nodes, factor)
  }

  /** A transfer the schema admits: from a holder to a node that is none. */
  predicate Transferable(shards: Shards, op: Op) {
    op.shard in shards && op.source in Holders(shards, op.shard) && op.target !in Holders(shards, op.shard)
  }

  /** An addition goes through on these holders: the node is not one of them, and its
      source, if it has one, is. */
  predicate AdditionFits(known: set<string>, holders: set<string>, shard: string, a: Actions, n: string)
    requires n in a.addNodes
  {
    && shard in known && n !in holders
    && if a.addNodes[n] == "" then shard != "" && n != "" else a.addNodes[n] in holders
  }

  predicate AdditionsFit(known: set<string>, holders: set<string>, shard: string, a: Actions) {
    forall n :: n in a.addNodes ==> AdditionFits(known, holders, shard, a, n)
  }

  /** What the additions made so far, all but those of todo, have needed: their sources
      were holders or became so by an empty replica of this plan. */
  predicate AdditionsPossible(known: set<string>, holders: set<string>, shard: string, a: Actions, todo: set<string>) {
    forall n :: n in a.addNodes && n !in todo ==>
      && shard in known && n !in holders
      && (a.addNodes[n] == "" || a.addNodes[n] in holders + Empties(a))
  }

  /** The actions of a shard go through whatever their order. */
  predicate ShardFits(known: set<string>, holders: set<string>, shard: string, a: Actions, factor: nat) {
    Removable(known, holders, shard, a.removeNodes, factor) && AdditionsFit(known, holders - a.removeNodes, shard, a)
  }

  /** What the actions of a shard need to go through in some order. */
  predicate ShardPossible(known: set<string>, holders: set<string>, shard: string, a: Actions, factor: nat) {
    && RemovalsPossible(known, holders, shard, a.removeNodes, factor)
    && AdditionsPossible(known, holders - a.removeNodes, shard, a, {})
  }

  predicate RemovalsPossible(known: set<string>, holders: set<string>, shard: string, nodes: set<string>, factor: nat) {
    nodes != {} ==> shard in known && "" !in nodes && |holders - nodes| >= factor
  }

  predicate Fits(shards: Shards, plan: Plan, factor: nat) {
    forall s :: s in plan ==> ShardFits(shards.Keys, Holders(shards, s), s, plan[s], factor)
  }

  predicate Possible(shards: Shards, plan: Plan, factor: nat, todo: set<string>) {
    forall s :: s in plan && s !in todo ==> ShardPossible(shards.Keys, Holders(shards, s), s, plan[s], factor)
  }

  lemma PossibleMovesNothing(shards: Shards, plan: Plan, factor: nat)
    requires Possible(shards, plan, factor, {}) && Acceptable(plan)
    ensures forall s :: s in plan ==> NoMoves(plan[s])
  {
    forall s | s in plan ensures NoMoves(plan[s]) {
      assert ShardPossible(shards.Keys, Holders(shards, s), s, plan[s], factor) && AcceptableShard(plan[s]);
    }
  }

  /** The order of the actions does not matter: only holders are removed, no transfer
      reads a replica the plan creates, and what is named has a name. */
  predicate OrderFree(shards: Shards, s: string, a: Actions) {
    && a.removeNodes <= Holders(shards, s) && s != "" && "" !in a.addNodes
    && forall n :: n in a.addNodes ==> a.addNodes[n] !in Empties(a)
  }

  /** Where the order does not matter, what fits is exactly what is possible. */
  lemma FitsIffPossible(shards: Shards, plan: Plan, factor: nat)
    ensures Fits(shards, plan, factor) ==> Possible(shards, plan, factor, {})
    ensures (forall s :: s in plan ==> OrderFree(shards, s, plan[s])) ==>
              (Fits(shards, plan, factor) <==> Possible(shards, plan, factor, {}))
  {
    forall s | s in plan
      ensures ShardFits(shards.Keys, Holders(shards, s), s, plan[s], factor) ==>
                ShardPossible(shards.Keys, Holders(shards, s), s, plan[s], factor)
      ensures ShardPossible(shards.Keys, Holders(shards, s), s, plan[s], factor) && OrderFree(shards, s, plan[s]) ==>
                ShardFits(shards.Keys, Holders(shards, s), s, plan[s], factor)
    {
      var a := plan[s];
      assert AdditionsFit(shards.Keys, Holders(shards, s) - a.removeNodes, s, a) ==>
        AdditionsPossible(shards.Keys, Holders(shards, s) - a.removeNodes, s, a, {});
    }
  }

  lemma PartIsSmaller(a: set<string>, b: set<string>)
    requires a <= b
    ensures |a| <= |b|
  {
    assert b == a + (b - a);
  }

  /** The holders left when all but todo of these nodes have been removed. */
  function Left(holders: set<string>, nodes: set<string>, todo: set<string>): set<string> {
    holders - (nodes - todo)
  }

  /** Removals that fit leave room for each next one. */
  lemma RoomForNext(holders: set<string>, nodes: set<string>, todo: set<string>, node: string, factor: nat)
    requires RemovalsFit(holders, nodes, factor) && todo <= nodes && node in todo
    ensures |Left(holders, nodes, todo)| > factor
  {
    PartIsSmaller(holders - nodes, Left(holders, nodes, todo));
    if nodes <= holders {
      PartIsSmaller(holders - nodes + {node}, Left(holders, nodes, todo));
    }
  }

  lemma OneLess(holders: set<string>, nodes: set<string>, todo: set<string>, node: string)
    requires todo <= nodes && node in todo
    ensures Left(holders, nodes, todo - {node}) == Left(holders, nodes, todo) - {node}
    ensures |Left(holders, nodes, todo - {node})| + 1 >= |Left(holders, nodes, todo)|
  {
    var left := Left(holders, nodes, todo);
    assert Left(holders, nodes, todo - {node}) == left - {node};
    PartIsSmaller(left, left - {node} + {node});
  }

  ghost predicate OthersKept(before: Shards, after: Shards, shard: string) {
    forall s :: s != shard ==> Holders(after, s) == Holders(before, s)
  }

  type Shards = map<string, seq<string>>

  /** Shard has its empty replicas except on nodes, and nothing else has changed. */
  ghost predicate Filled(before: Shards, after: Shards, shard: string, a: Actions, nodes: set<string>) {
    && OthersKept(before, after, shard)
    && Holders(after, shard) == Holders(before, shard) + (Empties(a) - nodes)
  }

  /** An addition that fits at first still fits when others have been made. */
  lemma NextFits(before: Shards, mid: Shards, shard: string, a: Actions, nodes: set<string>, n: string)
    requires Filled(before, mid, shard, a, nodes) && n in nodes && n in a.addNodes && mid.Keys == before.Keys
    requires AdditionsFit(before.Keys, Holders(before, shard), shard, a)
    ensures AdditionFits(mid.Keys, Holders(mid, shard), shard, a, n)
  {
    assert n !in Empties(a) - nodes;
  }

  /** What one more addition needed, it found in what there was before the plan or in
      what the plan has added. */
  lemma PossibleOne(before: Shards, mid: Shards, shard: string, a: Actions, nodes: set<string>, n: string)
    requires Filled(before, mid, shard, a, nodes) && n in nodes && n in a.addNodes && mid.Keys == before.Keys
    requires AdditionsPossible(before.Keys, Holders(before, shard), shard, a, nodes)
    requires shard in mid && n !in Holders(mid, shard) && (a.addNodes[n] == "" || a.addNodes[n] in Holders(mid, shard))
    ensures AdditionsPossible(before.Keys, Holders(before, shard), shard, a, nodes - {n})
  {
  }

  lemma FillOne(before: Shards, mid: Shards, after: Shards, shard: string, a: Actions, nodes: set<string>, n: string)
    requires Filled(before, mid, shard, a, nodes) && OthersKept(mid, after, shard) && n in nodes && n in a.addNodes
    requires Holders(after, shard) == Holders(mid, shard) + (if a.addNodes[n] == "" then {n} else {})
    ensures Filled(before, after, shard, a, nodes - {n})
  {
    assert Empties(a) - (nodes - {n}) == (Empties(a) - nodes) + (if a.addNodes[n] == "" then {n} else {});
    forall s | s != shard ensures Holders(after, s) == Holders(before, s) {
      assert Holders(after, s) == Holders(mid, s);
    }
  }

  /** The shards of the plan outside todo are as planned, the others untouched. */
  ghost predicate PlacedBut(before: Shards, after: Shards, plan: Plan, todo: set<string>) {
    forall s :: Holders(after, s) == if s in todo then Holders(before, s) else Placed(before, plan, s)
  }

  lemma PlaceOne(before: Shards, mid: Shards, removed: Shards, after: Shards, plan: Plan, todo: set<string>, shard: string)
    requires PlacedBut(before, mid, plan, todo) && shard in todo && shard in plan
    requires OthersKept(mid, removed, shard) && Holders(removed, shard) == Holders(mid, shard) - plan[shard].removeNodes
    requires Filled(removed, after, shard, plan[shard], {})
    ensures PlacedBut(before, after, plan, todo - {shard})
  {
    forall s ensures Holders(after, s) == if s in todo - {shard} then Holders(before, s) else Placed(before, plan, s) {
      if s != shard {
        assert Holders(after, s) == Holders(removed, s) == Holders(mid, s);
      } else {
        assert Empties(plan[shard]) - {} == Empties(plan[shard]);
      }
    }
  }

  class Raft {
    const env: Env
    const factor: nat
    var shards: Shards
    var ops: map<nat, Op>
    ghost var acked: set<nat>
    ghost var forced: set<nat>
    ghost var tried: Option<nat>
    ghost var bad: nat
    var nextId: nat
    var calls: nat

    ghost predicate Valid()
      reads this
    {
      && (forall s :: s in shards ==> Distinct(shards[s]))
      && (forall id :: id in ops ==> id < nextId)
    }

    constructor (env: Env, factor: nat, shards: Shards)
      requires forall s :: s in shards ==> Distinct(shards[s])
      ensures Valid() && this.env == env && this.factor == factor && this.shards == shards
      ensures ops == map[] && acked == {} && forced == {} && calls == 0
    {
      this.env, this.factor, this.shards := env, factor, shards;
      ops, acked, forced, tried, bad, nextId, calls := map[], {}, {}, None, 0, 0, 0;
    }

    /** bad is the first troubled call since it was last 0. */
    ghost predicate Noted(calls0: nat, bad0: nat)
      reads this
    {
      calls0 <= calls && (bad == bad0 || (bad0 == 0 && calls0 < bad <= calls && Trouble(env, bad)))
    }

    /** The next call is made. */
    method Call()
      modifies this`calls, this`bad
      ensures calls == old(calls) + 1
      ensures bad == if old(bad) == 0 && Trouble(env, calls) then calls else old(bad)
    {
      calls := calls + 1;
      bad := if bad == 0 && Trouble(env, calls) then calls else bad;
    }

    /** The transfer that the last call registered although its caller saw an error:
        tried is the id it submitted, if it got as far as that. */
    ghost function Hanging(): Option<nat>
      reads this
    {
      if tried.Some? && env.fate(calls) == Lost then tried else None
    }

    /** DeleteReplicaFromShard through the log. */
    method DeleteReplica(shard: string, node: string) returns (ok: bool)
      requires Valid()
      modifies this`shards, this`calls, this`tried, this`bad
      ensures Valid() && shards.Keys == old(shards.Keys) && Noted(old(calls), old(bad))
      ensures shards == old(shards) || (shard in shards && shards == old(shards)[shard := Without(old(shards)[shard], node)])
      ensures OthersKept(old(shards), shards, shard)
      ensures ok ==> shard in shards && Holders(shards, shard) == Holders(old(shards), shard) - {node}
      ensures ok ==> node != "" && |Holders(old(shards), shard)| > factor
      ensures tried == None
      ensures bad == 0 && shard != "" && node != "" && shard in old(shards) && |Holders(old(shards), shard)| > factor ==> ok
    {
      tried := None;
      if shard == "" || node == "" {
        return false;
      }
      if shard in shards {
        SizeOfNames(shards[shard]);
      }
      Call();
      var fate := env.fate(calls);
      if fate == Refused || shard !in shards || |shards[shard]| <= factor {
        return false;
      }
      if node in shards[shard] {
        WithoutRemovesOne(shards[shard], node);
        assert node !in Names(Without(shards[shard], node));
        shards := shards[shard := Without(shards[shard], node)];
      } else {
        WithoutAbsent(shards[shard], node);
      }
      return fate == Acked;
    }

    /** AddReplicaToShard through the log. */
    method AddReplica(shard: string, node: string) returns (ok: bool)
      requires Valid()
      modifies this`shards, this`calls, this`tried, this`bad
      ensures Valid() && shards.Keys == old(shards.Keys) && Noted(old(calls), old(bad))
      ensures shards == old(shards) || (shard in shards && shards == old(shards)[shard := old(shards)[shard] + [node]])
      ensures forall s :: Holders(shards, s) == Holders(old(shards), s) || (s == shard && Holders(shards, s) == Holders(old(shards), s) + {node})
      ensures ok ==> node !in Holders(old(shards), shard) && Holders(shards, shard) == Holders(old(shards), shard) + {node}
      ensures ok ==> shard in shards
      ensures tried == None
      ensures bad == 0 && shard != "" && node != "" && shard in old(shards) && node !in Holders(old(shards), shard) ==> ok
    {
      tried := None;
      if shard == "" || node == "" {
        return false;
      }
      Call();
      var fate := env.fate(calls);
      if fate == Refused || shard !in shards || node in shards[shard] {
        return false;
      }
      assert Names(shards[shard] + [node]) == Names(shards[shard]) + {node};
      shards := shards[shard := shards[shard] + [node]];
      return fate == Acked;
    }

    /** ReplicationReplicateReplica: validated against the local schema, which may
        lag, then sent through the log. */
    method ReplicateReplica(id: nat, op: Op) returns (ok: bool)
      requires Valid() && id < nextId && id !in ops
      modifies this`ops, this`acked, this`calls, this`tried, this`bad
      ensures Valid() && calls == old(calls) + 1 && Noted(old(calls), old(bad)) && (ok ==> env.fate(calls) == Acked)
      ensures !ok ==> ops == if Hanging() == Some(id) then old(ops)[id := op] else old(ops)
      ensures !ok ==> Hanging() == None || Hanging() == Some(id)
      ensures ops == old(ops) || ops == old(ops)[id := op]
      ensures ok ==> ops == old(ops)[id := op]
      ensures acked == if ok then old(acked) + {id} else old(acked)
      ensures ok && CurrentReads(env) ==> Transferable(shards, op)
      ensures bad == 0 && Transferable(shards, op) ==> ok
    {
      tried := None;
      Call();
      var view := env.view(calls);
      if view.None? && op.shard !in shards {
        return false;
      }
      var nodes := if view.Some? then view.value else shards[op.shard];
      if op.source == op.target || op.source !in nodes || op.target in nodes {
        return false;
      }
      var fate := env.fate(calls);
      tried := Some(id);
      if fate == Refused {
        return false;
      }
      ops := ops[id := op];
      if fate == Lost {
        return false;
      }
      acked := acked + {id};
      return true;
    }

    /** ForceDeleteReplicationByUuid; its error is only logged. */
    method ForceDelete(id: nat)
      requires Valid()
      modifies this`ops, this`forced, this`calls
      ensures Valid() && forced == old(forced) + {id}
      ensures ops == old(ops) || ops == old(ops) - {id}
      ensures calls == old(calls) + 1 && ops == if env.fate(calls) == Refused then old(ops) else old(ops) - {id}
    {
      calls := calls + 1;
      forced := forced + {id};
      if env.fate(calls) != Refused {
        ops := ops - {id};
      }
    }

    /** None of these nodes holds a replica of the shard. */
    ghost predicate NoneLeft(shard: string, nodes: set<string>)
      reads this
    {
      Holders(shards, shard) !! nodes
    }

    method RemoveReplicas(shard: string, nodes: set<string>) returns (ok: bool)
      requires Valid()
      modifies this`shards, this`calls, this`tried, this`bad
      ensures Valid() && shards.Keys == old(shards.Keys) && Noted(old(calls), old(bad))
      ensures OthersKept(old(shards), shards, shard)
      ensures ok ==> NoneLeft(shard, nodes) && Holders(shards, shard) == Holders(old(shards), shard) - nodes
      ensures !ok ==> tried == None
      ensures nodes == {} ==> ok && calls == old(calls)
      ensures ok ==> RemovalsPossible(shards.Keys, Holders(old(shards), shard), shard, nodes, factor)
      ensures bad == 0 && Removable(shards.Keys, Holders(old(shards), shard), shard, nodes, factor) ==> ok
    {
      ghost var holders := Holders(shards, shard);
      var todo := nodes;
      while todo != {}
        invariant Valid() && shards.Keys == old(shards.Keys) && Noted(old(calls), old(bad)) && (todo != nodes ==> tried == None)
        invariant OthersKept(old(shards), shards, shard) && todo <= nodes
        invariant Holders(shards, shard) == Left(holders, nodes, todo)
        invariant todo != nodes ==> shard in shards && |Left(holders, nodes, todo)| >= factor
        invariant "" !in nodes - todo && (todo == nodes ==> calls == old(calls))
        decreases |todo|
      {
        var node :| node in todo;
        if RemovalsFit(holders, nodes, factor) {
          RoomForNext(holders, nodes, todo, node, factor);
        }
        OneLess(holders, nodes, todo, node);
        var deleted := DeleteReplica(shard, node);
        if !deleted {
          return false;
        }
        todo := todo - {node};
      }
      return true;
    }

    /** The books: which ids were acknowledged since the plan began, and what is
        registered. */
    ghost predicate Books(ops0: map<nat, Op>, acked0: set<nat>, start: nat, ids: seq<nat>, sent: seq<Op>, extra: Option<nat>)
      reads this
    {
      Tracked(ops0, ops, start, nextId, ids, sent, extra) && AckedAre(acked0, acked, ids)
    }

    /** A plan of transfers alone makes two calls for each, the last of which was
        acknowledged, and at most two for one that fails. */
    ghost predicate Paced(plan: Plan, calls0: nat, n: nat, ok: bool)
      reads this
    {
      OnlyTransfers(plan) ==>
        if ok then calls == calls0 + 2 * n && (n > 0 ==> env.fate(calls) == Acked) else calls <= calls0 + 2 * n + 2
    }

    /** One transfer: take a fresh id and submit it. */
    method SubmitTransfer(op: Op, ids0: seq<nat>, ghost sent0: seq<Op>, ghost ops0: map<nat, Op>, ghost acked0: set<nat>,
                          ghost start: nat)
      returns (ok: bool, ids: seq<nat>, ghost extra: Option<nat>)
      requires Valid() && Books(ops0, acked0, start, ids0, sent0, None)
      modifies this`ops, this`acked, this`nextId, this`calls, this`tried, this`bad
      ensures Valid() && Books(ops0, acked0, start, ids, if ok then sent0 + [op] else sent0, extra)
      ensures extra == (if ok then None else Hanging()) && Noted(old(calls), old(bad))
      ensures ok && CurrentReads(env) ==> Transferable(shards, op)
      ensures bad == 0 && Transferable(shards, op) ==> ok
      ensures if ok then calls == old(calls) + 2 && env.fate(calls) == Acked && |ids| == |ids0| + 1
              else calls <= old(calls) + 2 && |ids| == |ids0|
    {
      ids, extra := ids0, None;
      tried := None;
      Call();
      if env.noRandom(calls) {
        return false, ids, None;
      }
      var id := nextId;
      ghost var before, acks := ops, acked;
      FailedTracked(ops0, before, start, id, ids, sent0, op);
      AppendTracked(ops0, before, start, id, ids, sent0, op);
      AppendAcked(acked0, acks, ids, id);
      nextId := nextId + 1;
      ok := ReplicateReplica(id, op);
      if ok {
        ids := ids + [id];
      } else {
        extra := Hanging();
      }
    }

    /** One addition: an empty replica when it has no source, else a transfer. */
    method SubmitAddition(plan: Plan, shard: string, newNode: string, ghost todo: set<string>, ghost nodes: set<string>,
                          ids0: seq<nat>, ghost sent0: seq<Op>, ghost ops0: map<nat, Op>, ghost acked0: set<nat>, ghost start: nat, ghost calls0: nat)
      returns (ok: bool, ids: seq<nat>, ghost sent: seq<Op>, ghost extra: Option<nat>)
      requires Valid() && shard in plan && shard !in todo && newNode in nodes && newNode in plan[shard].addNodes
      requires Books(ops0, acked0, start, ids0, sent0, None) && SentIs(plan, sent0, todo, shard, nodes)
      requires Paced(plan, calls0, |ids0|, true)
      requires AcceptableShard(plan[shard]) && NoneLeft(shard, plan[shard].removeNodes)
      modifies this`shards, this`ops, this`acked, this`nextId, this`calls, this`tried, this`bad
      ensures Valid() && Books(ops0, acked0, start, ids, sent, extra)
      ensures NoneLeft(shard, plan[shard].removeNodes)
      ensures OthersKept(old(shards), shards, shard)
      ensures ok ==> Holders(shards, shard) == Holders(old(shards), shard) + (if plan[shard].addNodes[newNode] == "" then {newNode} else {})
      ensures ok ==> SentIs(plan, sent, todo, shard, nodes - {newNode})
      ensures extra == (if ok then None else Hanging()) && Noted(old(calls), old(bad))
      ensures Paced(plan, calls0, |ids|, ok)
      ensures shards.Keys == old(shards.Keys)
      ensures ok && CurrentReads(env) ==>
                && shard in shards && newNode !in Holders(old(shards), shard)
                && (plan[shard].addNodes[newNode] == "" || plan[shard].addNodes[newNode] in Holders(old(shards), shard))
      ensures bad == 0 && AdditionFits(shards.Keys, Holders(old(shards), shard), shard, plan[shard], newNode) ==> ok
    {
      var a := plan[shard];
      var sourceNode := a.addNodes[newNode];
      ids, sent, extra := ids0, sent0, None;
      if sourceNode == "" {
        ok := AddReplica(shard, newNode);
        SkipSent(plan, sent, todo, shard, nodes, newNode);
        return;
      }
      var op := Op(shard, sourceNode, newNode, sourceNode in a.removeNodes);
      ok, ids, extra := SubmitTransfer(op, ids0, sent0, ops0, acked0, start);
      if ok {
        AppendSent(plan, sent0, todo, shard, nodes, op);
        sent := sent0 + [op];
      }
    }

    /** The additions of one shard, in any order, up to the first failure. The
        ids and transfers gathered so far are passed in and extended. */
    method SubmitAdditions(plan: Plan, shard: string, ghost todo: set<string>, ids0: seq<nat>, ghost sent0: seq<Op>,
                           ghost ops0: map<nat, Op>, ghost acked0: set<nat>, ghost start: nat, ghost calls0: nat)
      returns (ok: bool, ids: seq<nat>, ghost sent: seq<Op>, ghost extra: Option<nat>)
      requires Valid() && shard in plan && shard !in todo
      requires Books(ops0, acked0, start, ids0, sent0, None) && Paced(plan, calls0, |ids0|, true)
      requires SentIs(plan, sent0, todo, shard, plan[shard].addNodes.Keys)
      requires AcceptableShard(plan[shard]) && NoneLeft(shard, plan[shard].removeNodes)
      modifies this`shards, this`ops, this`acked, this`nextId, this`calls, this`tried, this`bad
      ensures Valid() && Books(ops0, acked0, start, ids, sent, extra)
      ensures ok ==> Filled(old(shards), shards, shard, plan[shard], {})
      ensures ok ==> SentIs(plan, sent, todo, shard, {})
      ensures extra == (if ok then None else Hanging()) && Noted(old(calls), old(bad))
      ensures Paced(plan, calls0, |ids|, ok)
      ensures shards.Keys == old(shards.Keys)
      ensures ok && CurrentReads(env) ==> AdditionsPossible(shards.Keys, Holders(old(shards), shard), shard, plan[shard], {})
      ensures bad == 0 && AdditionsFit(shards.Keys, Holders(old(shards), shard), shard, plan[shard]) ==> ok
    {
      var nodes := plan[shard].addNodes.Keys;
      ghost var shards0 := shards;
      assert Empties(plan[shard]) - nodes == {};
      ids, sent, extra := ids0, sent0, None;
      while nodes != {}
        invariant nodes <= plan[shard].addNodes.Keys && Valid() && extra == None && Noted(old(calls), old(bad))
        invariant Books(ops0, acked0, start, ids, sent, None) && SentIs(plan, sent, todo, shard, nodes)
        invariant Paced(plan, calls0, |ids|, true)
        invariant NoneLeft(shard, plan[shard].removeNodes) && Filled(shards0, shards, shard, plan[shard], nodes)
        invariant shards.Keys == shards0.Keys
        invariant CurrentReads(env) ==> AdditionsPossible(shards0.Keys, Holders(shards0, shard), shard, plan[shard], nodes)
        decreases |nodes|
      {
        var newNode :| newNode in nodes;
        ghost var mid := shards;
        if AdditionsFit(shards0.Keys, Holders(shards0, shard), shard, plan[shard]) {
          NextFits(shards0, mid, shard, plan[shard], nodes, newNode);
        }
        ok, ids, sent, extra := SubmitAddition(plan, shard, newNode, todo, nodes, ids, sent, ops0, acked0, start, calls0);
        if !ok {
          return;
        }
        if CurrentReads(env) {
          PossibleOne(shards0, mid, shard, plan[shard], nodes, newNode);
        }
        FillOne(shards0, mid, shards, shard, plan[shard], nodes, newNode);
        nodes := nodes - {newNode};
      }
      return true, ids, sent, None;
    }

    /** One shard: first its removals, then its additions. */
    method IssueShard(plan: Plan, shard: string, ghost todo: set<string>, ids0: seq<nat>, ghost sent0: seq<Op>,
                      ghost shards0: Shards, ghost ops0: map<nat, Op>, ghost acked0: set<nat>, ghost start: nat, ghost calls0: nat)
      returns (ok: bool, ids: seq<nat>, ghost sent: seq<Op>, ghost extra: Option<nat>)
      requires Valid() && shard in plan && shard in todo && AcceptableShard(plan[shard])
      requires Books(ops0, acked0, start, ids0, sent0, None) && SentIs(plan, sent0, todo, "", {})
      requires PlacedBut(shards0, shards, plan, todo) && Paced(plan, calls0, |ids0|, true)
      modifies this`shards, this`ops, this`acked, this`nextId, this`calls, this`tried, this`bad
      ensures Valid() && Books(ops0, acked0, start, ids, sent, extra)
      ensures ok ==> PlacedBut(shards0, shards, plan, todo - {shard}) && SentIs(plan, sent, todo - {shard}, "", {})
      ensures extra == (if ok then None else Hanging()) && Noted(old(calls), old(bad))
      ensures Paced(plan, calls0, |ids|, ok)
      ensures shards.Keys == old(shards.Keys)
      ensures ok && CurrentReads(env) ==> ShardPossible(shards.Keys, Holders(shards0, shard), shard, plan[shard], factor)
      ensures bad == 0 && ShardFits(shards.Keys, Holders(shards0, shard), shard, plan[shard], factor) ==> ok
    {
      ids, sent, extra := ids0, sent0, None;
      ghost var mid := shards;
      ok := RemoveReplicas(shard, plan[shard].removeNodes);
      ghost var removed := shards;
      if !ok {
        return;
      }
      OpenShard(plan, sent, todo, shard);
      ok, ids, sent, extra := SubmitAdditions(plan, shard, todo - {shard}, ids, sent, ops0, acked0, start, calls0);
      if ok {
        CloseShard(plan, sent, todo - {shard}, shard);
        PlaceOne(shards0, mid, removed, shards, plan, todo, shard);
      }
    }

    /** Shard by shard in any order, up to the first failure. */
    method Issue(plan: Plan) returns (ok: bool, ids: seq<nat>, ghost sent: seq<Op>, ghost extra: Option<nat>)
      requires Valid() && Acceptable(plan)
      modifies this`shards, this`ops, this`acked, this`nextId, this`calls, this`tried, this`bad
      ensures Valid() && Books(old(ops), old(acked), old(nextId), ids, sent, extra)
      ensures ok ==> PlacedBut(old(shards), shards, plan, {})
      ensures ok ==> SentIs(plan, sent, {}, "", {})
      ensures extra == (if ok then None else Hanging()) && Noted(old(calls), old(bad))
      ensures Paced(plan, old(calls), |ids|, ok)
      ensures ok && CurrentReads(env) ==> Possible(old(shards), plan, factor, {})
      ensures bad == 0 && Fits(old(shards), plan, factor) ==> ok
    {
      var todo := plan.Keys;
      ghost var ops0, acked0, start, shards0 := ops, acked, nextId, shards;
      ids, sent, extra := [], [], None;
      while todo != {}
        invariant todo <= plan.Keys && Valid() && extra == None && Noted(old(calls), old(bad))
        invariant Books(ops0, acked0, start, ids, sent, None) && SentIs(plan, sent, todo, "", {})
        invariant PlacedBut(shards0, shards, plan, todo) && Paced(plan, old(calls), |ids|, true)
        invariant shards.Keys == shards0.Keys && (CurrentReads(env) ==> Possible(shards0, plan, factor, todo))
        decreases |todo|
      {
        var shard :| shard in todo;
        ok, ids, sent, extra := IssueShard(plan, shard, todo, ids, sent, shards0, ops0, acked0, start, old(calls));
        if !ok {
          return;
        }
        todo := todo - {shard};
      }
      return true, ids, sent, None;
    }

    /** One force-delete per id, in order; the errors are only logged. */
    method Rollback(ids: seq<nat>)
      requires Valid()
      modifies this`ops, this`forced, this`calls
      ensures Valid() && calls == old(calls) + |ids|
      ensures forall id :: id in forced <==> id in old(forced) || id in ids
      ensures forall id :: id in ops <==> id in old(ops) && !Undone(env, ids, old(calls), |ids|, id)
      ensures forall id :: id in ops ==> ops[id] == old(ops)[id]
    {
      var i := 0;
      while i < |ids|
        invariant 0 <= i <= |ids| && Valid() && calls == old(calls) + i
        invariant forall id :: id in forced <==> id in old(forced) || id in ids[..i]
        invariant forall id :: id in ops <==> id in old(ops) && !Undone(env, ids, old(calls), i, id)
        invariant forall id :: id in ops ==> ops[id] == old(ops)[id]
      {
        assert ids[..i + 1] == ids[..i] + [ids[i]];
        UndoneNext(env, ids, old(calls), i);
        ForceDelete(ids[i]);
        i := i + 1;
      }
      assert ids[..i] == ids;
    }

    /** ApplyReplicationScalePlan. Success means one registered transfer per addition
        with a source. A failure, wherever it falls, returns no id and sends every
        acknowledged transfer a force-delete. What stays behind then is exactly the
        transfers whose force-delete was not applied, and the one whose submission
        failed if it was applied all the same. issued are the acknowledged ids, at the
        number of calls made when the plan failed. */
    method ApplyReplicationScalePlan(details: Details, plan: Plan)
      returns (ok: bool, ids: seq<nat>, ghost sent: seq<Op>, ghost issued: seq<nat>, ghost at: nat)
      requires Valid()
      modifies this
      ensures Valid() && old(calls) <= at
      ensures !Idle(details) || !Acceptable(plan) ==> !ok && ids == [] && unchanged(this)
      ensures ok ==> details.NotFound? || (details.Found? && forall st :: st in details.states ==> st == Ready || st == Cancelled)
      ensures ok ==>
                && Books(old(ops), old(acked), old(nextId), ids, sent, None)
                && Unique(sent) && (forall op :: op in sent <==> Wanted(plan, op))
                && forced == old(forced)
      ensures ok ==> PlacedBut(old(shards), shards, plan, {})
      ensures ok && CurrentReads(env) ==> forall s :: s in plan ==> NoMoves(plan[s])
      ensures ok && CurrentReads(env) ==> Possible(old(shards), plan, factor, {})
      ensures Clean(env, old(calls), at) && Idle(details) && Acceptable(plan) && Fits(old(shards), plan, factor) ==> ok
      ensures OnlyTransfers(plan) && Idle(details) && Acceptable(plan) ==>
                if ok then at == old(calls) + 2 * |ids| && (ids != [] ==> env.fate(at) == Acked)
                else at <= old(calls) + 2 * |issued| + 2
      ensures !ok ==> ids == [] && forall id :: id in acked && id !in old(acked) ==> id in issued && id in forced
      ensures !ok && Idle(details) && Acceptable(plan) ==>
                && calls == at + |issued|
                && Leftovers(env, old(ops), ops, issued, at, if env.fate(at) == Lost then tried else None)
    {
      ids, sent, issued, at := [], [], [], calls;
      if details.QueryFailed? {
        return false, [], [], [], calls;
      }
      if details.Found? {
        var busy := Ongoing(details.states);
        if busy {
          return false, [], [], [], calls;
        }
      }
      var accepted := Validate(plan);
      if !accepted {
        return false, [], [], [], calls;
      }
      ghost var extra;
      bad := 0;
      ok, ids, sent, extra := Issue(plan);
      issued, at := ids, calls;
      if !ok {
        ghost var start, before := old(nextId), ops;
        Rollback(ids);
        LeftoversRemain(env, old(ops), before, ops, start, nextId, ids, sent, at, extra);
        ids, sent := [], [];
      } else {
        AllSent(plan, sent);
        if CurrentReads(env) {
          PossibleMovesNothing(old(shards), plan, factor);
        }
      }
    }
  }

  /** The i-th force-delete after a failure at this call is not applied. */
  predicate Refuses(env: Env, at: nat, i: nat) {
    env.fate(at + 1 + i) == Refused
  }

  /** One of the first n force-deletes was for this id and was applied. */
  ghost predicate Undone(env: Env, ids: seq<nat>, at: nat, n: nat, id: nat)
    requires n <= |ids|
  {
    exists i :: 0 <= i < n && ids[i] == id && !Refuses(env, at, i)
  }

  lemma UndoneNext(env: Env, ids: seq<nat>, at: nat, n: nat)
    requires n < |ids|
    ensures forall id :: Undone(env, ids, at, n + 1, id)
                         <==> Undone(env, ids, at, n, id) || (id == ids[n] && !Refuses(env, at, n))
  {
  }

  /** The force-delete of this id was not applied. */
  ghost predicate Stays(env: Env, issued: seq<nat>, at: nat, id: nat) {
    exists i :: 0 <= i < |issued| && issued[i] == id && Refuses(env, at, i)
  }

  /** What is registered after a failed plan. */
  ghost predicate Leftovers(env: Env, ops0: map<nat, Op>, ops: map<nat, Op>, issued: seq<nat>, at: nat, hanging: Option<nat>) {
    && (forall id :: id in ops <==> id in ops0 || Stays(env, issued, at, id) || hanging == Some(id))
    && (forall id :: id in ops0 ==> id in ops && ops[id] == ops0[id])
    && (forall i :: 0 <= i < |issued| ==> issued[i] !in ops0)
    && (forall i, j :: 0 <= i < j < |issued| ==> issued[i] < issued[j])
    && (hanging.Some? ==> hanging.value !in ops0 && hanging.value !in issued)
  }

  lemma LeftoversRemain(env: Env, ops0: map<nat, Op>, before: map<nat, Op>, ops: map<nat, Op>, start: nat, next: nat,
                        ids: seq<nat>, sent: seq<Op>, at: nat, extra: Option<nat>)
    requires Tracked(ops0, before, start, next, ids, sent, extra)
    requires forall id :: id in ops <==> id in before && !Undone(env, ids, at, |ids|, id)
    requires forall id :: id in ops ==> ops[id] == before[id]
    ensures Leftovers(env, ops0, ops, ids, at, extra)
  {
    forall id ensures id in ops <==> id in ops0 || Stays(env, ids, at, id) || extra == Some(id) {
      if id in ids {
        var i :| 0 <= i < |ids| && ids[i] == id;
        assert Undone(env, ids, at, |ids|, id) <==> !Refuses(env, at, i);
        assert Stays(env, ids, at, id) <==> Refuses(env, at, i);
      }
    }
  }

  /** A failed plan leaves nothing behind if and only if every force-delete was applied
      and the submission that failed, if one did, was not. */
  lemma NothingStaysIff(env: Env, ops0: map<nat, Op>, ops: map<nat, Op>, issued: seq<nat>, at: nat, hanging: Option<nat>)
    requires Leftovers(env, ops0, ops, issued, at, hanging)
    ensures ops == ops0 <==> hanging.None? && forall i :: 0 <= i < |issued| ==> !Refuses(env, at, i)
  {
    if i :| 0 <= i < |issued| && Refuses(env, at, i) {
      assert Stays(env, issued, at, issued[i]);
    } else if hanging.None? {
      assert forall id :: id in ops <==> id in ops0;
      assert ops == ops0;
    }
  }

  // ---- a failed plan after which two transfers stay ----

  const Three: Plan := map["s" := Actions({}, map["a" := "h", "b" := "h", "c" := "h"])]

  /** The first five calls go well, all later commands are refused. */
  const Breakdown: Env := Env(k => if k <= 5 then Acked else Refused, k => None, k => false)

  lemma ThreeFits()
    ensures Acceptable(Three) && OnlyTransfers(Three) && Fits(map["s" := ["h"]], Three, 1)
  {
    var shards: Shards := map["s" := ["h"]];
    assert Holders(shards, "s") == {"h"};
    assert Empties(Three["s"]) == {};
  }

  /** Three transfers are wanted, so a run that sent them all made more than five calls. */
  lemma ThreeAreWanted(sent: seq<Op>)
    requires forall op :: op in sent <==> Wanted(Three, op)
    ensures |sent| >= 3
  {
    var a, b, c := Op("s", "h", "a", false), Op("s", "h", "b", false), Op("s", "h", "c", false);
    assert Wanted(Three, a) && Wanted(Three, b) && Wanted(Three, c);
    var i :| 0 <= i < |sent| && sent[i] == a;
    var j :| 0 <= j < |sent| && sent[j] == b;
    var k :| 0 <= k < |sent| && sent[k] == c;
  }

  /** The third submission fails, and so do the force-deletes of the first two: both
      operations stay registered, although the plan failed and returned no id. */
  method TwoStayBehind() returns (ok: bool, ids: seq<nat>, ops: map<nat, Op>, ghost x: nat, ghost y: nat)
    ensures !ok && ids == [] && x != y && x in ops && y in ops
  {
    ThreeFits();
    var raft := new Raft(Breakdown, 1, map["s" := ["h"]]);
    ghost var sent, issued, at;
    ok, ids, sent, issued, at := raft.ApplyReplicationScalePlan(NotFound, Three);
    if ok {
      ThreeAreWanted(sent);
      assert false;
    }
    assert exists k :: 0 < k <= at && Trouble(Breakdown, k);
    assert at > 5 && |issued| >= 2;
    assert Stays(Breakdown, issued, at, issued[0]) && Stays(Breakdown, issued, at, issued[1]) by {
      assert Refuses(Breakdown, at, 0) && Refuses(Breakdown, at, 1);
    }
    ops, x, y := raft.ops, issued[0], issued[1];
  }

  /** What the replication query says about the collection. */
  datatype Details = QueryFailed | NotFound | Found(states: seq<OpState>)

  /** The query told, and every operation of the collection is ready or cancelled. */
  predicate Idle(details: Details) {
    !details.QueryFailed? && (details.Found? ==> forall i :: 0 <= i < |details.states| ==> details.states[i] in {Ready, Cancelled})
  }

  /** The loop over the operations of the collection. */
  method Ongoing(states: seq<OpState>) returns (busy: bool)
    ensures busy <==> exists i :: 0 <= i < |states| && states[i] != Ready && states[i] != Cancelled
  {
    var i := 0;
    while i < |states|
      invariant 0 <= i <= |states|
      invariant forall j :: 0 <= j < i ==> states[j] == Ready || states[j] == Cancelled
    {
      if states[i] != Cancelled && states[i] != Ready {
        return true;
      }
      i := i + 1;
    }
    return false;
  }

  lemma AllSent(plan: Plan, sent: seq<Op>)
    requires SentIs(plan, sent, {}, "", {})
    ensures forall op :: op in sent <==> Wanted(plan, op)
  {
    forall op ensures op in sent <==> Wanted(plan, op) {
      assert op in sent <==> Handled(plan, op, {}, "", {});
    }
  }

  lemma OpenShard(plan: Plan, sent: seq<Op>, todo: set<string>, shard: string)
    requires SentIs(plan, sent, todo, "", {}) && shard in todo && shard in plan
    ensures SentIs(plan, sent, todo - {shard}, shard, plan[shard].addNodes.Keys)
  {
    forall op ensures op in sent <==> Handled(plan, op, todo - {shard}, shard, plan[shard].addNodes.Keys) {
      assert op in sent <==> Handled(plan, op, todo, "", {});
    }
  }

  lemma CloseShard(plan: Plan, sent: seq<Op>, todo: set<string>, shard: string)
    requires SentIs(plan, sent, todo, shard, {})
    ensures SentIs(plan, sent, todo, "", {})
  {
    forall op ensures op in sent <==> Handled(plan, op, todo, "", {}) {
      assert op in sent <==> Handled(plan, op, todo, shard, {});
    }
  }

  predicate IsMove(a: Actions, n: string)
    requires n in a.addNodes
  {
    a.addNodes[n] != "" && a.addNodes[n] in a.removeNodes
  }

  predicate NoMoves(a: Actions) {
    forall n :: n in a.addNodes ==> !IsMove(a, n)
  }

  lemma AppendTracked(ops0: map<nat, Op>, ops: map<nat, Op>, start: nat, id: nat, ids: seq<nat>, sent: seq<Op>, op: Op)
    requires Tracked(ops0, ops, start, id, ids, sent, None)
    ensures Tracked(ops0, ops[id := op], start, id + 1, ids + [id], sent + [op], None)
  {
    var ops', ids' := ops[id := op], ids + [id];
    assert Increasing(ids', start, id + 1);
    assert Bound(ops', ids', sent + [op]);
    forall x | x in ops' && x !in ops0 ensures x in ids' {
      assert x == id || x in ids;
      assert ids'[|ids|] == id;
    }
    assert Accounted(ops0, ops', start, ids', None);
  }

  lemma AppendAcked(acked0: set<nat>, acked: set<nat>, ids: seq<nat>, id: nat)
    requires AckedAre(acked0, acked, ids)
    ensures AckedAre(acked0, acked + {id}, ids + [id])
  {
    assert forall x :: x in ids + [id] <==> x in ids || x == id;
  }

  /** A failed submission registers at most its own id. */
  lemma FailedTracked(ops0: map<nat, Op>, ops: map<nat, Op>, start: nat, id: nat, ids: seq<nat>, sent: seq<Op>, op: Op)
    requires Tracked(ops0, ops, start, id, ids, sent, None)
    ensures Tracked(ops0, ops, start, id + 1, ids, sent, None)
    ensures Tracked(ops0, ops[id := op], start, id + 1, ids, sent, Some(id))
  {
    assert Increasing(ids, start, id + 1);
    assert Bound(ops[id := op], ids, sent);
    assert Accounted(ops0, ops[id := op], start, ids, Some(id));
  }

  lemma SkipSent(plan: Plan, sent: seq<Op>, todo: set<string>, shard: string, nodes: set<string>, node: string)
    requires SentIs(plan, sent, todo, shard, nodes)
    requires shard in plan && node in plan[shard].addNodes && plan[shard].addNodes[node] == ""
    ensures SentIs(plan, sent, todo, shard, nodes - {node})
  {
    forall o ensures o in sent <==> Handled(plan, o, todo, shard, nodes - {node}) {
      assert o in sent <==> Handled(plan, o, todo, shard, nodes);
    }
  }

  lemma AppendSent(plan: Plan, sent: seq<Op>, todo: set<string>, shard: string, nodes: set<string>, op: Op)
    requires SentIs(plan, sent, todo, shard, nodes) && Wanted(plan, op)
    requires op.shard == shard && op.target in nodes && shard !in todo
    ensures SentIs(plan, sent + [op], todo, shard, nodes - {op.target})
  {
    forall o ensures o in sent + [op] <==> Handled(plan, o, todo, shard, nodes - {op.target}) {
      assert o in sent + [op] <==> o in sent || o == op;
    }
    assert op !in sent;
  }
}
