/** Shards as the log creates and removes them. */
module Incarnations {
  import opened Fsm

  predicate HasShard(classes: map<string, ClassMeta>, c: string, x: string) {
    c in classes && x in classes[c].shards
  }

  lemma {:induction false} ShardBornInRange(h: Handlers, log: seq<Entry>, n: nat, c: string, x: string)
    requires n <= |log| && HasShard(StateAt(h, log, n).classes, c, x)
    ensures 1 <= StateAt(h, log, n).classes[c].shards[x].born <= n
    decreases n
  {
    if HasShard(StateAt(h, log, n - 1).classes, c, x) {
      ShardBornInRange(h, log, n - 1, c, x);
    }
  }

  /** A shard that exists at n has existed, as the same incarnation, ever since the
      entry that created it. */
  lemma {:induction false} ShardBornStable(h: Handlers, log: seq<Entry>, n: nat, c: string, x: string, m: nat)
    requires n <= |log| && HasShard(StateAt(h, log, n).classes, c, x)
    requires StateAt(h, log, n).classes[c].shards[x].born <= m <= n
    ensures HasShard(StateAt(h, log, m).classes, c, x)
    ensures StateAt(h, log, m).classes[c].shards[x].born == StateAt(h, log, n).classes[c].shards[x].born
    decreases n
  {
    if m < n {
      ShardBornInRange(h, log, n, c, x);
      ShardBornStable(h, log, n - 1, c, x, m);
    }
  }

  lemma SurvivorKeepsIncarnation(h: Handlers, log: seq<Entry>, d: nat, n: nat, c: string, x: string)
    requires d <= n <= |log| && HasShard(StateAt(h, log, d).classes, c, x) && HasShard(StateAt(h, log, n).classes, c, x)
    ensures StateAt(h, log, d).classes[c].shards[x].born == StateAt(h, log, n).classes[c].shards[x].born
            <==> StateAt(h, log, n).classes[c].shards[x].born <= d
  {
    ShardBornInRange(h, log, d, c, x);
    if StateAt(h, log, n).classes[c].shards[x].born <= d {
      ShardBornStable(h, log, n, c, x, d);
    }
  }

  /** An entry gives birth to shards of one class only. */
  lemma {:induction false} OneClassPerBirth(h: Handlers, log: seq<Entry>, n: nat, c: string, x: string)
    requires n <= |log| && HasShard(StateAt(h, log, n).classes, c, x)
    ensures var b := StateAt(h, log, n).classes[c].shards[x].born;
            && 1 <= b <= n && Takes(h, log, b)
            && var r := log[b - 1].req;
               && (r.AddClass? || r.RestoreClass? || r.UpdateClass? || r.AddTenants?) && r.cls == c
    decreases n
  {
    if HasShard(StateAt(h, log, n - 1).classes, c, x) {
      if StateAt(h, log, n - 1).classes[c].shards[x].born == StateAt(h, log, n).classes[c].shards[x].born {
        OneClassPerBirth(h, log, n - 1, c, x);
      }
    }
  }
}
