/** The request graph a compare-roots session reuses from call to call: pooled
    messages, overwritten in place, that must denote exactly the map last given. */
module CompareRoots {
  datatype Root = Root(high: nat, low: nat)

  type Roots = map<string, Root>

  class ShardRootDigest {
    var shard: string
    var rootHashHigh: nat
    var rootHashLow: nat

    constructor ()
    {
      shard, rootHashHigh, rootHashLow := "", 0, 0;
    }
  }

  class ClassShardRootDigests {
    var index: string
    var shardRootDigests: seq<ShardRootDigest>

    constructor ()
    {
      index, shardRootDigests := "", [];
    }
  }

  ghost predicate Apart<T>(xs: seq<T>) {
    forall i, j :: 0 <= i < j < |xs| ==> xs[i] != xs[j]
  }

  /** pos finds every element by its position, so no element occurs twice. */
  ghost predicate Located<T>(xs: seq<T>, pos: map<T, nat>) {
    forall i :: 0 <= i < |xs| ==> xs[i] in pos && pos[xs[i]] == i
  }

  // ---- what the objects of a graph say at one moment ----

  datatype Val = Val(shard: string, root: Root)

  datatype Head = Head(index: string, slice: seq<ShardRootDigest>)

  ghost function ValOf(d: ShardRootDigest): Val
    reads d
  {
    Val(d.shard, Root(d.rootHashHigh, d.rootHashLow))
  }

  ghost predicate SaysOf(v: Val, roots: Roots) {
    v.shard in roots && roots[v.shard] == v.root
  }

  /** The roots outside todo have been written, each once. */
  ghost predicate Partly(written: seq<Val>, roots: Roots, todo: set<string>) {
    && (forall i :: 0 <= i < |written| ==> SaysOf(written[i], roots) && written[i].shard !in todo)
    && (forall i, j :: 0 <= i < j < |written| ==> written[i].shard != written[j].shard)
  }

  ghost function Vals(ds: seq<ShardRootDigest>): (vals: seq<Val>)
    reads ds
    ensures |vals| == |ds|
    ensures forall i :: 0 <= i < |ds| ==> vals[i] == ValOf(ds[i])
  {
    seq(|ds|, i requires 0 <= i < |ds| reads ds => ValOf(ds[i]))
  }

  ghost function Heads(cs: seq<ClassShardRootDigests>): (heads: seq<Head>)
    reads cs
    ensures |heads| == |cs|
    ensures forall k :: 0 <= k < |cs| ==> heads[k] == Head(cs[k].index, cs[k].shardRootDigests)
  {
    seq(|cs|, k requires 0 <= k < |cs| reads cs => Head(cs[k].index, cs[k].shardRootDigests))
  }

  /** A list of digests says exactly what roots says. */
  ghost predicate Says(vals: seq<Val>, roots: Roots) {
    && |vals| == |roots|
    && (forall i :: 0 <= i < |vals| ==> SaysOf(vals[i], roots))
    && (forall i, j :: 0 <= i < j < |vals| ==> vals[i].shard != vals[j].shard)
  }

  /** No digest object appears at two places. */
  ghost predicate Unshared(heads: seq<Head>) {
    forall j, k, x, y | 0 <= j < |heads| && 0 <= k < |heads| && 0 <= x < |heads[j].slice| && 0 <= y < |heads[k].slice| ::
      heads[j].slice[x] == heads[k].slice[y] ==> j == k && x == y
  }

  ghost function DigestObjects(req: seq<ClassShardRootDigests>): set<ShardRootDigest>
    reads req
  {
    set k, i | 0 <= k < |req| && 0 <= i < |req[k].shardRootDigests| :: req[k].shardRootDigests[i]
  }

  /** The request lists every class of m once, each with exactly its roots, and no
      digest object appears twice. */
  ghost predicate DenotesExactly(req: seq<ClassShardRootDigests>, m: map<string, Roots>)
    reads req, DigestObjects(req)
  {
    && |req| == |m|
    && (forall k :: 0 <= k < |req| ==> req[k].index in m && Says(Vals(req[k].shardRootDigests), m[req[k].index]))
    && (forall j, k :: 0 <= j < k < |req| ==> req[j].index != req[k].index)
    && Unshared(Heads(req))
  }

  lemma {:induction false} Pigeonhole(keys: seq<string>, all: set<string>)
    requires Apart(keys) && |keys| == |all| && forall i :: 0 <= i < |keys| ==> keys[i] in all
    ensures forall x :: x in all ==> x in keys
  {
    if keys != [] {
      var last := keys[|keys| - 1];
      Pigeonhole(keys[..|keys| - 1], all - {last});
      forall x | x in all ensures x in keys {
        if x != last {
          assert x in all - {last};
          assert x in keys[..|keys| - 1];
        }
      }
    }
  }

  lemma ShardListed(vals: seq<Val>, roots: Roots, shard: string) returns (i: nat)
    requires Says(vals, roots) && shard in roots
    ensures i < |vals| && vals[i] == Val(shard, roots[shard])
  {
    var shards := seq(|vals|, j requires 0 <= j < |vals| => vals[j].shard);
    Pigeonhole(shards, roots.Keys);
    i :| 0 <= i < |shards| && shards[i] == shard;
  }

  lemma ClassListed(heads: seq<Head>, m: map<string, Roots>, c: string) returns (k: nat)
    requires |heads| == |m| && c in m && forall j :: 0 <= j < |heads| ==> heads[j].index in m
    requires forall i, j :: 0 <= i < j < |heads| ==> heads[i].index != heads[j].index
    ensures k < |heads| && heads[k].index == c
  {
    var keys := seq(|heads|, j requires 0 <= j < |heads| => heads[j].index);
    Pigeonhole(keys, m.Keys);
    k :| 0 <= k < |keys| && keys[k] == c;
  }

  /** A request that denotes m misses no class and no shard of m. */
  lemma NothingMissing(req: seq<ClassShardRootDigests>, m: map<string, Roots>, c: string, shard: string) returns (k: nat, i: nat)
    requires DenotesExactly(req, m) && c in m && shard in m[c]
    ensures k < |req| && req[k].index == c && i < |req[k].shardRootDigests|
    ensures Vals(req[k].shardRootDigests)[i] == Val(shard, m[c][shard])
  {
    k := ClassListed(Heads(req), m, c);
    i := ShardListed(Vals(req[k].shardRootDigests), m[c], shard);
  }

  // ---- how much room a map needs ----

  /** The digests summed over a set of classes. */
  ghost function Total(classes: map<string, Roots>, todo: set<string>): nat
    requires todo <= classes.Keys
  {
    if todo == {} then 0 else
      var c :| c in todo;
      |classes[c]| + Total(classes, todo - {c})
  }

  /** The sum does not depend on the order of iteration. */
  lemma {:induction false} TotalTakes(classes: map<string, Roots>, todo: set<string>, c: string)
    requires todo <= classes.Keys && c in todo
    ensures Total(classes, todo) == |classes[c]| + Total(classes, todo - {c})
    decreases |todo|
  {
    var d :| d in todo && Total(classes, todo) == |classes[d]| + Total(classes, todo - {d});
    if d != c {
      TotalTakes(classes, todo - {d}, c);
      TotalTakes(classes, todo - {c}, d);
      assert todo - {d} - {c} == todo - {c} - {d};
    }
  }

  method CountDigests(m: map<string, Roots>) returns (total: nat)
    ensures total == Total(m, m.Keys)
  {
    total := 0;
    var todo := m.Keys;
    while todo != {}
      invariant todo <= m.Keys && total + Total(m, todo) == Total(m, m.Keys)
      decreases |todo|
    {
      var c :| c in todo;
      TotalTakes(m, todo, c);
      total := total + |m[c]|;
      todo := todo - {c};
    }
  }

  // ---- the layout of a graph that is being filled ----

  /** A stretch of the digest pool. */
  datatype Span = Span(lo: nat, hi: nat)

  ghost predicate Ordered(spans: seq<Span>, end: nat) {
    && (forall k :: 0 <= k < |spans| ==> spans[k].lo <= spans[k].hi <= end)
    && (forall j, k :: 0 <= j < k < |spans| ==> spans[j].hi <= spans[k].lo)
  }

  /** A class entry that points at its span, which says the class's roots. */
  ghost predicate Entry(head: Head, digests: seq<ShardRootDigest>, vals: seq<Val>, span: Span, m: map<string, Roots>) {
    && span.lo <= span.hi <= |digests| == |vals|
    && head.slice == digests[span.lo..span.hi]
    && head.index in m && Says(vals[span.lo..span.hi], m[head.index])
  }

  /** The first n entries name different classes, none of them in todo. */
  ghost predicate Named(heads: seq<Head>, n: nat, todo: set<string>)
    requires n <= |heads|
  {
    && (forall k :: 0 <= k < n ==> heads[k].index !in todo)
    && (forall j, k :: 0 <= j < k < n ==> heads[j].index != heads[k].index)
  }

  ghost predicate Entries(heads: seq<Head>, digests: seq<ShardRootDigest>, vals: seq<Val>, m: map<string, Roots>, spans: seq<Span>)
    requires |spans| <= |heads|
  {
    forall k :: 0 <= k < |spans| ==> Entry(heads[k], digests, vals, spans[k], m)
  }

  /** The first entries denote done classes, each by its own span of digests. */
  ghost predicate Laid(heads: seq<Head>, digests: seq<ShardRootDigest>, vals: seq<Val>, m: map<string, Roots>,
                       todo: set<string>, spans: seq<Span>)
  {
    && |spans| <= |heads| && Ordered(spans, |digests|)
    && Entries(heads, digests, vals, m, spans) && Named(heads, |spans|, todo)
  }

  lemma EntryStays(head: Head, digests: seq<ShardRootDigest>, vals: seq<Val>, vals': seq<Val>, span: Span, m: map<string, Roots>)
    requires Entry(head, digests, vals, span, m) && |vals| == |vals'|
    requires forall i :: 0 <= i < span.hi ==> vals'[i] == vals[i]
    ensures Entry(head, digests, vals', span, m)
  {
    assert vals'[span.lo..span.hi] == vals[span.lo..span.hi];
  }

  /** Writing the next entry and digests past those laid keeps what is laid. */
  lemma LaidGrows(heads: seq<Head>, heads': seq<Head>, digests: seq<ShardRootDigest>, vals: seq<Val>, vals': seq<Val>,
                  m: map<string, Roots>, todo: set<string>, spans: seq<Span>, span: Span)
    requires Laid(heads, digests, vals, m, todo, spans) && Ordered(spans, span.lo)
    requires |spans| < |heads| == |heads'| && forall k :: 0 <= k < |spans| ==> heads'[k] == heads[k]
    requires span.lo <= |vals| == |vals'| && forall i :: 0 <= i < span.lo ==> vals'[i] == vals[i]
    requires Entry(heads'[|spans|], digests, vals', span, m) && heads'[|spans|].index in todo
    ensures Laid(heads', digests, vals', m, todo - {heads'[|spans|].index}, spans + [span]) && Ordered(spans + [span], span.hi)
  {
    var spans' := spans + [span];
    forall k | 0 <= k < |spans'| ensures Entry(heads'[k], digests, vals', spans'[k], m) {
      if k < |spans| {
        EntryStays(heads[k], digests, vals, vals', spans[k], m);
      }
    }
    assert Entries(heads', digests, vals', m, spans');
    NamedGrows(heads, heads', |spans|, todo);
  }

  lemma NamedGrows(heads: seq<Head>, heads': seq<Head>, n: nat, todo: set<string>)
    requires n < |heads| == |heads'| && Named(heads, n, todo) && heads'[n].index in todo
    requires forall k :: 0 <= k < n ==> heads'[k] == heads[k]
    ensures Named(heads', n + 1, todo - {heads'[n].index})
  {
  }

  lemma LaidIsUnshared(heads: seq<Head>, digests: seq<ShardRootDigest>, pos: map<ShardRootDigest, nat>, vals: seq<Val>,
                       spans: seq<Span>, m: map<string, Roots>)
    requires Located(digests, pos) && |spans| == |heads| && Laid(heads, digests, vals, m, {}, spans)
    ensures Unshared(heads)
  {
    forall j, k, x, y | 0 <= j < |heads| && 0 <= k < |heads| && 0 <= x < |heads[j].slice| && 0 <= y < |heads[k].slice|
      ensures heads[j].slice[x] == heads[k].slice[y] ==> j == k && x == y
    {
      assert Entry(heads[j], digests, vals, spans[j], m) && Entry(heads[k], digests, vals, spans[k], m);
      assert heads[j].slice[x] == digests[spans[j].lo + x];
      assert heads[k].slice[y] == digests[spans[k].lo + y];
    }
  }

  class Session {
    var classes: seq<ClassShardRootDigests>
    var digests: seq<ShardRootDigest>
    var reqClasses: seq<ClassShardRootDigests>
    ghost var classPos: map<ClassShardRootDigests, nat>
    ghost var digestPos: map<ShardRootDigest, nat>

    /** The pools hold no object twice. */
    ghost predicate Valid()
      reads this
    {
      Located(classes, classPos) && Located(digests, digestPos)
    }

    constructor ()
      ensures Valid()
    {
      classes, digests, reqClasses := [], [], [];
      classPos, digestPos := map[], map[];
    }

    method GrowDigests(total: nat)
      requires Valid()
      modifies this`digests, this`digestPos
      ensures Valid() && |digests| >= total && old(digests) <= digests
      ensures forall i :: |old(digests)| <= i < |digests| ==> fresh(digests[i])
    {
      while |digests| < total
        invariant Valid() && old(digests) <= digests
        invariant forall i :: |old(digests)| <= i < |digests| ==> fresh(digests[i])
        decreases total - |digests|
      {
        var d := new ShardRootDigest();
        digestPos := digestPos[d := |digests|];
        digests := digests + [d];
      }
    }

    method GrowClasses(count: nat)
      requires Valid()
      modifies this`classes, this`classPos
      ensures Valid() && |classes| >= count && old(classes) <= classes
      ensures forall i :: |old(classes)| <= i < |classes| ==> fresh(classes[i])
    {
      while |classes| < count
        invariant Valid() && old(classes) <= classes
        invariant forall i :: |old(classes)| <= i < |classes| ==> fresh(classes[i])
        decreases count - |classes|
      {
        var c := new ClassShardRootDigests();
        classPos := classPos[c := |classes|];
        classes := classes + [c];
      }
    }

    /** Overwrite the pooled digests from start on with one class's roots. */
    method FillDigests(start: nat, roots: Roots) returns (di: nat)
      requires Valid() && start + |roots| <= |digests|
      modifies digests
      ensures di == start + |roots| && Says(Vals(digests)[start..di], roots)
      ensures forall i :: 0 <= i < start ==> Vals(digests)[i] == old(Vals(digests))[i]
    {
      di := start;
      var todo := roots.Keys;
      ghost var before := Vals(digests);
      ghost var written: seq<Val> := [];
      while todo != {}
        invariant todo <= roots.Keys && di == start + |written| && |written| + |todo| == |roots|
        invariant Partly(written, roots, todo)
        invariant forall i :: 0 <= i < start ==> ValOf(digests[i]) == before[i]
        invariant forall i :: start <= i < di ==> ValOf(digests[i]) == written[i - start]
        decreases |todo|
      {
        var shard :| shard in todo;
        var d := digests[di];
        d.shard, d.rootHashHigh, d.rootHashLow := shard, roots[shard].high, roots[shard].low;
        written := written + [Val(shard, roots[shard])];
        di := di + 1;
        todo := todo - {shard};
      }
      assert Vals(digests)[start..di] == written;
    }

    /** Overwrite one pooled class entry and the digests it points at. */
    method FillClass(ci: nat, start: nat, index: string, roots: Roots) returns (di: nat)
      requires Valid() && ci < |classes| && start + |roots| <= |digests|
      modifies classes[ci], digests
      ensures di == start + |roots| && Says(Vals(digests)[start..di], roots)
      ensures forall i :: 0 <= i < start ==> Vals(digests)[i] == old(Vals(digests))[i]
      ensures Heads(classes)[ci] == Head(index, digests[start..di])
      ensures forall k :: 0 <= k < ci ==> Heads(classes)[k] == old(Heads(classes))[k]
    {
      di := FillDigests(start, roots);
      var cls := classes[ci];
      cls.index := index;
      cls.shardRootDigests := digests[start..di];
    }

    /** One more class, the entries before it keep their meaning. */
    method LayOne(m: map<string, Roots>, c: string, ghost todo: set<string>, ci: nat, di: nat, ghost spans: seq<Span>)
      returns (di': nat)
      requires Valid() && c in todo && c in m && ci == |spans| < |classes| && di + |m[c]| <= |digests|
      requires Laid(Heads(classes), digests, Vals(digests), m, todo, spans) && Ordered(spans, di)
      modifies classes, digests
      ensures di' == di + |m[c]| && Ordered(spans + [Span(di, di')], di')
      ensures Laid(Heads(classes), digests, Vals(digests), m, todo - {c}, spans + [Span(di, di')])
    {
      ghost var heads, vals := Heads(classes), Vals(digests);
      di' := FillClass(ci, di, c, m[c]);
      assert Entry(Heads(classes)[ci], digests, Vals(digests), Span(di, di'), m);
      LaidGrows(heads, Heads(classes), digests, vals, Vals(digests), m, todo, spans, Span(di, di'));
    }

    /** Overwrite the pools, class by class in any order. */
    method Lay(m: map<string, Roots>) returns (ci: nat)
      requires Valid() && |m| <= |classes| && Total(m, m.Keys) <= |digests|
      modifies classes, digests
      ensures ci == |m| && DenotesExactly(classes[..ci], m)
    {
      var di: nat := 0;
      ci := 0;
      ghost var spans: seq<Span> := [];
      var todo := m.Keys;
      while todo != {}
        invariant todo <= m.Keys && ci + |todo| == |m| && ci == |spans|
        invariant di + Total(m, todo) <= |digests|
        invariant Laid(Heads(classes), digests, Vals(digests), m, todo, spans) && Ordered(spans, di)
        decreases |todo|
      {
        var c :| c in todo;
        TotalTakes(m, todo, c);
        ghost var lo := di;
        di := LayOne(m, c, todo, ci, di, spans);
        spans := spans + [Span(lo, di)];
        ci := ci + 1;
        todo := todo - {c};
      }
      LaidDenotes(classes[..ci], classes, digests, digestPos, spans, m);
    }

    /** fill: whatever the pools held, the request now denotes exactly m. */
    method Fill(m: map<string, Roots>)
      requires Valid()
      modifies this, classes, digests
      ensures Valid() && old(classes) <= classes && old(digests) <= digests
      ensures DenotesExactly(reqClasses, m)
    {
      var total := CountDigests(m);
      GrowDigests(total);
      GrowClasses(|m|);
      var ci := Lay(m);
      Publish(ci, m);
    }

    method Publish(ci: nat, ghost m: map<string, Roots>)
      requires ci <= |classes| && DenotesExactly(classes[..ci], m)
      modifies this`reqClasses
      ensures DenotesExactly(reqClasses, m)
    {
      reqClasses := classes[..ci];
    }
  }

  lemma LaidDenotes(req: seq<ClassShardRootDigests>, classes: seq<ClassShardRootDigests>, digests: seq<ShardRootDigest>,
                    pos: map<ShardRootDigest, nat>, spans: seq<Span>, m: map<string, Roots>)
    requires Located(digests, pos) && |spans| == |m| <= |classes| && req == classes[..|m|]
    requires Laid(Heads(classes), digests, Vals(digests), m, {}, spans)
    ensures DenotesExactly(req, m)
  {
    var heads, vals := Heads(classes), Vals(digests);
    forall k | 0 <= k < |req|
      ensures Heads(req)[k] == heads[k] && req[k].index in m && Says(Vals(req[k].shardRootDigests), m[req[k].index])
    {
      assert Entry(heads[k], digests, vals, spans[k], m);
      assert Vals(req[k].shardRootDigests) == vals[spans[k].lo..spans[k].hi];
    }
    LaidIsUnshared(Heads(req), digests, pos, vals, spans, m);
  }
}
