/** The rotating home node allocator. */
module HomeNode {

  /** Byte-wise string order, as the sort of the candidates uses it. */
  predicate Le(a: string, b: string) {
    a == "" || (b != "" && (a[0] < b[0] || (a[0] == b[0] && Le(a[1..], b[1..]))))
  }

  lemma {:induction false} LeTotal(a: string, b: string)
    ensures Le(a, b) || Le(b, a)
  {
    if a != "" && b != "" && a[0] == b[0] {
      LeTotal(a[1..], b[1..]);
    }
  }

  lemma {:induction false} LeAntisymmetric(a: string, b: string)
    requires Le(a, b) && Le(b, a)
    ensures a == b
  {
    if a != "" {
      LeAntisymmetric(a[1..], b[1..]);
      assert a == [a[0]] + a[1..] && b == [b[0]] + b[1..];
    }
  }

  lemma {:induction false} LeTransitive(a: string, b: string, c: string)
    requires Le(a, b) && Le(b, c)
    ensures Le(a, c)
  {
    if a != "" && a[0] == b[0] == c[0] {
      LeTransitive(a[1..], b[1..], c[1..]);
    }
  }

  /** The first place where two names differ decides, and a prefix comes first. */
  lemma {:induction false} LeByFirstDifference(a: string, b: string)
    ensures Le(a, b) <==> a <= b || exists k :: 0 <= k < |a| && k < |b| && a[..k] == b[..k] && a[k] < b[k]
  {
    if a != "" && b != "" && a[0] == b[0] {
      LeByFirstDifference(a[1..], b[1..]);
      assert a == [a[0]] + a[1..] && b == [b[0]] + b[1..];
      if k :| 0 <= k < |a| - 1 && k < |b| - 1 && a[1..][..k] == b[1..][..k] && a[1..][k] < b[1..][k] {
        assert a[..k + 1] == [a[0]] + a[1..][..k] && b[..k + 1] == [b[0]] + b[1..][..k];
        assert a[k + 1] < b[k + 1];
      }
      if k :| 0 <= k < |a| && k < |b| && a[..k] == b[..k] && a[k] < b[k] {
        assert a[1..][..k - 1] == a[..k][1..] && b[1..][..k - 1] == b[..k][1..];
        assert a[1..][k - 1] < b[1..][k - 1];
      }
    } else if a != "" && b != "" {
      assert a[..0] == b[..0];
      forall k | 0 < k <= |a| && k <= |b| ensures a[..k] != b[..k] {
        assert a[..k][0] != b[..k][0];
      }
    }
  }

  predicate Sorted(xs: seq<string>) {
    forall i, j :: 0 <= i < j < |xs| ==> Le(xs[i], xs[j])
  }

  function Insert(x: string, xs: seq<string>): (r: seq<string>)
    ensures multiset(r) == multiset{x} + multiset(xs)
  {
    if xs == [] || Le(x, xs[0]) then [x] + xs
    else
      assert xs == [xs[0]] + xs[1..];
      [xs[0]] + Insert(x, xs[1..])
  }

  function Sort(xs: seq<string>): (r: seq<string>)
    ensures multiset(r) == multiset(xs)
    ensures |r| == |xs|
  {
    if xs == [] then []
    else
      assert xs == [xs[0]] + xs[1..];
      var r := Insert(xs[0], Sort(xs[1..]));
      assert |multiset(r)| == |multiset(xs)|;
      r
  }

  lemma SortedCons(x: string, xs: seq<string>)
    requires Sorted(xs) && forall y :: y in xs ==> Le(x, y)
    ensures Sorted([x] + xs)
  {
    var r := [x] + xs;
    forall i, j | 0 <= i < j < |r| ensures Le(r[i], r[j]) {
      assert r[j] == xs[j - 1] && r[j] in xs;
      if i > 0 {
        assert r[i] == xs[i - 1];
      }
    }
  }

  lemma {:induction false} InsertSorted(x: string, xs: seq<string>)
    requires Sorted(xs)
    ensures Sorted(Insert(x, xs))
  {
    if xs != [] {
      var rest := xs[1..];
      assert forall i :: 0 <= i < |rest| ==> rest[i] == xs[i + 1];
      if Le(x, xs[0]) {
        forall y | y in xs ensures Le(x, y) {
          var k :| 0 <= k < |xs| && xs[k] == y;
          if k > 0 {
            LeTransitive(x, xs[0], y);
          }
        }
        SortedCons(x, xs);
      } else {
        LeTotal(x, xs[0]);
        InsertSorted(x, rest);
        var r := Insert(x, rest);
        forall y | y in r ensures Le(xs[0], y) {
          assert y in multiset(r);
          if y != x {
            assert y in multiset(rest) && y in rest;
          }
        }
        SortedCons(xs[0], r);
      }
    }
  }

  lemma {:induction false} SortSorts(xs: seq<string>)
    ensures Sorted(Sort(xs))
  {
    if xs != [] {
      SortSorts(xs[1..]);
      InsertSorted(xs[0], Sort(xs[1..]));
    }
  }

  lemma Tail(a: seq<string>)
    requires a != [] && Sorted(a)
    ensures Sorted(a[1..]) && multiset(a[1..]) == multiset(a) - multiset{a[0]}
  {
    assert a == [a[0]] + a[1..];
  }

  lemma SameFirst(a: seq<string>, b: seq<string>)
    requires Sorted(a) && Sorted(b) && multiset(a) == multiset(b) && a != []
    ensures b != [] && a[0] == b[0]
  {
    assert a[0] in multiset(b);
    assert a[0] in b;
    assert b[0] in multiset(a);
    assert b[0] in a;
    LeastIsFirst(a, b[0]);
    LeastIsFirst(b, a[0]);
    LeAntisymmetric(a[0], b[0]);
  }

  /** There is one sorted arrangement of a multiset of names. */
  lemma {:induction false} SortedIsUnique(a: seq<string>, b: seq<string>)
    requires Sorted(a) && Sorted(b) && multiset(a) == multiset(b)
    ensures a == b
  {
    assert |a| == |multiset(a)| == |multiset(b)| == |b|;
    if a != [] {
      SameFirst(a, b);
      Tail(a);
      Tail(b);
      SortedIsUnique(a[1..], b[1..]);
      assert a == [a[0]] + a[1..] && b == [b[0]] + b[1..];
    }
  }

  lemma LeastIsFirst(a: seq<string>, x: string)
    requires Sorted(a) && x in a
    ensures Le(a[0], x)
  {
    var k :| 0 <= k < |a| && a[k] == x;
    if k == 0 {
      LeTotal(x, x);
    }
  }

  /** The cache key does not depend on the order the candidates arrive in. */
  lemma SortNormalizes(a: seq<string>, b: seq<string>)
    requires multiset(a) == multiset(b)
    ensures Sort(a) == Sort(b)
  {
    SortSorts(a);
    SortSorts(b);
    SortedIsUnique(Sort(a), Sort(b));
  }

  lemma SortKeepsNames(xs: seq<string>, k: nat)
    requires k < |xs|
    ensures Sort(xs)[k] in xs
  {
    assert Sort(xs)[k] in multiset(Sort(xs));
  }

  /** The cached iterator, cold until the first call. */
  datatype Cache = Cold | Warm(candidates: seq<string>, state: nat)

  predicate ValidCache(c: Cache) {
    c.Warm? ==> c.state < |c.candidates|
  }

  function Advance(names: seq<string>, state: nat): nat
    requires state < |names|
  {
    if state + 1 == |names| then 0 else state + 1
  }

  /** Where the iterator stands for this call: kept when the candidate set is the
      cached one, otherwise a fresh random start. */
  function StartState(c: Cache, sorted: seq<string>, random: nat): nat {
    if c.Warm? && c.candidates == sorted then c.state else random
  }

  class Allocator {
    var cache: Cache

    constructor ()
      ensures cache == Cold
    {
      cache := Cold;
    }

    /** nextHomeNode; random is what the iterator draws if it has to start over. */
    method NextHomeNode(nodes: seq<string>, random: nat) returns (picked: string, ok: bool)
      requires ValidCache(cache) && (nodes != [] ==> random < |nodes|)
      modifies this
      ensures ValidCache(cache) && (ok <==> nodes != [])
      ensures !ok ==> cache == old(cache)
      ensures ok ==> picked in nodes
      ensures ok && old(cache).Warm? && old(cache).candidates == Sort(nodes) ==> picked == old(cache).candidates[old(cache).state]
      ensures ok ==> var s := StartState(old(cache), Sort(nodes), random);
                     && s < |nodes| && picked == Sort(nodes)[s]
                     && cache == Warm(Sort(nodes), Advance(Sort(nodes), s))
    {
      if nodes == [] {
        return "", false;
      }
      var sorted := Sort(nodes);
      if cache.Cold? || cache.candidates != sorted {
        cache := Warm(sorted, random);
      }
      var curr := cache.candidates[cache.state];
      SortKeepsNames(nodes, cache.state);
      cache := Warm(sorted, if cache.state + 1 == |sorted| then 0 else cache.state + 1);
      return curr, true;
    }
  }

  /** The names a run of calls returns, starting from a cache. */
  function Picks(c: Cache, calls: seq<(seq<string>, nat)>): seq<string>
    requires ValidCache(c) && forall i :: 0 <= i < |calls| ==> calls[i].1 < |calls[i].0|
    decreases |calls|
  {
    if calls == [] then []
    else
      var sorted := Sort(calls[0].0);
      var s := StartState(c, sorted, calls[0].1);
      [sorted[s]] + Picks(Warm(sorted, Advance(sorted, s)), calls[1..])
  }

  function Round(names: seq<string>, s: nat, m: nat): seq<string>
    requires s < |names|
    decreases m
  {
    if m == 0 then [] else [names[s]] + Round(names, Advance(names, s), m - 1)
  }

  /** Every call in the run has the same candidate set. */
  ghost predicate AllSortTo(calls: seq<(seq<string>, nat)>, sorted: seq<string>) {
    forall i :: 0 <= i < |calls| ==> calls[i].1 < |calls[i].0| && Sort(calls[i].0) == sorted
  }

  lemma FirstPick(c: Cache, calls: seq<(seq<string>, nat)>, sorted: seq<string>)
    requires ValidCache(c) && calls != [] && AllSortTo(calls, sorted)
    ensures var s := StartState(c, sorted, calls[0].1);
            && s < |sorted| && AllSortTo(calls[1..], sorted)
            && Picks(c, calls) == [sorted[s]] + Picks(Warm(sorted, Advance(sorted, s)), calls[1..])
  {
    assert Sort(calls[0].0) == sorted;
  }

  /** Calls with the same candidate set walk the sorted names in a circle, whatever
      the starting cache. */
  lemma {:induction false} PicksGoRound(c: Cache, calls: seq<(seq<string>, nat)>, sorted: seq<string>)
    requires ValidCache(c) && calls != [] && AllSortTo(calls, sorted)
    ensures var s := StartState(c, sorted, calls[0].1);
            s < |sorted| && Picks(c, calls) == Round(sorted, s, |calls|)
    decreases |calls|
  {
    var s, rest := StartState(c, sorted, calls[0].1), calls[1..];
    FirstPick(c, calls, sorted);
    var next := Advance(sorted, s);
    if rest == [] {
      assert Round(sorted, next, 0) == [];
    } else {
      PicksGoRound(Warm(sorted, next), rest, sorted);
    }
  }

  lemma SliceHead<T>(xs: seq<T>, s: nat, e: nat)
    requires s < e <= |xs|
    ensures xs[s..e] == [xs[s]] + xs[s + 1..e]
  {
  }

  lemma {:induction false} RoundSplits(names: seq<string>, s: nat, a: nat, b: nat)
    requires s < |names| && s + a <= |names|
    ensures Round(names, s, a + b) == names[s..s + a] + Round(names, if s + a == |names| then 0 else s + a, b)
    decreases a
  {
    if a > 0 {
      SliceHead(names, s, s + a);
      if a > 1 {
        RoundSplits(names, s + 1, a - 1, b);
      }
    }
  }

  lemma Rotation<T>(xs: seq<T>, s: nat)
    requires s <= |xs|
    ensures multiset(xs[s..] + xs[..s]) == multiset(xs)
  {
    assert xs == xs[..s] + xs[s..];
  }

  /** One full turn returns every name as often as it is listed, and ends where
      it began. */
  lemma FullTurn(names: seq<string>, s: nat, b: nat)
    requires s < |names|
    ensures Round(names, s, |names| + b) == names[s..] + names[..s] + Round(names, s, b)
    ensures multiset(names[s..] + names[..s]) == multiset(names)
  {
    RoundSplits(names, s, |names| - s, s + b);
    assert names[s..|names|] == names[s..];
    if s > 0 {
      RoundSplits(names, 0, s, b);
    }
    Rotation(names, s);
  }

  lemma {:induction false} TurnsAreFair(names: seq<string>, s: nat, k: nat, x: string)
    requires s < |names| && multiset(names)[x] == 1
    ensures multiset(Round(names, s, k * |names|))[x] == k
    decreases k
  {
    if k > 0 {
      var b := (k - 1) * |names|;
      FullTurn(names, s, b);
      TurnsAreFair(names, s, k - 1, x);
      assert k * |names| == |names| + b;
      CountInConcat(names[s..] + names[..s], Round(names, s, b), x);
    } else {
      assert k * |names| == 0;
    }
  }

  lemma CountInConcat(a: seq<string>, b: seq<string>, x: string)
    ensures multiset(a + b)[x] == multiset(a)[x] + multiset(b)[x]
  {
    assert multiset(a + b) == multiset(a) + multiset(b);
  }

  /** Fairness over runs: in any k * n consecutive calls whose candidate lists are
      permutations of the same n distinct names, each name is returned k times. */
  lemma HomeNodesAreFair(c: Cache, calls: seq<(seq<string>, nat)>, names: seq<string>, k: nat, x: string)
    requires ValidCache(c) && names != [] && |calls| == k * |names|
    requires forall i :: 0 <= i < |calls| ==> calls[i].1 < |calls[i].0| && multiset(calls[i].0) == multiset(names)
    requires x in names && multiset(names)[x] == 1
    ensures multiset(Picks(c, calls))[x] == k
  {
    if calls == [] {
      assert k == 0;
    } else {
      forall i | 0 <= i < |calls| ensures Sort(calls[i].0) == Sort(names) {
        SortNormalizes(calls[i].0, names);
      }
      PicksGoRound(c, calls, Sort(names));
      TurnsAreFair(Sort(names), StartState(c, Sort(names), calls[0].1), k, x);
    }
  }
}
