/** What holds of every committed log: the tenant cap, and a namespace under
    deletion that only empties. Both are statements about good logs, and every
    log a cluster commits is good. */
module LogSafety {
  import opened Fsm
  import opened Admission
  import opened Cluster
  import opened ClusterSafety
  import History

  /** The checks Execute really runs before it appends. */
  function Checks(h: Handlers, cap: int): Rules {
    Rules(h, (s, r) => Admits(s, r) && Filtered(s, r, cap), cap >= 0)
  }

  function TenantsIn(s: State, c: string): set<string> {
    if c in s.classes && s.classes[c].multiTenant then s.classes[c].shards.Keys else {}
  }

  /** The tenants of class c after n entries. */
  function Tenants(h: Handlers, log: seq<Entry>, n: nat, c: string): set<string>
    requires n <= |log|
  {
    TenantsIn(StateAt(h, log, n), c)
  }

  /** Entry i lays down the shards of c outright: creation, restore, or an update
      that carries a sharding state. The cap is not checked for these. */
  predicate Defines(h: Handlers, log: seq<Entry>, i: nat, c: string)
    requires 1 <= i <= |log|
  {
    && Takes(h, log, i)
    && var r := log[i - 1].req;
       || ((r.AddClass? || r.RestoreClass?) && r.cls == c)
       || (r.UpdateClass? && r.newShards.Some? && r.cls == c)
  }

  predicate Adds(h: Handlers, log: seq<Entry>, i: nat, c: string)
    requires 1 <= i <= |log|
  {
    Takes(h, log, i) && log[i - 1].req.AddTenants? && log[i - 1].req.cls == c
  }

  /** A definition of c lies between the judgement of entry i and entry i. */
  predicate Raced(h: Handlers, log: seq<Entry>, i: nat, c: string)
    requires 1 <= i <= |log|
  {
    exists k :: log[i - 1].judged < k < i && Defines(h, log, k, c)
  }

  /** Only definitions and additions make a class grow. */
  lemma TenantsShrinkOtherwise(h: Handlers, log: seq<Entry>, i: nat, c: string)
    requires 1 <= i <= |log|
    requires !Defines(h, log, i, c) && !Adds(h, log, i, c)
    ensures Tenants(h, log, i, c) <= Tenants(h, log, i - 1, c)
    ensures c in StateAt(h, log, i).classes ==> c in StateAt(h, log, i - 1).classes
  {
  }

  lemma {:induction false} TenantsShrinkSince(h: Handlers, log: seq<Entry>, j: nat, n: nat, c: string)
    requires j <= n <= |log|
    requires forall k :: j < k <= n ==> !Defines(h, log, k, c) && !Adds(h, log, k, c)
    ensures Tenants(h, log, n, c) <= Tenants(h, log, j, c)
    ensures c in StateAt(h, log, n).classes ==> c in StateAt(h, log, j).classes
    decreases n
  {
    if j < n {
      TenantsShrinkSince(h, log, j, n - 1, c);
      TenantsShrinkOtherwise(h, log, n, c);
    }
  }

  /** One addition: no later addition to the class slipped in between judgement
      and append, so what was counted still bounds what is there. */
  lemma AdditionStaysWithinCap(h: Handlers, cap: int, log: seq<Entry>, i: nat, c: string)
    requires cap >= 0 && 1 <= i <= |log| && GoodLog(Checks(h, cap), log)
    requires Adds(h, log, i, c) && !Raced(h, log, i, c)
    ensures |Tenants(h, log, i, c)| <= cap
  {
    var r, j := log[i - 1].req, log[i - 1].judged;
    assert GoodEntry(Checks(h, cap), log, i);
    forall k | j < k <= i - 1 ensures !Defines(h, log, k, c) && !Adds(h, log, k, c) {
      assert !IsAdd(log[k - 1], c);
    }
    TenantsShrinkSince(h, log, j, i - 1, c);
    var before := StateAt(h, log, j).classes[c].shards.Keys;
    assert CapAllows(StateAt(h, log, j), r, cap);
    AdditionsCoverGrowth(before, r.names);
    SubsetSize(Tenants(h, log, i, c), before + Names(r.names));
  }

  lemma SubsetSize(a: set<string>, b: set<string>)
    requires a <= b
    ensures |a| <= |b|
  {
    assert b == a + (b - a);
  }

  /** The tenants a definition lays down. */
  function Laid(r: Request): set<string>
    requires r.AddClass? || r.RestoreClass? || (r.UpdateClass? && r.newShards.Some?)
  {
    if !r.multiTenant then {} else if r.UpdateClass? then r.newShards.value.Keys else r.shards.Keys
  }

  /** The last definition of c among the first n entries, 0 if there is none. */
  function LastDefinition(h: Handlers, log: seq<Entry>, n: nat, c: string): (k: nat)
    requires n <= |log|
    ensures k <= n && (k > 0 ==> Defines(h, log, k, c))
    ensures forall j :: k < j <= n ==> !Defines(h, log, j, c)
  {
    if n == 0 then 0 else if Defines(h, log, n, c) then n else LastDefinition(h, log, n - 1, c)
  }

  /** The tenants of c that commands in k+1 .. n delete. */
  function Removed(h: Handlers, log: seq<Entry>, k: nat, n: nat, c: string): set<string>
    requires k <= n <= |log|
    decreases n
  {
    if k == n then {}
    else
      var r := log[n - 1].req;
      Removed(h, log, k, n - 1, c)
      + (if Takes(h, log, n) && r.DeleteTenants? && r.cls == c then Names(r.names) else {})
  }

  /** While nothing is added, a class holds what its last definition laid down
      less what was deleted since. */
  lemma {:induction false} SinceDefinition(h: Handlers, log: seq<Entry>, k: nat, n: nat, c: string)
    requires 1 <= k <= n <= |log| && Defines(h, log, k, c)
    requires forall j :: k < j <= n ==> !Defines(h, log, j, c) && !Adds(h, log, j, c)
    requires c in StateAt(h, log, n).classes
    ensures Tenants(h, log, n, c) == Laid(log[k - 1].req) - Removed(h, log, k, n, c)
    ensures StateAt(h, log, n).classes[c].multiTenant == log[k - 1].req.multiTenant
    decreases n
  {
    if k < n {
      TenantsShrinkOtherwise(h, log, n, c);
      SinceDefinition(h, log, k, n - 1, c);
      DeletionRemoves(h, log, n, c);
    }
  }

  lemma DeletionRemoves(h: Handlers, log: seq<Entry>, n: nat, c: string)
    requires 1 <= n <= |log| && !Defines(h, log, n, c) && !Adds(h, log, n, c)
    requires c in StateAt(h, log, n).classes && c in StateAt(h, log, n - 1).classes
    ensures StateAt(h, log, n).classes[c].multiTenant == StateAt(h, log, n - 1).classes[c].multiTenant
    ensures var r := log[n - 1].req;
            Tenants(h, log, n, c)
            == Tenants(h, log, n - 1, c)
               - (if Takes(h, log, n) && r.DeleteTenants? && r.cls == c then Names(r.names) else {})
  {
  }

  /** The entries the check does not reach: a definition that brings its own
      shards, and an addition that a definition of its class overtook. */
  predicate Unchecked(h: Handlers, log: seq<Entry>, i: nat, c: string)
    requires 1 <= i <= |log|
  {
    Defines(h, log, i, c) || (Adds(h, log, i, c) && Raced(h, log, i, c))
  }

  /** What such an entry leaves the class with, read off commands alone: what a
      definition lays down, and for an addition it overtook, that less the
      deletions since, plus the names it brings. */
  function Unaccounted(h: Handlers, log: seq<Entry>, i: nat, c: string): set<string>
    requires 1 <= i <= |log| && Unchecked(h, log, i, c)
  {
    var r := log[i - 1].req;
    if Defines(h, log, i, c) then Laid(r)
    else
      var k := LastDefinition(h, log, i - 1, c);
      (if k == 0 then {} else Laid(log[k - 1].req) - Removed(h, log, k, i - 1, c))
      + Names(r.names)
  }

  lemma UnaccountedArrives(h: Handlers, cap: int, log: seq<Entry>, i: nat, c: string)
    requires cap >= 0 && 1 <= i <= |log| && GoodLog(Checks(h, cap), log) && Unchecked(h, log, i, c)
    ensures Tenants(h, log, i, c) == Unaccounted(h, log, i, c)
  {
    if !Defines(h, log, i, c) {
      var k := LastDefinition(h, log, i - 1, c);
      assert GoodEntry(Checks(h, cap), log, i);
      forall j | k < j <= i - 1 ensures !Adds(h, log, j, c) {
        assert !IsAdd(log[j - 1], c);
      }
      SinceDefinition(h, log, k, i - 1, c);
    }
  }

  predicate UncheckedFit(h: Handlers, cap: int, log: seq<Entry>, c: string) {
    forall i :: 1 <= i <= |log| && Unchecked(h, log, i, c) ==> |Unaccounted(h, log, i, c)| <= cap
  }

  /** The tenant cap over every prefix of a committed log, exactly: it holds when
      and only when the entries the check does not reach fit. Every other addition
      keeps it by itself, across concurrent proposers and leader changes. */
  lemma TenantCapIff(h: Handlers, cap: int, log: seq<Entry>, c: string)
    requires cap >= 0 && GoodLog(Checks(h, cap), log)
    ensures (forall n :: 0 <= n <= |log| ==> |Tenants(h, log, n, c)| <= cap) <==> UncheckedFit(h, cap, log, c)
  {
    if UncheckedFit(h, cap, log, c) {
      forall n | 0 <= n <= |log| ensures |Tenants(h, log, n, c)| <= cap {
        CapUpTo(h, cap, log, n, c);
      }
    }
    if forall n :: 0 <= n <= |log| ==> |Tenants(h, log, n, c)| <= cap {
      forall i | 1 <= i <= |log| && Unchecked(h, log, i, c) ensures |Unaccounted(h, log, i, c)| <= cap {
        UnaccountedArrives(h, cap, log, i, c);
      }
    }
  }

  lemma {:induction false} CapUpTo(h: Handlers, cap: int, log: seq<Entry>, n: nat, c: string)
    requires cap >= 0 && n <= |log| && GoodLog(Checks(h, cap), log) && UncheckedFit(h, cap, log, c)
    ensures |Tenants(h, log, n, c)| <= cap
  {
    if n > 0 {
      CapUpTo(h, cap, log, n - 1, c);
      if Unchecked(h, log, n, c) {
        UnaccountedArrives(h, cap, log, n, c);
      } else if Adds(h, log, n, c) {
        AdditionStaysWithinCap(h, cap, log, n, c);
      } else {
        TenantsShrinkOtherwise(h, log, n, c);
        SubsetSize(Tenants(h, log, n, c), Tenants(h, log, n - 1, c));
      }
    }
  }

  /** The same over whole runs of a cluster, at every point. */
  lemma TenantCapOverRuns(h: Handlers, cap: int, run: seq<Cluster>, steps: seq<Step>, k: nat, c: string)
    requires cap >= 0 && IsRun(Checks(h, cap), run, steps) && k < |run|
    ensures (forall n :: 0 <= n <= |run[k].committed| ==> |Tenants(h, run[k].committed, n, c)| <= cap)
            <==> UncheckedFit(h, cap, run[k].committed, c)
  {
    CommittedLogIsGood(Checks(h, cap), run, steps, k);
    TenantCapIff(h, cap, run[k].committed, c);
  }

  lemma {:induction false} AppearsByPointing(h: Handlers, log: seq<Entry>, j: nat, n: nat, a: string) returns (k: nat)
    requires j <= n <= |log| && a !in StateAt(h, log, j).aliases && a in StateAt(h, log, n).aliases
    ensures j < k <= n && History.Points(h, log, k, a)
    decreases n
  {
    if a in StateAt(h, log, n - 1).aliases {
      k := AppearsByPointing(h, log, j, n - 1, a);
    } else {
      k := n;
      History.AliasStep(h, log, n, a, StateAt(h, log, n).aliases[a]);
    }
  }

  /** The same for an alias: a class is created beside an alias of its name, up to case,
      only if the alias was pointed after the judgement. */
  lemma AliasCollisionIsRace(h: Handlers, cap: int, log: seq<Entry>, i: nat, c: string, alias: string) returns (k: nat)
    requires GoodLog(Checks(h, cap), log) && 1 <= i <= |log| && CreatedAt(h, log, i, c)
    requires alias in StateAt(h, log, i - 1).aliases && Fold(alias) == Fold(c)
    ensures log[i - 1].judged < k < i && History.Points(h, log, k, alias)
  {
    assert GoodEntry(Checks(h, cap), log, i);
    k := AppearsByPointing(h, log, log[i - 1].judged, i - 1, alias);
  }

  function ClassesIn(s: State, ns: string): set<string> {
    set c | c in s.classes && NamespaceOf(c) == ns
  }

  function AliasesIn(s: State, ns: string): set<string> {
    set a | a in s.aliases && NamespaceOf(a) == ns
  }

  predicate IsDeleting(s: State, ns: string) {
    ns in s.namespaces && s.namespaces[ns].state == Deleting
  }

  predicate Removes(h: Handlers, log: seq<Entry>, i: nat, ns: string)
    requires 1 <= i <= |log|
  {
    Takes(h, log, i) && log[i - 1].req.RemoveNamespace? && log[i - 1].req.name == ns
  }

  /** In every good log a command that is judged by a namespace and is no deletion was
      judged while that namespace was active. */
  lemma JudgedWhileActive(h: Handlers, cap: int, log: seq<Entry>, i: nat, ns: string)
    requires GoodLog(Checks(h, cap), log) && 1 <= i <= |log| && log[i - 1].kind.Command?
    requires ns != "" && ns in Concerned(log[i - 1].req) && !IsDeletion(log[i - 1].req)
    ensures log[i - 1].judged < i && IsActive(StateAt(h, log, log[i - 1].judged), ns)
  {
    assert GoodEntry(Checks(h, cap), log, i);
    AdmitsIff(StateAt(h, log, log[i - 1].judged), log[i - 1].req);
  }

  /** So a namespaced class, or a shard of one, appears only by a command judged while
      the namespace was active, except by an update that carries a sharding state. */
  lemma GrowsWhereActive(h: Handlers, cap: int, log: seq<Entry>, i: nat, c: string)
    requires GoodLog(Checks(h, cap), log) && 1 <= i <= |log| && NamespaceOf(c) != ""
    requires c in StateAt(h, log, i).classes
    requires c !in StateAt(h, log, i - 1).classes
             || !(StateAt(h, log, i).classes[c].shards.Keys <= StateAt(h, log, i - 1).classes[c].shards.Keys)
    ensures log[i - 1].kind.Command? && log[i - 1].judged < i
    ensures log[i - 1].req.UpdateClass? || IsActive(StateAt(h, log, log[i - 1].judged), NamespaceOf(c))
  {
    assert GoodEntry(Checks(h, cap), log, i);
    var r := log[i - 1].req;
    if !r.UpdateClass? {
      assert (r.AddClass? || r.RestoreClass? || r.AddTenants?) && r.cls == c;
      ConcernedIs(r, NamespaceOf(c));
      JudgedWhileActive(h, cap, log, i, NamespaceOf(c));
    }
  }

  /** The same at every point of every run of a cluster. */
  lemma GrowsWhereActiveOverRuns(h: Handlers, cap: int, run: seq<Cluster>, steps: seq<Step>, k: nat, i: nat, c: string)
    requires IsRun(Checks(h, cap), run, steps) && k < |run| && 1 <= i <= |run[k].committed| && NamespaceOf(c) != ""
    requires c in StateAt(h, run[k].committed, i).classes
    requires c !in StateAt(h, run[k].committed, i - 1).classes
             || !(StateAt(h, run[k].committed, i).classes[c].shards.Keys <= StateAt(h, run[k].committed, i - 1).classes[c].shards.Keys)
    ensures var log := run[k].committed;
            log[i - 1].judged < i
            && (log[i - 1].req.UpdateClass? || IsActive(StateAt(h, log, log[i - 1].judged), NamespaceOf(c)))
  {
    CommittedLogIsGood(Checks(h, cap), run, steps, k);
    GrowsWhereActive(h, cap, run[k].committed, i, c);
  }

  /** Entry k creates the class. */
  predicate CreatedAt(h: Handlers, log: seq<Entry>, k: nat, c: string)
    requires 1 <= k <= |log|
  {
    Takes(h, log, k) && (log[k - 1].req.AddClass? || log[k - 1].req.RestoreClass?) && log[k - 1].req.cls == c
  }

  lemma {:induction false} AppearsByCreation(h: Handlers, log: seq<Entry>, j: nat, n: nat, c: string) returns (k: nat)
    requires j <= n <= |log| && c !in StateAt(h, log, j).classes && c in StateAt(h, log, n).classes
    ensures j < k <= n && CreatedAt(h, log, k, c)
    decreases n
  {
    if c in StateAt(h, log, n - 1).classes {
      k := AppearsByCreation(h, log, j, n - 1, c);
    } else {
      k := n;
    }
  }

  /** Two classes whose names differ only in case can meet only by a race: when the
      second is created, the first was created after its judgement. */
  lemma CollisionIsRace(h: Handlers, cap: int, log: seq<Entry>, i: nat, c: string, other: string) returns (k: nat)
    requires GoodLog(Checks(h, cap), log) && 1 <= i <= |log| && CreatedAt(h, log, i, c)
    requires other in StateAt(h, log, i - 1).classes && Fold(other) == Fold(c)
    ensures log[i - 1].judged < k < i && CreatedAt(h, log, k, other)
  {
    assert GoodEntry(Checks(h, cap), log, i);
    k := AppearsByCreation(h, log, log[i - 1].judged, i - 1, other);
  }

  /** Deleting is left only by removing the namespace, which needs it empty. */
  lemma {:induction false} DeletingPersists(h: Handlers, log: seq<Entry>, f: nat, n: nat, ns: string)
    requires f <= n <= |log| && IsDeleting(StateAt(h, log, f), ns)
    requires forall i :: f < i <= n ==> !Removes(h, log, i, ns)
    ensures IsDeleting(StateAt(h, log, n), ns)
    decreases n
  {
    if f < n {
      DeletingPersists(h, log, f, n - 1, ns);
      assert !Removes(h, log, n, ns);
    }
  }

  lemma RemovalNeedsEmpty(h: Handlers, log: seq<Entry>, i: nat, ns: string)
    requires 1 <= i <= |log| && Removes(h, log, i, ns)
    ensures ClassesIn(StateAt(h, log, i - 1), ns) == {} && AliasesIn(StateAt(h, log, i - 1), ns) == {}
  {
  }

  /** Every command after d was judged against a state that had seen the flip. */
  predicate Drained(log: seq<Entry>, f: nat, d: nat, n: nat)
    requires n <= |log|
  {
    forall i :: d <= i < n && log[i].kind.Command? ==> f <= log[i].judged
  }

  /** A leader change drains by itself: a command of a later term than the flip's
      was judged after the flip. */
  lemma LaterTermsAreDrained(g: Rules, log: seq<Entry>, f: nat, d: nat, n: nat)
    requires GoodLog(g, log) && 1 <= f <= d <= n <= |log|
    requires forall i :: d <= i < n ==> log[f - 1].term < log[i].term
    ensures Drained(log, f, d, n)
  {
    forall i | d <= i < n && log[i].kind.Command? ensures f <= log[i].judged {
      assert GoodEntry(g, log, i + 1);
    }
  }

  lemma EntryGrowsOnlyByCreating(h: Handlers, log: seq<Entry>, i: nat, ns: string)
    requires 1 <= i <= |log|
    requires !(Takes(h, log, i) && Creates(log[i - 1].req, ns))
    ensures ClassesIn(StateAt(h, log, i), ns) <= ClassesIn(StateAt(h, log, i - 1), ns)
    ensures AliasesIn(StateAt(h, log, i), ns) <= AliasesIn(StateAt(h, log, i - 1), ns)
  {
    var s, s', r := StateAt(h, log, i - 1), StateAt(h, log, i), log[i - 1].req;
    if r.CreateAlias? {
      CanonicalKeeps(r.alias);
    }
    assert forall c :: c in s'.classes && NamespaceOf(c) == ns ==> c in s.classes;
    assert forall a :: a in s'.aliases && NamespaceOf(a) == ns ==> a in s.aliases;
  }

  /** A namespace under deletion only empties: from the flip at f, once the
      commands judged before it are through at d, its classes and aliases never
      grow again until it is removed. */
  lemma {:induction false} DeletingOnlyEmpties(h: Handlers, cap: int, log: seq<Entry>, f: nat, d: nat, n: nat, ns: string)
    requires GoodLog(Checks(h, cap), log) && ns != "" && f <= d <= n <= |log|
    requires IsDeleting(StateAt(h, log, f), ns)
    requires forall i :: f < i <= n ==> !Removes(h, log, i, ns)
    requires Drained(log, f, d, n)
    ensures ClassesIn(StateAt(h, log, n), ns) <= ClassesIn(StateAt(h, log, d), ns)
    ensures AliasesIn(StateAt(h, log, n), ns) <= AliasesIn(StateAt(h, log, d), ns)
    decreases n
  {
    if d < n {
      DeletingOnlyEmpties(h, cap, log, f, d, n - 1, ns);
      if Takes(h, log, n) && Creates(log[n - 1].req, ns) {
        var j := log[n - 1].judged;
        assert GoodEntry(Checks(h, cap), log, n);
        DeletingPersists(h, log, f, j, ns);
        DeletingAdmitsOnlyCleanup(StateAt(h, log, j), ns, log[n - 1].req);
        assert false;
      }
      EntryGrowsOnlyByCreating(h, log, n, ns);
    }
  }

  /** Over whole runs of a cluster, at every point: once the commands judged before
      the flip are through, or as soon as a later term leads. */
  lemma DeletingOnlyEmptiesOverRuns(h: Handlers, cap: int, run: seq<Cluster>, steps: seq<Step>, k: nat,
                                    f: nat, d: nat, n: nat, ns: string)
    requires IsRun(Checks(h, cap), run, steps) && k < |run| && ns != ""
    requires 1 <= f <= d <= n <= |run[k].committed| && IsDeleting(StateAt(h, run[k].committed, f), ns)
    requires forall i :: f < i <= n ==> !Removes(h, run[k].committed, i, ns)
    requires || Drained(run[k].committed, f, d, n)
             || forall i :: d <= i < n ==> run[k].committed[f - 1].term < run[k].committed[i].term
    ensures ClassesIn(StateAt(h, run[k].committed, n), ns) <= ClassesIn(StateAt(h, run[k].committed, d), ns)
    ensures AliasesIn(StateAt(h, run[k].committed, n), ns) <= AliasesIn(StateAt(h, run[k].committed, d), ns)
  {
    CommittedLogIsGood(Checks(h, cap), run, steps, k);
    if !Drained(run[k].committed, f, d, n) {
      LaterTermsAreDrained(Checks(h, cap), run[k].committed, f, d, n);
    }
    DeletingOnlyEmpties(h, cap, run[k].committed, f, d, n, ns);
  }
}
