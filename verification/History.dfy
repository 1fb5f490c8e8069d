/** The state as the last word of the log: what is in the schema after n entries,
    read off the commands that put it there and took it away, one by one, without the
    functions that apply them. */
module History {
  import opened Fsm

  function Before(h: Handlers, log: seq<Entry>, k: nat): State
    requires 1 <= k <= |log|
  {
    StateAt(h, log, k - 1)
  }

  /** Entry k is a command that its manager does not refuse. */
  predicate Unrefused(h: Handlers, log: seq<Entry>, k: nat)
    requires 1 <= k <= |log|
  {
    log[k - 1].kind.Command? && !h.refuses(Before(h, log, k), log[k - 1].req, k)
  }

  // ---- classes ----

  predicate CreatesClass(h: Handlers, log: seq<Entry>, k: nat, c: string)
    requires 1 <= k <= |log|
  {
    var r := log[k - 1].req;
    Unrefused(h, log, k) && (r.AddClass? || r.RestoreClass?) && r.cls == c && c !in Before(h, log, k).classes
  }

  predicate DeletesClass(h: Handlers, log: seq<Entry>, k: nat, c: string)
    requires 1 <= k <= |log|
  {
    Unrefused(h, log, k) && log[k - 1].req.DeleteClass? && log[k - 1].req.cls == c
  }

  lemma ClassStep(h: Handlers, log: seq<Entry>, n: nat, c: string)
    requires 1 <= n <= |log|
    ensures c in StateAt(h, log, n).classes <==>
              CreatesClass(h, log, n, c) || (c in StateAt(h, log, n - 1).classes && !DeletesClass(h, log, n, c))
  {
  }

  /** A class is there exactly if some entry created it and none has deleted it since. */
  lemma {:induction false} ClassIsThereIff(h: Handlers, log: seq<Entry>, n: nat, c: string)
    requires n <= |log|
    ensures c in StateAt(h, log, n).classes <==>
              exists k :: 1 <= k <= n && CreatesClass(h, log, k, c) && forall j :: k < j <= n ==> !DeletesClass(h, log, j, c)
  {
    if n > 0 {
      ClassIsThereIff(h, log, n - 1, c);
      ClassStep(h, log, n, c);
      if !(CreatesClass(h, log, n, c)) && c in StateAt(h, log, n).classes {
        var k :| 1 <= k <= n - 1 && CreatesClass(h, log, k, c) && forall j :: k < j <= n - 1 ==> !DeletesClass(h, log, j, c);
        assert forall j :: k < j <= n ==> !DeletesClass(h, log, j, c);
      }
    }
  }

  // ---- shards ----

  predicate HasShard(s: State, c: string, x: string) {
    c in s.classes && x in s.classes[c].shards
  }

  predicate IsHot(s: State, c: string, x: string) {
    HasShard(s, c, x) && s.classes[c].shards[x].hot
  }

  predicate MultiTenant(s: State, c: string) {
    c in s.classes && s.classes[c].multiTenant
  }

  /** Entry k lays down these shards of c, and nothing else: a creation, or an update
      that carries a sharding state. */
  predicate Lays(h: Handlers, log: seq<Entry>, k: nat, c: string)
    requires 1 <= k <= |log|
  {
    var s, r := Before(h, log, k), log[k - 1].req;
    || CreatesClass(h, log, k, c)
    || (&& Unrefused(h, log, k) && r.UpdateClass? && r.newShards.Some? && r.cls == c
        && c in s.classes && s.classes[c].multiTenant == r.multiTenant)
  }

  function LaidDown(r: Request): map<string, bool>
    requires r.AddClass? || r.RestoreClass? || (r.UpdateClass? && r.newShards.Some?)
  {
    if r.UpdateClass? then r.newShards.value else r.shards
  }

  /** Entry k is this kind of command on the tenants of c. */
  predicate OnTenants(h: Handlers, log: seq<Entry>, k: nat, c: string)
    requires 1 <= k <= |log|
  {
    var r := log[k - 1].req;
    && Unrefused(h, log, k) && (r.AddTenants? || r.UpdateTenants? || r.DeleteTenants?) && r.cls == c
    && MultiTenant(Before(h, log, k), c)
  }

  predicate BringsShard(h: Handlers, log: seq<Entry>, k: nat, c: string, x: string)
    requires 1 <= k <= |log|
  {
    var r := log[k - 1].req;
    || (Lays(h, log, k, c) && x in LaidDown(r))
    || (OnTenants(h, log, k, c) && r.AddTenants? && x in r.names)
  }

  predicate TakesShard(h: Handlers, log: seq<Entry>, k: nat, c: string, x: string)
    requires 1 <= k <= |log|
  {
    var r := log[k - 1].req;
    || DeletesClass(h, log, k, c)
    || (Lays(h, log, k, c) && x !in LaidDown(r))
    || (OnTenants(h, log, k, c) && r.DeleteTenants? && x in r.names)
  }

  lemma ShardStep(h: Handlers, log: seq<Entry>, n: nat, c: string, x: string)
    requires 1 <= n <= |log|
    ensures HasShard(StateAt(h, log, n), c, x) <==>
              BringsShard(h, log, n, c, x) || (HasShard(StateAt(h, log, n - 1), c, x) && !TakesShard(h, log, n, c, x))
  {
  }

  /** A shard is there exactly if some entry brought it and none has taken it since. */
  lemma {:induction false} ShardIsThereIff(h: Handlers, log: seq<Entry>, n: nat, c: string, x: string)
    requires n <= |log|
    ensures HasShard(StateAt(h, log, n), c, x) <==>
              exists k :: 1 <= k <= n && BringsShard(h, log, k, c, x) && forall j :: k < j <= n ==> !TakesShard(h, log, j, c, x)
  {
    if n > 0 {
      ShardIsThereIff(h, log, n - 1, c, x);
      ShardStep(h, log, n, c, x);
      if !(BringsShard(h, log, n, c, x)) && HasShard(StateAt(h, log, n), c, x) {
        var k :| 1 <= k <= n - 1 && BringsShard(h, log, k, c, x) && forall j :: k < j <= n - 1 ==> !TakesShard(h, log, j, c, x);
        assert forall j :: k < j <= n ==> !TakesShard(h, log, j, c, x);
      }
    }
  }

  // ---- activity ----

  /** The tenant is named, and no replica movement holds its status in place. */
  predicate NamedFree(h: Handlers, log: seq<Entry>, k: nat, names: set<string>, x: string)
    requires 1 <= k <= |log|
  {
    x in names && x in h.free(Before(h, log, k), log[k - 1].req, k)
  }

  /** What an update of status does, and all it does. */
  lemma StatusUpdated(h: Handlers, log: seq<Entry>, k: nat)
    requires 1 <= k <= |log| && log[k - 1].req.UpdateTenants? && OnTenants(h, log, k, log[k - 1].req.cls)
    ensures var s, s', r := Before(h, log, k), StateAt(h, log, k), log[k - 1].req;
            && s'.classes.Keys == s.classes.Keys && (forall c :: c in s.classes && c != r.cls ==> s'.classes[c] == s.classes[c])
            && s'.classes[r.cls].multiTenant && s'.classes[r.cls].shards.Keys == s.classes[r.cls].shards.Keys
            && forall x :: x in s.classes[r.cls].shards ==>
                 && s'.classes[r.cls].shards[x].born == s.classes[r.cls].shards[x].born
                 && (IsHot(s', r.cls, x) <==>
                       NamedFree(h, log, k, r.activate, x) || (IsHot(s, r.cls, x) && !NamedFree(h, log, k, r.deactivate, x)))
  {
  }

  predicate Heats(h: Handlers, log: seq<Entry>, k: nat, c: string, x: string)
    requires 1 <= k <= |log|
  {
    var s, r := Before(h, log, k), log[k - 1].req;
    || (Lays(h, log, k, c) && x in LaidDown(r) && (LaidDown(r)[x] || !r.multiTenant))
    || (OnTenants(h, log, k, c) && r.AddTenants? && x in r.names && x in r.active && !HasShard(s, c, x))
    || (OnTenants(h, log, k, c) && r.UpdateTenants? && HasShard(s, c, x) && NamedFree(h, log, k, r.activate, x))
  }

  predicate Cools(h: Handlers, log: seq<Entry>, k: nat, c: string, x: string)
    requires 1 <= k <= |log|
  {
    var r := log[k - 1].req;
    || TakesShard(h, log, k, c, x)
    || (Lays(h, log, k, c) && x in LaidDown(r) && !LaidDown(r)[x] && r.multiTenant)
    || (OnTenants(h, log, k, c) && r.UpdateTenants? && NamedFree(h, log, k, r.deactivate, x))
  }

  lemma HeatStep(h: Handlers, log: seq<Entry>, n: nat, c: string, x: string)
    requires 1 <= n <= |log|
    ensures IsHot(StateAt(h, log, n), c, x) <==>
              Heats(h, log, n, c, x) || (IsHot(StateAt(h, log, n - 1), c, x) && !Cools(h, log, n, c, x))
  {
    if log[n - 1].req.UpdateTenants? && OnTenants(h, log, n, log[n - 1].req.cls) {
      StatusUpdated(h, log, n);
    }
  }

  /** A shard is active exactly if some entry made it so and none has made it inactive,
      or taken it, since. */
  lemma {:induction false} ShardIsActiveIff(h: Handlers, log: seq<Entry>, n: nat, c: string, x: string)
    requires n <= |log|
    ensures IsHot(StateAt(h, log, n), c, x) <==>
              exists k :: 1 <= k <= n && Heats(h, log, k, c, x) && forall j :: k < j <= n ==> !Cools(h, log, j, c, x)
  {
    if n > 0 {
      ShardIsActiveIff(h, log, n - 1, c, x);
      HeatStep(h, log, n, c, x);
      if !(Heats(h, log, n, c, x)) && IsHot(StateAt(h, log, n), c, x) {
        var k :| 1 <= k <= n - 1 && Heats(h, log, k, c, x) && forall j :: k < j <= n - 1 ==> !Cools(h, log, j, c, x);
        assert forall j :: k < j <= n ==> !Cools(h, log, j, c, x);
      }
    }
  }

  // ---- aliases ----

  /** Entry k points the alias stored as a at some class: its creation, which stores it
      in canonical form, or a replacement, which stores it as it is spelled. */
  predicate Points(h: Handlers, log: seq<Entry>, k: nat, a: string)
    requires 1 <= k <= |log|
  {
    var s, r := Before(h, log, k), log[k - 1].req;
    && Unrefused(h, log, k) && (r.CreateAlias? || r.ReplaceAlias?) && r.cls in s.classes
    && if r.CreateAlias? then
         a == Canonical(r.alias) && a !in s.classes && forall b :: b in s.aliases ==> Fold(b) != Fold(a)
       else a == r.alias && exists b :: b in s.aliases && Fold(b) == Fold(a)
  }

  predicate PointsTo(h: Handlers, log: seq<Entry>, k: nat, a: string, c: string)
    requires 1 <= k <= |log|
  {
    Points(h, log, k, a) && log[k - 1].req.cls == c
  }

  predicate DeletesAlias(h: Handlers, log: seq<Entry>, k: nat, a: string)
    requires 1 <= k <= |log|
  {
    Unrefused(h, log, k) && log[k - 1].req.DeleteAlias? && Canonical(log[k - 1].req.alias) == a
  }

  /** Entry k makes the alias stop pointing at c. */
  predicate Diverts(h: Handlers, log: seq<Entry>, k: nat, a: string, c: string)
    requires 1 <= k <= |log|
  {
    DeletesAlias(h, log, k, a) || (Points(h, log, k, a) && log[k - 1].req.cls != c)
  }

  predicate PointsAt(s: State, a: string, c: string) {
    a in s.aliases && s.aliases[a] == c
  }

  lemma AliasStep(h: Handlers, log: seq<Entry>, n: nat, a: string, c: string)
    requires 1 <= n <= |log|
    ensures PointsAt(StateAt(h, log, n), a, c) <==>
              || PointsTo(h, log, n, a, c)
              || (PointsAt(StateAt(h, log, n - 1), a, c) && !Diverts(h, log, n, a, c))
  {
    if log[n - 1].req.CreateAlias? {
      CanonicalKeeps(log[n - 1].req.alias);
    }
  }

  /** An alias points at a class exactly if some entry pointed it there and none has
      pointed it elsewhere or deleted it since. */
  lemma {:induction false} AliasPointsAtIff(h: Handlers, log: seq<Entry>, n: nat, a: string, c: string)
    requires n <= |log|
    ensures PointsAt(StateAt(h, log, n), a, c) <==>
              exists k :: 1 <= k <= n && PointsTo(h, log, k, a, c)
                          && forall j :: k < j <= n ==> !Diverts(h, log, j, a, c)
  {
    if n > 0 {
      AliasPointsAtIff(h, log, n - 1, a, c);
      AliasStep(h, log, n, a, c);
      if !PointsTo(h, log, n, a, c) && PointsAt(StateAt(h, log, n), a, c) {
        var k :| 1 <= k <= n - 1 && PointsTo(h, log, k, a, c)
                 && forall j :: k < j <= n - 1 ==> !Diverts(h, log, j, a, c);
        assert forall j :: k < j <= n ==> !Diverts(h, log, j, a, c);
      }
    }
  }

  /** No two aliases differ only in case. */
  predicate AliasesApart(s: State) {
    forall a, b :: a in s.aliases && b in s.aliases && Fold(a) == Fold(b) ==> a == b
  }

  /** Entry k replaces an alias under a spelling that is not there. */
  predicate Respells(h: Handlers, log: seq<Entry>, k: nat)
    requires 1 <= k <= |log|
  {
    var r := log[k - 1].req;
    r.ReplaceAlias? && Points(h, log, k, r.alias) && r.alias !in Before(h, log, k).aliases
  }

  lemma AliasesApartStep(h: Handlers, log: seq<Entry>, n: nat)
    requires 1 <= n <= |log| && AliasesApart(StateAt(h, log, n - 1))
    ensures AliasesApart(StateAt(h, log, n)) <==> !Respells(h, log, n)
  {
    var s, s', r := StateAt(h, log, n - 1), StateAt(h, log, n), log[n - 1].req;
    if r.CreateAlias? {
      CanonicalKeeps(r.alias);
    }
    if Respells(h, log, n) {
      var b :| b in s.aliases && Fold(b) == Fold(r.alias);
      assert b in s'.aliases && r.alias in s'.aliases && b != r.alias;
    }
  }

  lemma {:induction false} AliasesStayApart(h: Handlers, log: seq<Entry>, n: nat)
    requires n <= |log| && forall k :: 1 <= k <= n ==> !Respells(h, log, k)
    ensures AliasesApart(StateAt(h, log, n))
  {
    if n == 0 {
      assert StateAt(h, log, 0) == Init;
    } else {
      AliasesStayApart(h, log, n - 1);
      AliasesApartStep(h, log, n);
    }
  }

  predicate ApartUpTo(h: Handlers, log: seq<Entry>, n: nat)
    requires n <= |log|
  {
    forall m :: 0 <= m <= n ==> AliasesApart(StateAt(h, log, m))
  }

  predicate NoneRespells(h: Handlers, log: seq<Entry>, n: nat)
    requires n <= |log|
  {
    forall k :: 1 <= k <= n ==> !Respells(h, log, k)
  }

  /** Alias names stay distinct up to case if and only if no replacement spells its
      alias otherwise: creation looks for the name up to case, replacement does too but
      stores it as it is spelled. */
  lemma AliasesApartIff(h: Handlers, log: seq<Entry>, n: nat)
    requires n <= |log|
    ensures ApartUpTo(h, log, n) <==> NoneRespells(h, log, n)
  {
    if NoneRespells(h, log, n) {
      forall m | 0 <= m <= n ensures AliasesApart(StateAt(h, log, m)) {
        AliasesStayApart(h, log, m);
      }
    }
    if ApartUpTo(h, log, n) {
      forall k | 1 <= k <= n ensures !Respells(h, log, k) {
        assert AliasesApart(StateAt(h, log, k - 1)) && AliasesApart(StateAt(h, log, k));
        AliasesApartStep(h, log, k);
      }
    }
  }

  const TwoSpellings: seq<Entry> := [Entry(Command, 1, 0, AddClass("A", false, map[])),
                                     Entry(Command, 1, 0, CreateAlias("b", "A")), Entry(Command, 1, 0, ReplaceAlias("b", "A"))]

  /** Concrete log: the alias is created in its canonical form and replaced as it is
      spelled, and then there are two. */
  lemma ReplaceAddsSpelling(h: Handlers)
    requires forall s, r, i :: !h.refuses(s, r, i)
    ensures StateAt(h, TwoSpellings, 3).aliases == map["B" := "A", "b" := "A"]
  {
    var log := TwoSpellings;
    assert SeparatorAt("") == 0 && "b"[1..] == "";
    assert Canonical("b") == "B";
    assert Fold("B") == "b" && Fold("b") == "b";
    assert StateAt(h, log, 0) == Init;
    assert StateAt(h, log, 1) == Apply(h, Init, log[0].req, 1);
    assert StateAt(h, log, 2) == Apply(h, StateAt(h, log, 1), log[1].req, 2);
    assert StateAt(h, log, 2).aliases == map["B" := "A"];
    assert AliasKnown(StateAt(h, log, 2), "b");
    assert StateAt(h, log, 3) == Apply(h, StateAt(h, log, 2), log[2].req, 3);
  }

  // ---- namespaces ----

  /** The state entry k puts the namespace in, if it does: a creation makes it active; a
      flip changes the state unless the index it expects has moved on, and may go from
      any state but deleting to any other, only not from active straight to resuming. */
  function SetsState(h: Handlers, log: seq<Entry>, k: nat, ns: string): Option<NsState>
    requires 1 <= k <= |log|
  {
    var s, r := Before(h, log, k), log[k - 1].req;
    if Unrefused(h, log, k) && r.AddNamespace? && r.name == ns && ns !in s.namespaces && r.home != "" then Some(Active)
    else if && log[k - 1].kind.Command? && r.ChangeNamespaceState? && r.name == ns && r.target.Some? && ns in s.namespaces
            && r.expected in {0, s.namespaces[ns].changedAt} && CanGo(s.namespaces[ns].state, r.target.value)
    then r.target
    else None
  }

  predicate CanGo(from: NsState, to: NsState) {
    from != Deleting && to != from && !(from == Active && to == Resuming)
  }

  /** Only a namespace under deletion that nothing goes by any more can be removed. */
  predicate EndsNamespace(h: Handlers, log: seq<Entry>, k: nat, ns: string)
    requires 1 <= k <= |log|
  {
    var s, r := Before(h, log, k), log[k - 1].req;
    && Unrefused(h, log, k) && r.RemoveNamespace? && r.name == ns && InState(s, ns, Deleting)
    && (forall c :: c in s.classes ==> NamespaceOf(c) != ns) && (forall a :: a in s.aliases ==> NamespaceOf(a) != ns)
  }

  predicate InState(s: State, ns: string, st: NsState) {
    ns in s.namespaces && s.namespaces[ns].state == st
  }

  predicate LeavesState(h: Handlers, log: seq<Entry>, k: nat, ns: string, st: NsState)
    requires 1 <= k <= |log|
  {
    EndsNamespace(h, log, k, ns) || SetsState(h, log, k, ns) !in {None, Some(st)}
  }

  lemma NamespaceStep(h: Handlers, log: seq<Entry>, n: nat, ns: string, st: NsState)
    requires 1 <= n <= |log|
    ensures InState(StateAt(h, log, n), ns, st) <==>
              SetsState(h, log, n, ns) == Some(st) || (InState(StateAt(h, log, n - 1), ns, st) && !LeavesState(h, log, n, ns, st))
  {
  }

  /** A namespace is in a state exactly if some entry put it there and none has put it in
      another or removed it since. */
  lemma {:induction false} NamespaceIsInStateIff(h: Handlers, log: seq<Entry>, n: nat, ns: string, st: NsState)
    requires n <= |log|
    ensures InState(StateAt(h, log, n), ns, st) <==>
              exists k :: 1 <= k <= n && SetsState(h, log, k, ns) == Some(st)
                          && forall j :: k < j <= n ==> !LeavesState(h, log, j, ns, st)
  {
    if n > 0 {
      NamespaceIsInStateIff(h, log, n - 1, ns, st);
      NamespaceStep(h, log, n, ns, st);
      if !(SetsState(h, log, n, ns) == Some(st)) && InState(StateAt(h, log, n), ns, st) {
        var k :| 1 <= k <= n - 1 && SetsState(h, log, k, ns) == Some(st)
                 && forall j :: k < j <= n - 1 ==> !LeavesState(h, log, j, ns, st);
        assert forall j :: k < j <= n ==> !LeavesState(h, log, j, ns, st);
      }
    }
  }

  /** Entry k puts the namespace at home on a node: its creation, or an update while it
      is not under deletion. */
  predicate Homes(h: Handlers, log: seq<Entry>, k: nat, ns: string)
    requires 1 <= k <= |log|
  {
    var s, r := Before(h, log, k), log[k - 1].req;
    && Unrefused(h, log, k) && (r.AddNamespace? || r.UpdateNamespace?) && r.name == ns && r.home != ""
    && if r.AddNamespace? then ns !in s.namespaces else ns in s.namespaces && !InState(s, ns, Deleting)
  }

  predicate AtHome(s: State, ns: string, home: string) {
    ns in s.namespaces && s.namespaces[ns].home == home
  }

  predicate LeavesHome(h: Handlers, log: seq<Entry>, k: nat, ns: string, home: string)
    requires 1 <= k <= |log|
  {
    EndsNamespace(h, log, k, ns) || (Homes(h, log, k, ns) && log[k - 1].req.home != home)
  }

  lemma HomeStep(h: Handlers, log: seq<Entry>, n: nat, ns: string, home: string)
    requires 1 <= n <= |log|
    ensures AtHome(StateAt(h, log, n), ns, home) <==>
              || (Homes(h, log, n, ns) && log[n - 1].req.home == home)
              || (AtHome(StateAt(h, log, n - 1), ns, home) && !LeavesHome(h, log, n, ns, home))
  {
  }

  lemma {:induction false} NamespaceIsAtHomeIff(h: Handlers, log: seq<Entry>, n: nat, ns: string, home: string)
    requires n <= |log|
    ensures AtHome(StateAt(h, log, n), ns, home) <==>
              exists k :: 1 <= k <= n && Homes(h, log, k, ns) && log[k - 1].req.home == home
                          && forall j :: k < j <= n ==> !LeavesHome(h, log, j, ns, home)
  {
    if n > 0 {
      NamespaceIsAtHomeIff(h, log, n - 1, ns, home);
      HomeStep(h, log, n, ns, home);
      if !(Homes(h, log, n, ns) && log[n - 1].req.home == home) && AtHome(StateAt(h, log, n), ns, home) {
        var k :| 1 <= k <= n - 1 && Homes(h, log, k, ns) && log[k - 1].req.home == home
                 && forall j :: k < j <= n - 1 ==> !LeavesHome(h, log, j, ns, home);
        assert forall j :: k < j <= n ==> !LeavesHome(h, log, j, ns, home);
      }
    }
  }

  // ---- what the other managers keep ----

  /** Which commands take effect, by all that was said above: those that create, rewrite,
      delete, point or flip something; setting a cluster id that is not empty; and the
      rest unless their manager refuses, except a command of no known type. */
  lemma TakesIff(h: Handlers, log: seq<Entry>, k: nat)
    requires 1 <= k <= |log|
    ensures Takes(h, log, k) <==>
              && log[k - 1].kind.Command?
              && match log[k - 1].req
                 case AddClass(c, _, _) => CreatesClass(h, log, k, c)
                 case RestoreClass(c, _, _) => CreatesClass(h, log, k, c)
                 case UpdateClass(c, _, _) => Rewrites(h, log, k, c)
                 case EditClass(c) => Rewrites(h, log, k, c)
                 case DeleteClass(c) => DeletesClass(h, log, k, c)
                 case AddTenants(c, _, _) => OnTenants(h, log, k, c)
                 case UpdateTenants(c, _, _) => OnTenants(h, log, k, c)
                 case DeleteTenants(c, _) => OnTenants(h, log, k, c)
                 case CreateAlias(a, _) => Points(h, log, k, Canonical(a))
                 case ReplaceAlias(a, _) => Points(h, log, k, a)
                 case DeleteAlias(a) => DeletesAlias(h, log, k, Canonical(a))
                 case AddNamespace(ns, _) => Homes(h, log, k, ns)
                 case UpdateNamespace(ns, _) => Homes(h, log, k, ns)
                 case ChangeNamespaceState(ns, target, _) => target.Some? && SetsState(h, log, k, ns) == target
                 case RemoveNamespace(ns) => EndsNamespace(h, log, k, ns)
                 case ClusterIDSet(id) => id != ""
                 case Unknown => false
                 case _ => Unrefused(h, log, k)
  {
    if log[k - 1].req.CreateAlias? {
      CanonicalKeeps(log[k - 1].req.alias);
    }
  }

  /** No command among j+1 .. n took effect. */
  predicate NoneTook(h: Handlers, log: seq<Entry>, j: nat, n: nat)
    requires j <= n <= |log|
  {
    forall k :: j < k <= n ==> !Takes(h, log, k)
  }

  lemma {:induction false} NothingChanges(h: Handlers, log: seq<Entry>, j: nat, n: nat)
    requires j <= n <= |log| && NoneTook(h, log, j, n)
    ensures StateAt(h, log, n) == StateAt(h, log, j)
    decreases n
  {
    if j < n {
      NothingChanges(h, log, j, n - 1);
      assert !Takes(h, log, n);
    }
  }

  /** Each of the other managers holds what it made of the last command that took effect,
      and nothing before there was one. */
  lemma ManagersKeepLastWord(h: Handlers, log: seq<Entry>, k: nat, n: nat)
    requires k <= n <= |log| && NoneTook(h, log, k, n) && (k > 0 ==> Takes(h, log, k))
    ensures var s := StateAt(h, log, n);
            if k == 0 then s == Init
            else
              var was, r := Before(h, log, k), log[k - 1].req;
              && s.rbac == h.rbac(was, r, k) && s.users == h.users(was, r, k)
              && s.tasks == h.tasks(was, r, k) && s.replication == h.replication(was, r, k)
  {
    NothingChanges(h, log, k, n);
  }

  /** Entry k rewrites class c. */
  predicate Rewrites(h: Handlers, log: seq<Entry>, k: nat, c: string)
    requires 1 <= k <= |log|
  {
    var s, r := Before(h, log, k), log[k - 1].req;
    || CreatesClass(h, log, k, c)
    || (Unrefused(h, log, k) && r.EditClass? && r.cls == c && c in s.classes)
    || (Unrefused(h, log, k) && r.UpdateClass? && r.cls == c && c in s.classes && s.classes[c].multiTenant == r.multiTenant)
    || OnTenants(h, log, k, c)
  }

  /** The inside of a class is what the last command that rewrote it made of it. */
  lemma {:induction false} ClassKeepsLastWord(h: Handlers, log: seq<Entry>, k: nat, n: nat, c: string)
    requires 1 <= k <= n <= |log| && Rewrites(h, log, k, c) && c in StateAt(h, log, n).classes
    requires forall j :: k < j <= n ==> !Rewrites(h, log, j, c)
    ensures StateAt(h, log, n).classes[c].detail == h.detail(Before(h, log, k), log[k - 1].req, k)
    decreases n
  {
    if k < n {
      RewriteStep(h, log, n, c);
      ClassKeepsLastWord(h, log, k, n - 1, c);
    }
  }

  lemma RewriteStep(h: Handlers, log: seq<Entry>, n: nat, c: string)
    requires 1 <= n <= |log| && !Rewrites(h, log, n, c) && c in StateAt(h, log, n).classes
    ensures c in StateAt(h, log, n - 1).classes
    ensures StateAt(h, log, n).classes[c] == StateAt(h, log, n - 1).classes[c]
  {
  }
}
