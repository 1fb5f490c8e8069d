/** What the leader decides before it appends a command: namespace admission
    and the schema filter with the tenant cap. Both read the leader's own
    state machine. */
module Admission {
  import opened Fsm

  datatype Refusal =
    | NamespaceGone
    | NamespaceSuspended
    | NamespaceResuming
    | NamespaceDeleting
    | BadSubject
    | AlreadyExists
    | SimilarExists
    | LimitExceeded

  type Verdict = Option<Refusal>

  function StateError(state: NsState): Verdict {
    match state
    case Active => None
    case Suspended => Some(NamespaceSuspended)
    case Resuming => Some(NamespaceResuming)
    case Deleting => Some(NamespaceDeleting)
  }

  /** The refusal says what is the matter with the namespace. */
  predicate Explains(s: State, ns: string, why: Refusal) {
    match why
    case NamespaceGone => ns !in s.namespaces
    case NamespaceSuspended => ns in s.namespaces && s.namespaces[ns].state == Suspended
    case NamespaceResuming => ns in s.namespaces && s.namespaces[ns].state == Resuming
    case NamespaceDeleting => ns in s.namespaces && s.namespaces[ns].state == Deleting
    case _ => false
  }

  function RequireActive(s: State, name: string): (v: Verdict)
    ensures v.None? <==> name == "" || (name in s.namespaces && s.namespaces[name].state == Active)
    ensures v.Some? ==> Explains(s, name, v.value)
  {
    if name == "" then None
    else if name !in s.namespaces then Some(NamespaceGone)
    else StateError(s.namespaces[name].state)
  }

  function AdmitDestructiveApply(s: State, name: string): (v: Verdict)
    ensures v.None? <==> name == "" || (name in s.namespaces && s.namespaces[name].state in {Active, Deleting})
    ensures v.Some? ==> Explains(s, name, v.value)
  {
    if name == "" then None
    else if name !in s.namespaces then Some(NamespaceGone)
    else if s.namespaces[name].state == Deleting then None
    else StateError(s.namespaces[name].state)
  }

  function AdmitDestructive(s: State, r: Request): Verdict {
    match r
    case DeleteClass(c) => AdmitDestructiveApply(s, NamespaceOf(c))
    case DeleteTenants(c, _) => AdmitDestructiveApply(s, NamespaceOf(c))
    case DeleteAlias(a) => AdmitDestructiveApply(s, NamespaceOf(a))
    case _ => None
  }

  /** The loop over the roles of an upsert stops at the first refusal, in an
      order the map does not fix. */
  method AdmitRoles(s: State, roles: set<string>) returns (v: Verdict)
    ensures v.None? <==> forall name :: name in roles ==> RequireActive(s, NamespaceOf(name)).None?
    ensures v.Some? ==> exists name :: name in roles && RequireActive(s, NamespaceOf(name)) == v
  {
    var todo := roles;
    while todo != {}
      invariant todo <= roles
      invariant forall name :: name in roles - todo ==> RequireActive(s, NamespaceOf(name)).None?
      decreases todo
    {
      var name :| name in todo;
      v := RequireActive(s, NamespaceOf(name));
      if v.Some? {
        return v;
      }
      todo := todo - {name};
    }
    return None;
  }

  predicate RolesAdmitted(s: State, roles: set<string>) {
    forall name :: name in roles ==> RequireActive(s, NamespaceOf(name)).None?
  }

  predicate CreateLikeAdmitted(s: State, r: Request) {
    match r
    case AddClass(c, _, _) => RequireActive(s, NamespaceOf(c)).None?
    case RestoreClass(c, _, _) => RequireActive(s, NamespaceOf(c)).None?
    case AddTenants(c, _, _) => RequireActive(s, NamespaceOf(c)).None?
    case UpdateTenants(c, _, _) => RequireActive(s, NamespaceOf(c)).None?
    case CreateAlias(a, _) => RequireActive(s, NamespaceOf(a)).None?
    case ReplaceAlias(a, _) => RequireActive(s, NamespaceOf(a)).None?
    case UpsertRoles(roles) => RolesAdmitted(s, roles)
    case AddRolesForUser(ns) => ns.Some? && RequireActive(s, ns.value).None?
    case UpsertUser(ns) => RequireActive(s, ns).None?
    case _ => true
  }

  /** admitPropose as a decision. */
  predicate Admits(s: State, r: Request) {
    && AdmitDestructive(s, r).None?
    && CreateLikeAdmitted(s, r)
    && (r.UpdateShardStatus? ==> RequireActive(s, NamespaceOf(r.cls)).None?)
  }

  /** The namespaces a command is judged by. */
  function Concerned(r: Request): set<string> {
    match r
    case DeleteClass(c) => {NamespaceOf(c)}
    case DeleteTenants(c, _) => {NamespaceOf(c)}
    case DeleteAlias(a) => {NamespaceOf(a)}
    case AddClass(c, _, _) => {NamespaceOf(c)}
    case RestoreClass(c, _, _) => {NamespaceOf(c)}
    case AddTenants(c, _, _) => {NamespaceOf(c)}
    case UpdateTenants(c, _, _) => {NamespaceOf(c)}
    case UpdateShardStatus(c) => {NamespaceOf(c)}
    case CreateAlias(a, _) => {NamespaceOf(a)}
    case ReplaceAlias(a, _) => {NamespaceOf(a)}
    case UpsertRoles(roles) => set name | name in roles :: NamespaceOf(name)
    case AddRolesForUser(ns) => if ns.Some? then {ns.value} else {}
    case UpsertUser(ns) => {ns}
    case _ => {}
  }

  /** admitPropose step by step, with the refusal it answers. */
  method AdmitPropose(s: State, r: Request) returns (v: Verdict)
    ensures v.None? <==> Admits(s, r)
    ensures v.Some? ==> if r.AddRolesForUser? && r.subjectNamespace.None? then v.value == BadSubject
                        else exists ns :: ns in Concerned(r) && Explains(s, ns, v.value)
  {
    v := AdmitDestructive(s, r);
    if v.Some? {
      return;
    }
    match r {
      case UpsertRoles(roles) =>
        v := AdmitRoles(s, roles);
        if v.Some? {
          ghost var name :| name in roles && RequireActive(s, NamespaceOf(name)) == v;
          assert NamespaceOf(name) in Concerned(r);
        }
      case AddRolesForUser(ns) => v := if ns.None? then Some(BadSubject) else RequireActive(s, ns.value);
      case UpsertUser(ns) => v := RequireActive(s, ns);
      case CreateAlias(a, _) => v := RequireActive(s, NamespaceOf(a));
      case ReplaceAlias(a, _) => v := RequireActive(s, NamespaceOf(a));
      case AddClass(c, _, _) => v := RequireActive(s, NamespaceOf(c));
      case RestoreClass(c, _, _) => v := RequireActive(s, NamespaceOf(c));
      case AddTenants(c, _, _) => v := RequireActive(s, NamespaceOf(c));
      case UpdateTenants(c, _, _) => v := RequireActive(s, NamespaceOf(c));
      case UpdateShardStatus(c) => v := RequireActive(s, NamespaceOf(c));
      case _ =>
    }
  }

  /** How many of the incoming names are new; a repeated name counts each time. */
  function Additions(shards: set<string>, names: seq<string>): nat {
    if names == [] then 0
    else (if names[0] in shards then 0 else 1) + Additions(shards, names[1..])
  }

  /** tenantCapUsage and the comparison; a class the leader does not know is not
      checked, a negative cap means unlimited. */
  predicate CapAllows(s: State, r: Request, cap: int) {
    r.AddTenants? && cap >= 0 && r.cls in s.classes ==>
      |s.classes[r.cls].shards| + Additions(s.classes[r.cls].shards.Keys, r.names) <= cap
  }

  /** No class and no alias has this name, in any spelling of its case. */
  predicate NameFree(s: State, name: string) {
    && (forall c :: c in s.classes ==> Fold(c) != Fold(name))
    && (forall a :: a in s.aliases ==> Fold(a) != Fold(name))
  }

  method FindFolded(names: set<string>, name: string) returns (r: Option<string>)
    ensures r.None? <==> forall x :: x in names ==> Fold(x) != Fold(name)
    ensures r.Some? ==> r.value in names && Fold(r.value) == Fold(name)
  {
    var todo := names;
    while todo != {}
      invariant todo <= names
      invariant forall x :: x in names - todo ==> Fold(x) != Fold(name)
      decreases |todo|
    {
      var x :| x in todo;
      if Fold(x) == Fold(name) {
        return Some(x);
      }
      todo := todo - {x};
    }
    return None;
  }

  /** unsafeClassEqual: aliases first, then classes. */
  method ClassEqual(s: State, name: string) returns (other: Option<string>, isAlias: bool)
    ensures other.None? <==> NameFree(s, name)
    ensures other.Some? ==> Fold(other.value) == Fold(name)
    ensures other.Some? ==> if isAlias then other.value in s.aliases else other.value in s.classes
    ensures !isAlias ==> forall a :: a in s.aliases ==> Fold(a) != Fold(name)
  {
    other := FindFolded(s.aliases.Keys, name);
    isAlias := other.Some?;
    if other.None? {
      other := FindFolded(s.classes.Keys, name);
    }
  }

  /** PreApplyFilter as a decision. */
  predicate Filtered(s: State, r: Request, cap: int) {
    && (r.AddClass? || r.RestoreClass? ==> NameFree(s, r.cls))
    && CapAllows(s, r, cap)
  }

  method PreApplyFilter(s: State, r: Request, cap: int) returns (v: Verdict)
    ensures v.None? <==> Filtered(s, r, cap)
    ensures v.Some? ==> if r.AddTenants? then v.value == LimitExceeded else v.value in {AlreadyExists, SimilarExists}
    ensures v == Some(AlreadyExists) ==> r.cls in s.classes || r.cls in s.aliases
    ensures v == Some(SimilarExists) ==>
              exists x :: (x in s.classes || x in s.aliases) && x != r.cls && Fold(x) == Fold(r.cls)
  {
    if r.AddClass? || r.RestoreClass? {
      var other, _ := ClassEqual(s, r.cls);
      if other.Some? {
        return Some(if other.value == r.cls then AlreadyExists else SimilarExists);
      }
    }
    if r.AddTenants? && cap >= 0 && r.cls in s.classes {
      var shards := s.classes[r.cls].shards.Keys;
      var additions, k := 0, 0;
      while k < |r.names|
        invariant 0 <= k <= |r.names|
        invariant additions + Additions(shards, r.names[k..]) == Additions(shards, r.names)
      {
        if r.names[k] !in shards {
          additions := additions + 1;
        }
        k := k + 1;
      }
      if |s.classes[r.cls].shards| + additions > cap {
        return Some(LimitExceeded);
      }
    }
    return None;
  }

  /** The count the filter uses never falls below the real growth. */
  lemma {:induction false} AdditionsCoverGrowth(shards: set<string>, names: seq<string>)
    ensures |shards + Names(names)| <= |shards| + Additions(shards, names)
  {
    if names == [] {
      assert shards + Names(names) == shards;
    } else {
      AdditionsCoverGrowth(shards, names[1..]);
      var rest := shards + Names(names[1..]);
      assert Names(names) == {names[0]} + Names(names[1..]);
      assert shards + Names(names) == rest + {names[0]};
      if names[0] in rest {
        assert rest + {names[0]} == rest;
      }
    }
  }

  predicate NewNamesDistinct(shards: set<string>, names: seq<string>) {
    forall i, j :: 0 <= i < j < |names| && names[i] !in shards ==> names[i] != names[j]
  }

  lemma NewNamesDistinctTail(shards: set<string>, names: seq<string>)
    requires names != []
    ensures NewNamesDistinct(shards, names) <==>
              NewNamesDistinct(shards, names[1..]) && (names[0] in shards || names[0] !in names[1..])
  {
    if NewNamesDistinct(shards, names[1..]) && (names[0] in shards || names[0] !in names[1..]) {
      forall i, j | 0 <= i < j < |names| && names[i] !in shards ensures names[i] != names[j] {
        if i == 0 {
          assert names[j] == names[1..][j - 1];
        } else {
          assert names[i] == names[1..][i - 1] && names[j] == names[1..][j - 1];
        }
      }
    }
  }

  lemma {:induction false} AdditionsExactIff(shards: set<string>, names: seq<string>)
    ensures |shards + Names(names)| == |shards| + Additions(shards, names) <==> NewNamesDistinct(shards, names)
  {
    if names == [] {
      assert shards + Names(names) == shards;
    } else {
      AdditionsExactIff(shards, names[1..]);
      AdditionsCoverGrowth(shards, names[1..]);
      NewNamesDistinctTail(shards, names);
      var rest := shards + Names(names[1..]);
      assert shards + Names(names) == rest + {names[0]};
      if names[0] in rest {
        assert rest + {names[0]} == rest;
      }
    }
  }

  /** The cap admits exactly the additions that stay within it, whatever the cap, if and
      only if no new name is given twice. */
  lemma CapIsExactIff(s: State, r: Request)
    requires r.AddTenants? && r.cls in s.classes
    ensures (forall cap :: cap >= 0 ==> (CapAllows(s, r, cap) <==> |s.classes[r.cls].shards.Keys + Names(r.names)| <= cap))
            <==> NewNamesDistinct(s.classes[r.cls].shards.Keys, r.names)
  {
    var shards := s.classes[r.cls].shards.Keys;
    AdditionsExactIff(shards, r.names);
    AdditionsCoverGrowth(shards, r.names);
    assert CapAllows(s, r, |shards + Names(r.names)|) <==> NewNamesDistinct(shards, r.names);
  }

  predicate IsActive(s: State, ns: string) {
    ns in s.namespaces && s.namespaces[ns].state == Active
  }

  predicate IsDeletion(r: Request) {
    r.DeleteClass? || r.DeleteTenants? || r.DeleteAlias?
  }

  /** Which commands are judged by a namespace: those that create, restore or delete a
      class, touch its tenants or the status of its shards, by the class's namespace;
      those on aliases, by the alias's, wherever it points; roles by their names'; users
      and the subjects of roles by their own. All others concern none. */
  lemma ConcernedIs(r: Request, ns: string)
    ensures ns in Concerned(r) <==>
              || (&& (r.AddClass? || r.RestoreClass? || r.DeleteClass? || r.AddTenants? || r.UpdateTenants? || r.DeleteTenants?
                      || r.UpdateShardStatus?)
                  && NamespaceOf(r.cls) == ns)
              || ((r.CreateAlias? || r.ReplaceAlias? || r.DeleteAlias?) && NamespaceOf(r.alias) == ns)
              || (r.UpsertRoles? && exists name :: name in r.roles && NamespaceOf(name) == ns)
              || (r.AddRolesForUser? && r.subjectNamespace == Some(ns))
              || (r.UpsertUser? && r.namespace == ns)
  {
  }

  lemma SingleAdmitsIff(s: State, r: Request, ns: string)
    requires !r.UpsertRoles? && ns in Concerned(r)
    ensures Concerned(r) == {ns}
    ensures Admits(s, r) <==>
              ns == "" || IsActive(s, ns) || (IsDeletion(r) && ns in s.namespaces && s.namespaces[ns].state == Deleting)
  {
  }

  lemma RolesAdmitsIff(s: State, r: Request)
    requires r.UpsertRoles?
    ensures Admits(s, r) <==> forall ns :: ns in Concerned(r) ==> ns == "" || IsActive(s, ns)
  {
    forall name | name in r.roles ensures NamespaceOf(name) in Concerned(r) {
    }
  }

  lemma UnjudgedAdmitted(s: State, r: Request)
    requires !r.UpsertRoles? && Concerned(r) == {} && !(r.AddRolesForUser? && r.subjectNamespace.None?)
    ensures Admits(s, r)
  {
  }

  /** What admission decides: every namespace the command is judged by is none, or
      active, or deleting and the command a deletion; and the subject of a role
      assignment is known. */
  lemma AdmitsIff(s: State, r: Request)
    ensures Admits(s, r) <==>
              && (r.AddRolesForUser? ==> r.subjectNamespace.Some?)
              && forall ns :: ns in Concerned(r) ==>
                   ns == "" || IsActive(s, ns) || (IsDeletion(r) && ns in s.namespaces && s.namespaces[ns].state == Deleting)
  {
    if r.UpsertRoles? {
      RolesAdmitsIff(s, r);
    } else if Concerned(r) != {} {
      var ns :| ns in Concerned(r);
      SingleAdmitsIff(s, r, ns);
    } else if !(r.AddRolesForUser? && r.subjectNamespace.None?) {
      UnjudgedAdmitted(s, r);
    }
  }

  /** A command that may add a class or an alias of namespace ns; replacing an alias
      under another spelling adds one. */
  predicate Creates(r: Request, ns: string) {
    || ((r.AddClass? || r.RestoreClass?) && NamespaceOf(r.cls) == ns)
    || ((r.CreateAlias? || r.ReplaceAlias?) && NamespaceOf(r.alias) == ns)
  }

  predicate Deletes(r: Request, ns: string) {
    || ((r.DeleteClass? || r.DeleteTenants?) && NamespaceOf(r.cls) == ns)
    || (r.DeleteAlias? && NamespaceOf(r.alias) == ns)
  }

  /** The asymmetry of a namespace under deletion: nothing may be created in it,
      everything in it may still be deleted. In the suspended and resuming states
      both are refused, in the active state both pass. */
  lemma DeletingAdmitsOnlyCleanup(s: State, ns: string, r: Request)
    requires ns != "" && ns in s.namespaces
    ensures Deletes(r, ns) ==> (Admits(s, r) <==> s.namespaces[ns].state in {Active, Deleting})
    ensures Creates(r, ns) ==> (Admits(s, r) <==> s.namespaces[ns].state == Active)
  {
  }
}
