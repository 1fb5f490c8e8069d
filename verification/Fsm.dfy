/** The replicated state machine: the state every node rebuilds from the raft
    log, and what one committed command does to it.

    The managers whose internals are not modelled (RBAC, users, distributed
    tasks, replication operations, the details of a class) are arbitrary
    deterministic functions of the whole state, the command and its log index. */
module Fsm {

  type Blob = seq<int>

  datatype Option<+T> = None | Some(value: T)

  datatype NsState = Active | Suspended | Resuming | Deleting

  /** changedAt is the StateChangeIndex: the log index of the last state flip,
      or of the creation. */
  datatype Namespace = Namespace(home: string, state: NsState, changedAt: nat)

  /** A shard: the index of the command that created it, and whether it is active. */
  datatype Partition = Partition(born: nat, hot: bool)

  /** shards are the entries of Sharding.Physical, the tenants of a multi-tenant class. */
  datatype ClassMeta = ClassMeta(multiTenant: bool, shards: map<string, Partition>, detail: Blob)

  datatype State = State(
    classes: map<string, ClassMeta>,
    aliases: map<string, string>,
    namespaces: map<string, Namespace>,
    rbac: Blob,
    users: Blob,
    tasks: Blob,
    replication: Blob,
    clusterID: string)

  const Init: State := State(map[], map[], map[], [], [], [], [], "")

  /** The command types of the apply switch. EditClass stands for the commands
      that rewrite a class in place without adding or removing shards; Manager
      for the commands that only touch RBAC, users, tasks or replication. A sharding
      state says of each shard whether it is active; the shards of a single-tenant
      class always are. */
  datatype Request =
    | AddClass(cls: string, multiTenant: bool, shards: map<string, bool>)
    | RestoreClass(cls: string, multiTenant: bool, shards: map<string, bool>)
    | UpdateClass(cls: string, multiTenant: bool, newShards: Option<map<string, bool>>)
    | DeleteClass(cls: string)
    | EditClass(cls: string)
    | UpdateShardStatus(cls: string)
    | AddTenants(cls: string, names: seq<string>, active: set<string>)
    | UpdateTenants(cls: string, activate: set<string>, deactivate: set<string>)
    | DeleteTenants(cls: string, names: seq<string>)
    | CreateAlias(alias: string, cls: string)
    | ReplaceAlias(alias: string, cls: string)
    | DeleteAlias(alias: string)
    | AddNamespace(name: string, home: string)
    | UpdateNamespace(name: string, home: string)
    | ChangeNamespaceState(name: string, target: Option<NsState>, expected: nat)
    | RemoveNamespace(name: string)
    | UpsertRoles(roles: set<string>)
    | AddRolesForUser(subjectNamespace: Option<string>)
    | UpsertUser(namespace: string)
    | Manager(op: Blob)
    | ClusterIDSet(id: string)
    | Unknown

  /** free: the tenants whose status no replica movement holds in place. */
  datatype Handlers = Handlers(
    refuses: (State, Request, nat) -> bool,
    free: (State, Request, nat) -> set<string>,
    detail: (State, Request, nat) -> Blob,
    rbac: (State, Request, nat) -> Blob,
    users: (State, Request, nat) -> Blob,
    tasks: (State, Request, nat) -> Blob,
    replication: (State, Request, nat) -> Blob)

  datatype Kind = Command | NoOp | Configuration | Barrier

  /** A raft log entry. judged is a history variable of the cluster model: the
      length of the log prefix the proposer's state machine held when it was
      admitted. */
  datatype Entry = Entry(kind: Kind, term: nat, judged: nat, req: Request)

  /** Class and alias names are ASCII, so this is strings.ToLower and, compared,
      strings.EqualFold on them. */
  function Lower(c: char): char {
    if 'A' <= c <= 'Z' then c - 'A' + 'a' else c
  }

  /** The name up to case, which is also the id and the directory of its index. */
  function Fold(name: string): string {
    seq(|name|, i requires 0 <= i < |name| => Lower(name[i]))
  }

  /** strings.Cut at the first namespace separator. */
  function NamespaceOf(name: string): string {
    var k := SeparatorAt(name);
    if k < |name| then name[..k] else ""
  }

  /** The namespace of a qualified name is what was put in front; a name without a
      separator has none. */
  lemma QualifiedName(ns: string, rest: string, plain: string)
    requires ':' !in ns && ':' !in plain
    ensures NamespaceOf(ns + ":" + rest) == ns && NamespaceOf(plain) == ""
  {
    var name := ns + ":" + rest;
    assert name[|ns|] == ':' && name[..|ns|] == ns;
    assert forall j :: 0 <= j < |ns| ==> name[j] == ns[j];
    assert SeparatorAt(name) == |ns|;
  }

  function Upper(c: char): char {
    if 'a' <= c <= 'z' then c - 'a' + 'A' else c
  }

  /** UppercaseClassName: the form in which alias names are stored. The namespace
      stays as it is. */
  function Canonical(name: string): string {
    var i := EntityAt(name);
    if i < |name| then name[i := Upper(name[i])] else name
  }

  /** Where the name proper begins, past the namespace. */
  function EntityAt(name: string): nat {
    var k := SeparatorAt(name);
    if k < |name| then k + 1 else 0
  }

  /** The stored form differs in the case of one letter at most, the first of the name
      proper, which it makes upper case. */
  lemma CanonicalKeeps(name: string)
    ensures NamespaceOf(Canonical(name)) == NamespaceOf(name) && Fold(Canonical(name)) == Fold(name)
    ensures EntityAt(name) < |name| ==> !('a' <= Canonical(name)[EntityAt(name)] <= 'z')
  {
    var r, i := Canonical(name), EntityAt(name);
    if i < |name| {
      var k := SeparatorAt(name);
      if k < |name| {
        var rest := name[k + 1..][0 := Upper(name[i])];
        assert name == name[..k] + ":" + name[k + 1..];
        assert r == name[..k] + ":" + rest;
        QualifiedName(name[..k], name[k + 1..], "");
        QualifiedName(name[..k], rest, "");
      } else {
        assert name[..k] == name;
        assert forall j :: 0 <= j < |r| ==> r[j] != ':';
        QualifiedName("", "", name);
        QualifiedName("", "", r);
      }
      assert Fold(r) == Fold(name);
    }
  }

  function SeparatorAt(name: string): (k: nat)
    ensures k <= |name|
    ensures k < |name| ==> name[k] == ':'
    ensures ':' !in name[..k]
  {
    if name == "" then 0
    else if name[0] == ':' then 0
    else
      var k := 1 + SeparatorAt(name[1..]);
      assert name[..k] == [name[0]] + name[1..][..k - 1];
      k
  }

  /** stateTransitions of the namespace controller. */
  predicate Legal(from: NsState, to: NsState) {
    match from
    case Active => to == Suspended || to == Deleting
    case Suspended => to == Resuming || to == Active || to == Deleting
    case Resuming => to == Active || to == Suspended || to == Deleting
    case Deleting => false
  }

  /** Controller.ChangeState past its same-state shortcut: the flip happens. */
  predicate Flips(s: State, name: string, target: Option<NsState>, expected: nat, index: nat) {
    && index != 0
    && target.Some?
    && name in s.namespaces
    && s.namespaces[name].state != target.value
    && (expected != 0 ==> s.namespaces[name].changedAt == expected)
    && Legal(s.namespaces[name].state, target.value)
  }

  predicate NamespaceEmpty(s: State, name: string) {
    && (forall c :: c in s.classes ==> NamespaceOf(c) != name)
    && (forall a :: a in s.aliases ==> NamespaceOf(a) != name)
  }

  /** Aliases are told apart up to case. */
  predicate AliasKnown(s: State, alias: string) {
    exists a :: a in s.aliases && Fold(a) == Fold(alias)
  }

  /** The command reaches its mutation: neither its manager nor a guard refused it. */
  predicate Accepts(h: Handlers, s: State, r: Request, index: nat) {
    && (r.ClusterIDSet? || r.ChangeNamespaceState? || !h.refuses(s, r, index))
    && match r
       case AddClass(c, _, _) => c !in s.classes
       case RestoreClass(c, _, _) => c !in s.classes
       case UpdateClass(c, mt, _) => c in s.classes && s.classes[c].multiTenant == mt
       case EditClass(c) => c in s.classes
       case AddTenants(c, _, _) => c in s.classes && s.classes[c].multiTenant
       case UpdateTenants(c, _, _) => c in s.classes && s.classes[c].multiTenant
       case DeleteTenants(c, _) => c in s.classes && s.classes[c].multiTenant
       case CreateAlias(a, c) => !AliasKnown(s, a) && c in s.classes && Canonical(a) !in s.classes
       case ReplaceAlias(a, c) => AliasKnown(s, a) && c in s.classes
       case AddNamespace(n, home) => index != 0 && n !in s.namespaces && home != ""
       case UpdateNamespace(n, home) => n in s.namespaces && s.namespaces[n].state != Deleting && home != ""
       case ChangeNamespaceState(n, t, e) => Flips(s, n, t, e, index)
       case RemoveNamespace(n) =>
         n in s.namespaces && s.namespaces[n].state == Deleting && NamespaceEmpty(s, n)
       case ClusterIDSet(id) => id != ""
       case Unknown => false
       case _ => true
  }

  function Names(xs: seq<string>): set<string> {
    set x | x in xs
  }

  function Born(shards: map<string, bool>, multiTenant: bool, index: nat): map<string, Partition> {
    map x | x in shards :: Partition(index, shards[x] || !multiTenant)
  }

  /** A new sharding state keeps the shards it names again. */
  function Reshaped(m: ClassMeta, shards: map<string, bool>, index: nat): map<string, Partition> {
    map x | x in shards ::
      Partition(if x in m.shards then m.shards[x].born else index, shards[x] || !m.multiTenant)
  }

  /** Names that are there already are left alone. */
  function Joined(m: ClassMeta, names: seq<string>, active: set<string>, index: nat): map<string, Partition> {
    m.shards + map x | x in Names(names) - m.shards.Keys :: Partition(index, x in active)
  }

  function Switched(m: ClassMeta, activate: set<string>, deactivate: set<string>): map<string, Partition> {
    map x | x in m.shards ::
      m.shards[x].(hot := if x in activate then true else if x in deactivate then false else m.shards[x].hot)
  }

  function Classes(h: Handlers, s: State, r: Request, index: nat): map<string, ClassMeta>
    requires Accepts(h, s, r, index)
  {
    var d := h.detail(s, r, index);
    match r
    case AddClass(c, mt, shards) => s.classes[c := ClassMeta(mt, Born(shards, mt, index), d)]
    case RestoreClass(c, mt, shards) => s.classes[c := ClassMeta(mt, Born(shards, mt, index), d)]
    case UpdateClass(c, mt, shards) =>
      var m := s.classes[c];
      s.classes[c := ClassMeta(mt, if shards.Some? then Reshaped(m, shards.value, index) else m.shards, d)]
    case DeleteClass(c) => s.classes - {c}
    case EditClass(c) => s.classes[c := s.classes[c].(detail := d)]
    case AddTenants(c, names, active) =>
      var m := s.classes[c];
      s.classes[c := m.(shards := Joined(m, names, active, index), detail := d)]
    case UpdateTenants(c, activate, deactivate) =>
      var m, free := s.classes[c], h.free(s, r, index);
      s.classes[c := m.(shards := Switched(m, activate * free, deactivate * free), detail := d)]
    case DeleteTenants(c, names) =>
      var m := s.classes[c];
      s.classes[c := m.(shards := m.shards - Names(names), detail := d)]
    case _ => s.classes
  }

  function Aliases(s: State, r: Request): map<string, string> {
    match r
    case CreateAlias(a, c) => s.aliases[Canonical(a) := c]
    case ReplaceAlias(a, c) => s.aliases[a := c]
    case DeleteAlias(a) => s.aliases - {Canonical(a)}
    case _ => s.aliases
  }

  function Namespaces(h: Handlers, s: State, r: Request, index: nat): map<string, Namespace>
    requires Accepts(h, s, r, index)
  {
    match r
    case AddNamespace(n, home) => s.namespaces[n := Namespace(home, Active, index)]
    case UpdateNamespace(n, home) => s.namespaces[n := s.namespaces[n].(home := home)]
    case ChangeNamespaceState(n, t, _) =>
      s.namespaces[n := s.namespaces[n].(state := t.value, changedAt := index)]
    case RemoveNamespace(n) => s.namespaces - {n}
    case _ => s.namespaces
  }

  /** setClusterID: first writer wins. */
  function SetOnce(current: string, id: string): string {
    if current == "" then id else current
  }

  /** The schema half of Apply: what a command with this log index does to the
      replicated state. A refused command changes nothing. */
  function Apply(h: Handlers, s: State, r: Request, index: nat): State {
    if !Accepts(h, s, r, index) then s
    else State(
      Classes(h, s, r, index),
      Aliases(s, r),
      Namespaces(h, s, r, index),
      h.rbac(s, r, index),
      h.users(s, r, index),
      h.tasks(s, r, index),
      h.replication(s, r, index),
      if r.ClusterIDSet? then SetOnce(s.clusterID, r.id) else s.clusterID)
  }

  /** raft hands only command entries to the state machine. */
  function Step(h: Handlers, s: State, e: Entry, index: nat): State {
    if e.kind.Command? then Apply(h, s, e.req, index) else s
  }

  /** The state after the first n entries; entry number i sits at log[i - 1]. */
  function StateAt(h: Handlers, log: seq<Entry>, n: nat): State
    requires n <= |log|
  {
    if n == 0 then Init else Step(h, StateAt(h, log, n - 1), log[n - 1], n)
  }

  /** Entry i is a command that was not refused. */
  predicate Takes(h: Handlers, log: seq<Entry>, i: nat)
    requires 1 <= i <= |log|
  {
    log[i - 1].kind.Command? && Accepts(h, StateAt(h, log, i - 1), log[i - 1].req, i)
  }

  /** Entries i+1 .. j applied on top of s. */
  function ReplayFrom(h: Handlers, s: State, log: seq<Entry>, i: nat, j: nat): State
    requires i <= j <= |log|
    decreases j
  {
    if i == j then s else Step(h, ReplayFrom(h, s, log, i, j - 1), log[j - 1], j)
  }

  /** The state depends on nothing but the prefix. */
  lemma {:induction false} PrefixDeterminesState(h: Handlers, a: seq<Entry>, b: seq<Entry>, n: nat)
    requires n <= |a| && n <= |b|
    requires a[..n] == b[..n]
    ensures StateAt(h, a, n) == StateAt(h, b, n)
  {
    if n > 0 {
      assert a[n - 1] == a[..n][n - 1] == b[..n][n - 1] == b[n - 1];
      assert a[..n - 1] == a[..n][..n - 1] == b[..n][..n - 1] == b[..n - 1];
      PrefixDeterminesState(h, a, b, n - 1);
    }
  }

  lemma {:induction false} ReplayResumes(h: Handlers, log: seq<Entry>, i: nat, j: nat)
    requires i <= j <= |log|
    ensures ReplayFrom(h, StateAt(h, log, i), log, i, j) == StateAt(h, log, j)
    decreases j
  {
    if i < j {
      ReplayResumes(h, log, i, j - 1);
    }
  }
}
