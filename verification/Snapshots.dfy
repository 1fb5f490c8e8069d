/** Snapshots: a captured cut plus the entries after it means the same as the
    whole log, and the cluster identity every node derives from it. */
module Snapshots {
  import opened Fsm
  import opened Node

  /** The first non-empty id set in the first n entries. */
  function FirstClusterID(log: seq<Entry>, n: nat): string
    requires n <= |log|
  {
    if n == 0 then ""
    else if FirstClusterID(log, n - 1) != "" then FirstClusterID(log, n - 1)
    else if log[n - 1].kind.Command? && log[n - 1].req.ClusterIDSet? then log[n - 1].req.id
    else ""
  }

  /** Cluster identity is agreed: it is a function of the log prefix alone, the
      same whatever the managers do. */
  lemma {:induction false} ClusterIDIsFirstSet(h: Handlers, log: seq<Entry>, n: nat)
    requires n <= |log|
    ensures StateAt(h, log, n).clusterID == FirstClusterID(log, n)
  {
    if n > 0 {
      ClusterIDIsFirstSet(h, log, n - 1);
    }
  }

  /** Once set, the identity never changes as the log grows. */
  lemma {:induction false} ClusterIDIsStable(h: Handlers, log: seq<Entry>, i: nat, j: nat)
    requires i <= j <= |log|
    requires StateAt(h, log, i).clusterID != ""
    ensures StateAt(h, log, j).clusterID == StateAt(h, log, i).clusterID
    decreases j
  {
    if i < j {
      ClusterIDIsStable(h, log, i, j - 1);
    }
  }

  /** Installing a cut taken at j over a node that holds any earlier prefix gives
      exactly the state at j, although the cluster id is set once instead of
      overwritten. */
  lemma InstallReachesCut(h: Handlers, log: seq<Entry>, i: nat, j: nat)
    requires i <= j <= |log|
    ensures Install(StateAt(h, log, i), Capture(StateAt(h, log, j))) == StateAt(h, log, j)
  {
    if StateAt(h, log, i).clusterID != "" {
      ClusterIDIsStable(h, log, i, j);
    }
  }

  /** A snapshot captured at i and restored into a fresh node or one lagging at
      m <= i, followed by the entries after i, means the same as applying the
      whole log, however far the writer had moved on before persisting. */
  lemma SnapshotPlusReplay(h: Handlers, log: seq<Entry>, m: nat, i: nat, j: nat)
    requires m <= i <= j <= |log|
    ensures ReplayFrom(h, Install(StateAt(h, log, m), Capture(StateAt(h, log, i))), log, i, j)
            == StateAt(h, log, j)
  {
    InstallReachesCut(h, log, m, i);
    ReplayResumes(h, log, i, j);
  }

  /** full without the sections an older binary would not have written. */
  ghost predicate SectionsOf(snap: Snapshot, full: State) {
    && snap.schema == full.classes
    && (snap.aliases.Some? ==> snap.aliases.value == full.aliases)
    && (snap.rbac.Some? ==> snap.rbac.value == full.rbac)
    && (snap.tasks.Some? ==> snap.tasks.value == full.tasks)
    && (snap.replication.Some? ==> snap.replication.value == full.replication)
    && (snap.users.Some? ==> snap.users.value == full.users)
    && (snap.namespaces.Some? ==> snap.namespaces.value == full.namespaces)
    && (snap.clusterID == "" || snap.clusterID == full.clusterID)
  }

  /** The sections snap lacks already hold, on the restoring node, what the cut held. */
  predicate MissingSectionsCurrent(snap: Snapshot, s: State, full: State) {
    && (snap.aliases.Some? || s.aliases == full.aliases)
    && (snap.rbac.Some? || s.rbac == full.rbac)
    && (snap.tasks.Some? || s.tasks == full.tasks)
    && (snap.replication.Some? || s.replication == full.replication)
    && (snap.users.Some? || s.users == full.users)
    && (snap.namespaces.Some? || s.namespaces == full.namespaces)
    && (snap.clusterID != "" || s.clusterID == full.clusterID)
  }

  /** With sections missing, restore reaches the cut exactly when the node's own
      copy of every missing section is current. */
  lemma PartialSnapshotReachesCutIff(h: Handlers, log: seq<Entry>, i: nat, j: nat, snap: Snapshot)
    requires i <= j <= |log|
    requires SectionsOf(snap, StateAt(h, log, j))
    ensures Install(StateAt(h, log, i), snap) == StateAt(h, log, j)
            <==> MissingSectionsCurrent(snap, StateAt(h, log, i), StateAt(h, log, j))
  {
    if StateAt(h, log, i).clusterID != "" {
      ClusterIDIsStable(h, log, i, j);
    }
  }

  /** Why Persist must not read the live managers: a snapshot filed under index 1
      whose namespace section was read one entry later turns the verdict of that
      entry on replay, and the manager of tasks never sees it accepted. */
  lemma TornSnapshotDiverges()
    ensures exists h: Handlers, log: seq<Entry> :: |log| == 2 &&
              var torn := Capture(StateAt(h, log, 1)).(namespaces := Some(StateAt(h, log, 2).namespaces));
              ReplayFrom(h, Install(Init, torn), log, 1, 2) != StateAt(h, log, 2)
  {
    var quiet := (s: State, r: Request, i: nat) => [];
    // The manager of tasks records whether it saw the namespace, as the apply
    // verdicts that read another manager's state do.
    var h := Handlers((s, r, i) => false, (s, r, i) => {}, quiet, quiet, quiet,
                      (s: State, r: Request, i: nat) => if "a" in s.namespaces then [1] else [0], quiet);
    var log := [Entry(NoOp, 1, 0, Unknown), Entry(Command, 1, 0, AddNamespace("a", "n"))];
    var torn := Capture(StateAt(h, log, 1)).(namespaces := Some(StateAt(h, log, 2).namespaces));
    assert StateAt(h, log, 1) == Init;
    assert StateAt(h, log, 2) == Apply(h, Init, log[1].req, 2);
    assert StateAt(h, log, 2).tasks == [0];
    var start := Install(Init, torn);
    assert !Accepts(h, start, log[1].req, 2);
    assert ReplayFrom(h, start, log, 1, 1) == start;
    assert ReplayFrom(h, start, log, 1, 2) == start;
  }
}
