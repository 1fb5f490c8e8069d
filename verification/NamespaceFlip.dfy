/** Namespace state flips under re-proposal: the compare-and-set on the state
    change index. */
module NamespaceFlip {
  import opened Fsm

  datatype Lookup = Index(at: nat) | NotFound

  /** GetNamespaces on one name omits what it cannot find. */
  function GetNamespaces(s: State, name: string): seq<Namespace> {
    if name in s.namespaces then [s.namespaces[name]] else []
  }

  function StateChangeIndex(s: State, name: string): Lookup {
    var got := GetNamespaces(s, name);
    if |got| != 1 then NotFound else Index(got[0].changedAt)
  }

  /** The request ChangeNamespaceStateIfUnchanged proposes, however often: the
      index is read once, before the first attempt. */
  function ConditionalFlip(s: State, name: string, target: NsState): Option<Request> {
    match StateChangeIndex(s, name)
    case NotFound => None
    case Index(at) => Some(ChangeNamespaceState(name, Some(target), at))
  }

  /** Entry i creates, flips or removes the namespace. */
  predicate Moves(h: Handlers, log: seq<Entry>, i: nat, name: string)
    requires 1 <= i <= |log|
  {
    && Takes(h, log, i)
    && var r := log[i - 1].req;
       (r.AddNamespace? || r.ChangeNamespaceState? || r.RemoveNamespace?) && r.name == name
  }

  predicate Unmoved(h: Handlers, log: seq<Entry>, r: nat, n: nat, name: string)
    requires n <= |log|
  {
    forall k :: r < k <= n ==> !Moves(h, log, k, name)
  }

  /** The stored index is that of the last entry that moved the namespace, so it
      is never the 0 that would drop the precondition. */
  lemma {:induction false} ChangeIndexInRange(h: Handlers, log: seq<Entry>, n: nat, name: string)
    requires n <= |log| && name in StateAt(h, log, n).namespaces
    ensures 1 <= StateAt(h, log, n).namespaces[name].changedAt <= n
  {
    if name in StateAt(h, log, n - 1).namespaces {
      ChangeIndexInRange(h, log, n - 1, name);
    }
  }

  lemma MoveStampsIndex(h: Handlers, log: seq<Entry>, n: nat, name: string)
    requires 1 <= n <= |log|
    ensures var s, s' := StateAt(h, log, n - 1), StateAt(h, log, n);
            if Moves(h, log, n, name)
            then name in s'.namespaces ==> s'.namespaces[name].changedAt == n
            else (name in s'.namespaces <==> name in s.namespaces)
                 && (name in s.namespaces ==> s'.namespaces[name].state == s.namespaces[name].state
                                              && s'.namespaces[name].changedAt == s.namespaces[name].changedAt)
  {
  }

  /** Between r and n the state change index of a namespace stays what it was
      exactly when nothing moved the namespace; then its state stayed too. */
  lemma {:induction false} IndexDetectsMoves(h: Handlers, log: seq<Entry>, r: nat, n: nat, name: string)
    requires r <= n <= |log| && name in StateAt(h, log, r).namespaces
    ensures var s, s' := StateAt(h, log, r), StateAt(h, log, n);
            && (Unmoved(h, log, r, n, name) <==>
                  name in s'.namespaces && s'.namespaces[name].changedAt == s.namespaces[name].changedAt)
            && (Unmoved(h, log, r, n, name) ==> s'.namespaces[name].state == s.namespaces[name].state)
            && (!Unmoved(h, log, r, n, name) && name in s'.namespaces ==> s'.namespaces[name].changedAt > r)
    decreases n
  {
    ChangeIndexInRange(h, log, r, name);
    if r < n {
      IndexDetectsMoves(h, log, r, n - 1, name);
      MoveStampsIndex(h, log, n, name);
      if Moves(h, log, n, name) {
        assert !Unmoved(h, log, r, n, name);
      } else {
        assert Unmoved(h, log, r, n, name) <==> Unmoved(h, log, r, n - 1, name);
      }
    }
  }

  /** A conditional flip read at r and committed at i takes effect exactly when
      nothing moved the namespace since the read, the target is another state than the
      one that was read, and that one was not deleting, nor active with resuming as
      the target. It never overwrites a flip it has not seen. */
  lemma ConditionalFlipTakesIff(h: Handlers, log: seq<Entry>, r: nat, i: nat, name: string, target: NsState)
    requires r < i <= |log| && log[i - 1].kind.Command?
    requires ConditionalFlip(StateAt(h, log, r), name, target) == Some(log[i - 1].req)
    ensures var from := StateAt(h, log, r).namespaces[name].state;
            Takes(h, log, i) <==>
              && Unmoved(h, log, r, i - 1, name)
              && from != Deleting && from != target && !(from == Active && target == Resuming)
    ensures Takes(h, log, i) ==>
              var after := StateAt(h, log, i).namespaces; name in after && after[name].state == target && after[name].changedAt == i
  {
    ChangeIndexInRange(h, log, r, name);
    IndexDetectsMoves(h, log, r, i - 1, name);
  }

  /** Proposed any number of times, the flip happens at most once. */
  lemma ConditionalFlipAtMostOnce(h: Handlers, log: seq<Entry>, r: nat, i: nat, j: nat, name: string, target: NsState)
    requires r < i < j <= |log| && log[i - 1].kind.Command? && log[j - 1].kind.Command?
    requires ConditionalFlip(StateAt(h, log, r), name, target) == Some(log[i - 1].req) == Some(log[j - 1].req)
    ensures !(Takes(h, log, i) && Takes(h, log, j))
  {
    ConditionalFlipTakesIff(h, log, r, j, name, target);
    if Takes(h, log, i) {
      assert Moves(h, log, i, name);
    }
  }

  /** From every state but deleting, a conditional flip to deleting that nothing
      overtook takes effect, so a namespace whose home node died mid-flip can still be
      deleted; nothing but removal leads out of deleting. */
  lemma DeletingIsReachable(h: Handlers, log: seq<Entry>, r: nat, i: nat, name: string, target: NsState)
    requires r < i <= |log| && log[i - 1].kind.Command? && Unmoved(h, log, r, i - 1, name)
    requires ConditionalFlip(StateAt(h, log, r), name, target) == Some(log[i - 1].req)
    ensures StateAt(h, log, r).namespaces[name].state != Deleting && target == Deleting ==>
              name in StateAt(h, log, i).namespaces && StateAt(h, log, i).namespaces[name].state == Deleting
    ensures StateAt(h, log, r).namespaces[name].state == Deleting ==> !Takes(h, log, i)
  {
    ConditionalFlipTakesIff(h, log, r, i, name, target);
  }

  /** Unless the namespace is missing there is something to propose. */
  lemma FlipIsProposedIff(s: State, name: string, target: NsState)
    ensures ConditionalFlip(s, name, target).Some? <==> name in s.namespaces
  {
  }

  function Flip(target: NsState, read: nat): Entry {
    Entry(Command, 1, read, ChangeNamespaceState("a", Some(target), read))
  }

  const Cycle: seq<Entry> := [Entry(Command, 1, 0, AddNamespace("a", "n")), Flip(Suspended, 1), Flip(Resuming, 2), Flip(Active, 3),
                              Flip(Resuming, 4), Flip(Deleting, 4), Flip(Active, 6)]

  lemma CycleStep(h: Handlers, k: nat, from: NsState, at: nat, target: NsState)
    requires 1 <= k < 7 && Cycle[k] == Flip(target, at) && at != 0
    requires StateAt(h, Cycle, k).namespaces == map["a" := Namespace("n", from, at)]
    ensures StateAt(h, Cycle, k + 1).namespaces ==
              if from != Deleting && from != target && !(from == Active && target == Resuming)
              then map["a" := Namespace("n", target, k + 1)] else map["a" := Namespace("n", from, at)]
  {
    assert StateAt(h, Cycle, k + 1) == Apply(h, StateAt(h, Cycle, k), Cycle[k].req, k + 1);
  }

  lemma CycleStart(h: Handlers)
    requires forall s, r, i :: !h.refuses(s, r, i)
    ensures StateAt(h, Cycle, 1).namespaces == map["a" := Namespace("n", Active, 1)]
  {
    assert StateAt(h, Cycle, 0) == Init;
    assert StateAt(h, Cycle, 1) == Apply(h, Init, Cycle[0].req, 1);
  }

  lemma CycleBack(h: Handlers)
    requires StateAt(h, Cycle, 1).namespaces == map["a" := Namespace("n", Active, 1)]
    ensures StateAt(h, Cycle, 2).namespaces == map["a" := Namespace("n", Suspended, 2)]
    ensures StateAt(h, Cycle, 3).namespaces == map["a" := Namespace("n", Resuming, 3)]
    ensures StateAt(h, Cycle, 4).namespaces == map["a" := Namespace("n", Active, 4)]
  {
    CycleStep(h, 1, Active, 1, Suspended);
    CycleStep(h, 2, Suspended, 2, Resuming);
    CycleStep(h, 3, Resuming, 3, Active);
  }

  lemma CycleEnd(h: Handlers)
    requires StateAt(h, Cycle, 4).namespaces == map["a" := Namespace("n", Active, 4)]
    ensures StateAt(h, Cycle, 5).namespaces == StateAt(h, Cycle, 4).namespaces
    ensures StateAt(h, Cycle, 6).namespaces == map["a" := Namespace("n", Deleting, 6)]
    ensures StateAt(h, Cycle, 7).namespaces == StateAt(h, Cycle, 6).namespaces
  {
    CycleStep(h, 4, Active, 4, Resuming);
    CycleStep(h, 5, Active, 4, Deleting);
    CycleStep(h, 6, Deleting, 6, Active);
  }

  /** The life of a namespace, flip by flip: suspended, resuming, active again; not from
      active straight to resuming; deleted, and then no way back. */
  lemma SuspendResumeCycle(h: Handlers)
    requires forall s, r, i :: !h.refuses(s, r, i)
    ensures StateAt(h, Cycle, 1).namespaces == map["a" := Namespace("n", Active, 1)]
    ensures StateAt(h, Cycle, 2).namespaces == map["a" := Namespace("n", Suspended, 2)]
    ensures StateAt(h, Cycle, 3).namespaces == map["a" := Namespace("n", Resuming, 3)]
    ensures StateAt(h, Cycle, 4).namespaces == map["a" := Namespace("n", Active, 4)]
    ensures StateAt(h, Cycle, 5).namespaces == StateAt(h, Cycle, 4).namespaces
    ensures StateAt(h, Cycle, 6).namespaces == map["a" := Namespace("n", Deleting, 6)]
    ensures StateAt(h, Cycle, 7).namespaces == StateAt(h, Cycle, 6).namespaces
  {
    CycleStart(h);
    CycleBack(h);
    CycleEnd(h);
  }

  lemma UnconditionalFlip(h: Handlers, s: State, from: NsState, to: NsState, at: nat, index: nat)
    requires s.namespaces == map["a" := Namespace("n", from, at)] && Legal(from, to) && index != 0
    ensures Apply(h, s, ChangeNamespaceState("a", Some(to), 0), index).namespaces == map["a" := Namespace("n", to, index)]
  {
  }

  /** Without the index a retry undoes what landed in between: a suspend is
      proposed twice around somebody else's resume, and the resume is lost. */
  lemma UnconditionalRetryReverts(h: Handlers)
    requires forall s, r, i :: !h.refuses(s, r, i)
    ensures var suspend, resume := ChangeNamespaceState("a", Some(Suspended), 0), ChangeNamespaceState("a", Some(Active), 0);
            var log := [Entry(Command, 1, 0, AddNamespace("a", "n")), Entry(Command, 1, 1, suspend),
                        Entry(Command, 1, 2, resume), Entry(Command, 2, 3, suspend)];
            && StateAt(h, log, 3).namespaces == map["a" := Namespace("n", Active, 3)]
            && StateAt(h, log, 4).namespaces == map["a" := Namespace("n", Suspended, 4)]
  {
    var suspend, resume := ChangeNamespaceState("a", Some(Suspended), 0), ChangeNamespaceState("a", Some(Active), 0);
    var log := [Entry(Command, 1, 0, AddNamespace("a", "n")), Entry(Command, 1, 1, suspend),
                Entry(Command, 1, 2, resume), Entry(Command, 2, 3, suspend)];
    assert StateAt(h, log, 0) == Init;
    assert StateAt(h, log, 1) == Apply(h, Init, log[0].req, 1);
    UnconditionalFlip(h, StateAt(h, log, 1), Active, Suspended, 1, 2);
    UnconditionalFlip(h, StateAt(h, log, 2), Suspended, Active, 2, 3);
    UnconditionalFlip(h, StateAt(h, log, 3), Active, Suspended, 3, 4);
  }
}
