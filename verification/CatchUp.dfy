/** The orphans a node records while it catches up, as a function of the log: replay
    is schema-only up to the boundary scanned at open, so these records are all that
    tells loading what to remove. */
module CatchUp {
  import opened Fsm

  /** The class entry j removes from the schema, if it does. */
  function DeletedBy(h: Handlers, log: seq<Entry>, j: nat): set<string>
    requires 1 <= j <= |log|
  {
    var s, e := StateAt(h, log, j - 1), log[j - 1];
    if e.kind.Command? && e.req.DeleteClass? && Accepts(h, s, e.req, j) && e.req.cls in s.classes
    then {e.req.cls} else {}
  }

  /** The classes recorded on the way from i to j. skips[s] is where the node stood
      when it reached s by installing a snapshot instead of applying entries. */
  function Recorded(h: Handlers, log: seq<Entry>, skips: map<nat, nat>, i: nat, j: nat): set<string>
    requires i <= j <= |log|
    decreases j
  {
    if i == j then {}
    else if j in skips && i <= skips[j] < j then
      Recorded(h, log, skips, i, skips[j]) + (StateAt(h, log, skips[j]).classes.Keys - StateAt(h, log, j).classes.Keys)
    else Recorded(h, log, skips, i, j - 1) + DeletedBy(h, log, j)
  }

  lemma {:induction false} RecordedPrefix(h: Handlers, a: seq<Entry>, b: seq<Entry>, skips: map<nat, nat>, i: nat, j: nat)
    requires i <= j <= |a| && a <= b
    ensures Recorded(h, a, skips, i, j) == Recorded(h, b, skips, i, j)
    decreases j
  {
    if i < j {
      assert a[..j] == b[..j] && a[..j - 1] == b[..j - 1];
      PrefixDeterminesState(h, a, b, j);
      PrefixDeterminesState(h, a, b, j - 1);
      if j in skips && i <= skips[j] < j {
        assert a[..skips[j]] == b[..skips[j]];
        PrefixDeterminesState(h, a, b, skips[j]);
        RecordedPrefix(h, a, b, skips, i, skips[j]);
      } else {
        RecordedPrefix(h, a, b, skips, i, j - 1);
      }
    }
  }

  /** A skip further on changes nothing about what was recorded before. */
  lemma {:induction false} SkipsAhead(h: Handlers, log: seq<Entry>, skips: map<nat, nat>, i: nat, j: nat, s: nat, from: nat)
    requires i <= j <= |log| && s > j
    ensures Recorded(h, log, skips[s := from], i, j) == Recorded(h, log, skips, i, j)
    decreases j
  {
    if i < j {
      if j in skips && i <= skips[j] < j {
        SkipsAhead(h, log, skips, i, skips[j], s, from);
      } else {
        SkipsAhead(h, log, skips, i, j - 1, s, from);
      }
    }
  }

  /** Every class of state d that is gone at j was recorded, whether the node applied
      its delete or skipped it, provided the node was there by d. */
  lemma {:induction false} GoneIsRecorded(h: Handlers, log: seq<Entry>, skips: map<nat, nat>, i: nat, d: nat, j: nat, c: string)
    requires i <= d <= j <= |log|
    requires c in StateAt(h, log, d).classes && c !in StateAt(h, log, j).classes
    requires forall s :: s in skips && i < s <= j ==> !(skips[s] < d < s)
    ensures c in Recorded(h, log, skips, i, j)
    decreases j
  {
    if j in skips && i <= skips[j] < j {
      if c !in StateAt(h, log, skips[j]).classes {
        GoneIsRecorded(h, log, skips, i, d, skips[j], c);
      }
    } else if c !in StateAt(h, log, j - 1).classes {
      GoneIsRecorded(h, log, skips, i, d, j - 1, c);
    }
  }
}
