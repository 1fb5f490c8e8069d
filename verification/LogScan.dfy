/** The raft log store and the backward scan for its last command. */
module LogScan {
  import opened Fsm

  datatype Read = Found(index: nat) | Failed

  /** uint64 decrement, wrapping below zero. */
  function Dec64(x: nat): nat {
    if x == 0 then 0xFFFF_FFFF_FFFF_FFFF else x - 1
  }

  /** n is the greatest index holding a command, or 0 when the log holds none. */
  ghost predicate IsLastCommand(log: map<nat, Entry>, n: nat) {
    && (n == 0 || (n in log && log[n].kind.Command?))
    && forall k :: k in log && log[k].kind.Command? ==> k <= n
  }

  /** The scan meets an unreadable index before it meets a command. */
  ghost predicate Blocked(log: map<nat, Entry>, first: nat, last: nat, unreadable: set<nat>) {
    exists f :: f in unreadable && f != 0 && first <= f <= last &&
                forall k :: k in log && f < k ==> !log[k].kind.Command?
  }

  /** raft.Log, the record GetLog decodes into; its zero value has type LogCommand. */
  class Record {
    var kind: Kind

    constructor ()
      ensures kind == Command
    {
      kind := Command;
    }
  }

  datatype Get = Ok | NotFound | IOError

  class LogStore {
    var entries: map<nat, Entry>
    var first: nat
    var last: nat
    var unreadable: set<nat>

    /** Indexes start at 1; a snapshot install may leave holes, so the store is
        not assumed contiguous. */
    ghost predicate Valid()
      reads this
    {
      && (entries == map[] <==> last == 0)
      && (forall k :: k in entries ==> 1 <= first <= k <= last)
      && (last != 0 ==> last in entries)
    }

    constructor (entries: map<nat, Entry>, first: nat, last: nat, unreadable: set<nat>)
      ensures this.entries == entries && this.first == first && this.last == last
      ensures this.unreadable == unreadable
    {
      this.entries, this.first, this.last, this.unreadable := entries, first, last, unreadable;
    }

    /** A miss or a failed read leaves the record as the previous read left it. */
    method GetLog(index: nat, rec: Record) returns (g: Get)
      modifies rec
      ensures g.IOError? <==> index in unreadable
      ensures g.Ok? <==> index !in unreadable && index in entries
      ensures rec.kind == if g.Ok? then entries[index].kind else old(rec.kind)
    {
      if index in unreadable {
        return IOError;
      }
      if index !in entries {
        return NotFound;
      }
      rec.kind := entries[index].kind;
      return Ok;
    }

    /** One record is reused across the scan, so at a hole the check below reads
        the type of the entry above it. That type is never a command, because
        the scan would have stopped there: holes are skipped, not miscounted. */
    method LastAppliedCommand() returns (r: Read)
      requires Valid()
      ensures r.Found? ==> IsLastCommand(entries, r.index)
      ensures r.Failed? <==> Blocked(entries, first, last, unreadable)
    {
      if last == 0 {
        return Found(0);
      }
      var rec := new Record();
      var i := last;
      while i >= first
        invariant first - 1 <= i <= last
        invariant i < last ==> rec.kind != Command
        invariant forall k :: k in entries && i < k ==> !entries[k].kind.Command?
        invariant forall k :: k in unreadable && k <= last ==> k <= i
        decreases i
      {
        var g := GetLog(i, rec);
        if g.IOError? {
          return Failed;
        }
        if rec.kind == Command {
          return Found(i);
        }
        i := Dec64(i);
      }
      return Found(0);
    }
  }
}
