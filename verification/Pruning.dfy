/** Which records and requests pruning keeps. */
module Pruning {
  import opened Records
  import opened Replay
  import opened Recovery

  /** The records that are history rather than pending state, in order. */
  function History(t: seq<Record>): seq<Record> {
    if t == [] then []
    else if t[0].Prepared? then History(t[1..])
    else [t[0]] + History(t[1..])
  }

  /** The pass over the table: drop the first `toRemove` records that are not pending. */
  function Retain(t: seq<Record>, toRemove: nat): (kept: seq<Record>)
    ensures forall r :: r in kept ==> r in t
  {
    if t == [] then []
    else
      assert t == [t[0]] + t[1..];
      if toRemove > 0 && !t[0].Prepared? then Retain(t[1..], toRemove - 1)
      else [t[0]] + Retain(t[1..], toRemove)
  }

  function Excess(t: seq<Record>, keep: nat): nat {
    if |History(t)| > keep then |History(t)| - keep else 0
  }

  function PruneTable(t: seq<Record>, keep: nat): seq<Record> {
    Retain(t, Excess(t, keep))
  }

  /** The requests the retained records refer to. */
  function RetainedRequests(t: seq<Record>): set<string> {
    set r | r in t && r.RequestId().Some? :: r.RequestId().value
  }

  function PruneRequests(requests: map<string, Entry>, kept: seq<Record>): map<string, Entry> {
    map rid | rid in requests && (requests[rid].status.InProgress? || rid in RetainedRequests(kept)) :: requests[rid]
  }

  /** Some record, finished or pending, is the request's. */
  predicate Refers(t: seq<Record>, rid: string) {
    exists i :: 0 <= i < |t| && !t[i].Aborted? && t[i].rid == rid
  }

  /** A request stays exactly if it is in progress or a record that stays is its own, and it stays as it was. */
  lemma RequestsThatStay(requests: map<string, Entry>, kept: seq<Record>)
    ensures var after := PruneRequests(requests, kept);
            && (forall rid :: rid in after <==> rid in requests && (requests[rid].status.InProgress? || Refers(kept, rid)))
            && (forall rid :: rid in after ==> after[rid] == requests[rid])
  {
    forall rid ensures rid in RetainedRequests(kept) <==> Refers(kept, rid) {
      if rid in RetainedRequests(kept) {
        var r :| r in kept && r.RequestId().Some? && r.RequestId().value == rid;
        var i :| 0 <= i < |kept| && kept[i] == r;
      }
      if Refers(kept, rid) {
        var i :| 0 <= i < |kept| && !kept[i].Aborted? && kept[i].rid == rid;
        assert kept[i] in kept && kept[i].RequestId().Some? && kept[i].RequestId().value == rid;
      }
    }
  }

  // ---- what that selects ----

  /**
   The reference: a record stays exactly when it is a pending marker or fewer than `keep`
   history records come after it.
   */
  function Newest(t: seq<Record>, keep: nat): seq<Record> {
    if t == [] then []
    else if t[0].Prepared? || |History(t[1..])| < keep then [t[0]] + Newest(t[1..], keep)
    else Newest(t[1..], keep)
  }

  lemma {:induction false} RetainNothing(t: seq<Record>)
    ensures Retain(t, 0) == t
  {
    if t != [] {
      RetainNothing(t[1..]);
    }
  }

  /** Pruning keeps every pending marker and the newest `keep` other records, in their order. */
  lemma {:induction false} PruneSelectsNewest(t: seq<Record>, keep: nat)
    ensures PruneTable(t, keep) == Newest(t, keep)
  {
    if t != [] {
      PruneSelectsNewest(t[1..], keep);
      if |History(t)| <= keep {
        RetainNothing(t);
        RetainNothing(t[1..]);
      }
    }
  }

  /** Read by kind: the markers are untouched and the history is its newest `min(keep, n)` records. */
  lemma {:induction false} PruneByKind(t: seq<Record>, keep: nat)
    ensures var kept := PruneTable(t, keep);
            && Markers(kept) == Markers(t)
            && History(kept) == History(t)[Excess(t, keep)..]
            && |History(kept)| == (if |History(t)| < keep then |History(t)| else keep)
            && |t| - |kept| == Excess(t, keep)
  {
    RetainByKind(t, Excess(t, keep));
  }

  lemma {:induction false} RetainByKind(t: seq<Record>, toRemove: nat)
    requires toRemove <= |History(t)|
    ensures Markers(Retain(t, toRemove)) == Markers(t)
    ensures History(Retain(t, toRemove)) == History(t)[toRemove..]
    ensures |t| - |Retain(t, toRemove)| == toRemove
  {
    if t != [] {
      if toRemove > 0 && !t[0].Prepared? {
        RetainByKind(t[1..], toRemove - 1);
      } else {
        RetainByKind(t[1..], toRemove);
        assert ([t[0]] + Retain(t[1..], toRemove))[1..] == Retain(t[1..], toRemove);
      }
    }
  }

  /** Retained records keep their slots' distinctness, so the result is a table. */
  lemma {:induction false} RetainKeepsTable(t: seq<Record>, toRemove: nat)
    requires IsTable(t)
    ensures IsTable(Retain(t, toRemove))
  {
    if t != [] {
      TableCons(t);
      if toRemove > 0 && !t[0].Prepared? {
        RetainKeepsTable(t[1..], toRemove - 1);
      } else {
        RetainKeepsTable(t[1..], toRemove);
        ConsTable(t[0], Retain(t[1..], toRemove));
      }
    }
  }

  /** A line with both kinds of result, or with neither, loads as an entry without one. */
  lemma LoadsOneResult(line: ReqLine)
    ensures var e := EntryOf(line);
            && e.status == line.status && e.op == line.op
            && (e.result.Some? <==> line.resultDone.Some? != line.resultError.Some?)
            && (e.result.Some? && line.resultDone.Some? ==> e.result.value == StoredDone(line.resultDone.value))
            && (e.result.Some? && line.resultError.Some? ==> e.result.value == StoredError(line.resultError.value))
  {
  }

  /** What is written back for an entry loads as that entry. */
  lemma LineRoundTrip(rid: string, e: Entry)
    ensures EntryOf(LineOf(rid, e)) == e && LineOf(rid, e).rid == rid
  {
  }
}
