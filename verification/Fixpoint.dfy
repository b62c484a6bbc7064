/**
 A whole startup recovery, over any two logs: afterwards nothing is pending, and recovering once
 more from the files changes nothing. Nothing is assumed of the workspace or of the logs.
 */
module Fixpoint {
  import opened Options
  import opened Records
  import opened Replay
  import opened Recovery
  import opened ExactRecovery

  // ---- the stuck requests ----

  datatype Stalled = Stalled(rid: string, op: Option<string>)

  /** `stuck` lists every stuck request once, in whatever order the hash map yields them. */
  ghost predicate Collects(stuck: seq<Stalled>, requests: map<string, Entry>) {
    && (forall x :: x in stuck ==> Stuck(requests, x.rid) && requests[x.rid].op == x.op)
    && (forall rid :: Stuck(requests, rid) ==> Stalled(rid, requests[rid].op) in stuck)
    && (forall i, j :: 0 <= i < j < |stuck| ==> stuck[i].rid != stuck[j].rid)
  }

  datatype Resolution = Resolution(requests: map<string, Entry>, lines: seq<ReqLine>, actions: seq<Action>)

  function StuckAction(t: seq<Record>, x: Stalled): Action {
    match FindCommitted(t, x.rid)
    case Some(r) => Synthesized(r.id)
    case None => if x.op == Some("exec") || x.op.None? then StuckMarkedError(x.rid) else ClearedStuck(x.rid)
  }

  /** Resolving the stuck requests, the first one first. */
  function ResolveAll(t: seq<Record>, requests: map<string, Entry>, stuck: seq<Stalled>): Resolution
    decreases |stuck|
  {
    if stuck == [] then Resolution(requests, [], [])
    else
      var x := stuck[0];
      var line := StuckLine(t, x.rid, x.op);
      var next := if line.Some? then requests[x.rid := EntryOf(line.value)] else requests - {x.rid};
      var rest := ResolveAll(t, next, stuck[1..]);
      Resolution(rest.requests, AsSeq(line) + rest.lines, [StuckAction(t, x)] + rest.actions)
  }

  function At(requests: map<string, Entry>, rid: string): Option<Entry> {
    if rid in requests then Some(requests[rid]) else None
  }

  ghost predicate Distinct(stuck: seq<Stalled>) {
    forall i, j :: 0 <= i < j < |stuck| ==> stuck[i].rid != stuck[j].rid
  }

  lemma DistinctTail(stuck: seq<Stalled>)
    requires Distinct(stuck) && stuck != []
    ensures Distinct(stuck[1..])
    ensures forall x :: x in stuck[1..] ==> x.rid != stuck[0].rid
    ensures forall x :: x in stuck <==> x == stuck[0] || x in stuck[1..]
  {
    assert stuck == [stuck[0]] + stuck[1..];
    forall x | x in stuck[1..] ensures x.rid != stuck[0].rid {
      var i :| 0 <= i < |stuck[1..]| && stuck[1..][i] == x;
      assert stuck[i + 1] == x;
    }
  }

  /** Each stuck request gets its own verdict; no other entry moves. */
  lemma {:induction false} ResolveAllEntries(t: seq<Record>, requests: map<string, Entry>, stuck: seq<Stalled>)
    requires Distinct(stuck)
    ensures var after := ResolveAll(t, requests, stuck).requests;
            && (forall x :: x in stuck ==> At(after, x.rid) == StuckEntry(t, x.rid, x.op))
            && (forall rid :: (forall x :: x in stuck ==> x.rid != rid) ==> At(after, rid) == At(requests, rid))
    decreases |stuck|
  {
    if stuck != [] {
      hide StuckLine;
      DistinctTail(stuck);
      var x := stuck[0];
      var line := StuckLine(t, x.rid, x.op);
      var next := if line.Some? then requests[x.rid := EntryOf(line.value)] else requests - {x.rid};
      ResolveAllEntries(t, next, stuck[1..]);
      assert At(next, x.rid) == StuckEntry(t, x.rid, x.op);
    }
  }

  /** What the lines written for them replay to: the same, except that a cleared entry stays. */
  lemma {:induction false} ResolveAllLines(
      t: seq<Record>, requests: map<string, Entry>, stuck: seq<Stalled>, log: seq<ReqLine>)
    requires Distinct(stuck)
    ensures var after := Requests(log + ResolveAll(t, requests, stuck).lines);
            && (forall x :: x in stuck && StuckEntry(t, x.rid, x.op).Some? ==>
                  At(after, x.rid) == StuckEntry(t, x.rid, x.op))
            && (forall x :: x in stuck && StuckEntry(t, x.rid, x.op).None? ==>
                  At(after, x.rid) == At(Requests(log), x.rid))
            && (forall rid :: (forall x :: x in stuck ==> x.rid != rid) ==> At(after, rid) == At(Requests(log), rid))
    decreases |stuck|
  {
    hide StuckLine; hide Requests;
    if stuck == [] {
      assert log + [] == log;
    } else {
      DistinctTail(stuck);
      var x := stuck[0];
      var line := StuckLine(t, x.rid, x.op);
      StuckLineIsItsOwn(t, x);
      var next := if line.Some? then requests[x.rid := EntryOf(line.value)] else requests - {x.rid};
      var rest := ResolveAll(t, next, stuck[1..]).lines;
      if line.Some? {
        RequestsAppend(log, line.value);
        ResolveAllLines(t, next, stuck[1..], log + [line.value]);
        Regroup(log, line.value, rest);
      } else {
        ResolveAllLines(t, next, stuck[1..], log);
        assert AsSeq(line) + rest == rest;
      }
    }
  }

  lemma StuckLineIsItsOwn(t: seq<Record>, x: Stalled)
    ensures var line := StuckLine(t, x.rid, x.op);
            line.Some? ==> line.value.rid == x.rid && !line.value.status.InProgress?
  {
  }

  // ---- the markers ----

  /** Deciding markers keeps the table and the log in step and leaves only the markers not decided. */
  lemma {:induction false} SettleAllAgrees(t: seq<Record>, ps: seq<Record>, ws: Workspace, now: nat, log: seq<Record>)
    requires IsTable(t) && IsTable(ps) && Live(t) == Live(log)
    requires forall p :: p in ps ==> p in t && p.Prepared?
    ensures var r := SettleAll(t, ps, ws, now);
            && IsTable(r.table)
            && Live(r.table) == Live(log + r.ops)
            && forall x :: x in r.table && x.Prepared? <==> x in t && x.Prepared? && x !in ps
    decreases |ps|
  {
    if ps == [] {
      TakeNone(log, SettleAll(t, ps, ws, now).ops);
      assert log + [] == log;
    } else {
      hide Judge; hide VerdictTable; hide VerdictLine; hide VerdictReply; hide Live; hide IsTable; hide VerdictAction;
      var p := ps[|ps| - 1];
      var v := Judge(t, p, ws);
      TableInit(ps);
      VerdictLive(t, p, v, now);
      VerdictLineId(p, v, now);
      LiveAppend(log, VerdictLine(p, v, now));
      SettleAllAgrees(VerdictTable(t, p, v, now), ps[..|ps| - 1], ws, now + 1, log + [VerdictLine(p, v, now)]);
      var rest := SettleAll(VerdictTable(t, p, v, now), ps[..|ps| - 1], ws, now + 1);
      Regroup(log, VerdictLine(p, v, now), rest.ops);
      IdDecides(t, ps, p);
    }
  }

  lemma VerdictLineId(p: Record, v: Verdict, now: nat)
    requires p.Prepared?
    ensures VerdictLine(p, v, now).id == p.id
  {
  }

  /** Within a table, to be another record is to have another id. */
  lemma IdDecides(t: seq<Record>, ps: seq<Record>, p: Record)
    requires IsTable(t) && p in t
    ensures forall x :: x in t ==> (x.id != p.id <==> x != p)
  {
  }

  // ---- a whole start ----

  /** The request table once `lines` were logged and remembered, the first one first. */
  function Remember(requests: map<string, Entry>, lines: seq<ReqLine>): map<string, Entry>
    decreases |lines|
  {
    if lines == [] then requests
    else Remember(requests[lines[0].rid := EntryOf(lines[0])], lines[1..])
  }

  lemma {:induction false} RememberIsReplay(log: seq<ReqLine>, lines: seq<ReqLine>)
    ensures Remember(Requests(log), lines) == Requests(log + lines)
    decreases |lines|
  {
    if lines == [] {
      assert log + [] == log;
    } else {
      RequestsAppend(log, lines[0]);
      RememberIsReplay(log + [lines[0]], lines[1..]);
      Regroup(log, lines[0], lines[1..]);
      assert [lines[0]] + lines[1..] == lines;
    }
  }

  /** What a start ends with: both tables, and the lines it appended to either log. */
  datatype Start = Start(
    table: seq<Record>, requests: map<string, Entry>, ops: seq<Record>, reqs: seq<ReqLine>, actions: seq<Action>)

  /** The request table between the two halves of recovery. */
  function SettledRequests(ops: seq<Record>, reqs: seq<ReqLine>, ws: Workspace, now: nat): map<string, Entry> {
    Remember(Requests(reqs), RecoverOps(ops, ws, now).reqs)
  }

  /** Loading both logs and recovering, with every append succeeding. */
  function Recover(ops: seq<Record>, reqs: seq<ReqLine>, ws: Workspace, now: nat, stuck: seq<Stalled>): Start {
    var settled := RecoverOps(ops, ws, now);
    var resolved := ResolveAll(settled.table, SettledRequests(ops, reqs, ws, now), stuck);
    Start(settled.table, resolved.requests, settled.ops, settled.reqs + resolved.lines,
          settled.actions + resolved.actions)
  }

  /** No line of the log says in progress and carries a result, as no server writes one. */
  ghost predicate WellFormedClaims(reqs: seq<ReqLine>) {
    forall line :: line in reqs && line.status.InProgress? ==> line.resultDone.None? && line.resultError.None?
  }

  lemma {:induction false} ClaimsHaveNoResult(reqs: seq<ReqLine>)
    requires WellFormedClaims(reqs)
    ensures ClaimsAreBare(Requests(reqs))
  {
    if reqs != [] {
      assert reqs == reqs[..|reqs| - 1] + [reqs[|reqs| - 1]];
      ClaimsHaveNoResult(reqs[..|reqs| - 1]);
    }
  }

  lemma SettleTable(ops: seq<Record>, ws: Workspace, now: nat)
    ensures var r := RecoverOps(ops, ws, now);
            IsTable(r.table) && Live(r.table) == Live(ops + r.ops) && Markers(r.table) == []
  {
    hide Live; hide Judge; hide SettleAll; hide IsTable;
    var t := Loaded(ops);
    LoadedIsLive(ops);
    MarkersTable(t);
    SettleAllAgrees(t, Markers(t), ws, now, ops);
    var r := RecoverOps(ops, ws, now);
    assert forall x :: x in r.table ==> !x.Prepared?;
    NoMarkers(r.table);
  }

  /**
   Recovery settles everything: no marker is left, no request is left in progress without a
   result, and with it none in progress at all; and the record table is what the log now replays to.
   */
  lemma RecoverySettlesEverything(ops: seq<Record>, reqs: seq<ReqLine>, ws: Workspace, now: nat, stuck: seq<Stalled>)
    requires Collects(stuck, SettledRequests(ops, reqs, ws, now))
    ensures var r := Recover(ops, reqs, ws, now, stuck);
            && Markers(r.table) == []
            && IsTable(r.table) && Live(r.table) == Live(ops + r.ops)
            && (forall rid :: !Stuck(r.requests, rid))
  {
    hide RecoverOps; hide StuckLine; hide Live; hide Requests; hide Remember;
    SettleTable(ops, ws, now);
    var t := RecoverOps(ops, ws, now).table;
    var requests := SettledRequests(ops, reqs, ws, now);
    ResolveAllEntries(t, requests, stuck);
    var after := ResolveAll(t, requests, stuck).requests;
    forall rid ensures !Stuck(after, rid) {
      if Stuck(requests, rid) {
        var x := Stalled(rid, requests[rid].op);
        assert x in stuck;
        StuckLineIsItsOwn(t, x);
        assert At(after, rid) == StuckEntry(t, rid, x.op);
      } else {
        assert forall x :: x in stuck ==> x.rid != rid;
        assert At(after, rid) == At(requests, rid);
      }
    }
  }

  lemma {:induction false} RepliesAreTerminal(t: seq<Record>, ps: seq<Record>, ws: Workspace, now: nat)
    requires forall p :: p in ps ==> p.Prepared?
    ensures forall line :: line in SettleAll(t, ps, ws, now).reqs ==> !line.status.InProgress?
    decreases |ps|
  {
    if ps != [] {
      var p := ps[|ps| - 1];
      var v := Judge(t, p, ws);
      RepliesAreTerminal(VerdictTable(t, p, v, now), ps[..|ps| - 1], ws, now + 1);
    }
  }

  ghost predicate ClaimsAreBare(requests: map<string, Entry>) {
    forall rid :: rid in requests && requests[rid].status.InProgress? ==> requests[rid].result.None?
  }

  lemma {:induction false} RememberKeepsClaims(requests: map<string, Entry>, lines: seq<ReqLine>)
    requires ClaimsAreBare(requests)
    requires forall line :: line in lines ==> !line.status.InProgress?
    ensures ClaimsAreBare(Remember(requests, lines))
    decreases |lines|
  {
    if lines != [] {
      RememberKeepsClaims(requests[lines[0].rid := EntryOf(lines[0])], lines[1..]);
    }
  }

  ghost predicate NoneInProgress(requests: map<string, Entry>) {
    forall rid :: rid in requests ==> !requests[rid].status.InProgress?
  }

  /** No request is left in progress. */
  lemma NothingStaysInProgress(ops: seq<Record>, reqs: seq<ReqLine>, ws: Workspace, now: nat, stuck: seq<Stalled>)
    requires Collects(stuck, SettledRequests(ops, reqs, ws, now)) && WellFormedClaims(reqs)
    ensures NoneInProgress(Recover(ops, reqs, ws, now, stuck).requests)
  {
    hide ClaimsAreBare; hide Collects; hide Markers; hide Remember; hide Requests; hide ResolveAll; hide SettleAll;
    hide WellFormedClaims;
    var requests := SettledRequests(ops, reqs, ws, now);
    var t := RecoverOps(ops, ws, now).table;
    ClaimsHaveNoResult(reqs);
    RepliesAreTerminal(Loaded(ops), Markers(Loaded(ops)), ws, now);
    RememberKeepsClaims(Requests(reqs), RecoverOps(ops, ws, now).reqs);
    InProgressIsStuck(t, requests, stuck);
  }

  lemma InProgressIsStuck(t: seq<Record>, requests: map<string, Entry>, stuck: seq<Stalled>)
    requires Collects(stuck, requests)
    requires ClaimsAreBare(requests)
    ensures NoneInProgress(ResolveAll(t, requests, stuck).requests)
  {
    hide StuckLine; hide ResolveAll;
    ResolveAllEntries(t, requests, stuck);
    var after := ResolveAll(t, requests, stuck).requests;
    forall rid | rid in after ensures !after[rid].status.InProgress? {
      if Stuck(requests, rid) {
        var x := Stalled(rid, requests[rid].op);
        assert x in stuck;
        StuckLineIsItsOwn(t, x);
        assert At(after, rid) == StuckEntry(t, rid, x.op);
      } else {
        assert At(after, rid) == At(requests, rid);
      }
    }
  }

  // ---- once more ----

  lemma {:induction false} NothingToWrite(t: seq<Record>, requests: map<string, Entry>, stuck: seq<Stalled>)
    requires forall x :: x in stuck ==> StuckLine(t, x.rid, x.op).None?
    ensures ResolveAll(t, requests, stuck).lines == []
    decreases |stuck|
  {
    hide StuckLine;
    if stuck != [] {
      assert stuck[0] in stuck;
      NothingToWrite(t, requests - {stuck[0].rid}, stuck[1..]);
    }
  }

  /** Which request has a committed record does not depend on the order of the table. */
  lemma SameLine(t: seq<Record>, u: seq<Record>, x: Stalled)
    requires forall r :: r in t <==> r in u
    requires StuckLine(t, x.rid, x.op).None?
    ensures StuckLine(u, x.rid, x.op).None?
  {
  }

  /** The requests stuck after a recovery are those it cleared, and no other. */
  lemma StuckAgain(t: seq<Record>, requests: map<string, Entry>, stuck: seq<Stalled>, log: seq<ReqLine>, again: seq<Stalled>)
    requires Requests(log) == requests && Collects(stuck, requests)
    requires Collects(again, Requests(log + ResolveAll(t, requests, stuck).lines))
    ensures forall x :: x in again <==> x in stuck && StuckLine(t, x.rid, x.op).None?
  {
    hide StuckLine; hide Requests; hide ResolveAll;
    ResolveAllLines(t, requests, stuck, log);
    var after := Requests(log + ResolveAll(t, requests, stuck).lines);
    forall x | x in again ensures x in stuck && StuckLine(t, x.rid, x.op).None? {
      StuckLineIsItsOwn(t, Stalled(x.rid, x.op));
      if forall y :: y in stuck ==> y.rid != x.rid {
        assert At(after, x.rid) == At(requests, x.rid);
        assert Stuck(requests, x.rid);
      } else {
        var y :| y in stuck && y.rid == x.rid;
        StuckLineIsItsOwn(t, y);
        var entry := StuckEntry(t, y.rid, y.op);
        assert At(after, y.rid) == if entry.Some? then entry else At(requests, y.rid);
      }
    }
    forall x | x in stuck && StuckLine(t, x.rid, x.op).None? ensures x in again {
      assert At(after, x.rid) == At(requests, x.rid);
      assert Stuck(after, x.rid);
    }
  }

  /** Resolving the cleared requests once more gives the table the first pass gave. */
  lemma ResolvedAgain(t: seq<Record>, u: seq<Record>, requests: map<string, Entry>, stuck: seq<Stalled>,
                      log: seq<ReqLine>, again: seq<Stalled>)
    requires Requests(log) == requests && Collects(stuck, requests)
    requires forall r :: r in t <==> r in u
    requires Collects(again, Requests(log + ResolveAll(t, requests, stuck).lines))
    ensures var first := ResolveAll(t, requests, stuck);
            var second := ResolveAll(u, Requests(log + first.lines), again);
            second.lines == [] && second.requests == first.requests
  {
    hide StuckLine; hide Requests; hide ResolveAll;
    var first := ResolveAll(t, requests, stuck);
    var replayed := Requests(log + first.lines);
    var second := ResolveAll(u, replayed, again);
    StuckAgain(t, requests, stuck, log, again);
    forall x | x in again ensures StuckLine(u, x.rid, x.op).None? {
      SameLine(t, u, x);
    }
    NothingToWrite(u, replayed, again);
    ResolveAllEntries(t, requests, stuck);
    ResolveAllEntries(u, replayed, again);
    ResolveAllLines(t, requests, stuck, log);
    forall rid ensures At(second.requests, rid) == At(first.requests, rid) {
      if x :| x in again && x.rid == rid {
        assert At(second.requests, rid) == StuckEntry(u, x.rid, x.op) == None;
        assert At(first.requests, rid) == StuckEntry(t, x.rid, x.op) == None;
      } else {
        assert At(second.requests, rid) == At(replayed, rid);
        if x :| x in stuck && x.rid == rid {
          assert At(first.requests, rid) == StuckEntry(t, x.rid, x.op);
        }
      }
    }
    SameEntries(second.requests, first.requests);
  }

  lemma SameEntries(a: map<string, Entry>, b: map<string, Entry>)
    requires forall rid :: At(a, rid) == At(b, rid)
    ensures a == b
  {
    forall rid ensures rid in a <==> rid in b {
      assert At(a, rid) == At(b, rid);
    }
    forall rid | rid in a ensures a[rid] == b[rid] {
      assert At(a, rid) == At(b, rid);
    }
  }

  /** A log whose replay has no marker loads to the same records and settles to nothing. */
  lemma SettledLoadsAsItIs(ops: seq<Record>, t: seq<Record>, ws: Workspace, now: nat)
    requires IsTable(t) && Live(t) == Live(ops) && Markers(t) == []
    ensures RecoverOps(ops, ws, now) == Settlement(Loaded(ops), [], [], [], now)
    ensures forall r :: r in Loaded(ops) <==> r in t
  {
    hide Live; hide Loaded; hide IsTable;
    LoadedIsLive(ops);
    MembersOfLive(t);
    NoMarkersIn(t, Loaded(ops));
  }

  lemma NoMarkersIn(t: seq<Record>, u: seq<Record>)
    requires Markers(t) == [] && forall r :: r in u <==> r in t
    ensures Markers(u) == []
  {
    NoMarkers(t);
    NoMarkers(u);
    assert forall i :: 0 <= i < |u| ==> u[i] in t;
  }

  /**
   Recovery is a fixpoint: reloading both logs and recovering again, against any workspace, writes
   nothing and ends with the same records by id and the same request table.
   */
  lemma RecoveryIsAFixpoint(ops: seq<Record>, reqs: seq<ReqLine>, ws: Workspace, now: nat, stuck: seq<Stalled>,
                            ws': Workspace, now': nat, stuck': seq<Stalled>)
    requires Collects(stuck, SettledRequests(ops, reqs, ws, now))
    requires var first := Recover(ops, reqs, ws, now, stuck);
             Collects(stuck', SettledRequests(ops + first.ops, reqs + first.reqs, ws', now'))
    ensures var first := Recover(ops, reqs, ws, now, stuck);
            var again := Recover(ops + first.ops, reqs + first.reqs, ws', now', stuck');
            && again.ops == [] && again.reqs == []
            && Live(again.table) == Live(first.table)
            && (forall r :: r in again.table <==> r in first.table)
            && again.requests == first.requests
  {
    hide RecoverOps; hide Live; hide Requests; hide Remember; hide ResolveAll; hide Collects; hide IsTable;
    var first := Recover(ops, reqs, ws, now, stuck);
    var settled := RecoverOps(ops, ws, now);
    SettleTable(ops, ws, now);
    SettledLoadsAsItIs(ops + first.ops, first.table, ws', now');
    LoadedIsLive(ops + first.ops);
    RememberIsReplay(reqs, settled.reqs);
    var requests := SettledRequests(ops, reqs, ws, now);
    var lines := ResolveAll(settled.table, requests, stuck).lines;
    assert reqs + first.reqs == (reqs + settled.reqs) + lines;
    RememberNothing(Requests(reqs + first.reqs));
    ResolvedAgain(settled.table, Loaded(ops + first.ops), requests, stuck, reqs + settled.reqs, stuck');
  }

  lemma RememberNothing(requests: map<string, Entry>)
    ensures Remember(requests, []) == requests
  {
  }
}
