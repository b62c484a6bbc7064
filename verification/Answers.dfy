/**
 What a start answers, request by request and over any two logs: a request whose marker landed is
 told so and has its record, one whose marker is a conflict is told that, one left in progress gets
 its record's reply or its policy, and every other keeps what it had.
 */
module Answers {
  import opened Options
  import opened Records
  import opened Replay
  import opened Recovery
  import opened ExactRecovery
  import opened Fixpoint

  // ---- requests with markers ----

  /** The marker of `rid` at `i` was not just dropped, and every earlier one of the request was. */
  ghost predicate IsDecider(ps: seq<Record>, actions: seq<Action>, rid: string, i: nat)
    requires i < |ps| && forall p :: p in ps ==> p.Prepared?
  {
    && ps[i].rid == rid && Dropped(ps[i].id) !in actions
    && forall j :: 0 <= j < i && ps[j].rid == rid ==> Dropped(ps[j].id) in actions
  }

  /** The first of a request's markers that was not just dropped: markers are decided newest first, so it had the last word. */
  function Decider(ps: seq<Record>, actions: seq<Action>, rid: string): (found: Option<Record>)
    requires forall p :: p in ps ==> p.Prepared?
    ensures found.Some? ==> exists i :: 0 <= i < |ps| && ps[i] == found.value && IsDecider(ps, actions, rid, i)
    ensures found.Some? ==> found.value in ps && found.value.rid == rid
    ensures found.None? ==> forall p :: p in ps && p.rid == rid ==> Dropped(p.id) in actions
    decreases |ps|
  {
    if ps == [] then None
    else
      var init, last := ps[..|ps| - 1], ps[|ps| - 1];
      assert ps == init + [last];
      var found := Decider(init, actions, rid);
      if found.Some? then
        assert forall i :: 0 <= i < |init| && IsDecider(init, actions, rid, i) ==> IsDecider(ps, actions, rid, i);
        found
      else if last.rid == rid && Dropped(last.id) !in actions then
        assert IsDecider(ps, actions, rid, |init|);
        Some(last)
      else None
  }

  /** What the client is told of a conflict. */
  function ReasonFor(p: Record, ws: Workspace): string
    requires p.Prepared?
  {
    if !ws.Resolves(p.path) then UNRESOLVABLE
    else if p.before.Some? && ws.Current(p.path).None? then ABSENT
    else MISMATCH
  }

  predicate IsStale(e: Entry, p: Record, ws: Workspace)
    requires p.Prepared?
  {
    && e.status.Error? && e.result.Some? && e.result.value.StoredError?
    && e.result.value.error.code == StaleFile && e.result.value.error == ConflictError(p, ReasonFor(p, ws))
  }

  /** What a request is told when its marker `p` is reported as landed, or as a conflict. */
  ghost predicate Told(p: Record, actions: seq<Action>, ws: Workspace, told: Option<Entry>)
    requires p.Prepared?
  {
    && (Synthesized(p.id) in actions || Conflicted(p.id) in actions)
    && (Synthesized(p.id) in actions ==>
          told == Some(Entry(Done, Some(StoredDone(Reply(p.rid, Body.Mutation(p.id, p.before, p.after)))), None)))
    && (Conflicted(p.id) in actions ==> told.Some? && IsStale(told.value, p, ws))
  }

  /** One marker, decided and answered. */
  lemma VerdictIsTold(t: seq<Record>, p: Record, ws: Workspace, now: nat, requests: map<string, Entry>, rid: string)
    requires p.Prepared?
    ensures var v := Judge(t, p, ws);
            var after := Remember(requests, AsSeq(VerdictReply(p, v, now)));
            && (rid != p.rid || v.NoOp? ==> At(after, rid) == At(requests, rid))
            && (!v.NoOp? ==> Told(p, [VerdictAction(p, v)], ws, At(after, p.rid)))
            && (v.NoOp? <==> VerdictAction(p, v) == Dropped(p.id))
            && Reports(VerdictAction(p, v), p.id)
  {
    hide ContinuedFrom; hide Remember; hide Decimal;
    var v := Judge(t, p, ws);
    var reply := VerdictReply(p, v, now);
    RememberUpTo(requests, reply);
  }

  lemma RememberUpTo(requests: map<string, Entry>, reply: Option<ReqLine>)
    ensures Remember(requests, AsSeq(reply)) == if reply.Some? then requests[reply.value.rid := EntryOf(reply.value)] else requests
  {
    if reply.Some? {
      assert AsSeq(reply)[1..] == [];
    }
  }

  lemma {:induction false} RememberMore(requests: map<string, Entry>, lines: seq<ReqLine>, more: seq<ReqLine>)
    ensures Remember(requests, lines + more) == Remember(Remember(requests, lines), more)
    decreases |lines|
  {
    if lines == [] {
      assert lines + more == more;
    } else {
      assert (lines + more)[1..] == lines[1..] + more;
      RememberMore(requests[lines[0].rid := EntryOf(lines[0])], lines[1..], more);
    }
  }

  /** Reports of other markers do not matter. */
  lemma {:induction false} DeciderIsLocal(ps: seq<Record>, a: seq<Action>, b: seq<Action>, rid: string)
    requires forall p :: p in ps ==> p.Prepared? && (Dropped(p.id) in a <==> Dropped(p.id) in b)
    ensures Decider(ps, a, rid) == Decider(ps, b, rid)
    decreases |ps|
  {
    if ps != [] {
      assert ps == ps[..|ps| - 1] + [ps[|ps| - 1]];
      DeciderIsLocal(ps[..|ps| - 1], a, b, rid);
    }
  }

  /** The entry of any request once markers are decided, whatever table and entries they started from. */
  lemma {:induction false} MarkersAreTold(
      t: seq<Record>, ps: seq<Record>, ws: Workspace, now: nat, requests: map<string, Entry>, rid: string)
    requires IsTable(ps) && forall p :: p in ps ==> p.Prepared?
    ensures var r := SettleAll(t, ps, ws, now);
            var told := At(Remember(requests, r.reqs), rid);
            match Decider(ps, r.actions, rid)
            case Some(p) => Told(p, r.actions, ws, told)
            case None => told == At(requests, rid)
    decreases |ps|
  {
    if ps != [] {
      hide Judge; hide VerdictTable; hide VerdictLine; hide VerdictReply; hide VerdictAction; hide Remember; hide IsTable;
      hide At; hide IsStale; hide Decider; hide Reports;
      var init, p := ps[..|ps| - 1], ps[|ps| - 1];
      var v := Judge(t, p, ws);
      TableInit(ps);
      var u, reply := VerdictTable(t, p, v, now), AsSeq(VerdictReply(p, v, now));
      var rest := SettleAll(u, init, ws, now + 1);
      var next := Remember(requests, reply);
      VerdictIsTold(t, p, ws, now, requests, rid);
      MarkersAreTold(u, init, ws, now + 1, next, rid);
      ReportsAreOfMarkers(u, init, ws, now + 1);
      RememberMore(requests, reply, rest.reqs);
      LastDecider(ps, VerdictAction(p, v), rest.actions, rid, ws);
    } else {
      assert SettleAll(t, ps, ws, now).reqs == [];
    }
  }

  /** Of the reports of other markers none is of `p`. */
  lemma ReportedOnce(ps: seq<Record>, a: Action, rest: seq<Action>)
    requires ps != [] && IsTable(ps) && Reports(a, ps[|ps| - 1].id)
    requires forall b :: b in rest ==> exists q :: q in ps[..|ps| - 1] && Reports(b, q.id)
    ensures var p := ps[|ps| - 1];
            && (forall b :: Reports(b, p.id) ==> (b in [a] + rest <==> b == a))
            && (forall b :: Reports(b, p.id) ==> b !in rest)
            && (forall q, b :: q in ps[..|ps| - 1] && Reports(b, q.id) ==> (b in [a] + rest <==> b in rest))
  {
    TableInit(ps);
    assert forall b :: b in [a] + rest <==> b == a || b in rest;
  }

  /** What is told of a marker depends on its reports alone. */
  lemma ToldByItsReports(p: Record, a: seq<Action>, b: seq<Action>, ws: Workspace)
    requires p.Prepared? && forall x :: Reports(x, p.id) ==> (x in a <==> x in b)
    ensures forall told :: Told(p, a, ws, told) ==> Told(p, b, ws, told)
  {
    hide IsStale;
    assert Reports(Synthesized(p.id), p.id) && Reports(Conflicted(p.id), p.id);
  }

  /** One decision more: it decides its request unless an earlier marker did. */
  lemma LastDecider(ps: seq<Record>, a: Action, rest: seq<Action>, rid: string, ws: Workspace)
    requires ps != [] && IsTable(ps) && forall p :: p in ps ==> p.Prepared?
    requires Reports(a, ps[|ps| - 1].id)
    requires forall b :: b in rest ==> exists q :: q in ps[..|ps| - 1] && Reports(b, q.id)
    ensures var init, p := ps[..|ps| - 1], ps[|ps| - 1];
            var found := Decider(init, rest, rid);
            && Decider(ps, [a] + rest, rid) == (if found.Some? then found
                                                else if p.rid == rid && a != Dropped(p.id) then Some(p) else None)
            && (found.Some? ==> forall told :: Told(found.value, rest, ws, told) ==> Told(found.value, [a] + rest, ws, told))
            && (forall told :: Told(p, [a], ws, told) ==> Told(p, [a] + rest, ws, told))
  {
    hide Told; hide IsTable;
    var init, p, all := ps[..|ps| - 1], ps[|ps| - 1], [a] + rest;
    ReportedOnce(ps, a, rest);
    assert ps == init + [p];
    assert Reports(Dropped(p.id), p.id);
    assert forall q :: q in init ==> Reports(Dropped(q.id), q.id);
    DeciderIsLocal(init, rest, all, rid);
    var found := Decider(init, rest, rid);
    if found.Some? {
      ToldByItsReports(found.value, rest, all, ws);
    }
    ToldByItsReports(p, [a], all, ws);
  }

  // ---- their records ----

  /** Deciding a marker moves no record but its own. */
  lemma VerdictOthers(t: seq<Record>, p: Record, v: Verdict, now: nat)
    requires IsTable(t) && p in t && p.Prepared?
    ensures IsTable(VerdictTable(t, p, v, now))
    ensures forall x: Record :: x.id != p.id ==> (x in VerdictTable(t, p, v, now) <==> x in t)
    ensures forall x: Record :: x.id == p.id ==> (x in VerdictTable(t, p, v, now) <==> v.Landed? && x == CommitOf(p, now))
  {
    if v.Landed? {
      UpsertMembers(t, CommitOf(p, now));
    } else {
      DropPreparedMembers(t, p.id);
    }
  }

  lemma {:induction false} OthersStay(t: seq<Record>, ps: seq<Record>, ws: Workspace, now: nat, x: Record)
    requires IsTable(t) && IsTable(ps) && forall p :: p in ps ==> p in t && p.Prepared? && p.id != x.id
    ensures x in SettleAll(t, ps, ws, now).table <==> x in t
    decreases |ps|
  {
    if ps != [] {
      hide Judge; hide VerdictTable; hide VerdictLine; hide VerdictReply; hide VerdictAction; hide IsTable;
      var p := ps[|ps| - 1];
      TableInit(ps);
      VerdictOthers(t, p, Judge(t, p, ws), now);
      OthersStay(VerdictTable(t, p, Judge(t, p, ws), now), ps[..|ps| - 1], ws, now + 1, x);
    }
  }

  /** What the table holds under the id of a marker that was decided: its commit if it was found landed, or nothing. */
  lemma {:induction false} DecidedTable(t: seq<Record>, ps: seq<Record>, ws: Workspace, now: nat, p: Record, x: Record)
    requires IsTable(t) && IsTable(ps) && (forall q :: q in ps ==> q in t && q.Prepared?) && p in ps && x.id == p.id
    ensures var r := SettleAll(t, ps, ws, now);
            && (x in r.table ==> Synthesized(p.id) in r.actions && x == CommitOf(p, x.ts))
            && (Synthesized(p.id) in r.actions ==> exists ts: nat :: CommitOf(p, ts) in r.table)
    decreases |ps|
  {
    hide Judge; hide VerdictTable; hide VerdictLine; hide VerdictReply; hide VerdictAction; hide IsTable; hide Reports;
    var init, last := ps[..|ps| - 1], ps[|ps| - 1];
    TableInit(ps);
    var v := Judge(t, last, ws);
    var u := VerdictTable(t, last, v, now);
    var rest := SettleAll(u, init, ws, now + 1);
    VerdictOthers(t, last, v, now);
    ActionOf(last, v);
    ReportsAreOfMarkers(u, init, ws, now + 1);
    ReportedOnce(ps, VerdictAction(last, v), rest.actions);
    SynthesisIsReported(p);
    if p == last {
      OthersStay(u, init, ws, now + 1, x);
      OthersStay(u, init, ws, now + 1, CommitOf(p, now));
    } else {
      DecidedTable(u, init, ws, now + 1, p, x);
    }
  }

  lemma ActionOf(p: Record, v: Verdict)
    requires p.Prepared?
    ensures Reports(VerdictAction(p, v), p.id)
    ensures v.Landed? <==> VerdictAction(p, v) == Synthesized(p.id)
  {
  }

  lemma SynthesisIsReported(p: Record)
    ensures Reports(Synthesized(p.id), p.id)
  {
  }

  // ---- a whole start ----

  /** What a request left in progress gets: its record's reply, or an error, or to be forgotten. */
  ghost predicate Resolved(t: seq<Record>, op: Option<string>, rid: string, told: Option<Entry>) {
    if exists c :: c in t && c.Committed() && c.rid == rid then
      exists i :: 0 <= i < |t| && IsFirst(t, rid, i) && told == Some(DoneEntry(ReconstructResult(t[i])))
    else if op.None? || op == Some("exec") then
      && told.Some? && told.value.status.Error? && told.value.result.Some? && told.value.result.value.StoredError?
      && told.value.result.value.error.code == if op.None? then InvalidRequest else ExecFailed
    else told.None?
  }

  lemma StuckIsResolved(t: seq<Record>, rid: string, op: Option<string>)
    ensures Resolved(t, op, rid, StuckEntry(t, rid, op))
  {
    hide ReconstructResult;
    var found := FindCommitted(t, rid);
    if found.Some? {
      var i :| 0 <= i < |t| && t[i] == found.value && IsFirst(t, rid, i);
    }
  }

  /** The report on a request left in progress says what became of its entry. */
  ghost predicate ReportedAs(a: Action, t: seq<Record>, rid: string, told: Option<Entry>) {
    match a
    case Synthesized(id) =>
      exists c :: c in t && c.Committed() && c.rid == rid && c.id == id && told == Some(DoneEntry(ReconstructResult(c)))
    case StuckMarkedError(r) => r == rid && told.Some? && told.value.status.Error?
    case ClearedStuck(r) => r == rid && told.None?
    case _ => false
  }

  lemma StuckIsReported(t: seq<Record>, x: Stalled)
    ensures ReportedAs(StuckAction(t, x), t, x.rid, StuckEntry(t, x.rid, x.op))
  {
    hide ReconstructResult;
    var found := FindCommitted(t, x.rid);
    if found.Some? {
      assert found.value in t;
    }
  }

  /**
   The entry a request ends a start with, given the one it began with: what its deciding marker
   says, with the record of a landed one in the table; without such a marker, what it is owed if it
   was left in progress; and otherwise what it had.
   */
  ghost predicate Answered(ps: seq<Record>, actions: seq<Action>, ws: Workspace, t: seq<Record>, rid: string,
                           was: Option<Entry>, told: Option<Entry>)
    requires forall p :: p in ps ==> p.Prepared?
  {
    match Decider(ps, actions, rid)
    case Some(p) =>
      && Told(p, actions, ws, told)
      && (Synthesized(p.id) in actions <==>
            exists ts: nat :: Fs(p.id, p.rid, p.kind, p.path, p.before, p.after, ts) in t)
    case None =>
      if was.Some? && was.value.status.InProgress? && was.value.result.None? then Resolved(t, was.value.op, rid, told)
      else told == was
  }

  lemma MarkersAnswer(t: seq<Record>, ps: seq<Record>, ws: Workspace, now: nat, requests: map<string, Entry>, rid: string)
    requires IsTable(t) && IsTable(ps) && forall p :: p in ps ==> p in t && p.Prepared?
    ensures var r := SettleAll(t, ps, ws, now);
            var told := At(Remember(requests, r.reqs), rid);
            match Decider(ps, r.actions, rid)
            case Some(p) => Told(p, r.actions, ws, told) && Answered(ps, r.actions, ws, r.table, rid, At(requests, rid), told)
            case None => told == At(requests, rid)
  {
    hide SettleAll; hide Remember; hide At; hide Told; hide IsTable;
    MarkersAreTold(t, ps, ws, now, requests, rid);
    var r := SettleAll(t, ps, ws, now);
    var found := Decider(ps, r.actions, rid);
    if found.Some? {
      var p := found.value;
      LandedHasItsRecord(t, ps, ws, now, p);
    }
  }

  lemma LandedHasItsRecord(t: seq<Record>, ps: seq<Record>, ws: Workspace, now: nat, p: Record)
    requires IsTable(t) && IsTable(ps) && (forall q :: q in ps ==> q in t && q.Prepared?) && p in ps
    ensures var r := SettleAll(t, ps, ws, now);
            Synthesized(p.id) in r.actions <==>
            exists ts: nat :: Fs(p.id, p.rid, p.kind, p.path, p.before, p.after, ts) in r.table
  {
    hide SettleAll; hide IsTable;
    var r := SettleAll(t, ps, ws, now);
    DecidedTable(t, ps, ws, now, p, p);
    if Synthesized(p.id) in r.actions {
      var ts: nat :| CommitOf(p, ts) in r.table;
      assert Fs(p.id, p.rid, p.kind, p.path, p.before, p.after, ts) in r.table;
    } else if ts: nat :| Fs(p.id, p.rid, p.kind, p.path, p.before, p.after, ts) in r.table {
      DecidedTable(t, ps, ws, now, p, Fs(p.id, p.rid, p.kind, p.path, p.before, p.after, ts));
    }
  }

  /** The theorem: over any two logs and any workspace, every request is answered so. */
  lemma EveryRequestIsAnswered(ops: seq<Record>, reqs: seq<ReqLine>, ws: Workspace, now: nat, stuck: seq<Stalled>, rid: string)
    requires Collects(stuck, SettledRequests(ops, reqs, ws, now))
    ensures var r := Recover(ops, reqs, ws, now, stuck);
            Answered(Markers(Loaded(ops)), RecoverOps(ops, ws, now).actions, ws, r.table, rid,
                     At(Requests(reqs), rid), At(r.requests, rid))
  {
    hide Loaded; hide Markers; hide SettleAll; hide Requests; hide Remember; hide StuckLine; hide ResolveAll; hide Told;
    hide Resolved; hide IsTable; hide Decider; hide StuckEntry;
    var t, settled, requests := Loaded(ops), RecoverOps(ops, ws, now), SettledRequests(ops, reqs, ws, now);
    LoadedIsLive(ops);
    MarkersTable(t);
    MarkersAnswer(t, Markers(t), ws, now, Requests(reqs), rid);
    ResolveAllEntries(settled.table, requests, stuck);
    if Stuck(requests, rid) {
      var x := Stalled(rid, requests[rid].op);
      assert x in stuck;
      StuckIsResolved(settled.table, rid, x.op);
      ToldIsNotStuck(Markers(t), settled.actions, ws, rid, requests);
    } else {
      assert forall x :: x in stuck ==> x.rid != rid;
    }
  }

  /** A request whose marker decided it is not left in progress. */
  lemma ToldIsNotStuck(ps: seq<Record>, actions: seq<Action>, ws: Workspace, rid: string, requests: map<string, Entry>)
    requires (forall p :: p in ps ==> p.Prepared?) && Stuck(requests, rid)
    ensures var found := Decider(ps, actions, rid);
            found.Some? ==> !Told(found.value, actions, ws, At(requests, rid))
  {
  }

  /**
   A request a start answers done has a committed record of its own in the table the start ends
   with, and the message is what that record stands for.
   */
  lemma DoneHasItsRecord(ops: seq<Record>, reqs: seq<ReqLine>, ws: Workspace, now: nat, stuck: seq<Stalled>, rid: string)
    requires Collects(stuck, SettledRequests(ops, reqs, ws, now))
    ensures var r := Recover(ops, reqs, ws, now, stuck);
            var told := At(r.requests, rid);
            told != At(Requests(reqs), rid) && told.Some? && told.value.status.Done? ==>
              exists c :: c in r.table && c.Committed() && c.rid == rid && told == Some(DoneEntry(ReconstructResult(c)))
  {
    hide Recover; hide RecoverOps; hide Markers; hide Requests; hide Loaded; hide Decider;
    EveryRequestIsAnswered(ops, reqs, ws, now, stuck, rid);
    var r, ps, actions := Recover(ops, reqs, ws, now, stuck), Markers(Loaded(ops)), RecoverOps(ops, ws, now).actions;
    var told, found := At(r.requests, rid), Decider(ps, actions, rid);
    if told != At(Requests(reqs), rid) && told.Some? && told.value.status.Done? {
      if found.Some? {
        var p := found.value;
        var ts: nat :| Fs(p.id, p.rid, p.kind, p.path, p.before, p.after, ts) in r.table;
        var c := Fs(p.id, p.rid, p.kind, p.path, p.before, p.after, ts);
        assert told == Some(DoneEntry(ReconstructResult(c)));
      } else {
        var i :| 0 <= i < |r.table| && IsFirst(r.table, rid, i) && told == Some(DoneEntry(ReconstructResult(r.table[i])));
        assert r.table[i] in r.table;
      }
    }
  }
}
