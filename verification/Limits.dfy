/**
 Where exact recovery ends. For each hypothesis of the run theorem -- timestamps that differ, one
 spelling a file, no other writer, withdrawals that are logged, evidence that is not pruned -- a history that
 violates it and recovers wrongly. `ExactCondition` has the condition they all fail, for any log;
 here it is read for a log that was just pruned, and for the answers a start changes.
 */
module Limits {
  import opened Options
  import opened Records
  import opened Replay
  import opened Recovery
  import opened ExactRecovery
  import opened ExactCondition
  import opened Pruning
  import opened Fixpoint

  const F := "f"

  /** One file, one spelling. */
  function Holding(hash: string): Workspace {
    Workspace(map[F := F], map[F := hash])
  }

  function Marker(id: nat, before: string, after: string, ts: nat): Record {
    Prepared(id, "r" + Decimal(id), Edit, F, Some(before), after, ts)
  }

  function Committed(id: nat, before: string, after: string, ts: nat): Record {
    Fs(id, "r" + Decimal(id), Edit, F, Some(before), after, ts)
  }

  // ---- tied timestamps ----

  /**
   Two edits in one millisecond: `op-9` landed and kept its marker, `op-10` continued from it. By
   text `op-10` sorts before `op-9`, so the evidence is not after the marker and is not found.
   */
  lemma TiedTimestampsLoseEvidence()
    ensures var log := [Marker(9, "A", "B", 5), Committed(10, "B", "C", 5)];
            && Loaded(log) == [Committed(10, "B", "C", 5), Marker(9, "A", "B", 5)]
            && Judge(Loaded(log), Marker(9, "A", "B", 5), Holding("C")) == Conflict(MISMATCH)
  {
    var p, c := Marker(9, "A", "B", 5), Committed(10, "B", "C", 5);
    var log := [p, c];
    assert Decimal(1) == "1" && Decimal(10) == "10" && Decimal(9) == "9";
    assert TextBefore("10", "9");
    assert Before(c, p);
    assert log[..1] == [p] && [p][..0] == [];
    assert Loaded([p]) == [p];
    assert Without([p], 10) == [p];
    var t := [c, p];
    assert Loaded(log) == t;
    assert t[1..] == [p];
    assert Position(t, 9) == 1;
  }

  /** With any time between the two the same edits recover exactly. */
  lemma DistinctTimestampsKeepIt(later: nat)
    requires later > 5
    ensures var log := [Marker(9, "A", "B", 5), Committed(10, "B", "C", later)];
            Judge(Loaded(log), Marker(9, "A", "B", 5), Holding("C")) == Landed
  {
    var p, c := Marker(9, "A", "B", 5), Committed(10, "B", "C", later);
    var log := [p, c];
    assert log[..1] == [p] && [p][..0] == [];
    assert Loaded([p]) == [p];
    assert Without([p], 10) == [p];
    assert !Before(c, p);
    assert [p][1..] == [];
    assert Insert([p], c) == [p, c];
    assert Loaded(log) == log;
    assert Position(log, 9) == 0;
    assert Continues(log[1], p);
  }

  /** In general: evidence counts exactly if it comes later by time, or by id text within one millisecond. */
  lemma EvidenceIsSeenExactly(log: seq<Record>, p: Record)
    requires p.Prepared? && p in Loaded(log)
    ensures ContinuedFrom(Loaded(log), p) <==> exists c :: c in Loaded(log) && Continues(c, p) && Before(p, c)
  {
    hide Live; hide Loaded; hide Before; hide StartsFrom;
    var t := Loaded(log);
    LoadedIsLive(log);
    var at := Position(t, p.id);
    var k :| 0 <= k < |t| && t[k] == p;
    assert at == k;
    if ContinuedFrom(t, p) {
      var i :| at < i < |t| && Continues(t[i], p);
      assert t[i] in t && Before(p, t[i]);
    }
    if c :| c in t && Continues(c, p) && Before(p, c) {
      var i :| 0 <= i < |t| && t[i] == c;
      BeforeTotal(p, c);
      assert i > at;
    }
  }

  // ---- pruned evidence ----

  /** Something a prune kept shows that `p` landed: a later mutation that took place and started from it. */
  predicate Vouches(c: Record, p: Record, landed: set<nat>)
    requires p.Prepared?
  {
    Real(c, landed) && c.path == p.path && StartsFrom(c, p) && Before(p, c)
  }

  ghost predicate Vouched(kept: seq<Record>, p: Record, ws: Workspace, landed: set<nat>)
    requires p.Prepared?
  {
    ws.Resolves(p.path) && (FileShows(p, ws) || exists c :: c in kept && Vouches(c, p, landed))
  }

  /** A landed marker is right exactly if something vouches for it. */
  lemma VouchedIsRight(log: seq<Record>, i: nat, ws: Workspace, landed: set<nat>)
    requires i < |Loaded(log)| && Loaded(log)[i].Prepared? && Loaded(log)[i].id in landed
    ensures Right(Loaded(log), i, ws, landed) <==> Vouched(Loaded(log), Loaded(log)[i], ws, landed)
  {
    hide Live; hide Loaded; hide Before; hide StartsFrom; hide FileShows;
    var t := Loaded(log);
    var p := t[i];
    LoadedIsLive(log);
    if ReallyContinued(t, i, landed) {
      var j :| i < j < |t| && ContinuesAt(t, i, j, landed);
      assert t[j] in t && Vouches(t[j], p, landed);
    }
    if c :| c in t && Vouches(c, p, landed) {
      var j :| 0 <= j < |t| && t[j] == c;
      BeforeTotal(p, c);
      assert i < j && ContinuesAt(t, i, j, landed);
    }
  }

  /**
   A prune while markers are pending, each of a mutation that landed: the next start is exact if
   and only if for every marker the file still shows it, or the prune kept a later mutation that
   took place and started from it -- a record of history among the newest `keep`, or another marker.
   */
  lemma PrunedLogRecoversExactlyWhen(t: seq<Record>, keep: nat, ws: Workspace, landed: set<nat>, now: nat)
    requires IsTable(t) && forall p :: p in t && p.Prepared? ==> p.id in landed
    ensures var kept := PruneTable(t, keep);
            && kept == Pruning.Newest(t, keep)
            && (RecoverOps(kept, ws, now).actions == ExactActions(Markers(Loaded(kept)), landed)
                <==> forall p :: p in kept && p.Prepared? ==> Vouched(kept, p, ws, landed))
  {
    hide RecoverOps; hide Loaded; hide ExactActions; hide AllRight; hide Vouched; hide PruneTable; hide IsTable; hide Right;
    var kept := PruneTable(t, keep);
    PruneSelectsNewest(t, keep);
    RecoveryIsExactExactlyWhen(kept, ws, landed, now);
    PrunedLoads(t, keep);
    var u := Loaded(kept);
    forall i | 0 <= i < |u| && u[i].Prepared?
      ensures Right(u, i, ws, landed) <==> Vouched(kept, u[i], ws, landed) {
      assert u[i] in u;
      VouchedIsRight(kept, i, ws, landed);
      SameVouching(u, kept, u[i], ws, landed);
    }
    RightByMember(u, kept, ws, landed);
  }

  /** A pruned table holds nothing new, and loads to itself in load order. */
  lemma PrunedLoads(t: seq<Record>, keep: nat)
    requires IsTable(t)
    ensures forall r :: r in Loaded(PruneTable(t, keep)) <==> r in PruneTable(t, keep)
    ensures forall r :: r in PruneTable(t, keep) ==> r in t
  {
    hide Loaded; hide Live; hide IsTable;
    var kept := PruneTable(t, keep);
    RetainKeepsTable(t, Excess(t, keep));
    LoadedIsLive(kept);
    MembersOfLive(kept);
  }

  lemma SameVouching(u: seq<Record>, kept: seq<Record>, p: Record, ws: Workspace, landed: set<nat>)
    requires p.Prepared? && forall r :: r in u <==> r in kept
    ensures Vouched(u, p, ws, landed) <==> Vouched(kept, p, ws, landed)
  {
    hide Vouches; hide FileShows;
  }

  lemma RightByMember(u: seq<Record>, kept: seq<Record>, ws: Workspace, landed: set<nat>)
    requires forall r :: r in u <==> r in kept
    requires forall i :: 0 <= i < |u| && u[i].Prepared? ==>
               (Right(u, i, ws, landed) <==> Vouched(kept, u[i], ws, landed))
    ensures AllRight(u, ws, landed) <==> forall p :: p in kept && p.Prepared? ==> Vouched(kept, p, ws, landed)
  {
    hide Right; hide Vouched;
    if AllRight(u, ws, landed) {
      forall p | p in kept && p.Prepared? ensures Vouched(kept, p, ws, landed) {
        var i :| 0 <= i < |u| && u[i] == p;
        assert Right(u, i, ws, landed);
      }
    }
    if forall p :: p in kept && p.Prepared? ==> Vouched(kept, p, ws, landed) {
      forall i | 0 <= i < |u| && u[i].Prepared? ensures Right(u, i, ws, landed) {
        assert u[i] in u;
      }
    }
  }

  /** The commit that vouches for a marker is pruned, and the landed edit is a conflict. */
  lemma PrunedEvidenceIsAConflict()
    ensures var t := [Marker(1, "A", "B", 1), Committed(2, "B", "C", 2)];
            && Judge(t, t[0], Holding("C")) == Landed
            && PruneTable(t, 0) == [t[0]]
            && Judge(PruneTable(t, 0), t[0], Holding("C")) == Conflict(MISMATCH)
  {
    var t := [Marker(1, "A", "B", 1), Committed(2, "B", "C", 2)];
    assert t[1..] == [t[1]] && t[1..][1..] == [];
    assert Position(t, 1) == 0 && Continues(t[1], t[0]);
    assert ContinuedFrom(t, t[0]);
    PruneSelectsNewest(t, 0);
    assert Pruning.Newest(t[1..], 0) == [];
    assert Position([t[0]], 1) == 0;
  }

  /** Two markers with all between them pruned: the later one vouches for the earlier, and both are exact. */
  lemma MarkersVouchForMarkers(now: nat)
    ensures var t := [Marker(1, "A", "B", 1), Committed(2, "B", "C", 2), Committed(3, "C", "B", 3), Marker(4, "B", "D", 4)];
            var kept := PruneTable(t, 0);
            && kept == [t[0], t[3]]
            && RecoverOps(kept, Holding("D"), now).actions == ExactActions(Markers(Loaded(kept)), {1, 4})
  {
    hide RecoverOps; hide Loaded; hide ExactActions; hide PruneTable; hide Markers;
    var t := [Marker(1, "A", "B", 1), Committed(2, "B", "C", 2), Committed(3, "C", "B", 3), Marker(4, "B", "D", 4)];
    PrunedLogRecoversExactlyWhen(t, 0, Holding("D"), {1, 4}, now);
    OnlyMarkersAreKept(t);
    OneVouchesForTheOther(t[0], t[3]);
  }

  /** With nothing of the history kept, a prune leaves the markers. */
  lemma {:induction false} OnlyMarkersAreKept(t: seq<Record>)
    ensures Pruning.Newest(t, 0) == Markers(t)
  {
    if t != [] {
      OnlyMarkersAreKept(t[1..]);
    }
  }

  lemma OneVouchesForTheOther(p: Record, q: Record)
    requires p == Marker(1, "A", "B", 1) && q == Marker(4, "B", "D", 4)
    ensures forall r :: r in [p, q] ==> Vouched([p, q], r, Holding("D"), {1, 4})
  {
    assert Vouches(q, p, {1, 4}) && q in [p, q];
    assert FileShows(q, Holding("D"));
  }

  /**
   What a prune costs a request that is still in progress, and so stays: the next start answers it
   as it would have if and only if the prune kept its record. Otherwise the request is an error, or
   forgotten and may happen again.
   */
  lemma PrunedRequestIsAnsweredExactlyWhen(t: seq<Record>, keep: nat, r: Record, op: Option<string>)
    requires r in t && r.Committed() && forall x :: x in t && Answers(x, r.rid) ==> x == r
    ensures var kept := PruneTable(t, keep);
            && StuckLine(t, r.rid, op) == Some(DoneLine(r.rid, ReconstructResult(r)))
            && (StuckLine(kept, r.rid, op) == StuckLine(t, r.rid, op) <==> r in kept)
  {
    hide FindCommitted; hide PruneTable; hide ReconstructResult;
    var kept := PruneTable(t, keep);
    PrunedIsPartOf(t, keep);
    assert FindCommitted(t, r.rid) == Some(r);
    if r in kept {
      assert FindCommitted(kept, r.rid) == Some(r);
    } else {
      assert FindCommitted(kept, r.rid).None?;
    }
  }

  lemma PrunedIsPartOf(t: seq<Record>, keep: nat)
    ensures forall x :: x in PruneTable(t, keep) ==> x in t
  {
  }

  // ---- two spellings of one file ----

  /** The continuation is recorded under another spelling of the file and is not recognized. */
  lemma AnotherSpellingHidesEvidence()
    ensures var ws := Workspace(map[F := F, "./f" := F], map[F := "C"]);
            var t := [Marker(1, "A", "B", 1), Fs(2, "r2", Edit, "./f", Some("B"), "C", 2)];
            ws.Current("./f") == ws.Current(F) && Judge(t, t[0], ws) == Conflict(MISMATCH)
  {
    var t := [Marker(1, "A", "B", 1), Fs(2, "r2", Edit, "./f", Some("B"), "C", 2)];
    assert !Continues(t[1], t[0]);
    assert !ContinuedFrom(t, t[0]);
  }

  /** A later record of the same file, under whatever spelling, started from what `t[i]` was to leave. */
  predicate FileContinuesAt(t: seq<Record>, i: nat, j: nat, ws: Workspace, landed: set<nat>)
    requires i < |t| && j < |t| && t[i].Prepared? && ws.Resolves(t[i].path)
  {
    Real(t[j], landed) && ws.Resolves(t[j].path) && ws.spelling[t[j].path] == ws.spelling[t[i].path] && StartsFrom(t[j], t[i])
  }

  /** What spellings cost: a landed marker some record of its file vouches for is lost exactly if each of them spells the file otherwise. */
  lemma SpellingsCost(t: seq<Record>, i: nat, ws: Workspace, landed: set<nat>)
    requires i < |t| && t[i].Prepared? && t[i].id in landed && ws.Resolves(t[i].path) && !FileShows(t[i], ws)
    requires exists j :: i < j < |t| && FileContinuesAt(t, i, j, ws, landed)
    ensures !Right(t, i, ws, landed) <==>
              forall j :: i < j < |t| && FileContinuesAt(t, i, j, ws, landed) ==> t[j].path != t[i].path
  {
    hide FileShows; hide StartsFrom;
    if ReallyContinued(t, i, landed) {
      var j :| i < j < |t| && ContinuesAt(t, i, j, landed);
      assert FileContinuesAt(t, i, j, ws, landed);
    } else {
      forall j | i < j < |t| && FileContinuesAt(t, i, j, ws, landed) ensures t[j].path != t[i].path {
        assert !ContinuesAt(t, i, j, landed);
      }
    }
  }

  // ---- a withdrawal that is not on record ----

  /**
   A create is prepared, its install fails and the aborted line cannot be written. A later create
   of the same bytes succeeds. The next start credits the first request with them.
   */
  lemma UnrecordedWithdrawalIsCredited()
    ensures var p := Prepared(1, "first", Create, F, None, "H", 1);
            var c := Fs(2, "second", Create, F, None, "H", 2);
            && Loaded([p, c]) == [p, c]
            && Judge([p, c], p, Holding("H")) == Landed
  {
    var p, c := Prepared(1, "first", Create, F, None, "H", 1), Fs(2, "second", Create, F, None, "H", 2);
    assert [p, c][..1] == [p] && [p][..0] == [] && [p][1..] == [];
    assert Loaded([p]) == [p] && Without([p], 2) == [p];
    assert !Before(c, p);
    assert Insert([p], c) == [p, c];
  }

  /** A marker that did not land is dropped, alone and for any workspace, exactly if its file is again as it was. */
  lemma AbandonedIsDroppedExactlyWhen(p: Record, ws: Workspace, now: nat)
    requires p.Prepared?
    ensures RecoverOps([p], ws, now).actions == [Dropped(p.id)] <==> ws.Resolves(p.path) && ws.Current(p.path) == p.before
  {
    OneMarker(p);
    assert ExactActions([p][..0], {}) == [];
    assert ExactActions([p], {}) == [Dropped(p.id)];
    assert !ReallyContinued([p], 0, {});
    RecoveryIsExactExactlyWhen([p], ws, {}, now);
    assert AllRight([p], ws, {}) <==> Right([p], 0, ws, {});
  }

  lemma OneMarker(p: Record)
    requires p.Prepared?
    ensures Loaded([p]) == [p] && Markers([p]) == [p]
  {
    assert [p][..0] == [] && [p][1..] == [];
  }

  /** A marker alone in the log is decided by its file. */
  lemma OneMarkerSettles(p: Record, ws: Workspace, now: nat)
    requires p.Prepared?
    ensures !ContinuedFrom([p], p)
    ensures var v := Judge([p], p, ws);
            RecoverOps([p], ws, now) ==
            Settlement(VerdictTable([p], p, v, now), [VerdictLine(p, v, now)], AsSeq(VerdictReply(p, v, now)),
                       [VerdictAction(p, v)], now + 1)
  {
    hide Judge; hide VerdictTable; hide VerdictLine; hide VerdictReply; hide VerdictAction;
    OneMarker(p);
    assert [p][..0] == [];
    assert !ContinuedFrom([p], p);
    var v := Judge([p], p, ws);
    var u := VerdictTable([p], p, v, now);
    assert SettleAll(u, [], ws, now + 1) == Settlement(u, [], [], [], now + 1);
    TakeNone([VerdictLine(p, v, now)], []);
    TakeNone(AsSeq(VerdictReply(p, v, now)), []);
    TakeNone([VerdictAction(p, v)], []);
  }

  // ---- another writer ----

  /**
   A create is cut off before its install. Some program writes the very same bytes: the create is
   credited with them. It writes others: the create is a conflict.
   */
  lemma AnotherWriterIsCredited(now: nat)
    ensures var p := Prepared(1, "r", Create, F, None, "H", 1);
            && RecoverOps([p], Holding("H"), now).actions == [Synthesized(1)]
            && RecoverOps([p], Holding("X"), now).actions == [Conflicted(1)]
  {
    var p := Prepared(1, "r", Create, F, None, "H", 1);
    OneMarkerSettles(p, Holding("H"), now);
    OneMarkerSettles(p, Holding("X"), now);
  }

  /** An edit landed and some program puts the old bytes back: the edit is dropped, and asked again it happens again. */
  lemma AnotherWriterUndoes(now: nat)
    ensures var p := Marker(1, "A", "B", 1);
            && RecoverOps([p], Holding("A"), now).actions == [Dropped(1)]
            && RecoverOps([p], Holding("A"), now).reqs == []
            && StuckEntry(RecoverOps([p], Holding("A"), now).table, p.rid, Some("edit")).None?
  {
    var p := Marker(1, "A", "B", 1);
    OneMarkerSettles(p, Holding("A"), now);
    assert [p][1..] == [] && DropPrepared([p], 1) == [];
  }

  // ---- a pruning run that fails half way ----

  /**
   The tables are cut before the files, so a prune that cannot write leaves them apart: the records
   exactly if the prune cut any, the requests exactly if a finished one has no record left.
   */
  lemma FailedPruneLeavesTheTableBehind(t: seq<Record>, keep: nat, ops: seq<Record>, reqs: seq<ReqLine>)
    requires IsTable(t) && Live(t) == Live(ops)
    ensures var kept := PruneTable(t, keep);
            && (Live(kept) != Live(ops) <==> Excess(t, keep) > 0)
            && (PruneRequests(Requests(reqs), kept) != Requests(reqs) <==>
                  exists rid :: rid in Requests(reqs) && !Requests(reqs)[rid].status.InProgress? && rid !in RetainedRequests(kept))
  {
    hide Live; hide IsTable; hide Requests;
    var kept := PruneTable(t, keep);
    RetainKeepsTable(t, Excess(t, keep));
    PruneByKind(t, keep);
    RetainNothing(t);
    if Live(kept) == Live(t) {
      MembersOfLive(t);
      MembersOfLive(kept);
      TableSizes(t, kept);
    }
    SameRequests(Requests(reqs), kept);
  }

  lemma SameRequests(requests: map<string, Entry>, kept: seq<Record>)
    ensures PruneRequests(requests, kept) == requests <==>
              forall rid :: rid in requests ==> requests[rid].status.InProgress? || rid in RetainedRequests(kept)
  {
    hide RetainedRequests;
    var pruned := PruneRequests(requests, kept);
    if forall rid :: rid in requests ==> requests[rid].status.InProgress? || rid in RetainedRequests(kept) {
      assert forall rid :: rid in pruned <==> rid in requests;
    } else {
      var rid :| rid in requests && !(requests[rid].status.InProgress? || rid in RetainedRequests(kept));
      assert rid !in pruned;
    }
  }

  lemma {:induction false} TableSizes(t: seq<Record>, u: seq<Record>)
    requires IsTable(t) && IsTable(u) && forall x :: x in t <==> x in u
    ensures |t| == |u|
  {
    IdsOf(t);
    IdsOf(u);
    var a := set r | r in t :: r.id;
    var b := set r | r in u :: r.id;
    assert a == b;
  }

  lemma {:induction false} IdsOf(t: seq<Record>)
    requires IsTable(t)
    ensures |set r | r in t :: r.id| == |t|
  {
    hide IsTable;
    if t != [] {
      TableCons(t);
      IdsOf(t[1..]);
      HeadId(t);
    }
  }

  lemma HeadId(t: seq<Record>)
    requires t != [] && forall x :: x in t[1..] ==> x.id != t[0].id
    ensures |set r | r in t :: r.id| == |set r | r in t[1..] :: r.id| + 1
  {
    assert t == [t[0]] + t[1..];
    var rest := set r | r in t[1..] :: r.id;
    assert (set r | r in t :: r.id) == rest + {t[0].id};
    assert t[0].id !in rest;
  }

  // ---- an answer that changes across a restart ----

  /** A mutation whose sync failed was answered with an error; the next start answers it done. */
  lemma ErrorBecomesDone(error: ProtocolError)
    ensures var p := Marker(1, "A", "B", 1);
            var reqs := [ClaimLine(p.rid, "edit"), ErrorLine(p.rid, error)];
            && At(Requests(reqs), p.rid) == Some(ErrorEntry(error))
            && At(SettledRequests([p], reqs, Holding("B"), 2), p.rid)
               == Some(DoneEntry(Reply(p.rid, Body.Mutation(1, Some("A"), "B"))))
  {
    hide RecoverOps; hide Requests; hide Remember;
    var p := Marker(1, "A", "B", 1);
    OneMarkerSettles(p, Holding("B"), 2);
    assert Judge([p], p, Holding("B")) == Landed;
    var line := VerdictReply(p, Landed, 2).value;
    var reqs := [ClaimLine(p.rid, "edit"), ErrorLine(p.rid, error)];
    RequestsAppend([ClaimLine(p.rid, "edit")], ErrorLine(p.rid, error));
    assert [ClaimLine(p.rid, "edit")] + [ErrorLine(p.rid, error)] == reqs;
    LastAnswer(Requests(reqs), line);
  }

  lemma LastAnswer(requests: map<string, Entry>, line: ReqLine)
    ensures Remember(requests, [line]) == requests[line.rid := EntryOf(line)]
  {
    assert [line][1..] == [];
  }

  /** The markers of a request that recovery does not just drop. */
  ghost predicate Reanswered(actions: seq<Action>, ps: seq<Record>, rid: string)
    requires forall p :: p in ps ==> p.Prepared?
  {
    exists p :: p in ps && p.rid == rid && (Synthesized(p.id) in actions || Conflicted(p.id) in actions)
  }

  predicate Mentions(lines: seq<ReqLine>, rid: string) {
    exists line :: line in lines && line.rid == rid
  }

  lemma {:induction false} LinesAreOfMarkers(t: seq<Record>, ps: seq<Record>, ws: Workspace, now: nat, rid: string)
    requires IsTable(ps) && forall p :: p in ps ==> p.Prepared?
    ensures var r := SettleAll(t, ps, ws, now); Mentions(r.reqs, rid) <==> Reanswered(r.actions, ps, rid)
    decreases |ps|
  {
    if ps != [] {
      hide Judge; hide VerdictTable; hide VerdictLine; hide Mentions; hide Reanswered; hide IsTable; hide VerdictReply;
      var p := ps[|ps| - 1];
      var v := Judge(t, p, ws);
      TableInit(ps);
      var u := VerdictTable(t, p, v, now);
      var rest := SettleAll(u, ps[..|ps| - 1], ws, now + 1);
      LinesAreOfMarkers(u, ps[..|ps| - 1], ws, now + 1, rid);
      ReportsAreOfMarkers(u, ps[..|ps| - 1], ws, now + 1);
      OneMoreAnswer(rest.actions, ps, p, v, rid);
      OneMoreMention(rest.reqs, p, v, now, rid);
    } else {
      assert forall line :: line !in SettleAll(t, ps, ws, now).reqs;
    }
  }

  lemma OneMoreMention(rest: seq<ReqLine>, p: Record, v: Verdict, now: nat, rid: string)
    requires p.Prepared?
    ensures Mentions(AsSeq(VerdictReply(p, v, now)) + rest, rid) <==> (!v.NoOp? && p.rid == rid) || Mentions(rest, rid)
  {
    var reply := VerdictReply(p, v, now);
    var all := AsSeq(reply) + rest;
    assert forall line :: line in all <==> (reply.Some? && line == reply.value) || line in rest;
    if !v.NoOp? && p.rid == rid {
      assert reply.value in all && reply.value.rid == rid;
    }
  }

  lemma OneMoreAnswer(rest: seq<Action>, ps: seq<Record>, p: Record, v: Verdict, rid: string)
    requires IsTable(ps) && ps != [] && (forall q :: q in ps ==> q.Prepared?) && p == ps[|ps| - 1]
    requires forall a :: a in rest ==> exists q :: q in ps[..|ps| - 1] && Reports(a, q.id)
    ensures Reanswered([VerdictAction(p, v)] + rest, ps, rid)
            <==> (!v.NoOp? && p.rid == rid) || Reanswered(rest, ps[..|ps| - 1], rid)
  {
    TableInit(ps);
    var init, all := ps[..|ps| - 1], [VerdictAction(p, v)] + rest;
    assert forall a :: a in all <==> a == VerdictAction(p, v) || a in rest;
    assert forall a :: a in rest ==> !Reports(a, p.id);
    assert Reports(Synthesized(p.id), p.id) && Reports(Conflicted(p.id), p.id);
    if Reanswered(all, ps, rid) {
      var q :| q in ps && q.rid == rid && (Synthesized(q.id) in all || Conflicted(q.id) in all);
      assert q != p ==> q in init;
    }
    if Reanswered(rest, init, rid) {
      var q :| q in init && q.rid == rid && (Synthesized(q.id) in rest || Conflicted(q.id) in rest);
      assert q in ps;
    }
  }

  lemma {:induction false} Unmentioned(requests: map<string, Entry>, lines: seq<ReqLine>, rid: string)
    ensures !Mentions(lines, rid) ==> At(Remember(requests, lines), rid) == At(requests, rid)
    ensures Mentions(lines, rid) ==>
              exists line :: line in lines && line.rid == rid && At(Remember(requests, lines), rid) == Some(EntryOf(line))
    decreases |lines|
  {
    if lines != [] {
      hide EntryOf;
      var line, more := lines[0], lines[1..];
      var next := requests[line.rid := EntryOf(line)];
      assert lines == [line] + more;
      Unmentioned(next, more, rid);
      if Mentions(more, rid) {
        var l :| l in more && l.rid == rid && At(Remember(next, more), rid) == Some(EntryOf(l));
        assert l in lines;
      } else if line.rid == rid {
        assert line in lines;
      }
    }
  }

  /**
   Which answers a start changes: the entry of a request is overwritten, whatever it was, exactly if
   a marker of the request is found to have landed or to be a conflict; the markers only dropped, and
   every request without a marker, keep theirs.
   */
  lemma AnswersChangeExactlyFor(ops: seq<Record>, reqs: seq<ReqLine>, ws: Workspace, now: nat, rid: string)
    ensures var settled := RecoverOps(ops, ws, now);
            var after := SettledRequests(ops, reqs, ws, now);
            if Reanswered(settled.actions, Markers(Loaded(ops)), rid) then
              exists line :: line in settled.reqs && line.rid == rid && At(after, rid) == Some(EntryOf(line))
            else
              !Mentions(settled.reqs, rid) && At(after, rid) == At(Requests(reqs), rid)
  {
    hide Loaded; hide SettleAll; hide Requests; hide Remember; hide Mentions; hide Reanswered; hide IsTable; hide EntryOf;
    LoadedIsLive(ops);
    MarkersTable(Loaded(ops));
    LinesAreOfMarkers(Loaded(ops), Markers(Loaded(ops)), ws, now, rid);
    Unmentioned(Requests(reqs), RecoverOps(ops, ws, now).reqs, rid);
  }
}
