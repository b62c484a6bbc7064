/**
 A reply lost in a crash is replayed: from the moment the effect of a request is on record, every
 answer the request is ever given from the tables is the one its handler was to send -- over any
 run, whatever others write, through crashes in the middle of recoveries too. Only a prune that drops
 something of the request can undo that, and, while nothing but a marker records the effect, another
 writer of its file or a prune that leaves nothing to vouch for it.
 */
module LostReplies {
  import opened Options
  import opened Records
  import opened Replay
  import opened Recovery
  import opened WriteAhead
  import opened ExactRecovery
  import opened Pruning
  import opened Fixpoint
  import opened Replies
  import opened CrashRuns
  import opened RunInvariant
  import opened AtMostOnce
  import opened Promises

  // ---- stopping and starting ----

  lemma RestartPromise(s: State)
    requires Once(s) && Promise(s)
    ensures Promise(DoRestart(s))
  {
    hide Stands; hide Live; hide Requests; hide Replayed; hide Loaded; hide HighWater; hide Owns; hide Shown; hide TablePromise;
    hide OneRecordEach; hide Unique; hide Spent; hide MemoryOnce;
    forall rid | rid in s.promised ensures rid in Requests(s.reqs) {
      StandingOwns(Live(s.ops), Shown(s.h), rid, s.promised[rid]);
    }
  }

  lemma CrashPromise(s: State)
    requires Promise(s)
    ensures Promise(DoCrash(s))
  {
    hide Live; hide Requests; hide DiskPromise; hide MemoryPromise; hide Apart; hide Shown;
  }

  lemma ServePromise(s: State, m: Memory)
    requires Inv(s) && Promise(s) && s.memory == Some(m) && !m.serving
    ensures Promise(DoServe(s, m))
  {
    hide Inv; hide Stands; hide Live; hide Requests; hide Says; hide Concluded; hide DiskPromise; hide Settling; hide HighWater;
    hide IsTable; hide Apart;
    RecoveringFacts(s, m);
    assert Remembered(s.h, m) == s.h;
  }

  /** What deciding the newest marker does to the promise of its request, if there is one. */
  lemma NewestPromise(s: State, m: Memory)
    requires Inv(s) && Once(s) && Promise(s) && s.memory == Some(m) && !m.serving && Markers(m.table) != []
    ensures var p := CrashRuns.Newest(m.table);
            && p.id in Live(s.ops) && Live(s.ops)[p.id] == p
            && (p.id in Shown(s.h) ==> Judge(m.table, p, s.ws).Landed?)
            && (p.rid in s.promised ==> p.id in Shown(s.h) && s.promised[p.rid] == Meaning(p))
            && m.tasks == map[] && m.guard.None?
  {
    hide Inv; hide MemoryOnce; hide MemoryPromise; hide Live; hide Requests; hide Stands; hide Says; hide Owns; hide Judge;
    hide Markers; hide Settling; hide Meaning; hide Unique; hide Spent; hide OneRecordEach;
    var p := CrashRuns.Newest(m.table);
    NewestFacts(s, m);
    RecoveringFacts(s, m);
    if p.rid in s.promised {
      StandingOnly(Live(s.ops), Shown(s.h), s.pruned.requests, p.rid, s.promised[p.rid]);
      assert StandsAt(Live(s.ops), Shown(s.h), p.rid, s.promised[p.rid], p.id);
    }
  }

  lemma SettlePromise(s: State, m: Memory, appends: nat)
    requires Inv(s) && Once(s) && Promise(s) && s.memory == Some(m) && !m.serving && Markers(m.table) != []
    ensures Promise(DoSettle(s, m, appends))
  {
    hide Inv; hide Once; hide Promise; hide Live; hide Judge; hide Markers; hide DoSettle;
    NewestPromise(s, m);
    SettlePromiseAt(s, m, appends, CrashRuns.Newest(m.table));
  }

  /** The line of a decision, in the log and in memory. */
  lemma DecisionPromise(s: State, m: Memory, p: Marker, v: Verdict)
    requires Promise(s) && s.memory == Some(m) && !m.serving && m.tasks == map[] && m.guard.None?
    requires p.id in Live(s.ops) && Live(s.ops)[p.id] == p && (p.id in Shown(s.h) ==> v.Landed?)
    ensures DiskPromise(Live(s.ops + [VerdictLine(p, v, s.now)]), Requests(s.reqs), Shown(s.h), s.promised)
    ensures MemoryPromise(Requests(s.reqs), Shown(s.h), s.promised, s.pruned.requests,
                          m.(table := VerdictTable(m.table, p, v, s.now)))
    ensures Apart(s.promised, s.pruned.requests)
  {
    hide DiskPromise; hide MemoryPromise; hide Live; hide Requests; hide VerdictTable; hide ReconstructResult; hide Shown;
    hide Apart;
    PromiseParts(s);
    LiveAppend(s.ops, VerdictLine(p, v, s.now));
    if v.Landed? {
      CommittedRecord(Live(s.ops), Requests(s.reqs), Shown(s.h), s.promised, p, s.now);
    } else {
      WithdrawnRecord(Live(s.ops), Requests(s.reqs), Shown(s.h), s.promised, p.id);
    }
    TableMoves(Requests(s.reqs), Shown(s.h), s.promised, s.pruned.requests, m, VerdictTable(m.table, p, v, s.now));
  }

  lemma LoggedPromise(s: State, m: Memory, p: Marker, v: Verdict)
    requires Promise(s) && s.memory == Some(m) && !m.serving && m.tasks == map[] && m.guard.None?
    requires p.id in Live(s.ops) && Live(s.ops)[p.id] == p && (p.id in Shown(s.h) ==> v.Landed?)
    ensures Promise(DoCrash(LogVerdict(s, VerdictLine(p, v, s.now))))
  {
    hide DiskPromise; hide MemoryPromise; hide Live; hide Requests; hide VerdictTable; hide VerdictLine; hide Apart;
    DecisionPromise(s, m, p, v);
  }

  lemma SettledPromise(s: State, m: Memory, p: Marker, v: Verdict)
    requires Promise(s) && s.memory == Some(m) && !m.serving && m.tasks == map[] && m.guard.None?
    requires p.id in Live(s.ops) && Live(s.ops)[p.id] == p && (p.id in Shown(s.h) ==> v.Landed?)
    requires p.rid in s.promised ==> p.id in Shown(s.h) && s.promised[p.rid] == Meaning(p)
    ensures Promise(Settled(LogVerdict(s, VerdictLine(p, v, s.now)), m, VerdictTable(m.table, p, v, s.now),
                            VerdictReply(p, v, s.now)))
  {
    hide DiskPromise; hide MemoryPromise; hide Live; hide Requests; hide VerdictTable; hide VerdictLine; hide Apart; hide EntryOf;
    hide ReconstructResult; hide VerdictReply; hide Shown;
    var reply, t := VerdictReply(p, v, s.now), VerdictTable(m.table, p, v, s.now);
    DecisionPromise(s, m, p, v);
    NoReply(s.reqs);
    if reply.Some? {
      VerdictReplyKeeps(p, v, s.now, s.promised);
      RequestsAppend(s.reqs, reply.value);
      OneMoreLine(Live(s.ops + [VerdictLine(p, v, s.now)]), Requests(s.reqs), Shown(s.h), s.promised, reply.value);
      PromiseParts(s);
      RecoveredLine(Requests(s.reqs), Shown(s.h), s.promised, s.pruned.requests, m, reply.value, t);
    }
  }

  lemma SettlePromiseAt(s: State, m: Memory, appends: nat, p: Record)
    requires Promise(s) && s.memory == Some(m) && !m.serving && m.tasks == map[] && m.guard.None?
    requires Markers(m.table) != [] && p == CrashRuns.Newest(m.table)
    requires p.id in Live(s.ops) && Live(s.ops)[p.id] == p
    requires p.id in Shown(s.h) ==> Judge(m.table, p, s.ws).Landed?
    requires p.rid in s.promised ==> p.id in Shown(s.h) && s.promised[p.rid] == Meaning(p)
    ensures Promise(DoSettle(s, m, appends))
  {
    hide Promise; hide Live; hide Judge; hide Markers; hide VerdictTable; hide VerdictLine; hide VerdictReply; hide Settled;
    hide LogVerdict; hide DoCrash; hide Shown; hide Meaning;
    var v := Judge(m.table, p, s.ws);
    CrashPromise(s);
    LoggedPromise(s, m, p, v);
    SettledPromise(s, m, p, v);
  }

  lemma VerdictReplyKeeps(p: Record, v: Verdict, now: nat, promised: map<string, Message>)
    requires p.Prepared? && VerdictReply(p, v, now).Some?
    requires p.rid in promised ==> v.Landed? && promised[p.rid] == Meaning(p)
    ensures var reply := VerdictReply(p, v, now).value;
            && reply.rid == p.rid && EntryOf(reply).result.Some?
            && (reply.rid in promised ==> Replayed(reply.rid, EntryOf(reply)) == promised[reply.rid])
  {
  }

  lemma TableMoves(table: map<string, Entry>, landed: set<nat>, promised: map<string, Message>, gone: set<string>,
                   m: Memory, t: seq<Record>)
    requires MemoryPromise(table, landed, promised, gone, m) && m.tasks == map[] && m.guard.None?
    ensures MemoryPromise(table, landed, promised, gone, m.(table := t))
  {
    hide Says; hide Concluded;
  }

  /** A line recovery writes, in log and memory. */
  lemma RecoveredLine(table: map<string, Entry>, landed: set<nat>, promised: map<string, Message>, gone: set<string>, m: Memory, line: ReqLine,
                      t: seq<Record>)
    requires MemoryPromise(table, landed, promised, gone, m) && !m.serving && m.tasks == map[] && m.guard.None?
    requires EntryOf(line).result.Some?
    requires line.rid in promised ==> Replayed(line.rid, EntryOf(line)) == promised[line.rid]
    ensures MemoryPromise(table[line.rid := EntryOf(line)], landed, promised, gone,
                          m.(table := t, requests := m.requests[line.rid := EntryOf(line)]))
  {
    hide EntryOf; hide Replayed;
  }

  /** A request whose effect is on record, and no marker is left: its record is found, and stands for the promise. */
  lemma PromisedIsFound(s: State, m: Memory, rid: string)
    requires Inv(s) && Once(s) && Promise(s) && s.memory == Some(m) && !m.serving && Markers(m.table) == []
    requires rid in s.promised
    ensures FindCommitted(m.table, rid).Some? && ReconstructResult(FindCommitted(m.table, rid).value) == s.promised[rid]
  {
    hide Inv; hide MemoryOnce; hide MemoryPromise; hide Live; hide Requests; hide Says; hide Owns; hide IsTable;
    hide ReconstructResult; hide FindCommitted; hide Markers; hide Settling; hide HighWater; hide Unique; hide Spent;
    RecoveringFacts(s, m);
    var live := Live(s.ops);
    StandingOnly(live, Shown(s.h), s.pruned.requests, rid, s.promised[rid]);
    var id :| StandsAt(live, Shown(s.h), rid, s.promised[rid], id);
    MembersOfLive(m.table);
    NoMarkers(m.table);
    var r := live[id];
    assert r in m.table;
    NoneInFlight(m.table, r);
    var found := FindCommitted(m.table, rid);
    assert found.Some?;
    assert found.value in m.table;
    assert StandsAt(live, Shown(s.h), rid, s.promised[rid], found.value.id);
  }

  lemma NoneInFlight(t: seq<Record>, r: Record)
    requires r in t && (forall i :: 0 <= i < |t| ==> !t[i].Prepared?) && !r.Aborted?
    ensures r.Committed()
  {
  }

  lemma ResolveStuckPromise(s: State, m: Memory, rid: string, io: Fate)
    requires Inv(s) && Once(s) && Promise(s) && s.memory == Some(m) && !m.serving && Markers(m.table) == []
    requires Stuck(m.requests, rid)
    ensures Promise(DoResolveStuck(s, m, rid, io))
  {
    hide Inv; hide Once; hide DiskPromise; hide MemoryPromise; hide Live; hide Requests; hide Markers; hide FindCommitted;
    hide EntryOf; hide Replayed; hide ReconstructResult; hide Shown; hide Apart; hide Settling; hide HighWater; hide IsTable;
    RecoveringFacts(s, m);
    PromiseParts(s);
    if rid in s.promised {
      PromisedIsFound(s, m, rid);
    }
    var line := StuckLine(m.table, rid, m.requests[rid].op);
    StuckLineKeeps(m.table, rid, m.requests[rid].op, s.promised);
    if line.Some? {
      RequestsAppend(s.reqs, line.value);
      OneMoreLine(Live(s.ops), Requests(s.reqs), Shown(s.h), s.promised, line.value);
      RecoveredLine(Requests(s.reqs), Shown(s.h), s.promised, s.pruned.requests, m, line.value, m.table);
    } else {
      ForgottenPromise(Requests(s.reqs), Shown(s.h), s.promised, s.pruned.requests, m, rid);
    }
  }

  lemma StuckLineKeeps(t: seq<Record>, rid: string, op: Option<string>, promised: map<string, Message>)
    requires rid in promised ==> FindCommitted(t, rid).Some? && ReconstructResult(FindCommitted(t, rid).value) == promised[rid]
    ensures var line := StuckLine(t, rid, op);
            if line.Some? then
              && line.value.rid == rid && EntryOf(line.value).result.Some?
              && (rid in promised ==> Replayed(rid, EntryOf(line.value)) == promised[rid])
            else rid !in promised
  {
    hide FindCommitted; hide ReconstructResult;
  }

  lemma ForgottenPromise(table: map<string, Entry>, landed: set<nat>, promised: map<string, Message>,
                         gone: set<string>, m: Memory, rid: string)
    requires MemoryPromise(table, landed, promised, gone, m) && !m.serving && m.tasks == map[] && m.guard.None?
    requires Stuck(m.requests, rid) && rid !in promised
    ensures MemoryPromise(table, landed, promised, gone, m.(requests := m.requests - {rid}))
  {
    hide Replayed;
  }

  // ---- the record of a request is there for good ----

  ghost predicate Recorded(live: map<nat, Record>, rid: string) {
    exists id :: id in live && live[id].Committed() && live[id].rid == rid
  }

  /** A committed record of the request is in the log, and in the table of a server that serves. */
  ghost predicate Filed(s: State, rid: string) {
    Recorded(Live(s.ops), rid) && (Serving(s) ==> Recorded(Live(s.memory.value.table), rid))
  }

  /** A line under a new id, or about a marker, takes no committed record away. */
  lemma OneIdKeepsRecorded(live: map<nat, Record>, next: map<nat, Record>, id: nat, rid: string)
    requires Recorded(live, rid) && (id in live ==> live[id].Prepared?)
    requires forall i :: i in live && i != id ==> i in next && next[i] == live[i]
    ensures Recorded(next, rid)
  {
    var i :| i in live && live[i].Committed() && live[i].rid == rid;
    assert i in next && next[i] == live[i];
  }

  lemma PrepareKeepsFiled(s: State, m: Memory, p: Marker, io: Fate, undo: Fate, rid: string)
    requires Inv(s) && s.memory == Some(m) && m.serving && p.id == m.nextId + 1 && Filed(s, rid)
    ensures Filed(DoPrepare(s, m, p, io, undo), rid)
  {
    hide Inv; hide Live; hide Recorded; hide View; hide HistoryOld; hide Twins; hide IsTable; hide HighWater;
    FreshIds(s, m);
    WithdrawnAtOnce(s, m, p);
    LiveAppend(s.ops, p);
    LiveAppend(m.table, p);
    OneIdKeepsRecorded(Live(s.ops), Live(s.ops)[p.id := p], p.id, rid);
    OneIdKeepsRecorded(Live(m.table), Live(m.table)[p.id := p], p.id, rid);
  }

  lemma WithdrawKeepsFiled(s: State, m: Memory, error: ProtocolError, io: Fate, rid: string)
    requires Inv(s) && s.memory == Some(m) && m.serving && m.guard.Some? && Filed(s, rid)
    ensures Filed(DoWithdraw(s, m, m.guard.value, error, io), rid)
  {
    hide Inv; hide Live; hide Recorded; hide View; hide HistoryOld; hide Twins; hide IsTable; hide HighWater; hide DropPrepared;
    var p := m.guard.value;
    ServingFacts(s, m);
    LiveAppend(s.ops, Aborted(p.id, s.now));
    DropPreparedLive(m.table, p.id);
    OneIdKeepsRecorded(Live(s.ops), Live(s.ops) - {p.id}, p.id, rid);
    OneIdKeepsRecorded(Live(m.table), Live(m.table) - {p.id}, p.id, rid);
  }

  lemma CommitKeepsFiled(s: State, m: Memory, synced: bool, rid: string)
    requires Inv(s) && s.memory == Some(m) && m.serving && m.guard.Some? && Filed(s, rid)
    ensures Filed(DoCommit(s, m, m.guard.value, synced), rid)
  {
    hide Inv; hide Live; hide Recorded; hide View; hide HistoryOld; hide Twins; hide IsTable; hide HighWater; hide Upsert;
    hide ReconstructResult;
    var p, c := m.guard.value, CommitOf(m.guard.value, s.now);
    ServingFacts(s, m);
    LiveAppend(s.ops, c);
    UpsertLive(m.table, c);
    OneIdKeepsRecorded(Live(s.ops), Live(s.ops)[p.id := c], p.id, rid);
    OneIdKeepsRecorded(Live(m.table), Live(m.table)[p.id := c], p.id, rid);
  }

  lemma RecordKeepsFiled(s: State, m: Memory, nextId: nat, r: Record, line: ReqLine, io: Fate, rid: string)
    requires s.memory == Some(m) && m.serving && Filed(s, rid) && (r.Exec? || r.Transfer?)
    requires r.id !in Live(s.ops) && r.id !in Live(m.table)
    ensures Filed(DoRecord(s, m.(nextId := nextId), r, line, io), rid)
  {
    hide Live; hide Recorded;
    LiveAppend(s.ops, r);
    LiveAppend(m.table, r);
    OneIdKeepsRecorded(Live(s.ops), Live(s.ops)[r.id := r], r.id, rid);
    OneIdKeepsRecorded(Live(m.table), Live(m.table)[r.id := r], r.id, rid);
  }

  lemma RecordStepKeepsFiled(s: State, a: Step, rid: string)
    requires Inv(s) && Enabled(s, a) && (a.RecordExec? || a.RecordTransfer?) && Filed(s, rid)
    ensures Filed(Do(s, a), rid)
  {
    hide Inv; hide Filed; hide IsLogRefusal; hide ReconstructResult; hide ExecLine; hide TransferLine; hide ExecReply;
    hide DoRecord; hide Live;
    var m := s.memory.value;
    FreshIds(s, m);
    match a
    case RecordExec(q, request, outcome, io, refusal) =>
      var id := m.tasks[q].id;
      var r, line := ExecRecord(id, q, request, outcome, s.now), ExecLine(id, q, outcome, Seen(io, refusal));
      RecordKeepsFiled(s, m, m.nextId, r, line, io, rid);
      FiledIsRecords(DoRecord(s, m, r, line, io), Do(s, a).promised, rid);
    case RecordTransfer(q, transfer, cleaned, io, refusal) =>
      var id := m.nextId + 1;
      var r, line := Transfer(id, q, transfer, s.now), TransferLine(id, q, transfer, Seen(io, refusal), cleaned);
      RecordKeepsFiled(s, m, id, r, line, io, rid);
      FiledIsRecords(DoRecord(s, m.(nextId := id), r, line, io), Do(s, a).promised, rid);
  }

  lemma FiledIsRecords(s: State, promised: map<string, Message>, rid: string)
    ensures Filed(s, rid) <==> Filed(s.(promised := promised), rid)
  {
    hide Recorded; hide Live;
  }

  /** The steps that change no record. */
  lemma RecordsStay(s: State, a: Step)
    requires Inv(s) && Enabled(s, a) && !a.Gc?
    requires !a.Prepare? && !a.Withdraw? && !a.Commit? && !a.RecordExec? && !a.RecordTransfer? && !a.Settle?
    ensures Do(s, a).ops == s.ops
    ensures Serving(Do(s, a)) ==> if Serving(s) then Do(s, a).memory.value.table == s.memory.value.table
                                  else Live(Do(s, a).memory.value.table) == Live(s.ops)
  {
    hide Inv; hide Live; hide Asks; hide Markers; hide StuckLine; hide Pending; hide Loaded; hide Requests; hide HighWater;
    hide EntryOf; hide ReconstructResult; hide Askers; hide PendingOn; hide Settling; hide IsTable;
    if Recovering(s) {
      RecoveringFacts(s, s.memory.value);
    }
  }

  lemma SettleKeepsFiled(s: State, m: Memory, appends: nat, rid: string)
    requires Inv(s) && s.memory == Some(m) && !m.serving && Markers(m.table) != [] && Filed(s, rid)
    ensures Filed(DoSettle(s, m, appends), rid)
  {
    hide Inv; hide Live; hide Recorded; hide Markers; hide Judge; hide VerdictTable; hide ReconstructResult; hide Settling;
    hide Exempt;
    NextDecision(s, m);
    var p := CrashRuns.Newest(m.table);
    var line := VerdictLine(p, Judge(m.table, p, s.ws), s.now);
    LiveAppend(s.ops, line);
    OneIdKeepsRecorded(Live(s.ops), Live(s.ops + [line]), p.id, rid);
  }

  /** A prune that drops nothing of the request drops no record of it. */
  lemma GcKeepsFiled(s: State, m: Memory, keep: nat, lines: seq<ReqLine>, replaced: nat, rid: string)
    requires Inv(s) && s.memory == Some(m) && m.serving && Filed(s, rid)
    requires rid !in Forgotten(s, m, PruneTable(m.table, keep), replaced)
    ensures Filed(DoGc(s, m, keep, lines, replaced), rid)
  {
    hide Inv; hide Live; hide PruneTable; hide PruneRequests; hide Unvouched; hide Unseen; hide MarkedBy; hide IsTable;
    TableFacts(s, m);
    PrunedIsPart(m.table, keep);
    var live, kept := Live(m.table), Live(PruneTable(m.table, keep));
    var id :| id in live && live[id].Committed() && live[id].rid == rid;
    assert id !in CrashRuns.Cut(s, m, PruneTable(m.table, keep), replaced);
    assert id in kept && kept[id] == live[id];
    assert Recorded(kept, rid);
  }

  lemma FiledStays(s: State, a: Step, rid: string)
    requires Inv(s) && Enabled(s, a) && Filed(s, rid)
    requires a.Gc? ==> rid !in Forgotten(s, s.memory.value, PruneTable(s.memory.value.table, a.keep), a.replaced)
    ensures Filed(Do(s, a), rid)
  {
    hide Inv; hide Live; hide Filed; hide Asks; hide IsLogRefusal; hide Markers; hide DoSettle; hide DoPrepare; hide Forgotten;
    hide DoWithdraw; hide DoCommit; hide DoRecordExec; hide DoRecordTransfer; hide DoGc; hide PruneTable; hide PruneRequests;
    match a
    case Prepare(q, path, after, io, undo) =>
      PrepareKeepsFiled(s, s.memory.value, MarkerFor(s, s.memory.value, q, path, after), io, undo, rid);
    case Withdraw(error, io) => WithdrawKeepsFiled(s, s.memory.value, error, io, rid);
    case Commit(synced) => CommitKeepsFiled(s, s.memory.value, synced, rid);
    case RecordExec(_, _, _, _, _) => RecordStepKeepsFiled(s, a, rid);
    case RecordTransfer(_, _, _, _, _) => RecordStepKeepsFiled(s, a, rid);
    case Settle(appends) => SettleKeepsFiled(s, s.memory.value, appends, rid);
    case Gc(keep, lines, replaced) => GcKeepsFiled(s, s.memory.value, keep, lines, replaced, rid);
    case _ =>
      RecordsStay(s, a);
      SameRecordsFiled(s, Do(s, a), rid);
  }

  lemma SameRecordsFiled(s: State, next: State, rid: string)
    requires Filed(s, rid) && next.ops == s.ops
    requires Serving(next) ==> if Serving(s) then next.memory.value.table == s.memory.value.table
                               else Live(next.memory.value.table) == Live(s.ops)
    ensures Filed(next, rid)
  {
    hide Live; hide Recorded;
  }

  /** A handler that holds the reply of an effect has its record committed. */
  ghost predicate Heard(s: State) {
    s.memory.Some? ==>
      forall rid :: rid in s.memory.value.tasks && s.memory.value.tasks[rid].Answering? && rid in s.promised ==> Filed(s, rid)
  }

  /** A request with a committed record has no marker, of a file or otherwise. */
  lemma RecordedIsNotMarked(live: map<nat, Record>, gone: set<string>, rid: string, ids: set<nat>)
    requires OneRecordEach(live, gone) && Recorded(live, rid) && rid !in gone
    ensures rid !in MarkedBy(live, ids)
  {
  }

  /** The two views have one record a request. */
  lemma OneRecordViews(s: State)
    requires Once(s)
    ensures OneRecordEach(Live(s.ops), s.pruned.requests)
    ensures Serving(s) ==> OneRecordEach(Live(s.memory.value.table), s.pruned.requests)
  {
    hide OneRecordEach; hide MemoryOnce; hide Live; hide Requests; hide Owns; hide Unique; hide Spent;
  }

  lemma FiledIsNotAsking(s: State, rid: string, file: string)
    requires Inv(s) && Once(s) && Filed(s, rid) && rid !in s.pruned.requests
    ensures rid !in Askers(s, file)
  {
    hide Inv; hide Once; hide Live; hide Recorded; hide MarkedBy; hide OneRecordEach; hide PendingOn; hide Settling;
    OneRecordViews(s);
    RecordedIsNotMarked(Live(s.ops), s.pruned.requests, rid, PendingOn(s, file));
    if Serving(s) {
      RecordedIsNotMarked(Live(s.memory.value.table), s.pruned.requests, rid, PendingOn(s, file));
    } else if s.memory.Some? {
      RecoveringFacts(s, s.memory.value);
    }
  }

  // ---- another writer ----

  /** A record of a request that has no marker among the ids stands for what it stood for without them. */
  lemma UnmarkedStands(live: map<nat, Record>, landed: set<nat>, fewer: set<nat>, ids: set<nat>, rid: string, msg: Message)
    requires Stands(live, landed, rid, msg) && rid !in MarkedBy(live, ids) && landed - ids <= fewer
    ensures Stands(live, fewer, rid, msg)
  {
    hide Meaning;
    var id :| StandsAt(live, landed, rid, msg, id);
    assert !(id in ids && live[id].Prepared?);
    assert StandsAt(live, fewer, rid, msg, id);
  }

  /** One view through another writer. */
  lemma MeddledView(live: map<nat, Record>, table: map<string, Entry>, landed: set<nat>, fewer: set<nat>, ids: set<nat>,
                    promised: map<string, Message>, still: map<string, Message>)
    requires DiskPromise(live, table, landed, promised) && landed - ids <= fewer
    requires forall rid :: rid in still ==> rid in promised && still[rid] == promised[rid] && rid !in MarkedBy(live, ids)
    ensures DiskPromise(live, table, fewer, still)
  {
    hide Stands; hide Says; hide Concluded; hide MarkedBy;
    forall rid | rid in still ensures Stands(live, fewer, rid, still[rid]) {
      UnmarkedStands(live, landed, fewer, ids, rid, still[rid]);
    }
  }

  lemma MeddlePromise(s: State, file: string, state: Option<string>)
    requires Inv(s) && Once(s) && Promise(s) && Heard(s)
    ensures Promise(DoMeddle(s, file, state))
  {
    hide Inv; hide Once; hide Live; hide Requests; hide DiskPromise; hide MemoryPromise; hide PendingOn; hide MarkedBy;
    hide Apart; hide Filed; hide Promise;
    var next, ids := DoMeddle(s, file, state), PendingOn(s, file);
    PromiseParts(s);
    MeddledView(Live(s.ops), Requests(s.reqs), Shown(s.h), Shown(next.h), ids, s.promised, next.promised);
    StillApart(s.promised, s.pruned.requests, next.promised);
    if s.memory.Some? {
      MeddledMemory(s, s.memory.value, file, state);
      if s.memory.value.serving {
        var m := s.memory.value;
        MeddledView(Live(m.table), Requests(s.reqs), Shown(Remembered(s.h, m)), Shown(Remembered(next.h, m)), ids,
                    s.promised, next.promised);
      }
    }
    MeddledState(s, next);
  }

  /** What a state is to have, memory or not. */
  lemma MeddledState(s: State, next: State)
    requires next.memory == s.memory && Apart(next.promised, next.pruned.requests)
    requires DiskPromise(Live(next.ops), Requests(next.reqs), Shown(next.h), next.promised)
    requires next.memory.Some? ==>
               && MemoryPromise(Requests(next.reqs), Shown(next.h), next.promised, next.pruned.requests, next.memory.value)
               && (next.memory.value.serving ==>
                     DiskPromise(Live(next.memory.value.table), Requests(next.reqs), Shown(Remembered(next.h, next.memory.value)),
                                 next.promised))
    ensures Promise(next)
  {
    hide DiskPromise; hide MemoryPromise; hide Apart; hide Live; hide Requests; hide Shown;
  }

  lemma MeddledMemory(s: State, m: Memory, file: string, state: Option<string>)
    requires Inv(s) && Once(s) && Promise(s) && Heard(s) && s.memory == Some(m)
    ensures var next := DoMeddle(s, file, state);
            MemoryPromise(Requests(s.reqs), Shown(next.h), next.promised, s.pruned.requests, m)
  {
    hide Inv; hide Once; hide Live; hide Requests; hide DiskPromise; hide MemoryPromise; hide PendingOn; hide Askers;
    hide Apart; hide Filed; hide Shown;
    var next := DoMeddle(s, file, state);
    forall rid | rid in m.tasks && m.tasks[rid].Answering? && rid in s.promised && rid !in s.pruned.requests
      ensures rid in next.promised {
      FiledIsNotAsking(s, rid, file);
    }
    IdleGuard(s, m);
    if m.guard.Some? && m.guard.value.rid !in s.pruned.requests {
      GuardIsNotAsking(s, m, file, state);
    }
    LessShown(s, next);
    FewerAnswers(Requests(s.reqs), Shown(s.h), s.promised, s.pruned.requests, m, Shown(next.h), next.promised,
                 s.pruned.requests, m);
  }

  lemma LessShown(s: State, next: State)
    requires next.h.landed == s.h.landed && s.h.obscured <= next.h.obscured
    ensures Shown(next.h) <= Shown(s.h)
  {
  }

  lemma IdleGuard(s: State, m: Memory)
    requires Inv(s) && s.memory == Some(m)
    ensures m.guard.Some? ==> m.serving
  {
    hide ViewInv; hide ServingInv; hide HistoryOld; hide Decidable; hide Live; hide HighWater;
  }

  /** The mutation in flight is no one's marker but its own: unless it is obscured itself, its promise stays. */
  lemma GuardIsNotAsking(s: State, m: Memory, file: string, state: Option<string>)
    requires Inv(s) && Once(s) && s.memory == Some(m) && m.serving && m.guard.Some? && m.guard.value.rid !in s.pruned.requests
    ensures var next := DoMeddle(s, file, state);
            m.guard.value.id in Shown(next.h) ==> m.guard.value.rid !in Askers(s, file)
  {
    hide Inv; hide Live; hide Requests; hide PendingOn; hide MemoryOnce; hide Unique; hide Spent; hide Owns;
    GuardFacts(s, m);
    OneRecordViews(s);
  }

  /** Some promises are withdrawn: none that a handler holds the reply of, or is to make good. */
  lemma FewerAnswers(table: map<string, Entry>, landed: set<nat>, promised: map<string, Message>, gone: set<string>, m: Memory,
                     landed': set<nat>, still: map<string, Message>, gone': set<string>, n: Memory)
    requires MemoryPromise(table, landed, promised, gone, m) && landed' <= landed && gone <= gone'
    requires n.tasks == m.tasks && n.requests == m.requests && n.serving == m.serving && n.guard == m.guard && n.unseen == m.unseen
    requires forall rid :: rid in still ==> rid in promised && still[rid] == promised[rid]
    requires forall rid :: rid in m.tasks && m.tasks[rid].Answering? && rid in promised && rid !in gone' ==> rid in still
    requires m.guard.Some? && m.guard.value.rid !in gone' && m.guard.value.id in landed' ==>
               (m.guard.value.rid in promised ==> m.guard.value.rid in still)
    ensures MemoryPromise(table, landed', still, gone', n)
  {
    hide Says; hide Concluded; hide EntryOf; hide Replayed; hide Meaning;
    forall rid | rid in n.tasks ensures TaskPromise(table, still, gone', n, rid) {
      assert TaskPromise(table, promised, gone, m, rid);
    }
  }

  // ---- pruning ----

  /** A promise whose record a prune keeps, and whose marker, if it is only that, it leaves something to vouch for. */
  lemma CutStands(live: map<nat, Record>, kept: map<nat, Record>, cut: set<nat>, landed: set<nat>, fewer: set<nat>, ids: set<nat>,
                  rid: string, msg: Message)
    requires Stands(live, landed, rid, msg) && landed - ids <= fewer
    requires forall id :: id in kept ==> id in live && kept[id] == live[id]
    requires forall id :: id in live && id !in kept ==> id in cut
    requires rid !in Owners(live, cut) && rid !in MarkedBy(kept, ids)
    ensures Stands(kept, fewer, rid, msg)
  {
    hide Meaning;
    var id :| StandsAt(live, landed, rid, msg, id);
    assert id !in cut;
    assert id in kept && kept[id] == live[id];
    assert !(id in ids && kept[id].Prepared?);
    assert StandsAt(kept, fewer, rid, msg, id);
  }

  /** One view through a prune. */
  lemma CutView(live: map<nat, Record>, kept: map<nat, Record>, cut: set<nat>, table: map<string, Entry>, table': map<string, Entry>,
                landed: set<nat>, fewer: set<nat>, ids: set<nat>, promised: map<string, Message>, still: map<string, Message>)
    requires DiskPromise(live, table, landed, promised) && landed - ids <= fewer && SaysAll(table', still)
    requires forall id :: id in kept ==> id in live && kept[id] == live[id]
    requires forall id :: id in live && id !in kept ==> id in cut
    requires forall rid :: rid in still ==>
               rid in promised && still[rid] == promised[rid] && rid !in Owners(live, cut) && rid !in MarkedBy(kept, ids)
    ensures DiskPromise(kept, table', fewer, still)
  {
    hide Stands; hide Says; hide Concluded; hide MarkedBy; hide Owners;
    forall rid | rid in still ensures Stands(kept, fewer, rid, still[rid]) {
      CutStands(live, kept, cut, landed, fewer, ids, rid, still[rid]);
    }
  }

  /** A request table keeps to the promises. */
  ghost predicate SaysAll(table: map<string, Entry>, promised: map<string, Message>) {
    Concluded(table) && forall rid :: rid in promised ==> Says(table, rid, promised[rid])
  }

  /** The request file after a prune, replaced or not, keeps to the promises that are left. */
  lemma PrunedTable(s: State, m: Memory, keep: nat, lines: seq<ReqLine>, replaced: nat)
    requires Promise(s) && s.memory == Some(m) && Enabled(s, Gc(keep, lines, replaced))
    ensures var next := DoGc(s, m, keep, lines, replaced);
            && SaysAll(Requests(next.reqs), next.promised)
            && Requests(next.reqs) in {Requests(s.reqs), next.memory.value.requests}
  {
    hide Live; hide Requests; hide PruneTable; hide RetainedRequests; hide Unseen; hide Risked; hide Forgotten; hide CrashRuns.Cut;
    hide Stands; hide Replayed; hide TasksPromise; hide GuardPromise; hide TablePromise; hide Apart;
  }

  /** What handlers hold is as good as before; the entries of those at work stay. */
  lemma PrunedMemory(table: map<string, Entry>, table': map<string, Entry>, landed: set<nat>, fewer: set<nat>,
                     promised: map<string, Message>, still: map<string, Message>, gone: set<string>, gone': set<string>,
                     m: Memory, n: Memory)
    requires MemoryPromise(table, landed, promised, gone, m) && gone <= gone' && m.serving && m.guard.None?
    requires n.tasks == m.tasks && n.serving && n.guard.None? && Thinned(m.requests, n.requests, gone')
    requires forall rid :: rid in m.requests && m.requests[rid].status.InProgress? ==> rid in n.requests
    requires table' in {table, n.requests}
    requires forall rid :: rid in still ==> rid in promised && still[rid] == promised[rid] && rid !in gone'
    requires forall rid :: rid in m.tasks && m.tasks[rid].Answering? && rid in promised && rid !in gone' ==> rid in still
    ensures MemoryPromise(table', fewer, still, gone', n)
  {
    hide EntryOf; hide Replayed; hide Meaning; hide Says;
    forall rid | rid in n.tasks ensures TaskPromise(table', still, gone', n, rid) {
      assert TaskPromise(table, promised, gone, m, rid);
    }
    forall rid | rid in still ensures rid in n.requests && Says(n.requests, rid, still[rid]) {
      SaysThinned(m.requests, n.requests, gone', rid, still[rid]);
    }
  }

  lemma SaysThinned(requests: map<string, Entry>, fewer: map<string, Entry>, gone: set<string>, rid: string, msg: Message)
    requires Thinned(requests, fewer, gone) && Says(requests, rid, msg)
    ensures Says(fewer, rid, msg)
  {
    hide Replayed;
  }

  /** What the proof needs of a prune. */
  lemma PruneFacts(s: State, m: Memory, keep: nat, lines: seq<ReqLine>, replaced: nat)
    requires s.memory == Some(m)
    ensures var kept := PruneTable(m.table, keep);
            var next, cut, unseen := DoGc(s, m, keep, lines, replaced), CrashRuns.Cut(s, m, kept, replaced), Unseen(s, m, kept);
            var n := next.memory.value;
            && next.memory == Some(n) && n.table == kept && n.serving == m.serving && n.guard == m.guard && n.tasks == m.tasks
            && next.ops == (if replaced < 2 then s.ops else kept)
            && next.pruned.requests == s.pruned.requests + Forgotten(s, m, kept, replaced)
            && Shown(Remembered(s.h, m)) - unseen <= Shown(Remembered(next.h, n))
            && (if replaced < 2 then next.h == s.h else Shown(Remembered(next.h, n)) == Shown(next.h))
            && Shown(next.h) <= Shown(s.h)
            && (forall rid :: rid in next.promised <==> rid in s.promised && rid !in Risked(s, m, kept, replaced))
            && (forall rid :: rid in next.promised ==> next.promised[rid] == s.promised[rid])
            && (forall rid :: rid in Owners(Live(m.table), cut) ==> rid in Forgotten(s, m, kept, replaced))
            && (forall id :: id in Live(m.table) && id !in Live(kept) ==> id in cut)
            && (forall rid :: rid in m.requests && m.requests[rid].status.InProgress? ==> rid in n.requests)
  {
    hide Live; hide PruneTable; hide Unvouched; hide MarkedBy; hide Owners; hide RetainedRequests;
  }

  /** The promises a prune withdraws of requests it drops nothing of are of requests with a marker, which no handler answers. */
  lemma HeldIsNotRisked(s: State, m: Memory, keep: nat, replaced: nat, rid: string)
    requires Inv(s) && Once(s) && s.memory == Some(m) && m.serving && Filed(s, rid) && rid !in s.pruned.requests
    requires var kept := PruneTable(m.table, keep); rid !in Forgotten(s, m, kept, replaced)
    ensures rid !in Risked(s, m, PruneTable(m.table, keep), replaced)
  {
    hide Inv; hide Once; hide Live; hide Recorded; hide PruneTable; hide Forgotten; hide Unseen; hide OneRecordEach; hide IsTable;
    OneRecordViews(s);
    TableFacts(s, m);
    PrunedIsPart(m.table, keep);
    RecordedIsNotMarked(Live(m.table), s.pruned.requests, rid, Unseen(s, m, PruneTable(m.table, keep)));
  }

  lemma GcPromise(s: State, m: Memory, keep: nat, lines: seq<ReqLine>, replaced: nat)
    requires Inv(s) && Once(s) && Promise(s) && Heard(s) && s.memory == Some(m) && Enabled(s, Gc(keep, lines, replaced))
    ensures Promise(DoGc(s, m, keep, lines, replaced))
  {
    hide Inv; hide Once; hide Promise; hide DoGc; hide Live; hide Requests; hide PruneTable; hide PruneRequests; hide Filed;
    hide DiskPromise; hide MemoryPromise; hide Apart; hide Forgotten; hide Unseen; hide CrashRuns.Cut; hide Owners; hide MarkedBy;
    hide Shown; hide Thinned; hide SaysAll; hide IsTable;
    var next, kept := DoGc(s, m, keep, lines, replaced), PruneTable(m.table, keep);
    PruneFacts(s, m, keep, lines, replaced);
    var n := next.memory.value;
    PromiseParts(s);
    TableFacts(s, m);
    PrunedIsPart(m.table, keep);
    PrunedTable(s, m, keep, lines, replaced);
    PrunedRequests(s, m, keep, lines, replaced);
    forall rid | rid in m.tasks && m.tasks[rid].Answering? && rid in s.promised && rid !in next.pruned.requests
      ensures rid in next.promised {
      HeldIsNotRisked(s, m, keep, replaced, rid);
    }
    CutApart(s.promised, s.pruned.requests, Forgotten(s, m, kept, replaced), next.promised);
    PrunedMemory(Requests(s.reqs), Requests(next.reqs), Shown(s.h), Shown(next.h), s.promised, next.promised,
                 s.pruned.requests, next.pruned.requests, m, n);
    CutView(Live(m.table), Live(kept), CrashRuns.Cut(s, m, kept, replaced), Requests(s.reqs), Requests(next.reqs),
            Shown(Remembered(s.h, m)), Shown(Remembered(next.h, n)), Unseen(s, m, kept), s.promised, next.promised);
    if replaced < 2 {
      NoneCut(Live(s.ops));
      CutView(Live(s.ops), Live(s.ops), {}, Requests(s.reqs), Requests(next.reqs), Shown(s.h), Shown(next.h), {},
              s.promised, next.promised);
    }
    PromiseRebuilt(next, n);
  }

  lemma CutApart(promised: map<string, Message>, gone: set<string>, more: set<string>, still: map<string, Message>)
    requires Apart(promised, gone) && forall rid :: rid in still ==> rid in promised && rid !in more
    ensures Apart(still, gone + more)
  {
  }

  lemma NoneCut(live: map<nat, Record>)
    ensures Owners(live, {}) == {} && MarkedBy(live, {}) == {}
  {
  }

  // ---- every step ----

  lemma ServingStepPromise(s: State, a: Step)
    requires Inv(s) && Once(s) && Promise(s) && Enabled(s, a)
    requires a.Claim? || a.Refuse? || a.Prepare? || a.BeginExec? || a.RecordExec? || a.RecordTransfer? || a.Answer?
    ensures Promise(Do(s, a))
  {
    hide Inv; hide Once; hide Promise; hide DoPrepare; hide DoAnswer; hide DoClaim; hide DoBeginExec; hide Asks;
    hide DoRecordExec; hide DoRecordTransfer; hide IsLogRefusal; hide Fail;
    var m := s.memory.value;
    match a
    case Claim(rid, op, io) => ClaimPromise(s, m, rid, op, io);
    case Refuse(rid, error) => RefusePromise(s, m, rid, error);
    case Prepare(rid, path, after, io, undo) => PreparePromise(s, m, MarkerFor(s, m, rid, path, after), io, undo);
    case BeginExec(rid, spawned) => BeginExecPromise(s, m, rid, spawned);
    case RecordExec(rid, q, outcome, io, refusal) => RecordExecPromise(s, m, rid, q, outcome, io, refusal);
    case RecordTransfer(rid, transfer, cleaned, io, refusal) => RecordTransferPromise(s, m, rid, transfer, cleaned, io, refusal);
    case Answer(rid, io) => AnswerPromise(s, m, rid, io);
  }

  lemma StepPromise(s: State, a: Step)
    requires Inv(s) && Once(s) && Promise(s) && Heard(s) && Enabled(s, a)
    ensures Promise(Do(s, a))
  {
    hide Inv; hide Once; hide Promise; hide DoInstall; hide DoWithdraw; hide DoCommit; hide DoLeave; hide DoSettle; hide DoGc;
    hide DoRestart; hide DoResolveStuck; hide DoCrash; hide DoServe; hide DoMeddle; hide Asks; hide IsLogRefusal; hide Markers;
    hide Heard; hide Requests; hide PruneTable; hide PruneRequests;
    match a
    case Install => InstallPromise(s, s.memory.value);
    case Withdraw(error, io) => WithdrawPromise(s, s.memory.value, error, io);
    case Commit(synced) => CommitPromise(s, s.memory.value, synced);
    case Leave(error) => LeavePromise(s, s.memory.value, error);
    case Gc(keep, lines, replaced) => GcPromise(s, s.memory.value, keep, lines, replaced);
    case Meddle(file, state) => MeddlePromise(s, file, state);
    case Crash => CrashPromise(s);
    case Restart => RestartPromise(s);
    case Settle(appends) => SettlePromise(s, s.memory.value, appends);
    case ResolveStuck(rid, io) => ResolveStuckPromise(s, s.memory.value, rid, io);
    case Serve => ServePromise(s, s.memory.value);
    case _ => ServingStepPromise(s, a);
  }

  /** The handler of `rid` has come to hold the reply of an effect. */
  ghost predicate Hears(s: State, next: State, rid: string)
    requires s.memory.Some?
  {
    var m := s.memory.value;
    && next.memory.Some? && rid in next.memory.value.tasks && next.memory.value.tasks[rid].Answering? && rid in next.promised
    && !(rid in m.tasks && m.tasks[rid].Answering? && rid in s.promised)
  }

  /** It does so only by committing a record. */
  lemma NewlyHeard(s: State, a: Step, rid: string)
    requires Inv(s) && Once(s) && Promise(s) && Enabled(s, a) && Serving(s) && !a.Restart? && !a.Crash?
    requires Hears(s, Do(s, a), rid)
    ensures Filed(Do(s, a), rid)
  {
    hide Inv; hide Once; hide Promise; hide Live; hide Asks; hide IsLogRefusal; hide Filed; hide Hears; hide DoPrepare;
    hide DoWithdraw; hide DoCommit; hide DoRecordExec; hide DoRecordTransfer; hide DoGc; hide PruneTable; hide PruneRequests;
    match a
    case Prepare(q, path, after, io, undo) =>
      FailedIsNotHeard(s, s.memory.value, MarkerFor(s, s.memory.value, q, path, after), io, undo, rid);
    case Withdraw(error, io) => WithdrawnIsNotHeard(s, s.memory.value, error, io, rid);
    case Commit(synced) => CommittedIsHeard(s, s.memory.value, synced, rid);
    case RecordExec(_, _, _, _, _) => RecordedIsHeard(s, a, rid);
    case RecordTransfer(_, _, _, _, _) => RecordedIsHeard(s, a, rid);
    case Gc(keep, lines, replaced) => PruneIsNotHeard(s, s.memory.value, keep, lines, replaced, rid);
    case _ => OthersHearNothing(s, a, rid);
  }

  lemma FailedIsNotHeard(s: State, m: Memory, p: Marker, io: Fate, undo: Fate, rid: string)
    requires Once(s) && Promise(s) && s.memory == Some(m) && p.rid in m.tasks && m.tasks[p.rid].Claimed?
    ensures !Hears(s, DoPrepare(s, m, p, io, undo), rid)
  {
    hide Once; hide Promise; hide TaskPromise; hide Live; hide Requests;
    PromiseFacts(s, m, p.rid);
  }

  lemma WithdrawnIsNotHeard(s: State, m: Memory, error: ProtocolError, io: Fate, rid: string)
    requires Inv(s) && Once(s) && Promise(s) && s.memory == Some(m) && Enabled(s, Withdraw(error, io))
    ensures !Hears(s, DoWithdraw(s, m, m.guard.value, error, io), rid)
  {
    hide Inv; hide Once; hide Promise; hide DropPrepared;
    UnlandedPromisesNothing(s, m);
  }

  lemma PruneIsNotHeard(s: State, m: Memory, keep: nat, lines: seq<ReqLine>, replaced: nat, rid: string)
    requires s.memory == Some(m)
    ensures !Hears(s, DoGc(s, m, keep, lines, replaced), rid)
  {
    hide Live; hide PruneTable; hide PruneRequests; hide Unseen; hide Risked; hide Forgotten; hide CrashRuns.Cut;
  }

  lemma CommittedIsHeard(s: State, m: Memory, synced: bool, rid: string)
    requires Inv(s) && s.memory == Some(m) && m.serving && m.guard.Some?
    ensures var next := DoCommit(s, m, m.guard.value, synced); Hears(s, next, rid) ==> Filed(next, rid)
  {
    hide Inv; hide Recorded; hide Live; hide Upsert; hide ReconstructResult; hide IsTable;
    var c := CommitOf(m.guard.value, s.now);
    TableFacts(s, m);
    LiveAppend(s.ops, c);
    UpsertLive(m.table, c);
    NowRecorded(Live(s.ops), c);
    NowRecorded(Live(m.table), c);
  }

  lemma NowRecorded(live: map<nat, Record>, r: Record)
    requires r.Committed()
    ensures Recorded(live[r.id := r], r.rid)
  {
    assert live[r.id := r][r.id] == r;
  }

  lemma LoggedIsFiled(s: State, m: Memory, nextId: nat, r: Record, line: ReqLine)
    requires s.memory == Some(m) && m.serving && (r.Exec? || r.Transfer?)
    ensures Filed(DoRecord(s, m.(nextId := nextId), r, line, Logged), r.rid)
  {
    hide Recorded; hide Live;
    LiveAppend(s.ops, r);
    LiveAppend(m.table, r);
    NowRecorded(Live(s.ops), r);
    NowRecorded(Live(m.table), r);
  }

  lemma RecordedIsHeard(s: State, a: Step, rid: string)
    requires Once(s) && Promise(s) && Enabled(s, a) && (a.RecordExec? || a.RecordTransfer?)
    ensures Hears(s, Do(s, a), rid) ==> Filed(Do(s, a), rid)
  {
    hide Once; hide Promise; hide Filed; hide Live; hide TaskPromise; hide Requests; hide IsLogRefusal; hide ExecRecord;
    hide ExecLine; hide ExecReply; hide TransferLine;
    var m := s.memory.value;
    match a
    case RecordExec(q, request, outcome, io, refusal) =>
      var id := m.tasks[q].id;
      var r, line := ExecRecord(id, q, request, outcome, s.now), ExecLine(id, q, outcome, Seen(io, refusal));
      PromiseFacts(s, m, q);
      ExecRecordIs(id, q, request, outcome, s.now);
      LoggedIsFiled(s, m, m.nextId, r, line);
      FiledIsRecords(DoRecord(s, m, r, line, Logged), Do(s, a).promised, rid);
    case RecordTransfer(q, transfer, cleaned, io, refusal) =>
      var id := m.nextId + 1;
      var r, line := Transfer(id, q, transfer, s.now), TransferLine(id, q, transfer, Seen(io, refusal), cleaned);
      PromiseFacts(s, m, q);
      LoggedIsFiled(s, m, id, r, line);
      FiledIsRecords(DoRecord(s, m.(nextId := id), r, line, Logged), Do(s, a).promised, rid);
  }

  lemma OthersHearNothing(s: State, a: Step, rid: string)
    requires Once(s) && Promise(s) && Enabled(s, a) && Serving(s) && !a.Gc? && !a.Restart? && !a.Crash?
    requires !a.Prepare? && !a.Withdraw? && !a.Commit? && !a.RecordExec? && !a.RecordTransfer?
    ensures !Hears(s, Do(s, a), rid)
  {
    hide Once; hide Promise; hide Live; hide TaskPromise; hide Requests; hide ReconstructResult; hide EntryOf; hide PendingOn;
    hide Askers; hide Markers; hide Meaning;
    if s.memory.value.guard.Some? {
      GuardTask(s, s.memory.value);
    }
    if a.Refuse? {
      PromiseFacts(s, s.memory.value, a.rid);
    }
  }

  lemma ExecRecordIs(id: nat, rid: string, q: ExecRequest, outcome: Ending, ts: nat)
    ensures ExecRecord(id, rid, q, outcome, ts).Exec? && ExecRecord(id, rid, q, outcome, ts).rid == rid
  {
  }

  lemma StepHeard(s: State, a: Step)
    requires Inv(s) && Once(s) && Promise(s) && Heard(s) && Enabled(s, a)
    ensures Heard(Do(s, a))
  {
    hide Inv; hide Once; hide Promise; hide Enabled; hide Do; hide Filed; hide Live;
    NoHandlers(s, a);
    var next := Do(s, a);
    if next.memory.Some? && next.memory.value.tasks != map[] {
      forall rid | rid in next.memory.value.tasks && next.memory.value.tasks[rid].Answering? && rid in next.promised
        ensures Filed(next, rid) {
        if Hears(s, next, rid) {
          NewlyHeard(s, a, rid);
        } else {
          if a.Gc? {
            StillUnpruned(s, a, rid);
          }
          FiledStays(s, a, rid);
        }
      }
    }
  }

  /** What is still promised lost nothing to the step. */
  lemma StillUnpruned(s: State, a: Step, rid: string)
    requires Enabled(s, a) && a.Gc? && rid in Do(s, a).promised
    ensures rid !in Forgotten(s, s.memory.value, PruneTable(s.memory.value.table, a.keep), a.replaced)
  {
    hide Live; hide PruneTable; hide PruneRequests; hide Unseen; hide Forgotten; hide CrashRuns.Cut; hide Requests; hide MarkedBy;
  }

  /** Only a server that serves has handlers. */
  lemma NoHandlers(s: State, a: Step)
    requires Inv(s) && Enabled(s, a)
    ensures var next := Do(s, a);
            next.memory.Some? && next.memory.value.tasks != map[] ==> Serving(s) && !a.Restart? && !a.Crash?
  {
    hide Inv; hide Live; hide Asks; hide IsLogRefusal; hide Markers; hide Judge; hide VerdictLine; hide VerdictTable;
    hide VerdictReply; hide StuckLine; hide Loaded; hide Requests; hide HighWater; hide EntryOf; hide DoPrepare; hide DoClaim;
    hide DoWithdraw; hide DoCommit; hide DoRecordExec; hide DoRecordTransfer; hide DoAnswer; hide DoGc; hide Settling;
    if Recovering(s) {
      RecoveringFacts(s, s.memory.value);
    }
  }

  /** The handler of a request is still between install and commit: it may yet find that its log fails it. */
  predicate Undecided(s: State, rid: string) {
    Guarded(s) && s.memory.value.guard.value.rid == rid
  }

  /** A promise that is out of the handler's hands. */
  predicate Binding(s: State, rid: string, msg: Message) {
    rid in s.promised && s.promised[rid] == msg && !Undecided(s, rid)
  }

  /**
   The step takes nothing away from what is on record of the request: it is not another writer's on a
   file the request has a marker pending for, and no prune that drops something of the request or
   leaves nothing to vouch for its marker.
   */
  ghost predicate Spares(s: State, a: Step, rid: string)
    requires Enabled(s, a)
  {
    && (a.Meddle? ==> rid !in Askers(s, a.file))
    && (a.Gc? ==> rid !in Risked(s, s.memory.value, PruneTable(s.memory.value.table, a.keep), a.replaced))
  }

  /** Every step of the run does. */
  ghost predicate Spared(s: State, steps: seq<Step>, rid: string)
    requires CanRun(s, steps)
    decreases |steps|
  {
    steps == [] || (Spares(s, steps[0], rid) && Spared(Do(s, steps[0]), steps[1..], rid))
  }

  /** It stays, word for word. */
  lemma BindingStays(s: State, a: Step, rid: string, msg: Message)
    requires Inv(s) && Once(s) && Promise(s) && Enabled(s, a) && Spares(s, a, rid) && Binding(s, rid, msg)
    ensures Binding(Do(s, a), rid, msg)
  {
    hide Inv; hide Once; hide Promise; hide Enabled; hide Do; hide Binding; hide Spares;
    if a.Crash? || a.Restart? || a.Settle? || a.ResolveStuck? || a.Serve? {
      BindingSurvives(s, a, rid, msg);
    } else if a.Gc? {
      BindingIsKept(s, a, rid, msg);
    } else {
      BindingIsServed(s, a, rid, msg);
    }
  }

  lemma BindingSurvives(s: State, a: Step, rid: string, msg: Message)
    requires Inv(s) && Enabled(s, a) && Binding(s, rid, msg)
    requires a.Crash? || a.Restart? || a.Settle? || a.ResolveStuck? || a.Serve?
    ensures Binding(Do(s, a), rid, msg)
  {
    hide Inv; hide Markers; hide DoSettle; hide DoResolveStuck; hide Loaded; hide Requests; hide HighWater; hide Settling;
    hide Live;
    if Recovering(s) {
      RecoveringFacts(s, s.memory.value);
    }
    match a
    case Settle(appends) => SettleTouchesNoPromise(s, s.memory.value, appends);
    case ResolveStuck(request, io) => ResolveTouchesNoPromise(s, s.memory.value, request, io);
    case _ =>
  }

  lemma SettleTouchesNoPromise(s: State, m: Memory, appends: nat)
    requires Markers(m.table) != []
    ensures var next := DoSettle(s, m, appends);
            next.promised == s.promised && (next.memory.Some? ==> next.memory.value.guard == m.guard)
  {
    hide Markers; hide VerdictLine; hide VerdictReply; hide VerdictTable; hide Judge;
  }

  lemma ResolveTouchesNoPromise(s: State, m: Memory, rid: string, io: Fate)
    requires rid in m.requests
    ensures var next := DoResolveStuck(s, m, rid, io);
            next.promised == s.promised && (next.memory.Some? ==> next.memory.value.guard == m.guard)
  {
    hide StuckLine;
  }

  lemma BindingIsKept(s: State, a: Step, rid: string, msg: Message)
    requires Enabled(s, a) && Spares(s, a, rid) && Binding(s, rid, msg) && a.Gc?
    ensures Binding(Do(s, a), rid, msg)
  {
    hide Live; hide PruneTable; hide PruneRequests; hide Unseen; hide Risked; hide Forgotten; hide CrashRuns.Cut; hide Requests;
  }

  lemma BindingIsServed(s: State, a: Step, rid: string, msg: Message)
    requires Once(s) && Promise(s) && Enabled(s, a) && Spares(s, a, rid) && Binding(s, rid, msg)
    requires !a.Gc? && !a.Crash? && !a.Restart? && !a.Settle? && !a.ResolveStuck? && !a.Serve?
    ensures Binding(Do(s, a), rid, msg)
  {
    hide Once; hide Promise; hide Asks; hide IsLogRefusal; hide DoRecordExec; hide DoRecordTransfer; hide EntryOf; hide TaskPromise;
    hide PendingOn; hide Askers; hide Live; hide DoCommit; hide DoWithdraw; hide DoPrepare; hide ReconstructResult; hide Requests;
    if HasTask(s, rid) {
      PromiseFacts(s, s.memory.value, rid);
    }
    if a.Prepare? || a.Withdraw? || a.Commit? {
      ProtocolTouchesNoOther(s, a, rid);
    } else if a.RecordExec? || a.RecordTransfer? {
      RecordTouchesNoOther(s, a, rid);
    }
  }

  /** What a protocol step does to the promise of a request it is not about. */
  lemma ProtocolTouchesNoOther(s: State, a: Step, rid: string)
    requires Enabled(s, a) && (a.Prepare? || a.Withdraw? || a.Commit?)
    requires if a.Prepare? then a.rid != rid else s.memory.value.guard.value.rid != rid
    ensures var next := Do(s, a);
            && (rid in next.promised <==> rid in s.promised) && (rid in s.promised ==> next.promised[rid] == s.promised[rid])
            && !Undecided(next, rid)
  {
    hide Asks; hide Live; hide ReconstructResult; hide Upsert; hide DropPrepared;
  }

  lemma RecordTouchesNoOther(s: State, a: Step, rid: string)
    requires Enabled(s, a) && (a.RecordExec? || a.RecordTransfer?) && a.rid != rid
    ensures var next := Do(s, a);
            && (rid in next.promised <==> rid in s.promised) && (rid in s.promised ==> next.promised[rid] == s.promised[rid])
            && (Undecided(next, rid) ==> Undecided(s, rid))
  {
    hide Live; hide ExecRecord; hide ExecReply; hide ExecLine; hide TransferLine; hide IsLogRefusal; hide DoRecord;
    var m := s.memory.value;
    match a
    case RecordExec(q, request, outcome, io, refusal) =>
      var id := m.tasks[q].id;
      ExecRecordIs(id, q, request, outcome, s.now);
      RecordIsQuiet(s, m, ExecRecord(id, q, request, outcome, s.now), ExecLine(id, q, outcome, Seen(io, refusal)), io);
    case RecordTransfer(q, transfer, cleaned, io, refusal) =>
      var id := m.nextId + 1;
      RecordIsQuiet(s, m.(nextId := id), Transfer(id, q, transfer, s.now),
                    TransferLine(id, q, transfer, Seen(io, refusal), cleaned), io);
  }

  lemma RecordIsQuiet(s: State, m: Memory, r: Record, line: ReqLine, io: Fate)
    requires r.Exec? || r.Transfer?
    ensures var next := DoRecord(s, m, r, line, io);
            && next.promised == s.promised && next.memory.Some?
            && next.memory.value.guard == m.guard && next.memory.value.serving == m.serving
  {
  }

  // ---- every run ----

  ghost predicate Kept(s: State) {
    Inv(s) && Once(s) && Promise(s) && Heard(s)
  }

  lemma StepKept(s: State, a: Step)
    requires Kept(s) && Enabled(s, a)
    ensures Kept(Do(s, a))
  {
    hide Inv; hide Once; hide Promise; hide Heard; hide Enabled; hide Do;
    StepKeeps(s, a);
    StepOnce(s, a);
    StepPromise(s, a);
    StepHeard(s, a);
  }

  lemma {:induction false} RunKept(s: State, steps: seq<Step>)
    requires Kept(s) && CanRun(s, steps)
    ensures Kept(Run(s, steps))
    decreases |steps|
  {
    hide Kept; hide Enabled; hide Do;
    if steps != [] {
      StepKept(s, steps[0]);
      RunKept(Do(s, steps[0]), steps[1..]);
    }
  }

  lemma {:induction false} BindingRun(s: State, steps: seq<Step>, rid: string, msg: Message)
    requires Kept(s) && CanRun(s, steps) && Spared(s, steps, rid) && Binding(s, rid, msg)
    ensures Binding(Run(s, steps), rid, msg)
    decreases |steps|
  {
    hide Inv; hide Once; hide Promise; hide Heard; hide Enabled; hide Do; hide Binding; hide Spares;
    if steps != [] {
      StepKept(s, steps[0]);
      BindingStays(s, steps[0], rid, msg);
      BindingRun(Do(s, steps[0]), steps[1..], rid, msg);
    }
  }

  /** What prunes dropped stays on the list. */
  lemma {:induction false} PrunedGrows(s: State, steps: seq<Step>)
    requires CanRun(s, steps)
    ensures s.pruned.requests <= Run(s, steps).pruned.requests
    decreases |steps|
  {
    hide Enabled; hide Do;
    if steps != [] {
      StepPrunes(s, steps[0]);
      PrunedGrows(Do(s, steps[0]), steps[1..]);
    }
  }

  lemma StepPrunes(s: State, a: Step)
    requires Enabled(s, a)
    ensures s.pruned.requests <= Do(s, a).pruned.requests
    ensures a.Gc? ==> Forgotten(s, s.memory.value, PruneTable(s.memory.value.table, a.keep), a.replaced) <= Do(s, a).pruned.requests
  {
    hide Live; hide PruneTable; hide PruneRequests; hide Unseen; hide Risked; hide Forgotten; hide CrashRuns.Cut; hide Requests;
    hide Asks; hide Markers; hide Judge; hide VerdictLine; hide VerdictTable; hide VerdictReply; hide StuckLine; hide Loaded;
    hide HighWater; hide EntryOf; hide ReconstructResult; hide Askers; hide PendingOn; hide IsLogRefusal;
  }

  /** A step that drops nothing of a request with a committed record spares it, whatever others write. */
  lemma FiledIsSpared(s: State, a: Step, rid: string)
    requires Kept(s) && Enabled(s, a) && Filed(s, rid) && rid !in Do(s, a).pruned.requests
    ensures Spares(s, a, rid) && Filed(Do(s, a), rid)
  {
    hide Inv; hide Once; hide Promise; hide Heard; hide Filed; hide Forgotten; hide Risked; hide Askers; hide Do; hide PruneTable;
    hide Requests; hide PruneRequests; hide Asks; hide Markers;
    StepPrunes(s, a);
    if a.Meddle? {
      FiledIsNotAsking(s, rid, a.file);
    } else if a.Gc? {
      HeldIsNotRisked(s, s.memory.value, a.keep, a.replaced, rid);
    }
    FiledStays(s, a, rid);
  }

  lemma {:induction false} RecordedIsSpared(s: State, steps: seq<Step>, rid: string)
    requires Kept(s) && CanRun(s, steps) && Filed(s, rid) && rid !in Run(s, steps).pruned.requests
    ensures Spared(s, steps, rid)
    decreases |steps|
  {
    hide Kept; hide Enabled; hide Do; hide Filed; hide Spares;
    if steps != [] {
      PrunedGrows(Do(s, steps[0]), steps[1..]);
      FiledIsSpared(s, steps[0], rid);
      StepKept(s, steps[0]);
      RecordedIsSpared(Do(s, steps[0]), steps[1..], rid);
    }
  }

  lemma InitPromise(ws: Workspace)
    ensures Promise(Init(ws)) && Heard(Init(ws))
  {
  }

  lemma RunFacts(ws: Workspace, steps: seq<Step>)
    requires SaneWorkspace(ws) && CanRun(Init(ws), steps)
    ensures Kept(Run(Init(ws), steps))
  {
    hide CanRun; hide Run; hide Inv; hide Once; hide Promise; hide Heard;
    InitHolds(ws);
    InitIsOnce(ws);
    InitPromise(ws);
    RunKept(Init(ws), steps);
  }

  /**
   A result the request has, in log or memory, is replayed as the message; a process knows the
   request, and one that has recovered has the result.
   */
  ghost predicate Answered(s: State, rid: string, msg: Message) {
    && Says(Requests(s.reqs), rid, msg)
    && (s.memory.Some? ==> rid in s.memory.value.requests && Says(s.memory.value.requests, rid, msg))
    && (Recovered(s) ==> s.memory.value.requests[rid].result.Some?)
  }

  /** In any state a promise binds, whatever the request is answered with is the promise. */
  lemma BindingIsReplayed(s: State, rid: string, msg: Message)
    requires Kept(s) && Binding(s, rid, msg)
    ensures Answered(s, rid, msg)
  {
    hide Inv; hide Once; hide Live; hide Requests; hide Stands; hide Replayed; hide TasksPromise; hide Markers; hide Heard;
    hide TablePromise; hide Apart; hide GuardPromise;
  }

  /**
   A reply lost is replayed. Once the effect of a request is on record and its handler can no longer
   find that its log failed it -- it holds its reply, or the process died -- then for ever after, over
   any number of crashes, restarts and recoveries cut off half way, a copy of the request that has
   a result is answered with the reply the handler held or was to send, and every start
   that serves again has that result. Others may write what they like but the file of a marker of
   the request that is still pending, and prunes may drop what they like but what is on record of it.
   */
  lemma EveryLostReplyIsReplayed(ws: Workspace, steps: seq<Step>, later: seq<Step>, rid: string)
    requires SaneWorkspace(ws) && CanRun(Init(ws), steps)
    requires var s := Run(Init(ws), steps);
             rid in s.promised && !Undecided(s, rid) && CanRun(s, later) && Spared(s, later, rid)
    ensures var s := Run(Init(ws), steps);
            Answered(Run(s, later), rid, s.promised[rid])
  {
    hide CanRun; hide Run; hide Kept; hide Undecided; hide Spared; hide Answered;
    var s := Run(Init(ws), steps);
    RunFacts(ws, steps);
    RunKept(s, later);
    BindingRun(s, later, rid, s.promised[rid]);
    BindingIsReplayed(Run(s, later), rid, s.promised[rid]);
  }

  /**
   Once the record itself is committed others may write anything, and only a prune that drops
   something of the request matters.
   */
  lemma EveryRecordedReplyIsReplayed(ws: Workspace, steps: seq<Step>, later: seq<Step>, rid: string)
    requires SaneWorkspace(ws) && CanRun(Init(ws), steps)
    requires var s := Run(Init(ws), steps);
             rid in s.promised && Filed(s, rid) && CanRun(s, later) && rid !in Run(s, later).pruned.requests
    ensures var s := Run(Init(ws), steps);
            Answered(Run(s, later), rid, s.promised[rid])
  {
    hide CanRun; hide Run; hide Kept; hide Undecided; hide Spared; hide Answered; hide Live; hide Filed;
    var s := Run(Init(ws), steps);
    RunFacts(ws, steps);
    RecordedIsSpared(s, later, rid);
    RecordedIsDecided(s, rid);
    EveryLostReplyIsReplayed(ws, steps, later, rid);
  }

  lemma RecordedIsDecided(s: State, rid: string)
    requires Kept(s) && Filed(s, rid) && rid in s.promised
    ensures !Undecided(s, rid)
  {
    hide Inv; hide Once; hide DiskPromise; hide MemoryPromise; hide TablePromise; hide Heard; hide Live; hide Requests; hide Owns;
    if Guarded(s) {
      GuardFacts(s, s.memory.value);
      OneRecordViews(s);
    }
  }

  /**
   In particular every reply a handler holds for an effect on record, whether or not it is ever logged
   or sent, whatever others write, as long as no prune drops something of the request.
   */
  lemma EveryHeldReplyIsReplayed(ws: Workspace, steps: seq<Step>, later: seq<Step>, rid: string)
    requires SaneWorkspace(ws) && CanRun(Init(ws), steps)
    requires var s := Run(Init(ws), steps);
             && HasTask(s, rid) && s.memory.value.tasks[rid].Answering?
             && (s.memory.value.tasks[rid].line.status.Done? || rid in s.promised)
             && CanRun(s, later) && rid !in Run(s, later).pruned.requests
    ensures var s := Run(Init(ws), steps);
            Answered(Run(s, later), rid, Replayed(rid, EntryOf(s.memory.value.tasks[rid].line)))
  {
    hide CanRun; hide Run; hide Inv; hide Once; hide Answered; hide Promise; hide Replayed; hide EntryOf;
    hide Filed; hide Live; hide Requests;
    var s := Run(Init(ws), steps);
    RunFacts(ws, steps);
    PromiseFacts(s, s.memory.value, rid);
    PrunedGrows(s, later);
    EveryRecordedReplyIsReplayed(ws, steps, later, rid);
  }

  // ---- any two logs ----

  lemma FoundIs(t: seq<Record>, r: Record)
    requires r in t && r.Committed() && forall x :: x in t && x.Committed() && x.rid == r.rid ==> x == r
    ensures FindCommitted(t, r.rid) == Some(r)
  {
    hide FindCommitted;
  }

  /**
   Whatever a run was, pruned or not: a start that finds a request in progress and one record of it
   answers it with what the record stands for.
   */
  lemma LostReplyIsReplayed(ops: seq<Record>, reqs: seq<ReqLine>, ws: Workspace, now: nat, stuck: seq<Stalled>, r: Record)
    requires var t := RecoverOps(ops, ws, now).table;
             r in t && r.Committed() && forall x :: x in t && x.Committed() && x.rid == r.rid ==> x == r
    requires Stuck(SettledRequests(ops, reqs, ws, now), r.rid) && Collects(stuck, SettledRequests(ops, reqs, ws, now))
    ensures var after := Recover(ops, reqs, ws, now, stuck).requests;
            r.rid in after && Replayed(r.rid, after[r.rid]) == Meaning(r)
  {
    hide RecoverOps; hide ReconstructResult; hide ResolveAll; hide SettledRequests; hide FindCommitted;
    var t := RecoverOps(ops, ws, now).table;
    var requests := SettledRequests(ops, reqs, ws, now);
    FoundIs(t, r);
    ResolveAllEntries(t, requests, stuck);
    var x := Stalled(r.rid, requests[r.rid].op);
    assert x in stuck;
    assert At(ResolveAll(t, requests, stuck).requests, r.rid) == StuckEntry(t, r.rid, x.op);
  }
}
