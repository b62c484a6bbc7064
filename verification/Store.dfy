/**
 The operation store as an object: the two logs and the counter file it owns on disk, and the
 tables it answers from. Every method is tied to the functions the theorems are about.
 */
module Store {
  import opened Options
  import opened Records
  import opened Replay
  import opened Recovery
  import opened ExactRecovery
  import opened Pruning
  import opened Replies
  import opened Fixpoint
  import opened Answers
  import CrashRuns
  import RunInvariant
  import TornLog

  /** How one append to a log file ended. */
  datatype Append =
    | Written
    | Incomplete(error: ProtocolError)
    | Unsynced(error: ProtocolError)
  {
    /** What callers other than `PrepareFsRecord` see of it. */
    function Flat(): Result<(), ProtocolError> {
      match this
      case Written => Ok(())
      case Incomplete(e) => Err(e)
      case Unsynced(e) => Err(e)
    }

    /** The same, of the log file. */
    function Kind(): TornLog.Append {
      match this
      case Written => TornLog.Written
      case Incomplete(_) => TornLog.Incomplete
      case Unsynced(_) => TornLog.Unsynced
    }
  }

  /** What the operating system does to one append. */
  datatype Io = Whole | Undone | Torn | NotSynced

  /** What becomes of replacing a file: it may be in place and still not known to be durable. */
  datatype Replacement = Kept | Replaced | SyncFailed

  /** Table and log say the same, and no id that is out can be handed out again. */
  ghost predicate Agreement(records: seq<Record>, ops: seq<Record>, counter: nat, nextId: nat) {
    RunInvariant.Agrees(records, Live(ops)) && CrashRuns.HighWater(counter, ops) <= nextId
  }

  lemma PushAgreement(records: seq<Record>, ops: seq<Record>, counter: nat, nextId: nat, r: Record, nextId': nat)
    requires Agreement(records, ops, counter, nextId) && nextId <= nextId' && r.id <= nextId'
    requires !r.Aborted? && (r.id > nextId || r.id !in Live(ops))
    ensures Agreement(records + [r], ops + [r], counter, nextId')
  {
    RunInvariant.AppendViews(counter, ops, r);
    RunInvariant.PushAgrees(records, Live(ops), r);
  }

  lemma UpsertAgreement(records: seq<Record>, ops: seq<Record>, counter: nat, nextId: nat, r: Record)
    requires Agreement(records, ops, counter, nextId) && r.id <= nextId && !r.Aborted?
    ensures Agreement(Upsert(records, r), ops + [r], counter, nextId)
  {
    RunInvariant.AppendViews(counter, ops, r);
    UpsertLive(records, r);
  }

  lemma DropAgreement(records: seq<Record>, ops: seq<Record>, counter: nat, nextId: nat, id: nat, ts: nat)
    requires Agreement(records, ops, counter, nextId) && id <= nextId
    requires id in Live(ops) && Live(ops)[id].Prepared?
    ensures Agreement(DropPrepared(records, id), ops + [Aborted(id, ts)], counter, nextId)
  {
    RunInvariant.AppendViews(counter, ops, Aborted(id, ts));
    DropPreparedLive(records, id);
  }

  /** Where recovery stands: what it has appended and reported so far, and what is still to come. */
  ghost predicate OnCourse(full: Settlement, ops: seq<Record>, reqs: seq<ReqLine>, actions: seq<Action>, rest: Settlement) {
    && full.table == rest.table
    && full.now == rest.now
    && full.ops == ops + rest.ops
    && full.reqs == reqs + rest.reqs
    && full.actions == actions + rest.actions
  }

  lemma OneMarkerFurther(full: Settlement, ops: seq<Record>, reqs: seq<ReqLine>, actions: seq<Action>,
                         t: seq<Record>, ps: seq<Record>, ws: Workspace, now: nat)
    requires ps != [] && forall p :: p in ps ==> p.Prepared?
    requires OnCourse(full, ops, reqs, actions, SettleAll(t, ps, ws, now))
    ensures var p := ps[|ps| - 1];
            var v := Judge(t, p, ws);
            OnCourse(full, ops + [VerdictLine(p, v, now)], reqs + AsSeq(VerdictReply(p, v, now)),
                     actions + [VerdictAction(p, v)],
                     SettleAll(VerdictTable(t, p, v, now), ps[..|ps| - 1], ws, now + 1))
  {
    hide Judge; hide VerdictLine; hide VerdictReply; hide VerdictAction; hide VerdictTable;
    var p := ps[|ps| - 1];
    var v := Judge(t, p, ws);
    var rest := SettleAll(VerdictTable(t, p, v, now), ps[..|ps| - 1], ws, now + 1);
    Regroup(ops, VerdictLine(p, v, now), rest.ops);
    Regroup(actions, VerdictAction(p, v), rest.actions);
    assert reqs + (AsSeq(VerdictReply(p, v, now)) + rest.reqs) == reqs + AsSeq(VerdictReply(p, v, now)) + rest.reqs;
  }

  /** What is appended so far is a beginning of what will have been, and at the end all of it. */
  lemma FarAlong(full: Settlement, ops: seq<Record>, reqs: seq<ReqLine>, actions: seq<Action>, rest: Settlement)
    requires OnCourse(full, ops, reqs, actions, rest)
    ensures ops <= full.ops && reqs <= full.reqs
    ensures rest.ops == [] && rest.reqs == [] && rest.actions == [] ==>
              full == Settlement(rest.table, ops, reqs, actions, rest.now)
  {
  }

  /** Logs that have gained beginnings of what they were to gain. */
  ghost predicate Within(ops0: seq<Record>, reqs0: seq<ReqLine>, ops: seq<Record>, reqs: seq<ReqLine>, full: Settlement) {
    ops0 <= ops <= ops0 + full.ops && reqs0 <= reqs <= reqs0 + full.reqs
  }

  lemma WithinMeans(ops0: seq<Record>, reqs0: seq<ReqLine>, ops: seq<Record>, reqs: seq<ReqLine>, full: Settlement)
    requires Within(ops0, reqs0, ops, reqs, full)
    ensures ops0 <= ops <= ops0 + full.ops && reqs0 <= reqs <= reqs0 + full.reqs
  {
  }

  /** However far the lines of the next marker get. */
  lemma WithinCourse(full: Settlement, ops0: seq<Record>, reqs0: seq<ReqLine>, ops: seq<Record>, reqs: seq<ReqLine>,
                     line: Record, reply: seq<ReqLine>, actions: seq<Action>, rest: Settlement)
    requires OnCourse(full, ops + [line], reqs + reply, actions, rest)
    ensures Within(ops0, reqs0, ops0 + ops, reqs0 + reqs, full)
    ensures Within(ops0, reqs0, ops0 + ops + [line], reqs0 + reqs, full)
    ensures Within(ops0, reqs0, ops0 + ops + [line], reqs0 + reqs + reply, full)
  {
    FarAlong(full, ops + [line], reqs + reply, actions, rest);
    PrefixSteps(ops0, ops, line, full.ops);
    PrefixReplies(reqs0, reqs, reply, full.reqs);
  }

  lemma AtTheStart(full: Settlement)
    ensures OnCourse(full, [], [], [], full)
  {
  }

  ghost predicate InCourse(full: Resolution, lines: seq<ReqLine>, actions: seq<Action>, rest: Resolution) {
    full.requests == rest.requests && full.lines == lines + rest.lines && full.actions == actions + rest.actions
  }

  lemma OneRequestFurther(full: Resolution, lines: seq<ReqLine>, actions: seq<Action>,
                          t: seq<Record>, requests: map<string, Entry>, stuck: seq<Stalled>)
    requires stuck != [] && InCourse(full, lines, actions, ResolveAll(t, requests, stuck))
    ensures var x := stuck[0];
            var line := StuckLine(t, x.rid, x.op);
            var next := if line.Some? then requests[x.rid := EntryOf(line.value)] else requests - {x.rid};
            InCourse(full, lines + AsSeq(line), actions + [StuckAction(t, x)], ResolveAll(t, next, stuck[1..]))
  {
    hide StuckLine; hide StuckAction;
    var x := stuck[0];
    var line := StuckLine(t, x.rid, x.op);
    var next := if line.Some? then requests[x.rid := EntryOf(line.value)] else requests - {x.rid};
    var rest := ResolveAll(t, next, stuck[1..]);
    Regroup(actions, StuckAction(t, x), rest.actions);
    assert lines + (AsSeq(line) + rest.lines) == lines + AsSeq(line) + rest.lines;
  }

  lemma NoneStuck(t: seq<Record>, requests: map<string, Entry>)
    ensures ResolveAll(t, requests, []) == Resolution(requests, [], [])
  {
  }

  /** Every table has its stuck requests listed by some sequence. */
  ghost function AnyOrder(requests: map<string, Entry>): (stuck: seq<Stalled>)
    ensures Collects(stuck, requests)
  {
    var stuck := ListStuck(requests, requests.Keys);
    stuck
  }

  ghost function ListStuck(requests: map<string, Entry>, keys: set<string>): (stuck: seq<Stalled>)
    requires keys <= requests.Keys
    ensures forall x :: x in stuck <==> x.rid in keys && Stuck(requests, x.rid) && requests[x.rid].op == x.op
    ensures Distinct(stuck)
  {
    if keys == {} then []
    else
      var rid :| rid in keys;
      var rest := ListStuck(requests, keys - {rid});
      if Stuck(requests, rid) then [Stalled(rid, requests[rid].op)] + rest else rest
  }

  class OperationStore {
    // the state directory
    var ops: seq<Record>
    var reqs: seq<ReqLine>
    var counter: nat
    // memory
    var nextId: nat
    var records: seq<Record>
    var requests: map<string, Entry>
    var torn: bool
    var clock: nat
    /** How many calls of the operating system have failed. */
    ghost var faults: nat

    ghost predicate InStep()
      reads this
    {
      Agreement(records, ops, counter, nextId)
    }

    /** It went well exactly if nothing failed meanwhile and appends were not stopped before; and only a failure stops them. */
    twostate predicate Tells(ok: bool)
      reads this`torn, this`faults
    {
      && faults >= old(faults)
      && (ok <==> !old(torn) && faults == old(faults))
      && (faults == old(faults) ==> torn == old(torn))
    }

    // ---- appending ----

    /** A line is in the log whole or not at all, and nothing follows one that could not be undone. */
    method AppendOp(r: Record) returns (f: Append)
      modifies `ops, `torn, `faults
      ensures TornLog.Appended(old(ops), old(torn), r, f.Kind(), ops, torn)
      ensures !f.Written? ==> IsLogRefusal(f.error)
      ensures Tells(f.Written?) && faults <= old(faults) + 1
    {
      if torn {
        return Incomplete(ProtocolError(IoError, "refusing to append to op log"));
      }
      var io: Io := *;
      faults := if io.Whole? then faults else faults + 1;
      match io
      case Whole =>
        ops := ops + [r];
        f := Written;
      case Undone =>
        f := Incomplete(ProtocolError(IoError, "write op log"));
      case Torn =>
        torn := true;
        f := Incomplete(ProtocolError(IoError, "write op log"));
      case NotSynced =>
        ops := ops + [r];
        f := Unsynced(ProtocolError(IoError, "fsync op log"));
    }

    method AppendReq(line: ReqLine) returns (f: Append)
      modifies `reqs, `torn, `faults
      ensures TornLog.Appended(old(reqs), old(torn), line, f.Kind(), reqs, torn)
      ensures !f.Written? ==> IsLogRefusal(f.error)
      ensures Tells(f.Written?)
    {
      if torn {
        return Incomplete(ProtocolError(IoError, "refusing to append to request log"));
      }
      var io: Io := *;
      faults := if io.Whole? then faults else faults + 1;
      match io
      case Whole =>
        reqs := reqs + [line];
        f := Written;
      case Undone =>
        f := Incomplete(ProtocolError(IoError, "write request log"));
      case Torn =>
        torn := true;
        f := Incomplete(ProtocolError(IoError, "write request log"));
      case NotSynced =>
        reqs := reqs + [line];
        f := Unsynced(ProtocolError(IoError, "fsync request log"));
    }

    /** The wall clock, taken to tick between any two readings. */
    method Now() returns (ts: nat)
      modifies `clock
      ensures ts == old(clock) && clock == old(clock) + 1
    {
      ts := clock;
      clock := clock + 1;
    }

    // ---- loading ----

    /** The last line of every id, by id. */
    static function LastOf(log: seq<Record>): map<nat, Record> {
      if log == [] then map[] else LastOf(log[..|log| - 1])[log[|log| - 1].id := log[|log| - 1]]
    }

    static lemma {:induction false} LastOfIsLive(log: seq<Record>)
      ensures forall id :: id in LastOf(log) ==> LastOf(log)[id].id == id
      ensures forall id :: id in Live(log) <==> id in LastOf(log) && !LastOf(log)[id].Aborted?
      ensures forall id :: id in Live(log) ==> Live(log)[id] == LastOf(log)[id]
    {
      if log != [] {
        LastOfIsLive(log[..|log| - 1]);
      }
    }

    /** Open a state directory: read both logs, collapse by id, sort by time. */
    constructor (opsLog: seq<Record>, reqLog: seq<ReqLine>, counterFile: nat, now: nat)
      ensures ops == opsLog && reqs == reqLog && counter == counterFile && clock == now && !torn && faults == 0
      ensures records == Loaded(opsLog)
      ensures requests == Requests(reqLog)
      ensures nextId == CrashRuns.HighWater(counterFile, opsLog)
      ensures InStep()
    {
      var byId, top := CollapseById(opsLog, counterFile);
      var sorted := SortedValues(opsLog, byId);
      var table := LoadRequests(reqLog);
      ops, reqs, counter, clock, torn, faults := opsLog, reqLog, counterFile, now, false, 0;
      nextId, records, requests := top, sorted, table;
      LoadedIsLive(opsLog);
    }

    /** One pass over the operations log: the last record of every id, and the highest id out. */
    static method CollapseById(opsLog: seq<Record>, counterFile: nat) returns (byId: map<nat, Record>, top: nat)
      ensures byId == LastOf(opsLog)
      ensures top == CrashRuns.HighWater(counterFile, opsLog)
    {
      byId, top := map[], counterFile;
      for i := 0 to |opsLog|
        invariant byId == LastOf(opsLog[..i])
        invariant top == CrashRuns.HighWater(counterFile, opsLog[..i])
      {
        assert opsLog[..i + 1][..i] == opsLog[..i];
        if opsLog[i].id > top {
          top := opsLog[i].id;
        }
        byId := byId[opsLog[i].id := opsLog[i]];
      }
      assert opsLog[..|opsLog|] == opsLog;
    }

    static method LoadRequests(reqLog: seq<ReqLine>) returns (table: map<string, Entry>)
      ensures table == Requests(reqLog)
    {
      table := map[];
      for i := 0 to |reqLog|
        invariant table == Requests(reqLog[..i])
      {
        assert reqLog[..i + 1][..i] == reqLog[..i];
        table := table[reqLog[i].rid := EntryOf(reqLog[i])];
      }
      assert reqLog[..|reqLog|] == reqLog;
    }

    /** The collapsed records but the aborted ones, in load order, whatever order the map yields them in. */
    static method SortedValues(ghost log: seq<Record>, byId: map<nat, Record>) returns (sorted: seq<Record>)
      requires byId == LastOf(log)
      ensures sorted == Loaded(log)
    {
      LastOfIsLive(log);
      sorted := [];
      var rest := byId.Keys;
      while rest != {}
        invariant rest <= byId.Keys
        invariant IsTable(sorted) && Sorted(sorted)
        invariant forall r :: r in sorted <==> r.id in byId && r.id !in rest && byId[r.id] == r && !r.Aborted?
      {
        var id :| id in rest;
        rest := rest - {id};
        if !byId[id].Aborted? {
          InsertKeepsTable(sorted, byId[id]);
          sorted := Insert(sorted, byId[id]);
        }
      }
      LoadedIsLive(log);
      SortedUnique(sorted, Loaded(log));
    }

    // ---- the record table ----

    /** `retain`: drop the prepared marker of `id`. */
    method DropMarker(id: nat)
      modifies `records
      ensures records == DropPrepared(old(records), id)
    {
      var kept: seq<Record> := [];
      for i := 0 to |records|
        invariant records == old(records)
        invariant kept + DropPrepared(records[i..], id) == DropPrepared(records, id)
      {
        assert records[i..][1..] == records[i + 1..];
        if !(records[i].id == id && records[i].Prepared?) {
          kept := kept + [records[i]];
        }
      }
      records := kept;
    }

    /** Overwrite the record of the same id, or push. */
    method ReplaceOrPush(r: Record)
      modifies `records
      ensures records == Upsert(old(records), r)
    {
      hide Upsert;
      var i := 0;
      while i < |records| && records[i].id != r.id
        invariant i <= |records|
        invariant !HasId(records[..i], r.id)
      {
        i := i + 1;
      }
      UpsertAt(records, i, r);
      if i < |records| {
        records := records[i := r];
      } else {
        records := records + [r];
      }
    }

    method FindCommittedByRequestId(rid: string) returns (found: Option<Record>)
      ensures found == FindCommitted(records, rid)
    {
      for i := 0 to |records|
        invariant FindCommitted(records, rid) == FindCommitted(records[i..], rid)
      {
        assert records[i..][1..] == records[i + 1..];
        if records[i].Committed() && records[i].rid == rid {
          return Some(records[i]);
        }
      }
      found := None;
    }

    /** Only a finished operation is found; a marker is not. */
    method FindRecord(id: nat) returns (found: Option<Record>)
      ensures found.Some? ==> found.value in records && found.value.id == id && found.value.Committed()
      ensures found.None? ==> forall r :: r in records && r.Committed() ==> r.id != id
    {
      for i := 0 to |records|
        invariant forall j :: 0 <= j < i ==> !(records[j].id == id && records[j].Committed())
      {
        if records[i].id == id && records[i].Committed() {
          return Some(records[i]);
        }
      }
      found := None;
    }

    /** A later record shows that `p` landed. */
    method IsContinuedFrom(p: Record) returns (yes: bool)
      requires p.Prepared?
      ensures yes == ContinuedFrom(records, p)
    {
      var at := 0;
      while at < |records| && records[at].id != p.id
        invariant at <= |records|
        invariant forall i :: 0 <= i < at ==> records[i].id != p.id
      {
        at := at + 1;
      }
      if at == |records| {
        assert Position(records, p.id) == at;
        return false;
      }
      assert Position(records, p.id) == at;
      for i := at + 1 to |records|
        invariant forall j :: at < j < i ==> !Continues(records[j], p)
      {
        if Continues(records[i], p) {
          return true;
        }
      }
      yes := false;
    }

    // ---- requests ----

    method NextOperationId() returns (id: nat)
      modifies `nextId
      ensures id == old(nextId) + 1 && nextId == id
    {
      nextId := nextId + 1;
      id := nextId;
    }

    /** Take ownership of a request id, or learn what became of it. Memory follows the log, never leads it. */
    method ClaimRequest(rid: string, op: string) returns (r: Result<Option<Entry>, ProtocolError>)
      modifies `reqs, `requests, `torn, `faults
      ensures rid in old(requests) ==>
                r == Ok(Some(old(requests)[rid])) && reqs == old(reqs) && requests == old(requests)
      ensures rid !in old(requests) ==> (r.Err? || r == Ok(None)) && Tells(r.Ok?)
      ensures rid in old(requests) ==> torn == old(torn) && faults == old(faults)
      ensures r == Ok(None) ==>
                reqs == old(reqs) + [ClaimLine(rid, op)] && requests == old(requests)[rid := ClaimEntry(op)]
      ensures r.Err? ==>
                && requests == old(requests) && (reqs == old(reqs) || reqs == old(reqs) + [ClaimLine(rid, op)])
                && IsLogRefusal(r.error)
    {
      if rid in requests {
        return Ok(Some(requests[rid]));
      }
      var f := AppendReq(ClaimLine(rid, op));
      if f.Flat().Err? {
        return Err(f.error);
      }
      requests := requests[rid := ClaimEntry(op)];
      r := Ok(None);
    }

    /** The append and the matching change to the table, as one. */
    method AppendReqTracked(line: ReqLine, e: Entry) returns (r: Result<(), ProtocolError>)
      requires EntryOf(line) == e
      modifies `reqs, `requests, `torn, `faults
      ensures r.Ok? ==> reqs == old(reqs) + [line] && requests == old(requests)[line.rid := EntryOf(line)]
      ensures r.Err? ==>
                requests == old(requests) && (reqs == old(reqs) || reqs == old(reqs) + [line]) && IsLogRefusal(r.error)
      ensures Tells(r.Ok?)
    {
      var f := AppendReq(line);
      if f.Flat().Err? {
        return f.Flat();
      }
      requests := requests[line.rid := e];
      r := Ok(());
    }

    method RememberResult(rid: string, msg: Message) returns (r: Result<(), ProtocolError>)
      modifies `reqs, `requests, `torn, `faults
      ensures r.Ok? ==>
                && reqs == old(reqs) + [DoneLine(rid, msg)]
                && requests == old(requests)[rid := EntryOf(DoneLine(rid, msg))]
      ensures r.Err? ==>
                && requests == old(requests) && (reqs == old(reqs) || reqs == old(reqs) + [DoneLine(rid, msg)])
                && IsLogRefusal(r.error)
      ensures Tells(r.Ok?)
    {
      r := AppendReqTracked(DoneLine(rid, msg), DoneEntry(msg));
    }

    method RememberError(rid: string, error: ProtocolError) returns (r: Result<(), ProtocolError>)
      modifies `reqs, `requests, `torn, `faults
      ensures r.Ok? ==>
                && reqs == old(reqs) + [ErrorLine(rid, error)]
                && requests == old(requests)[rid := EntryOf(ErrorLine(rid, error))]
      ensures r.Err? ==>
                && requests == old(requests) && (reqs == old(reqs) || reqs == old(reqs) + [ErrorLine(rid, error)])
                && IsLogRefusal(r.error)
      ensures Tells(r.Ok?)
    {
      r := AppendReqTracked(ErrorLine(rid, error), ErrorEntry(error));
    }

    // ---- records ----

    /** The marker a mutation writes before it touches the workspace. A failed sync withdraws it. */
    method PrepareFsRecord(rid: string, kind: OperationKind, path: string, before: Option<string>, after: string)
      returns (r: Result<nat, ProtocolError>)
      modifies `ops, `records, `nextId, `torn, `faults, `clock
      ensures nextId == old(nextId) + 1 && clock > old(clock) && (r.Ok? ==> clock == old(clock) + 1)
      ensures r.Ok? ==>
                var p := Prepared(r.value, rid, kind, path, before, after, old(clock));
                r.value == nextId && ops == old(ops) + [p] && records == old(records) + [p]
      ensures r.Err? ==>
                var p := Prepared(nextId, rid, kind, path, before, after, old(clock));
                && records == old(records)
                && (ops == old(ops) || ops == old(ops) + [p] || ops == old(ops) + [p] + [Aborted(p.id, p.ts + 1)])
                && IsLogRefusal(r.error)
                // a marker that is there although it was refused is withdrawn, unless that fails too
                && (ops == old(ops) + [p] ==> faults > old(faults) + 1)
      ensures Tells(r.Ok?)
      ensures r.Ok? && old(InStep()) ==> InStep()
    {
      hide Agreement; hide Live;
      var id := NextOperationId();
      var ts := Now();
      var p := Prepared(id, rid, kind, path, before, after, ts);
      var f := AppendOp(p);
      match f
      case Written =>
        if old(InStep()) {
          PushAgreement(records, old(ops), counter, old(nextId), p, nextId);
        }
        records := records + [p];
        r := Ok(id);
      case Unsynced(e) =>
        var later := Now();
        var ignored := AppendOp(Aborted(id, later));
        r := Err(e);
      case Incomplete(e) =>
        r := Err(e);
    }

    method CommitFsRecord(id: nat, rid: string, kind: OperationKind, path: string, before: Option<string>, after: string)
      returns (r: Result<Record, ProtocolError>)
      modifies `ops, `records, `torn, `faults, `clock
      ensures var c := Fs(id, rid, kind, path, before, after, old(clock));
              && clock == old(clock) + 1
              && (r.Ok? ==> r.value == c && ops == old(ops) + [c] && records == Upsert(old(records), c))
              && (r.Err? ==> records == old(records) && (ops == old(ops) || ops == old(ops) + [c]) && IsLogRefusal(r.error))
      ensures Tells(r.Ok?)
      ensures r.Ok? && old(InStep()) && id <= nextId ==> InStep()
    {
      hide Agreement; hide Live;
      var ts := Now();
      var c := Fs(id, rid, kind, path, before, after, ts);
      var f := AppendOp(c);
      if f.Flat().Err? {
        return Err(f.error);
      }
      if old(InStep()) && id <= nextId {
        UpsertAgreement(records, old(ops), counter, nextId, c);
      }
      ReplaceOrPush(c);
      r := Ok(c);
    }

    /** Withdraw a marker, durably first. */
    method AbortPrepared(id: nat) returns (r: Result<(), ProtocolError>)
      modifies `ops, `records, `torn, `faults, `clock
      ensures var line := Aborted(id, old(clock));
              && clock == old(clock) + 1
              && (r.Ok? ==> ops == old(ops) + [line] && records == DropPrepared(old(records), id))
              && (r.Err? ==> records == old(records) && (ops == old(ops) || ops == old(ops) + [line]) && IsLogRefusal(r.error))
      ensures Tells(r.Ok?)
      ensures r.Ok? && old(InStep()) && id <= nextId && id in Live(old(ops)) && Live(old(ops))[id].Prepared? ==> InStep()
    {
      hide Agreement; hide Live;
      var ts := Now();
      var f := AppendOp(Aborted(id, ts));
      if f.Flat().Err? {
        return f.Flat();
      }
      if old(InStep()) && id <= nextId && id in Live(old(ops)) && Live(old(ops))[id].Prepared? {
        DropAgreement(records, old(ops), counter, nextId, id, ts);
      }
      DropMarker(id);
      r := Ok(());
    }

    method AppendRecord(c: Record) returns (r: Result<(), ProtocolError>)
      requires c.Exec? || c.Transfer?
      modifies `ops, `records, `torn, `faults
      ensures r.Ok? ==> ops == old(ops) + [c] && records == old(records) + [c]
      ensures r.Err? ==> records == old(records) && (ops == old(ops) || ops == old(ops) + [c]) && IsLogRefusal(r.error)
      ensures Tells(r.Ok?)
      ensures r.Ok? && old(InStep()) && c.id <= nextId && c.id !in Live(old(ops)) ==> InStep()
    {
      hide Agreement; hide Live;
      var f := AppendOp(c);
      if f.Flat().Err? {
        return f.Flat();
      }
      if old(InStep()) && c.id <= nextId && c.id !in Live(old(ops)) {
        PushAgreement(records, old(ops), counter, nextId, c, nextId);
      }
      records := records + [c];
      r := Ok(());
    }

    // ---- recovery ----

    method SynthesizeCommit(p: Record) returns (r: Result<(), ProtocolError>)
      requires p.Prepared?
      modifies `ops, `records, `reqs, `requests, `torn, `faults, `clock
      ensures var c := CommitOf(p, old(clock));
              var line := DoneLine(p.rid, ReconstructResult(c));
              && clock == old(clock) + 1
              && (r.Ok? ==>
                    && ops == old(ops) + [c] && records == Upsert(old(records), c)
                    && reqs == old(reqs) + [line] && requests == old(requests)[p.rid := EntryOf(line)])
              && (r.Err? ==> PartWay(old(ops), old(reqs), c, [line]))
      ensures Tells(r.Ok?)
    {
      var c := CommitFsRecord(p.id, p.rid, p.kind, p.path, p.before, p.after);
      if c.Err? {
        return Err(c.error);
      }
      r := RememberResult(p.rid, ReconstructResult(c.value));
    }

    /** However far the appends of one verdict got: `line` first, then `replies`. */
    ghost predicate PartWay(ops0: seq<Record>, reqs0: seq<ReqLine>, line: Record, replies: seq<ReqLine>)
      reads this
    {
      || (ops == ops0 && reqs == reqs0)
      || (ops == ops0 + [line] && (reqs == reqs0 || reqs == reqs0 + replies))
    }

    method ResolvePreparedAsConflict(p: Record, reason: string) returns (r: Result<(), ProtocolError>)
      requires p.Prepared?
      modifies `ops, `records, `reqs, `requests, `torn, `faults, `clock
      ensures var line := ErrorLine(p.rid, ConflictError(p, reason));
              && clock == old(clock) + 1
              && (r.Ok? ==>
                    && ops == old(ops) + [Aborted(p.id, old(clock))] && records == DropPrepared(old(records), p.id)
                    && reqs == old(reqs) + [line] && requests == old(requests)[p.rid := EntryOf(line)])
              && (r.Err? ==> PartWay(old(ops), old(reqs), Aborted(p.id, old(clock)), [line]))
      ensures Tells(r.Ok?)
    {
      r := AbortPrepared(p.id);
      if r.Ok? {
        r := RememberError(p.rid, ConflictError(p, reason));
      }
    }

    /** Judge a marker against the workspace and the records so far; a file that cannot be read stops the start. */
    method JudgeMarker(p: Record, ws: Workspace) returns (v: Result<Verdict, ProtocolError>)
      requires p.Prepared?
      modifies `faults
      ensures v.Ok? ==> v.value == Judge(records, p, ws)
      ensures !ws.Resolves(p.path) ==> v.Ok?
      ensures faults >= old(faults) && (v.Ok? <==> faults == old(faults))
    {
      if !ws.Resolves(p.path) {
        return Ok(Conflict(UNRESOLVABLE));
      }
      var readable: bool := *;
      if !readable {
        faults := faults + 1;
        return Err(ProtocolError(IoError, "hash file"));
      }
      var current := ws.Current(p.path);
      var continued := IsContinuedFrom(p);
      if continued {
        v := Ok(Landed);
      } else if p.before.Some? && current.Some? && p.before.value == current.value {
        v := Ok(NoOp);
      } else if p.before.None? && current.None? {
        v := Ok(NoOp);
      } else if current.None? && p.after == FILE_DELETED_SENTINEL {
        v := Ok(Landed);
      } else if current.Some? && current.value == p.after {
        v := Ok(Landed);
      } else if p.before.Some? && current.None? {
        v := Ok(Conflict(ABSENT));
      } else {
        v := Ok(Conflict(MISMATCH));
      }
    }

    /** Decide one marker and record the decision. A marker that cannot be judged leaves everything as it was. */
    method SettleMarker(p: Record, ws: Workspace) returns (r: Result<Action, ProtocolError>)
      requires p.Prepared?
      modifies `ops, `records, `reqs, `requests, `torn, `faults, `clock
      ensures var v := Judge(old(records), p, ws);
              var line, reply := VerdictLine(p, v, old(clock)), AsSeq(VerdictReply(p, v, old(clock)));
              && (r.Ok? ==>
                    && r.value == VerdictAction(p, v) && clock == old(clock) + 1
                    && ops == old(ops) + [line] && records == VerdictTable(old(records), p, v, old(clock))
                    && reqs == old(reqs) + reply && requests == Remember(old(requests), reply))
              && (r.Err? ==> PartWay(old(ops), old(reqs), line, reply))
      // what the request is told of it
      ensures r.Ok? ==>
                && Reports(r.value, p.id)
                && (r.value == Dropped(p.id) ==> reqs == old(reqs) && requests == old(requests))
                && (r.value != Dropped(p.id) ==> Told(p, [r.value], ws, At(requests, p.rid)))
                && (forall rid :: rid != p.rid ==> At(requests, rid) == At(old(requests), rid))
      ensures Tells(r.Ok?)
    {
      hide Judge; hide Remember; hide Told; hide Reports; hide At;
      ghost var requests0, now := requests, clock;
      var judged := JudgeMarker(p, ws);
      if judged.Err? {
        return Err(judged.error);
      }
      var v := judged.value;
      RememberUpTo(requests, VerdictReply(p, v, clock));
      var done: Result<(), ProtocolError>;
      match v {
        case NoOp => done := AbortPrepared(p.id);
        case Landed => done := SynthesizeCommit(p);
        case Conflict(reason) => done := ResolvePreparedAsConflict(p, reason);
      }
      r := if done.Ok? then Ok(VerdictAction(p, v)) else Err(done.error);
      VerdictIsTold(old(records), p, ws, now, requests0, p.rid);
      forall rid ensures rid != p.rid || v.NoOp? ==> At(Remember(requests0, AsSeq(VerdictReply(p, v, now))), rid) == At(requests0, rid) {
        VerdictIsTold(old(records), p, ws, now, requests0, rid);
      }
    }

    /** Every marker, newest first. */
    method SettleMarkers(ws: Workspace) returns (r: Result<seq<Action>, ProtocolError>)
      modifies `ops, `records, `reqs, `requests, `torn, `faults, `clock
      ensures var s := SettleAll(old(records), Markers(old(records)), ws, old(clock));
              && (r.Ok? ==>
                    && r.value == s.actions && records == s.table && clock == s.now
                    && ops == old(ops) + s.ops && reqs == old(reqs) + s.reqs
                    && requests == Remember(old(requests), s.reqs))
              && (r.Err? ==> old(ops) <= ops <= old(ops) + s.ops && old(reqs) <= reqs <= old(reqs) + s.reqs)
      ensures !old(torn) ==> Tells(r.Ok?)
    {
      hide Told; hide At;
      hide SettleAll; hide Judge; hide VerdictReply; hide VerdictTable; hide VerdictLine; hide Remember; hide OnCourse;
      hide AsSeq; hide VerdictAction; hide Markers; hide Within;
      var ps := PendingMarkers();
      ghost var ops0, reqs0, requests0 := ops, reqs, requests;
      ghost var full := SettleAll(records, ps, ws, clock);
      ghost var doneOps: seq<Record>, doneReqs: seq<ReqLine> := [], [];
      var actions: seq<Action> := [];
      RememberNothing(requests);
      AtTheStart(full);
      for i := |ps| downto 0
        invariant ps[..|ps|] == ps
        invariant ops == ops0 + doneOps && reqs == reqs0 + doneReqs
        invariant requests == Remember(requests0, doneReqs)
        invariant !old(torn) ==> Tells(true)
        invariant OnCourse(full, doneOps, doneReqs, actions, SettleAll(records, ps[..i], ws, clock))
      {
        assert ps[..i + 1][..i] == ps[..i];
        ghost var v := Judge(records, ps[i], ws);
        ghost var line, reply := VerdictLine(ps[i], v, clock), AsSeq(VerdictReply(ps[i], v, clock));
        OneMarkerFurther(full, doneOps, doneReqs, actions, records, ps[..i + 1], ws, clock);
        WithinCourse(full, ops0, reqs0, doneOps, doneReqs, line, reply, actions + [VerdictAction(ps[i], v)],
                     SettleAll(VerdictTable(records, ps[i], v, clock), ps[..i], ws, clock + 1));
        RememberMore(requests0, doneReqs, reply);
        var done := SettleMarker(ps[i], ws);
        if done.Err? {
          WithinMeans(ops0, reqs0, ops, reqs, full);
          return Err(done.error);
        }
        doneOps, doneReqs := doneOps + [line], doneReqs + reply;
        actions := actions + [done.value];
      }
      SettledEnd(records, ws, clock);
      FarAlong(full, doneOps, doneReqs, actions, SettleAll(records, [], ws, clock));
      r := Ok(actions);
    }

    method PendingMarkers() returns (ps: seq<Record>)
      ensures ps == Markers(records)
    {
      ps := [];
      for i := 0 to |records|
        invariant ps + Markers(records[i..]) == Markers(records)
      {
        assert records[i..][1..] == records[i + 1..];
        if records[i].Prepared? {
          ps := ps + [records[i]];
        }
      }
    }

    /** The requests a crash left in progress, in whatever order the map yields them. */
    method StuckRequests() returns (stuck: seq<Stalled>)
      ensures Collects(stuck, requests)
    {
      stuck := [];
      var rest := requests.Keys;
      while rest != {}
        invariant rest <= requests.Keys
        invariant forall x :: x in stuck ==> x.rid !in rest && Stuck(requests, x.rid) && requests[x.rid].op == x.op
        invariant forall rid :: Stuck(requests, rid) && rid !in rest ==> Stalled(rid, requests[rid].op) in stuck
        invariant forall i, j :: 0 <= i < j < |stuck| ==> stuck[i].rid != stuck[j].rid
      {
        var rid :| rid in rest;
        rest := rest - {rid};
        if Stuck(requests, rid) {
          stuck := stuck + [Stalled(rid, requests[rid].op)];
        }
      }
    }

    /** Answer or forget one stuck request. */
    method ResolveRequest(x: Stalled) returns (r: Result<Action, ProtocolError>)
      modifies `reqs, `requests, `torn, `faults
      ensures var line := StuckLine(records, x.rid, x.op);
              && (r.Ok? ==>
                    && r.value == StuckAction(records, x)
                    && reqs == old(reqs) + AsSeq(line)
                    && requests == (if line.Some? then old(requests)[x.rid := EntryOf(line.value)]
                                    else old(requests) - {x.rid})
                    && Resolved(records, x.op, x.rid, At(requests, x.rid))
                    && ReportedAs(r.value, records, x.rid, At(requests, x.rid)))
              && (r.Err? ==> reqs == old(reqs) || reqs == old(reqs) + AsSeq(line))
      ensures !old(torn) ==> Tells(r.Ok?)
    {
      hide Resolved; hide ReportedAs; hide FindCommitted; hide ReconstructResult;
      StuckIsResolved(records, x.rid, x.op);
      StuckIsReported(records, x);
      var committed := FindCommittedByRequestId(x.rid);
      if committed.Some? {
        var done := RememberResult(x.rid, ReconstructResult(committed.value));
        return if done.Ok? then Ok(Synthesized(committed.value.id)) else Err(done.error);
      }
      if x.op == Some("exec") {
        var done := RememberError(x.rid, EXEC_INTERRUPTED);
        r := if done.Ok? then Ok(StuckMarkedError(x.rid)) else Err(done.error);
      } else if x.op.None? {
        var done := RememberError(x.rid, UNKNOWN_INTERRUPTED);
        r := if done.Ok? then Ok(StuckMarkedError(x.rid)) else Err(done.error);
      } else {
        requests := requests - {x.rid};
        r := Ok(ClearedStuck(x.rid));
      }
    }

    method ResolveRequests(stuck: seq<Stalled>) returns (r: Result<seq<Action>, ProtocolError>)
      modifies `reqs, `requests, `torn, `faults
      ensures var s := ResolveAll(records, old(requests), stuck);
              && (r.Ok? ==> r.value == s.actions && requests == s.requests && reqs == old(reqs) + s.lines)
              && (r.Err? ==> old(reqs) <= reqs <= old(reqs) + s.lines)
      ensures !old(torn) ==> Tells(r.Ok?)
    {
      hide StuckLine; hide StuckAction; hide ResolveAll;
      ghost var full := ResolveAll(records, requests, stuck);
      ghost var done: seq<ReqLine> := [];
      var actions: seq<Action> := [];
      assert stuck[0..] == stuck;
      for i := 0 to |stuck|
        invariant reqs == old(reqs) + done
        invariant !old(torn) ==> Tells(true)
        invariant InCourse(full, done, actions, ResolveAll(records, requests, stuck[i..]))
      {
        assert stuck[i..][1..] == stuck[i + 1..];
        ghost var line := StuckLine(records, stuck[i].rid, stuck[i].op);
        OneRequestFurther(full, done, actions, records, requests, stuck[i..]);
        var next := ResolveRequest(stuck[i]);
        if next.Err? {
          PrefixReplies(old(reqs), done, AsSeq(line), full.lines);
          return Err(next.error);
        }
        done, actions := done + AsSeq(line), actions + [next.value];
      }
      NoneStuck(records, requests);
      assert full.lines == done && full.actions == actions;
      r := Ok(actions);
    }

    /**
     Startup recovery. On success both logs and both tables are what `Fixpoint.Recover` says of
     them; on failure each log has gained a beginning of the lines it was to gain.
     */
    method Recover(ws: Workspace) returns (r: Result<seq<Action>, ProtocolError>, ghost stuck: seq<Stalled>)
      requires records == Loaded(ops) && requests == Requests(reqs)
      modifies `ops, `records, `reqs, `requests, `torn, `faults, `clock
      ensures var before := SettledRequests(old(ops), old(reqs), ws, old(clock));
              var s := Fixpoint.Recover(old(ops), old(reqs), ws, old(clock), stuck);
              && Collects(stuck, before)
              && (r.Ok? ==>
                    && r.value == s.actions && records == s.table && requests == s.requests
                    && ops == old(ops) + s.ops && reqs == old(reqs) + s.reqs)
              && (r.Err? ==> old(ops) <= ops <= old(ops) + s.ops && old(reqs) <= reqs <= old(reqs) + s.reqs)
      // what every request ends the start with
      ensures r.Ok? ==> forall rid ::
                Answered(Markers(Loaded(old(ops))), RecoverOps(old(ops), ws, old(clock)).actions, ws, records, rid,
                         At(old(requests), rid), At(requests, rid))
      ensures !old(torn) ==> Tells(r.Ok?)
    {
      hide Answered; hide Loaded; hide Requests; hide At;
      hide SettleAll; hide ResolveAll; hide Remember; hide Collects; hide Markers;
      stuck := AnyOrder(SettledRequests(ops, reqs, ws, clock));
      ghost var settled := RecoverOps(ops, ws, clock);
      var first := SettleMarkers(ws);
      if first.Err? {
        return Err(first.error), stuck;
      }
      var collected := StuckRequests();
      stuck := collected;
      var second := ResolveRequests(collected);
      r := if second.Ok? then Ok(first.value + second.value) else Err(second.error);
      if second.Ok? {
        forall rid ensures Answered(Markers(Loaded(old(ops))), settled.actions, ws, records, rid,
                                    At(old(requests), rid), At(requests, rid)) {
          EveryRequestIsAnswered(old(ops), old(reqs), ws, old(clock), stuck, rid);
        }
      }
    }

    // ---- pruning ----

    /** `retain` with a countdown of history records to drop. */
    method DropOldest(toRemove: nat)
      modifies `records
      ensures records == Retain(old(records), toRemove)
    {
      var left := toRemove;
      var kept: seq<Record> := [];
      for i := 0 to |records|
        invariant records == old(records)
        invariant kept + Retain(records[i..], left) == Retain(records, toRemove)
      {
        assert records[i..][1..] == records[i + 1..];
        if left > 0 && !records[i].Prepared? {
          left := left - 1;
        } else {
          kept := kept + [records[i]];
        }
      }
      records := kept;
    }

    method CountHistory() returns (n: nat)
      ensures n == |History(records)|
    {
      n := 0;
      for i := 0 to |records|
        invariant n + |History(records[i..])| == |History(records)|
      {
        assert records[i..][1..] == records[i + 1..];
        if !records[i].Prepared? {
          n := n + 1;
        }
      }
    }

    /** The lines a request table is written back as, in whatever order the map yields it. */
    static method RequestLines(table: map<string, Entry>) returns (lines: seq<ReqLine>)
      ensures Requests(lines) == table
    {
      lines := [];
      var rest := table.Keys;
      while rest != {}
        invariant rest <= table.Keys
        invariant Requests(lines) == map rid | rid in table && rid !in rest :: table[rid]
      {
        var rid :| rid in rest;
        LineRoundTrip(rid, table[rid]);
        RequestsAppend(lines, LineOf(rid, table[rid]));
        lines := lines + [LineOf(rid, table[rid])];
        rest := rest - {rid};
      }
    }

    /** Replace one file. */
    method ReplaceFile() returns (fate: Replacement)
      modifies `faults
      ensures faults >= old(faults) && (fate.Replaced? <==> faults == old(faults))
    {
      fate := *;
      faults := if fate.Replaced? then faults else faults + 1;
    }

    /** The three files in order, each whole or not at all. */
    method SaveTables() returns (r: Result<(), ProtocolError>)
      modifies `ops, `reqs, `counter, `faults
      ensures r.Ok? ==> counter == nextId && ops == records && Requests(reqs) == requests
      ensures r.Err? ==>
                || (counter == old(counter) && ops == old(ops) && reqs == old(reqs))
                || (counter == nextId && ops == old(ops) && reqs == old(reqs))
                || (counter == nextId && ops == records && reqs == old(reqs))
                || (counter == nextId && ops == records && Requests(reqs) == requests)
      ensures faults >= old(faults) && (r.Ok? <==> faults == old(faults))
      ensures r.Err? ==> r.error.code == IoError
    {
      hide Requests;
      var fate := ReplaceFile();
      if fate.Kept? {
        return Err(ProtocolError(IoError, "op-counter"));
      }
      counter := nextId;
      if fate.SyncFailed? {
        return Err(ProtocolError(IoError, "op-counter"));
      }
      fate := ReplaceFile();
      if fate.Kept? {
        return Err(ProtocolError(IoError, "operations.jsonl"));
      }
      ops := records;
      if fate.SyncFailed? {
        return Err(ProtocolError(IoError, "operations.jsonl"));
      }
      fate := ReplaceFile();
      if fate.Kept? {
        return Err(ProtocolError(IoError, "requests.jsonl"));
      }
      reqs := RequestLines(requests);
      if fate.SyncFailed? {
        return Err(ProtocolError(IoError, "requests.jsonl"));
      }
      r := Ok(());
    }

    /**
     Keep the newest `keep` finished operations and every marker. The tables are cut first and the
     three files follow in order, each replaced whole or not at all -- and one that was replaced may
     yet fail to be synced, which ends the prune as well.
     */
    method Prune(keep: nat) returns (r: Result<(nat, nat, nat), ProtocolError>)
      modifies `ops, `reqs, `counter, `records, `requests, `faults
      ensures records == PruneTable(old(records), keep)
      ensures requests == PruneRequests(old(requests), records)
      ensures forall rid :: rid in requests <==> rid in old(requests) && (old(requests)[rid].status.InProgress? || Refers(records, rid))
      ensures r.Ok? ==>
                && counter == nextId && ops == records && Requests(reqs) == requests
                && r.value == (|old(records)| - |records|, |old(requests)| - |requests|, |History(records)|)
      ensures r.Err? ==>
                || (counter == old(counter) && ops == old(ops) && reqs == old(reqs))
                || (counter == nextId && ops == old(ops) && reqs == old(reqs))
                || (counter == nextId && ops == records && reqs == old(reqs))
                || (counter == nextId && ops == records && Requests(reqs) == requests)
      ensures faults >= old(faults) && (r.Ok? <==> faults == old(faults))
      ensures r.Err? ==> r.error.code == IoError
    {
      hide Retain; hide History; hide PruneRequests; hide Requests; hide Markers; hide Refers;
      var prunable := CountHistory();
      var before := |records|;
      var beforeRequests := |requests|;
      PruneByKind(records, keep);
      DropOldest(if prunable > keep then prunable - keep else 0);
      RequestsThatStay(requests, records);
      requests := PruneRequests(requests, records);
      FewerRequests(old(requests), records);
      var saved := SaveTables();
      if saved.Err? {
        return Err(saved.error);
      }
      var retained := CountHistory();
      r := Ok((before - |records|, beforeRequests - |requests|, retained));
    }
  }

  /** The first slot of the id, or the end, is where the record goes. */
  lemma UpsertAt(t: seq<Record>, i: nat, r: Record)
    requires i <= |t| && !HasId(t[..i], r.id) && (i < |t| ==> t[i].id == r.id)
    ensures Upsert(t, r) == if i < |t| then t[i := r] else t + [r]
  {
    hide Upsert;
    if i < |t| {
      assert t == t[..i] + [t[i]] + t[i + 1..];
      UpsertShape(t[..i], t[i], t[i + 1..], r);
    } else {
      assert t[..i] == t;
      UpsertFresh(t, r);
    }
  }

  lemma FewerRequests(requests: map<string, Entry>, kept: seq<Record>)
    ensures |PruneRequests(requests, kept)| <= |requests|
  {
    var after := PruneRequests(requests, kept);
    assert after.Keys <= requests.Keys;
    SubsetSize(after.Keys, requests.Keys);
  }

  lemma {:induction false} SubsetSize(a: set<string>, b: set<string>)
    requires a <= b
    ensures |a| <= |b|
  {
    if a != {} {
      var x :| x in a;
      SubsetSize(a - {x}, b - {x});
    }
  }

  lemma SettledEnd(t: seq<Record>, ws: Workspace, now: nat)
    ensures SettleAll(t, [], ws, now) == Settlement(t, [], [], [], now)
  {
  }

  lemma PrefixSteps<T>(base: seq<T>, done: seq<T>, x: T, full: seq<T>)
    requires done + [x] <= full
    ensures base <= base + done <= base + full
    ensures base <= base + done + [x] <= base + full
  {
  }

  lemma PrefixReplies<T>(base: seq<T>, done: seq<T>, more: seq<T>, full: seq<T>)
    requires done + more <= full
    ensures base <= base + done <= base + full
    ensures base <= base + done + more <= base + full
  {
  }
}
