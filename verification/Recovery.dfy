/**
 What startup recovery decides: for every write-ahead marker whether its mutation landed,
 and for every request stuck in progress what it is answered with.
 */
module Recovery {
  import opened Options
  import opened Records
  import opened Replay

  /**
   The workspace as recovery sees it. `spelling` maps a client path to the file it names and is
   undefined on paths that no longer resolve; `files` gives the hash of every file present.
   */
  datatype Workspace = Workspace(spelling: map<string, string>, files: map<string, string>) {
    predicate Resolves(path: string) {
      path in spelling
    }

    /** `hash_file` of the file a path names; `None` when it is absent. */
    function Current(path: string): Option<string> {
      if Resolves(path) && spelling[path] in files then Some(files[spelling[path]]) else None
    }

    /** The workspace once a file holds `state`. */
    function Put(file: string, state: Option<string>): Workspace {
      if state.None? then Workspace(spelling, files - {file}) else Workspace(spelling, files[file := state.value])
    }

    /** The workspace once `path` holds `state`. */
    function Install(path: string, state: Option<string>): Workspace {
      if Resolves(path) then Put(spelling[path], state) else this
    }
  }

  // ---- one marker ----

  /** `later` started from the state `p` was to leave. */
  predicate StartsFrom(later: Record, p: Record)
    requires later.Mutation() && p.Prepared?
  {
    match later.before
    case Some(before) => before == p.after
    case None => p.after == FILE_DELETED_SENTINEL
  }

  /** Where `id` is in the table, or its length. */
  function Position(t: seq<Record>, id: nat): (at: nat)
    ensures at <= |t|
    ensures at < |t| ==> t[at].id == id
    ensures forall i :: 0 <= i < at ==> t[i].id != id
  {
    if t == [] then 0
    else if t[0].id == id then 0
    else
      assert forall i :: 0 < i < |t| ==> t[i] == t[1..][i - 1];
      1 + Position(t[1..], id)
  }

  /** A later record of the same path that continued from `p`. */
  predicate Continues(later: Record, p: Record)
    requires p.Prepared?
  {
    later.Fs? && later.path == p.path && StartsFrom(later, p)
  }

  predicate ContinuedFrom(t: seq<Record>, p: Record)
    requires p.Prepared?
  {
    exists i :: Position(t, p.id) < i < |t| && Continues(t[i], p)
  }

  datatype Verdict = NoOp | Landed | Conflict(reason: string)

  const UNRESOLVABLE := "recovery conflict"
  const ABSENT := "file expected to exist after mutation but is absent"
  const MISMATCH := "file hash matches neither before nor expected-after"

  /** What one marker is decided to have been, against the table as recovery has left it so far. */
  function Judge(t: seq<Record>, p: Record, ws: Workspace): Verdict
    requires p.Prepared?
  {
    if !ws.Resolves(p.path) then Conflict(UNRESOLVABLE)
    else
      var current := ws.Current(p.path);
      if ContinuedFrom(t, p) then Landed
      else if p.before == current then NoOp
      else if current.None? && p.after == FILE_DELETED_SENTINEL then Landed
      else if current.Some? && current.value == p.after then Landed
      else if p.before.Some? && current.None? then Conflict(ABSENT)
      else Conflict(MISMATCH)
  }

  function ConflictError(p: Record, reason: string): ProtocolError
    requires p.Prepared?
  {
    ProtocolError(StaleFile,
                  "startup recovery could not reconcile operation op-" + Decimal(p.id) + ": " + reason)
  }

  /** The reply a committed record stands for. */
  function ReconstructResult(r: Record): Message
    requires r.Committed()
  {
    match r
    case Fs(id, rid, _, _, before, after, _) => Reply(rid, Body.Mutation(id, before, after))
    case Transfer(id, rid, transfer, _) => Reply(rid, TransferResult(id, transfer))
    case Exec(id, rid, e, _) =>
      match e.disposition
      case DispRejected =>
        var code := if e.errorCode.Some? then e.errorCode.value else ExecFailed;
        var text := if e.error.Some? then e.error.value
                    else "exec was rejected at time of crash; retry with a new request_id";
        Failure(rid, ProtocolError(code, text))
      case _ =>
        match e.termination
        case Some(termination) =>
          Reply(rid, ExecResult(id, termination, e.durationMs, e.drainTimedOut, e.stdout, e.stderr))
        case None =>
          Failure(rid, ProtocolError(IoError, "corrupt exec record: completed operation has no termination"))
  }

  /** The line the operations log gets for a decided marker. */
  function VerdictLine(p: Record, v: Verdict, now: nat): Record
    requires p.Prepared?
  {
    if v.Landed? then CommitOf(p, now) else Aborted(p.id, now)
  }

  /** The line the request log gets, if any. */
  function VerdictReply(p: Record, v: Verdict, now: nat): Option<ReqLine>
    requires p.Prepared?
  {
    match v
    case NoOp => None
    case Landed => Some(DoneLine(p.rid, ReconstructResult(CommitOf(p, now))))
    case Conflict(reason) => Some(ErrorLine(p.rid, ConflictError(p, reason)))
  }

  /** The table once a marker is decided. */
  function VerdictTable(t: seq<Record>, p: Record, v: Verdict, now: nat): seq<Record>
    requires p.Prepared?
  {
    if v.Landed? then Upsert(t, CommitOf(p, now)) else DropPrepared(t, p.id)
  }

  // ---- all markers, newest first ----

  /** The pending markers of the table, in table order. */
  function Markers(t: seq<Record>): (ps: seq<Record>)
    ensures forall p :: p in ps <==> p in t && p.Prepared?
  {
    if t == [] then []
    else
      var rest := Markers(t[1..]);
      assert t == [t[0]] + t[1..];
      if t[0].Prepared? then [t[0]] + rest else rest
  }

  datatype Action = Dropped(id: nat) | Synthesized(id: nat) | Conflicted(id: nat)
                  | ClearedStuck(rid: string) | StuckMarkedError(rid: string)

  function VerdictAction(p: Record, v: Verdict): Action
    requires p.Prepared?
  {
    match v
    case NoOp => Dropped(p.id)
    case Landed => Synthesized(p.id)
    case Conflict(_) => Conflicted(p.id)
  }

  /** Everything deciding a list of markers does: the final table, the lines appended, the report. */
  datatype Settlement = Settlement(
    table: seq<Record>, ops: seq<Record>, reqs: seq<ReqLine>, actions: seq<Action>, now: nat)

  function AsSeq<T>(o: Option<T>): seq<T> {
    if o.Some? then [o.value] else []
  }

  /** Deciding the markers `ps`, the last of `ps` first. */
  function SettleAll(t: seq<Record>, ps: seq<Record>, ws: Workspace, now: nat): Settlement
    requires forall p :: p in ps ==> p.Prepared?
    decreases |ps|
  {
    if ps == [] then Settlement(t, [], [], [], now)
    else
      var p := ps[|ps| - 1];
      var v := Judge(t, p, ws);
      var rest := SettleAll(VerdictTable(t, p, v, now), ps[..|ps| - 1], ws, now + 1);
      Settlement(
        rest.table,
        [VerdictLine(p, v, now)] + rest.ops,
        AsSeq(VerdictReply(p, v, now)) + rest.reqs,
        [VerdictAction(p, v)] + rest.actions,
        rest.now)
  }

  // ---- requests stuck in progress ----

  predicate Answers(r: Record, rid: string) {
    r.Committed() && r.rid == rid
  }

  /** The record at `i` is the request's, and none before it is. */
  predicate IsFirst(t: seq<Record>, rid: string, i: nat)
    requires i < |t|
  {
    Answers(t[i], rid) && forall j :: 0 <= j < i ==> !Answers(t[j], rid)
  }

  /** The first committed record of a request. */
  function FindCommitted(t: seq<Record>, rid: string): (found: Option<Record>)
    ensures found.Some? ==>
              exists i :: 0 <= i < |t| && t[i] == found.value && IsFirst(t, rid, i)
    ensures found.Some? ==> found.value in t && found.value.Committed() && found.value.rid == rid
    ensures found.None? ==> forall r :: r in t && r.Committed() ==> r.rid != rid
  {
    if t == [] then None
    else
      assert t == [t[0]] + t[1..];
      if Answers(t[0], rid) then
        assert IsFirst(t, rid, 0);
        Some(t[0])
      else
        var rest := FindCommitted(t[1..], rid);
        FirstOfRest(t, rid, rest);
        rest
  }

  lemma FirstOfRest(t: seq<Record>, rid: string, found: Option<Record>)
    requires t != [] && !Answers(t[0], rid)
    requires found.Some? ==> exists i :: 0 <= i < |t[1..]| && t[1..][i] == found.value && IsFirst(t[1..], rid, i)
    ensures found.Some? ==> exists i :: 0 <= i < |t| && t[i] == found.value && IsFirst(t, rid, i)
  {
    if found.Some? {
      var i :| 0 <= i < |t[1..]| && t[1..][i] == found.value && IsFirst(t[1..], rid, i);
      assert t[i + 1] == found.value;
      forall j | 0 <= j < i + 1 ensures !Answers(t[j], rid) {
        assert j > 0 ==> t[j] == t[1..][j - 1];
      }
      assert IsFirst(t, rid, i + 1);
    }
  }

  predicate Stuck(requests: map<string, Entry>, rid: string) {
    rid in requests && requests[rid].status.InProgress? && requests[rid].result.None?
  }

  const EXEC_INTERRUPTED := ProtocolError(ExecFailed, "exec in progress at time of crash; retry with a new request_id")
  const UNKNOWN_INTERRUPTED := ProtocolError(
    InvalidRequest,
    "request was in progress at time of crash and request type is unknown; retry with a new request_id")

  /** The terminal line a stuck request gets; `None` forgets the request so it can be retried. */
  function StuckLine(t: seq<Record>, rid: string, op: Option<string>): Option<ReqLine> {
    match FindCommitted(t, rid)
    case Some(r) => Some(DoneLine(rid, ReconstructResult(r)))
    case None =>
      if op == Some("exec") then Some(ErrorLine(rid, EXEC_INTERRUPTED))
      else if op.None? then Some(ErrorLine(rid, UNKNOWN_INTERRUPTED))
      else None
  }

  /** The entry a stuck request ends with, if it keeps one. */
  function StuckEntry(t: seq<Record>, rid: string, op: Option<string>): Option<Entry> {
    match StuckLine(t, rid, op)
    case Some(line) => Some(EntryOf(line))
    case None => None
  }
}
