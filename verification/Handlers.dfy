/**
 The request handler: claim or replay, execute, record, remember, reply. The lines it writes and the
 replies it sends are those of `Replies`, which the state machine of `CrashRuns` takes for its own.
 */
module Handlers {
  import opened Options
  import opened Records
  import opened Recovery
  import opened Replies
  import opened Effects
  import opened Pruning
  import opened Utf8
  import FsOps
  import Replace
  import Store

  // ---- exec ----

  /** Run a command and answer. `recorded` and `remembered` say how the appends of the two log lines ended. */
  method HandleExec(store: Store.OperationStore, rid: string, q: ExecRequest, outcome: Ending)
    returns (reply: Message, recorded: Result<(), ProtocolError>, remembered: Result<(), ProtocolError>)
    modifies store`ops, store`records, store`reqs, store`requests, store`nextId, store`torn, store`faults, store`clock
    ensures store.nextId == old(store.nextId) + 1
    ensures var r := ExecRecord(store.nextId, rid, q, outcome, old(store.clock));
            && store.records == (if recorded.Ok? then old(store.records) + [r] else old(store.records))
            && (store.ops == old(store.ops) + [r] || (store.ops == old(store.ops) && recorded.Err?))
    ensures var line := ExecLine(store.nextId, rid, outcome, recorded);
            && store.requests == (if remembered.Ok? then old(store.requests)[rid := EntryOf(line)] else old(store.requests))
            && (store.reqs == old(store.reqs) + [line] || (store.reqs == old(store.reqs) && remembered.Err?))
    ensures reply == ExecSent(store.nextId, rid, outcome, recorded, remembered)
    ensures (recorded.Err? ==> IsLogRefusal(recorded.error)) && (remembered.Err? ==> IsLogRefusal(remembered.error))
    ensures store.Tells(recorded.Ok? && remembered.Ok?)
  {
    var id := store.NextOperationId();
    var ts := store.Now();
    recorded := store.AppendRecord(ExecRecord(id, rid, q, outcome, ts));
    match outcome {
      case Ok(_) =>
        if recorded.Err? {
          remembered := store.RememberError(rid, recorded.error);
          reply := Failure(rid, recorded.error);
        } else {
          var body := ExecReply(id, rid, outcome);
          remembered := store.RememberResult(rid, body);
          reply := if remembered.Err? then Failure(rid, remembered.error) else body;
        }
      case Err(e) =>
        remembered := store.RememberError(rid, e);
        reply := Failure(rid, if remembered.Err? then remembered.error else if recorded.Err? then recorded.error else e);
    }
  }

  // ---- transfers ----

  /**
   The end of an upload or download: its record, then for an upload the pending entry is removed
   (`cleaned` says whether that worked; a download has none). What is remembered of it is
   `TransferLine`.
   */
  method RecordTransfer(store: Store.OperationStore, rid: string, transfer: TransferDetail, cleaned: bool)
    returns (r: Result<Body, ProtocolError>)
    modifies store`ops, store`records, store`nextId, store`torn, store`faults, store`clock
    ensures var c := Transfer(store.nextId, rid, transfer, old(store.clock));
            && store.nextId == old(store.nextId) + 1
            && (store.records == old(store.records) || store.records == old(store.records) + [c])
            && (r.Ok? <==> store.records == old(store.records) + [c] && cleaned)
            && (r.Ok? ==> Reply(rid, r.value) == ReconstructResult(c))
            && (exists recorded: Result<(), ProtocolError> ::
                  && (recorded.Ok? <==> store.records == old(store.records) + [c])
                  && (recorded.Err? ==> IsLogRefusal(recorded.error))
                  && Finished(rid, r) == TransferLine(store.nextId, rid, transfer, recorded, cleaned)
                  && ReplyTo(rid, r) == TransferSent(store.nextId, rid, transfer, recorded, cleaned, Ok(())))
            && store.Tells(store.records == old(store.records) + [c])
            && (store.ops == old(store.ops) + [c] || (store.ops == old(store.ops) && store.records == old(store.records)))
  {
    var id := store.NextOperationId();
    var ts := store.Now();
    var appended := store.AppendRecord(Transfer(id, rid, transfer, ts));
    if appended.Err? {
      r := Err(appended.error);
    } else if !cleaned {
      r := Err(UNCLEANED);
    } else {
      r := Ok(TransferResult(id, transfer));
    }
    assert Finished(rid, r) == TransferLine(id, rid, transfer, appended, cleaned)
           && ReplyTo(rid, r) == TransferSent(id, rid, transfer, appended, cleaned, Ok(()));
  }

  // ---- one request ----

  /** The line remembered for a finished request. */
  function Finished(rid: string, result: Result<Body, ProtocolError>): ReqLine {
    match result
    case Ok(body) => DoneLine(rid, Reply(rid, body))
    case Err(e) => ErrorLine(rid, e)
  }

  function ReplyTo(rid: string, result: Result<Body, ProtocolError>): Message {
    if result.Ok? then Reply(rid, result.value) else Failure(rid, result.error)
  }

  /** Remember a result and reply with it; a result that cannot be remembered is not reported. */
  method FinishRequest(store: Store.OperationStore, rid: string, result: Result<Body, ProtocolError>) returns (reply: Message)
    modifies store`reqs, store`requests, store`torn, store`faults
    ensures old(store.reqs) <= store.reqs
    ensures || (&& store.requests == old(store.requests)
                && reply.Failure? && reply.rid == rid && IsLogRefusal(reply.error)
                && store.Tells(false))
            || (&& store.requests == old(store.requests)[rid := EntryOf(Finished(rid, result))]
                && store.reqs == old(store.reqs) + [Finished(rid, result)]
                && reply == ReplyTo(rid, result)
                && Replayed(rid, store.requests[rid]) == reply
                && store.Tells(true))
  {
    if result.Ok? {
      var done := store.RememberResult(rid, Reply(rid, result.value));
      reply := if done.Ok? then Reply(rid, result.value) else Failure(rid, done.error);
    } else {
      var done := store.RememberError(rid, result.error);
      reply := if done.Ok? then Failure(rid, result.error) else Failure(rid, done.error);
    }
  }

  // ---- what each kind does ----

  method PerformCreate(store: Store.OperationStore, files: FsOps.Files, rid: string, path: string, bytes: seq<byte>)
    returns (result: Result<Body, ProtocolError>)
    requires files.HashesAreHashes()
    modifies files, store`ops, store`records, store`nextId, store`torn, store`faults, store`clock
    ensures Creates(PlaceOf(files), old(Seen(store, files)), Seen(store, files), rid, path, bytes, result, FsOps.Smooth(store, files))
    ensures FsOps.Counted(store, files)
  {
    hide FsOps.Outcome; hide OwnOnly; hide OnRecord;
    ghost var a := Seen(store, files);
    ghost var p, landed;
    result, p, landed := FsOps.HandleCreate(store, files, rid, path, bytes);
    Owned(a, Seen(store, files), p, landed, result);
    assert result.Ok? ==> ReconstructResult(CommitOf(p, 0)) == Reply(rid, result.value);
  }

  method PerformDelete(store: Store.OperationStore, files: FsOps.Files, rid: string, path: string)
    returns (result: Result<Body, ProtocolError>)
    requires files.HashesAreHashes()
    modifies files, store`ops, store`records, store`nextId, store`torn, store`faults, store`clock
    ensures Deletes(PlaceOf(files), old(Seen(store, files)), Seen(store, files), rid, path, result, FsOps.Smooth(store, files))
    ensures FsOps.Counted(store, files)
  {
    hide FsOps.Outcome; hide OwnOnly; hide OnRecord;
    ghost var a := Seen(store, files);
    ghost var p, landed;
    result, p, landed := FsOps.HandleDelete(store, files, rid, path);
    Owned(a, Seen(store, files), p, landed, result);
    assert result.Ok? ==> ReconstructResult(CommitOf(p, 0)) == Reply(rid, result.value);
  }

  method PerformEdit(store: Store.OperationStore, files: FsOps.Files, rid: string, path: string, base: string,
                     edits: seq<Replace.EditSpec>)
    returns (result: Result<Body, ProtocolError>)
    requires files.HashesAreHashes()
    modifies files, store`ops, store`records, store`nextId, store`torn, store`faults, store`clock
    ensures Edits(PlaceOf(files), old(Seen(store, files)), Seen(store, files), rid, path, base, edits, result,
                  FsOps.Smooth(store, files))
    ensures FsOps.Counted(store, files)
  {
    hide FsOps.Outcome; hide FsOps.Wanted; hide Replace.EditedByParts; hide Replace.BadArguments; hide OwnOnly; hide OnRecord;
    ghost var a := Seen(store, files);
    ghost var p, landed;
    ghost var held := files.Bytes(path);
    result, p, landed := FsOps.HandleEdit(store, files, rid, path, base, edits);
    assert held == Held(PlaceOf(files), a, path);
    Owned(a, Seen(store, files), p, landed, result);
    assert result.Ok? ==> ReconstructResult(CommitOf(p, 0)) == Reply(rid, result.value);
  }

  method PerformTransfer(store: Store.OperationStore, files: FsOps.Files, rid: string, transfer: TransferDetail, cleaned: bool)
    returns (result: Result<Body, ProtocolError>)
    modifies store`ops, store`records, store`nextId, store`torn, store`faults, store`clock
    ensures Transfers(old(Seen(store, files)), Seen(store, files), rid, transfer, cleaned, result, FsOps.Smooth(store, files))
    ensures FsOps.Counted(store, files)
  {
    result := RecordTransfer(store, rid, transfer, cleaned);
    ghost var r := Transfer(store.nextId, rid, transfer, old(store.clock));
    assert Adds(old(Seen(store, files)), Seen(store, files), r);
  }

  method PerformGc(store: Store.OperationStore, files: FsOps.Files, keep: nat) returns (result: Result<Body, ProtocolError>)
    modifies store`ops, store`reqs, store`counter, store`records, store`requests, store`faults
    ensures Prunes(old(Seen(store, files)), Seen(store, files), keep, |old(store.requests)| - |store.requests|, result,
                   FsOps.Smooth(store, files))
    ensures store.requests == PruneRequests(old(store.requests), store.records)
    ensures FsOps.Counted(store, files)
  {
    hide PruneTable; hide Newest; hide History; hide PruneRequests;
    PruneSelectsNewest(store.records, keep);
    var pruned := store.Prune(keep);
    result := if pruned.Err? then Err(pruned.error)
              else Ok(GcResult(pruned.value.0, pruned.value.1, pruned.value.2));
  }

  // ---- one request ----

  datatype Request =
    | CreateFile(path: string, bytes: seq<byte>)
    | EditFile(path: string, base: string, edits: seq<Replace.EditSpec>)
    | DeleteFile(path: string)
    | RunCommand(exec: ExecRequest, outcome: Ending)
    | DownloadRecord(transfer: TransferDetail)
    | UploadCommit(transfer: TransferDetail, cleaned: bool)
    | Gc(keep: nat)

  function OpKind(q: Request): string {
    match q
    case CreateFile(_, _) => "create"
    case EditFile(_, _, _) => "edit"
    case DeleteFile(_) => "delete"
    case RunCommand(_, _) => "exec"
    case DownloadRecord(_) => "download_record"
    case UploadCommit(_, _) => "upload_commit"
    case Gc(_) => "gc"
  }

  /**
   What is claimed for a request lets a start tell it from a command: one without a record can be
   asked again exactly if it is none.
   */
  lemma AskedAgainUnlessCommand(t: seq<Record>, rid: string, q: Request)
    requires forall r :: r in t && r.Committed() ==> r.rid != rid
    ensures StuckEntry(t, rid, Some(OpKind(q))).None? <==> !q.RunCommand?
  {
    assert FindCommitted(t, rid).None?;
    assert OpKind(q)[0] == 'e' && OpKind(q)[1] == 'x' <==> q.RunCommand?;
  }

  /**
   What a request did, by its kind. `forgotten` is how many requests the table lost, and `smooth`
   whether nothing failed on the way.
   */
  ghost predicate Does(place: Place, a: View, b: View, rid: string, q: Request, forgotten: int,
                       result: Result<Body, ProtocolError>, smooth: bool) {
    match q
    case CreateFile(path, bytes) => Creates(place, a, b, rid, path, bytes, result, smooth)
    case EditFile(path, base, edits) => Edits(place, a, b, rid, path, base, edits, result, smooth)
    case DeleteFile(path) => Deletes(place, a, b, rid, path, result, smooth)
    case RunCommand(exec, outcome) => Runs(a, b, rid, exec, outcome, result, smooth)
    case DownloadRecord(transfer) => Transfers(a, b, rid, transfer, true, result, smooth)
    case UploadCommit(transfer, cleaned) => Transfers(a, b, rid, transfer, cleaned, result, smooth)
    case Gc(keep) => Prunes(a, b, keep, forgotten, result, smooth)
  }

  /** Do what the request asks for; all but commands end in `FinishRequest`. */
  method Execute(store: Store.OperationStore, files: FsOps.Files, rid: string, q: Request) returns (result: Result<Body, ProtocolError>)
    requires files.HashesAreHashes() && !q.RunCommand?
    modifies files, store
    ensures Does(PlaceOf(files), old(Seen(store, files)), Seen(store, files), rid, q,
                 |old(store.requests)| - |store.requests|, result, FsOps.Smooth(store, files))
    ensures FsOps.Counted(store, files)
    ensures store.requests == if q.Gc? then PruneRequests(old(store.requests), store.records) else old(store.requests)
    ensures !q.Gc? ==> store.reqs == old(store.reqs)
  {
    hide Creates; hide Edits; hide Deletes; hide Transfers; hide Prunes; hide PruneRequests;
    match q
    case CreateFile(path, bytes) => result := PerformCreate(store, files, rid, path, bytes);
    case EditFile(path, base, edits) => result := PerformEdit(store, files, rid, path, base, edits);
    case DeleteFile(path) => result := PerformDelete(store, files, rid, path);
    case DownloadRecord(transfer) => result := PerformTransfer(store, files, rid, transfer, true);
    case UploadCommit(transfer, cleaned) => result := PerformTransfer(store, files, rid, transfer, cleaned);
    case Gc(keep) => result := PerformGc(store, files, keep);
  }

  /** A command that never started. */
  predicate Rejected(q: Request) {
    q.RunCommand? && q.outcome.Err?
  }

  /** What a command ended with, as any other result. */
  function Ended(id: nat, outcome: Ending): Result<Body, ProtocolError> {
    match outcome
    case Ok(o) => Ok(ExecResult(id, o.termination, o.durationMs, o.drainTimedOut, o.stdout, o.stderr))
    case Err(e) => Err(e)
  }

  /** Run a command whose request is claimed. */
  method PerformExec(store: Store.OperationStore, files: FsOps.Files, rid: string, q: Request)
    returns (reply: Message, ghost result: Result<Body, ProtocolError>, ghost smooth: bool)
    requires q.RunCommand? && rid in store.requests && store.requests[rid].result.None?
    modifies store`ops, store`records, store`reqs, store`requests, store`nextId, store`torn, store`faults, store`clock
    ensures Does(PlaceOf(files), old(Seen(store, files)), Seen(store, files), rid, q,
                 |old(store.requests)| - |store.requests|, result, smooth)
    ensures FsOps.Counted(store, files) && (FsOps.Smooth(store, files) ==> smooth && reply == ReplyTo(rid, result))
    ensures !q.Gc? ==> old(store.reqs) <= store.reqs
    ensures reply == ReplyTo(rid, result) || (reply.Failure? && reply.rid == rid && IsLogRefusal(reply.error))
    ensures rid in store.requests && store.requests[rid].result.Some? ==>
              (Rejected(q) && IsLogRefusal(q.outcome.error)) ||
              (Replayed(rid, store.requests[rid]) == reply <==> !(Rejected(q) && store.records == old(store.records)))
  {
    ghost var a := Seen(store, files);
    var recorded, remembered;
    reply, recorded, remembered := HandleExec(store, rid, q.exec, q.outcome);
    ExecIsReplayedAsSent(store.nextId, rid, q.outcome, recorded);
    result, smooth := Ended(store.nextId, q.outcome), recorded.Ok?;
    ghost var r := ExecRecord(store.nextId, rid, q.exec, q.outcome, old(store.clock));
    RecordSaysHowItEnded(store.nextId, rid, q.exec, q.outcome, old(store.clock));
    assert Adds(a, Seen(store, files), r);
  }

  /** Do anything else a claimed request asks for, and finish it. */
  method PerformOther(store: Store.OperationStore, files: FsOps.Files, rid: string, q: Request)
    returns (reply: Message, ghost result: Result<Body, ProtocolError>, ghost smooth: bool)
    requires files.HashesAreHashes() && !q.RunCommand?
    requires rid in store.requests && store.requests[rid].result.None? && store.requests[rid].status.InProgress?
    modifies files, store
    ensures Does(PlaceOf(files), old(Seen(store, files)), Seen(store, files), rid, q,
                 |old(store.requests)| - |store.requests|, result, smooth)
    ensures FsOps.Counted(store, files) && (FsOps.Smooth(store, files) ==> smooth && reply == ReplyTo(rid, result))
    ensures !q.Gc? ==> old(store.reqs) <= store.reqs
    ensures reply == ReplyTo(rid, result) || (reply.Failure? && reply.rid == rid && IsLogRefusal(reply.error))
    ensures rid in store.requests && store.requests[rid].result.Some? ==> Replayed(rid, store.requests[rid]) == reply
  {
    hide Does; hide IsLogRefusal; hide RetainedRequests;
    ghost var a, requests := Seen(store, files), store.requests;
    var executed := Execute(store, files, rid, q);
    result, smooth := executed, FsOps.Smooth(store, files);
    ghost var b := Seen(store, files);
    assert rid in store.requests && store.requests[rid].result.None?;
    ghost var forgotten := |requests| - |store.requests|;
    reply := FinishRequest(store, rid, executed);
    assert Seen(store, files) == b && |requests| - |store.requests| == forgotten;
  }

  /** What became of a new request: its id could not be claimed, or it was executed. */
  datatype Course = Unclaimed | Executed(result: Result<Body, ProtocolError>, smooth: bool)

  /**
   Claim the request or replay it. A known request touches nothing and is answered from the table.
   A new one does what its kind says and is answered with its result, unless the log takes no line
   for it. What it leaves behind is what every later copy of it is answered with -- unless it is a
   rejected command whose record the log refused, and then never.
   */
  method Handle(store: Store.OperationStore, files: FsOps.Files, rid: string, q: Request)
    returns (reply: Message, ghost course: Course)
    requires files.HashesAreHashes()
    modifies files, store
    ensures rid in old(store.requests) ==>
              && Seen(store, files) == old(Seen(store, files))
              && store.reqs == old(store.reqs) && store.requests == old(store.requests)
              && reply == Replayed(rid, old(store.requests)[rid])
              && match old(store.requests)[rid].result
                 case None => reply.Failure? && reply.rid == rid && reply.error.code == InvalidRequest
                 case Some(StoredDone(m)) => reply == m
                 case Some(StoredError(error)) => reply == Failure(rid, error)
    ensures rid !in old(store.requests) ==>
              && (FsOps.Smooth(store, files) ==> course.Executed? && course.smooth && reply == ReplyTo(rid, course.result))
              && match course
                 case Unclaimed =>
                   && Seen(store, files) == old(Seen(store, files)) && store.requests == old(store.requests)
                   && reply.Failure? && reply.rid == rid && IsLogRefusal(reply.error)
                 case Executed(result, smooth) =>
                   && Does(PlaceOf(files), old(Seen(store, files)), Seen(store, files), rid, q,
                           |old(store.requests)| + 1 - |store.requests|, result, smooth)
                   && (reply == ReplyTo(rid, result) || (reply.Failure? && reply.rid == rid && IsLogRefusal(reply.error)))
                   && (!q.Gc? ==> old(store.reqs) + [ClaimLine(rid, OpKind(q))] <= store.reqs)
    ensures rid in store.requests && store.requests[rid].result.Some? && rid !in old(store.requests) ==>
              (Rejected(q) && IsLogRefusal(q.outcome.error)) ||
              (Replayed(rid, store.requests[rid]) == reply <==> !(Rejected(q) && store.records == old(store.records)))
  {
    hide Does; hide IsLogRefusal; hide Replayed;
    course := Unclaimed;
    ghost var a, requests := Seen(store, files), store.requests;
    var claim := store.ClaimRequest(rid, OpKind(q));
    match claim {
      case Err(e) => return Failure(rid, e), course;
      case Ok(Some(entry)) =>
        ReplayedFrom(rid, entry);
        return Replayed(rid, entry), course;
      case Ok(None) =>
    }
    assert Seen(store, files) == a && |store.requests| == |requests| + 1;
    ghost var result, smooth;
    if q.RunCommand? {
      reply, result, smooth := PerformExec(store, files, rid, q);
    } else {
      reply, result, smooth := PerformOther(store, files, rid, q);
    }
    course := Executed(result, smooth);
  }

  lemma ReplayedFrom(rid: string, e: Entry)
    ensures match e.result
            case None => exists error :: Replayed(rid, e) == Failure(rid, error) && error.code == InvalidRequest
            case Some(StoredDone(m)) => Replayed(rid, e) == m
            case Some(StoredError(error)) => Replayed(rid, e) == Failure(rid, error)
  {
  }
}
