/**
 The data the operation store keeps: operation records, write-ahead markers, request entries
 and the messages a request is answered with.

 An operation id `op-n` is represented by its number `n`.
 */
module Records {
  import opened Options

  /** `expected_after_hash` of a mutation that leaves no file behind. */
  const FILE_DELETED_SENTINEL := "sha256:"

  datatype OperationKind = Create | Edit | Delete | Write | Patch | Undo

  datatype ErrorCode =
    | InvalidRequest | UnknownOperation | PathOutsideRoot | NotFound | NotAFile | NotADirectory
    | IsADirectory | InvalidHash | StaleFile | IoError | ExecFailed | OperationNotFound
    | RequestNotFound | PatchFailed | UndoConflict | AlreadyExists | NoMatch | AmbiguousMatch

  datatype ProtocolError = ProtocolError(code: ErrorCode, message: string)

  datatype Termination = Exited(code: int) | TimedOut | Signaled(signal: int)

  datatype Disposition = DispCompleted | DispTimedOut | DispRejected

  datatype Output = Output(prefix: string, suffix: string, totalBytes: nat, omittedBytes: nat)

  const EMPTY_OUTPUT := Output("", "", 0, 0)

  datatype ExecDetail = ExecDetail(
    argv: seq<string>,
    cwd: Option<string>,
    profile: Option<string>,
    timeoutMs: Option<nat>,
    disposition: Disposition,
    termination: Option<Termination>,
    drainTimedOut: bool,
    durationMs: nat,
    error: Option<string>,
    errorCode: Option<ErrorCode>,
    stdout: Output,
    stderr: Output)

  datatype Direction = Upload | Download

  datatype TransferDetail = TransferDetail(
    direction: Direction, path: string, size: nat, sha256: string, durationMs: nat)

  datatype Record =
    | Fs(id: nat, rid: string, kind: OperationKind, path: string, before: Option<string>, after: string, ts: nat)
    | Exec(id: nat, rid: string, exec: ExecDetail, ts: nat)
    | Transfer(id: nat, rid: string, transfer: TransferDetail, ts: nat)
    | Prepared(id: nat, rid: string, kind: OperationKind, path: string, before: Option<string>, after: string, ts: nat)
    | Aborted(id: nat, ts: nat)
  {
    /** True for client-facing records only, not for write-ahead markers. */
    predicate Committed() {
      Fs? || Exec? || Transfer?
    }

    /** A file mutation, finished or still in flight. */
    predicate Mutation() {
      Fs? || Prepared?
    }

    function RequestId(): Option<string> {
      if Aborted? then None else Some(rid)
    }
  }

  /** The committed record that supersedes marker `p`. */
  function CommitOf(p: Record, ts: nat): Record
    requires p.Prepared?
  {
    Fs(p.id, p.rid, p.kind, p.path, p.before, p.after, ts)
  }

  /** What a file hash looks like once the mutation that expects `after` took effect. */
  function AfterState(after: string): Option<string> {
    if after == FILE_DELETED_SENTINEL then None else Some(after)
  }

  // ---- messages ----

  datatype Body =
    | Mutation(opId: nat, oldHash: Option<string>, newHash: string)
    | ExecResult(opId: nat, termination: Termination, durationMs: nat, drainTimedOut: bool,
                 stdout: Output, stderr: Output)
    | TransferResult(opId: nat, transfer: TransferDetail)
    | GcResult(removedOperations: nat, removedRequests: nat, retainedOperations: nat)

  datatype Message = Reply(rid: string, body: Body) | Failure(rid: string, error: ProtocolError)

  // ---- the request table ----

  datatype Status = InProgress | Done | Error

  datatype StoredResult = StoredDone(msg: Message) | StoredError(error: ProtocolError)

  datatype Entry = Entry(status: Status, result: Option<StoredResult>, op: Option<string>)

  /** One line of requests.jsonl. */
  datatype ReqLine = ReqLine(
    rid: string,
    status: Status,
    resultDone: Option<Message>,
    resultError: Option<ProtocolError>,
    op: Option<string>)

  function ClaimLine(rid: string, op: string): ReqLine {
    ReqLine(rid, InProgress, None, None, Some(op))
  }

  function ClaimEntry(op: string): Entry {
    Entry(InProgress, None, Some(op))
  }

  function DoneLine(rid: string, msg: Message): ReqLine {
    ReqLine(rid, Done, Some(msg), None, None)
  }

  function DoneEntry(msg: Message): Entry {
    Entry(Done, Some(StoredDone(msg)), None)
  }

  function ErrorLine(rid: string, err: ProtocolError): ReqLine {
    ReqLine(rid, Error, None, Some(err), None)
  }

  function ErrorEntry(err: ProtocolError): Entry {
    Entry(Error, Some(StoredError(err)), None)
  }

  /** The table entry a loaded line becomes. */
  function EntryOf(line: ReqLine): Entry {
    var result := match (line.resultDone, line.resultError)
      case (Some(m), None) => Some(StoredDone(m))
      case (None, Some(e)) => Some(StoredError(e))
      case _ => None;
    Entry(line.status, result, line.op)
  }

  /** The line pruning writes back for a table entry. */
  function LineOf(rid: string, e: Entry): ReqLine {
    match e.result
    case None => ReqLine(rid, e.status, None, None, e.op)
    case Some(StoredDone(m)) => ReqLine(rid, e.status, Some(m), None, e.op)
    case Some(StoredError(err)) => ReqLine(rid, e.status, None, Some(err), e.op)
  }
}
