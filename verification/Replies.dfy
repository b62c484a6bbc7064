/**
 What a request is answered with: the reply a handler sends, the line it remembers, and what a
 later copy of the request is answered with from that line.
 */
module Replies {
  import opened Options
  import opened Records
  import opened Replay
  import opened Recovery

  const DEFAULT_TIMEOUT_MS: nat := 300000

  const IN_PROGRESS := ProtocolError(InvalidRequest, "request already in progress")

  /** What a known request is answered with, without executing it. */
  function Replayed(rid: string, e: Entry): Message {
    match e.result
    case Some(StoredDone(m)) => m
    case Some(StoredError(error)) => Failure(rid, error)
    case None => Failure(rid, IN_PROGRESS)
  }

  /** The faults an append to a log ends with. */
  predicate IsLogRefusal(e: ProtocolError) {
    && e.code == IoError
    && e.message in {
         "refusing to append to op log", "write op log", "fsync op log",
         "refusing to append to request log", "write request log", "fsync request log"}
  }

  // ---- commands ----

  datatype ExecOutcome = ExecOutcome(
    termination: Termination, stdout: Output, stderr: Output, durationMs: nat, drainTimedOut: bool)

  datatype ExecRequest = ExecRequest(
    argv: seq<string>, cwd: Option<string>, profile: Option<string>, timeoutMs: Option<nat>)

  /** A command that ran, or the error of one that never started. */
  type Ending = Result<ExecOutcome, ProtocolError>

  /** The record of a command that ran, or of one that never started. */
  function ExecRecord(id: nat, rid: string, q: ExecRequest, outcome: Ending, ts: nat): Record {
    match outcome
    case Ok(o) =>
      var timeout := if q.timeoutMs.Some? then q.timeoutMs.value else DEFAULT_TIMEOUT_MS;
      var killed := o.termination.TimedOut?;
      Exec(id, rid,
           ExecDetail(q.argv, q.cwd, q.profile, Some(timeout),
                      if killed then DispTimedOut else DispCompleted,
                      Some(o.termination), o.drainTimedOut, o.durationMs,
                      if killed then Some("killed after " + Decimal(timeout) + " ms timeout") else None,
                      if killed then Some(ExecFailed) else None,
                      o.stdout, o.stderr),
           ts)
    case Err(e) =>
      Exec(id, rid,
           ExecDetail(q.argv, q.cwd, q.profile, q.timeoutMs, DispRejected, None, false, 0,
                      Some(e.message), Some(e.code), EMPTY_OUTPUT, EMPTY_OUTPUT),
           ts)
  }

  /** How a record says the command ended: rejected, killed at its timeout, or completed, and nothing else of each. */
  lemma RecordSaysHowItEnded(id: nat, rid: string, q: ExecRequest, outcome: Ending, ts: nat)
    ensures var r := ExecRecord(id, rid, q, outcome, ts);
            var d := r.exec;
            && r.id == id && r.rid == rid && r.ts == ts
            && d.argv == q.argv && d.cwd == q.cwd && d.profile == q.profile
            && (d.disposition.DispRejected? <==> outcome.Err?)
            && (d.disposition.DispTimedOut? <==> outcome.Ok? && outcome.value.termination.TimedOut?)
            && (d.disposition.DispCompleted? <==> d.error.None?) && (d.error.Some? <==> d.errorCode.Some?)
            && (outcome.Ok? ==> d.termination == Some(outcome.value.termination) && d.timeoutMs.Some?)
            && (outcome.Err? ==> d.termination.None? && d.errorCode == Some(outcome.error.code) && d.timeoutMs == q.timeoutMs)
            && (d.disposition.DispTimedOut? ==> d.errorCode == Some(ExecFailed))
            && (outcome.Ok? && q.timeoutMs.None? ==> d.timeoutMs == Some(300000))
            && (outcome.Ok? && q.timeoutMs.Some? ==> d.timeoutMs == q.timeoutMs)
  {
  }

  /** The reply when nothing goes wrong with the logs. */
  function ExecReply(id: nat, rid: string, outcome: Ending): Message {
    match outcome
    case Ok(o) => Reply(rid, ExecResult(id, o.termination, o.durationMs, o.drainTimedOut, o.stdout, o.stderr))
    case Err(e) => Failure(rid, e)
  }

  /** Completed, timed out or rejected: the record stands for the reply the handler sends. */
  lemma ExecRecordStandsForReply(id: nat, rid: string, q: ExecRequest, outcome: Ending, ts: nat)
    ensures ReconstructResult(ExecRecord(id, rid, q, outcome, ts)) == ExecReply(id, rid, outcome)
  {
    if outcome.Err? {
      assert ProtocolError(outcome.error.code, outcome.error.message) == outcome.error;
    }
  }

  /** A record says a reply for a command that ran, and an error for any other, whatever log it was read from. */
  lemma ReconstructedAs(r: Record)
    requires r.Exec?
    ensures var m := ReconstructResult(r);
            && m.rid == r.rid
            && (m.Reply? <==> !r.exec.disposition.DispRejected? && r.exec.termination.Some?)
            && (r.exec.disposition.DispRejected? ==>
                  m.error.code == if r.exec.errorCode.Some? then r.exec.errorCode.value else ExecFailed)
            && (m.Failure? && !r.exec.disposition.DispRejected? ==> m.error.code == IoError)
  {
  }

  /** The line remembered for a command, given how the append of its record ended. */
  function ExecLine(id: nat, rid: string, outcome: Ending, recorded: Result<(), ProtocolError>): ReqLine {
    match outcome
    case Err(e) => ErrorLine(rid, e)
    case Ok(_) => if recorded.Err? then ErrorLine(rid, recorded.error) else DoneLine(rid, ExecReply(id, rid, outcome))
  }

  /** The reply sent, given how the appends of record and line ended. */
  function ExecSent(id: nat, rid: string, outcome: Ending,
                    recorded: Result<(), ProtocolError>, remembered: Result<(), ProtocolError>): Message {
    match outcome
    case Ok(_) =>
      if recorded.Err? then Failure(rid, recorded.error)
      else if remembered.Err? then Failure(rid, remembered.error)
      else ExecReply(id, rid, outcome)
    case Err(e) =>
      Failure(rid, if remembered.Err? then remembered.error else if recorded.Err? then recorded.error else e)
  }

  /**
   A command whose line is remembered is replayed as it was answered, except exactly when it was
   rejected, its record was refused, and the rejection is not that very refusal.
   */
  lemma ExecIsReplayedAsSent(id: nat, rid: string, outcome: Ending, recorded: Result<(), ProtocolError>)
    ensures Replayed(rid, EntryOf(ExecLine(id, rid, outcome, recorded))) == ExecSent(id, rid, outcome, recorded, Ok(()))
            <==> !(outcome.Err? && recorded.Err? && outcome.error != recorded.error)
  {
  }

  /** A command line without a program, and a log that takes no more lines: asked again, the answer differs. */
  lemma RejectionReplaysOtherwise()
    ensures var rejected: Ending := Err(ProtocolError(InvalidRequest, "argv must not be empty"));
            var refusal := ProtocolError(IoError, "write op log");
            && IsLogRefusal(refusal)
            && ExecSent(1, "r", rejected, Err(refusal), Ok(())) == Failure("r", refusal)
            && Replayed("r", EntryOf(ExecLine(1, "r", rejected, Err(refusal)))) == Failure("r", rejected.error)
            && Failure("r", refusal) != Failure("r", rejected.error)
  {
  }

  // ---- transfers ----

  const UNCLEANED := ProtocolError(IoError, "could not update the pending uploads")

  /** The line remembered for a transfer: its record, then for an upload its pending entry removed. */
  function TransferLine(id: nat, rid: string, transfer: TransferDetail, recorded: Result<(), ProtocolError>, cleaned: bool): ReqLine {
    if recorded.Err? then ErrorLine(rid, recorded.error)
    else if !cleaned then ErrorLine(rid, UNCLEANED)
    else DoneLine(rid, Reply(rid, TransferResult(id, transfer)))
  }

  /** The reply sent, given how the appends of record and line ended and whether the pending entry went. */
  function TransferSent(id: nat, rid: string, transfer: TransferDetail, recorded: Result<(), ProtocolError>, cleaned: bool,
                        remembered: Result<(), ProtocolError>): Message {
    if remembered.Err? then Failure(rid, remembered.error)
    else if recorded.Err? then Failure(rid, recorded.error)
    else if !cleaned then Failure(rid, UNCLEANED)
    else Reply(rid, TransferResult(id, transfer))
  }

  /**
   From its line a transfer is always replayed as it was answered. From its record alone, as a start
   answers it, it is so exactly when its pending entry was removed and its line remembered. A reply
   that cannot be remembered is never sent.
   */
  lemma TransferIsReplayedAsSent(id: nat, rid: string, transfer: TransferDetail, recorded: Result<(), ProtocolError>,
                                 cleaned: bool, remembered: Result<(), ProtocolError>, ts: nat)
    ensures Replayed(rid, EntryOf(TransferLine(id, rid, transfer, recorded, cleaned)))
            == TransferSent(id, rid, transfer, recorded, cleaned, Ok(()))
    ensures recorded.Ok? ==>
              (ReconstructResult(Transfer(id, rid, transfer, ts)) == TransferSent(id, rid, transfer, recorded, cleaned, remembered)
               <==> cleaned && remembered.Ok?)
    ensures remembered.Err? ==> TransferSent(id, rid, transfer, recorded, cleaned, remembered) == Failure(rid, remembered.error)
  {
  }

  /**
   An upload whose pending entry cannot be removed is answered with an error although its record is
   durable: a replay after a crash answers with the result instead.
   */
  lemma UncleanedUploadIsReplayedOtherwise(id: nat, rid: string, transfer: TransferDetail, ts: nat, error: ProtocolError)
    ensures ReconstructResult(Transfer(id, rid, transfer, ts)) != Failure(rid, error)
  {
  }
}
