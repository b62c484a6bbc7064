/**
 The server as a state machine over its durable steps: claims, the write-ahead protocol, exec,
 transfers, answers, pruning, another writer, a crash anywhere, and startup recovery one append at
 a time.

 An append reaches the log whole or not at all (`TornLog` shows why that is so for bytes), and one
 that did may still be reported as failed, when its sync fails: the log then knows more than memory.
 */
module CrashRuns {
  import opened Options
  import opened Records
  import opened Replay
  import opened Recovery
  import opened WriteAhead
  import opened Pruning
  import opened Replies

  /** What became of an append: nothing in the log, a line and the word that it is there, or a line and an error. */
  datatype Fate = Refused | Logged | Unsynced

  /** How far the handler that owns a request has come. */
  datatype Task =
    | Claimed(op: string)
    | Mutating
    | Running(id: nat)
    | Answering(line: ReqLine)

  type Marker = r: Record | r.Prepared? witness Prepared(0, "", Create, "", None, "", 0)

  /**
   What a crash loses. `guard` is the marker of the mutation holding the write lock. `unseen` is
   history: the markers which the table, cut by a prune that did not get to the log, has nothing left
   to vouch for.
   */
  datatype Memory = Memory(
    table: seq<Record>, requests: map<string, Entry>, nextId: nat,
    serving: bool, guard: Option<Marker>, tasks: map<string, Task>, unseen: set<nat>)

  /** What prunes have dropped: the requests whose entry or some record is gone, and the ids of the records. */
  datatype Pruned = Pruned(requests: set<string>, records: set<nat>)

  /**
   `h`, `started`, `promised` and `pruned` are history: no step of the server reads them. `started`
   lists the requests whose command was started; `promised` gives the reply the handler of a request
   is to send, from the moment its effect is on record, unless a prune had dropped something of it.
   */
  datatype State = State(
    ops: seq<Record>, reqs: seq<ReqLine>, counter: nat,
    memory: Option<Memory>, ws: Workspace, now: nat,
    h: History, started: seq<string>, promised: map<string, Message>, pruned: Pruned)

  /** The id high-water mark a start reads back. */
  function HighWater(counter: nat, ops: seq<Record>): (top: nat)
    ensures counter <= top
    ensures forall r :: r in ops ==> r.id <= top
  {
    if ops == [] then counter
    else
      var r := ops[|ops| - 1];
      var rest := HighWater(counter, ops[..|ops| - 1]);
      assert ops == ops[..|ops| - 1] + [r];
      if r.id > rest then r.id else rest
  }

  function Init(ws: Workspace): State {
    State([], [], 0, None, ws, 0, History({}, {}, {}), [], map[], Pruned({}, {}))
  }

  datatype Step =
    | Claim(rid: string, op: string, io: Fate)
    | Refuse(rid: string, error: ProtocolError)
    | Prepare(rid: string, path: string, after: string, io: Fate, undo: Fate)
    | Install
    | Withdraw(error: ProtocolError, io: Fate)
    | Commit(synced: bool)
    | Leave(error: ProtocolError)
    | BeginExec(rid: string, spawned: bool)
    | RecordExec(rid: string, q: ExecRequest, outcome: Ending, io: Fate, refusal: ProtocolError)
    | RecordTransfer(rid: string, transfer: TransferDetail, cleaned: bool, io: Fate, refusal: ProtocolError)
    | Answer(rid: string, io: Fate)
    | Gc(keep: nat, lines: seq<ReqLine>, replaced: nat)
    | Meddle(file: string, state: Option<string>)
    | Crash
    | Restart
    | Settle(appends: nat)
    | ResolveStuck(rid: string, io: Fate)
    | Serve

  predicate Serving(s: State) {
    s.memory.Some? && s.memory.value.serving
  }

  predicate Recovering(s: State) {
    s.memory.Some? && !s.memory.value.serving
  }

  predicate HasTask(s: State, rid: string) {
    Serving(s) && rid in s.memory.value.tasks
  }

  /** A mutation holds the write lock. */
  predicate Guarded(s: State) {
    Serving(s) && s.memory.value.guard.Some?
  }

  /** The mutation an fs request asks for, given what the file holds. */
  predicate Asks(op: string, before: Option<string>, after: string) {
    || (op == "create" && before.None? && after != FILE_DELETED_SENTINEL)
    || (op == "edit" && before.Some? && after != FILE_DELETED_SENTINEL && before.value != after)
    || (op == "delete" && before.Some? && after == FILE_DELETED_SENTINEL)
  }

  function KindOf(op: string): OperationKind {
    if op == "create" then Create else if op == "edit" then Edit else Delete
  }

  predicate Terminal(line: ReqLine) {
    !line.status.InProgress?
  }

  /** The newest marker still to be decided. */
  function Newest(t: seq<Record>): Record
    requires Markers(t) != []
  {
    Markers(t)[|Markers(t)| - 1]
  }

  /** A start that has nothing left to decide. */
  ghost predicate Recovered(s: State) {
    && Recovering(s)
    && Markers(s.memory.value.table) == []
    && forall rid :: rid in s.memory.value.requests ==> !Stuck(s.memory.value.requests, rid)
  }

  ghost predicate Enabled(s: State, a: Step) {
    match a
    case Claim(rid, op, _) => Serving(s)
    case Refuse(rid, _) => HasTask(s, rid) && s.memory.value.tasks[rid].Claimed?
    case Prepare(rid, path, after, _, _) =>
      && HasTask(s, rid)
      && s.memory.value.tasks[rid].Claimed?
      && s.memory.value.guard.None?
      && s.ws.Resolves(path)
      && Asks(s.memory.value.tasks[rid].op, s.ws.Current(path), after)
    case Install => Guarded(s) && s.memory.value.guard.value.id !in s.h.landed
    case Withdraw(_, _) => Guarded(s) && s.memory.value.guard.value.id !in s.h.landed
    case Commit(_) => Guarded(s) && s.memory.value.guard.value.id in s.h.landed
    case Leave(_) => Guarded(s) && s.memory.value.guard.value.id in s.h.landed
    case BeginExec(rid, _) => HasTask(s, rid) && s.memory.value.tasks[rid] == Claimed("exec")
    case RecordExec(rid, _, _, _, refusal) =>
      HasTask(s, rid) && s.memory.value.tasks[rid].Running? && IsLogRefusal(refusal)
    case RecordTransfer(rid, _, _, _, refusal) =>
      && HasTask(s, rid)
      && s.memory.value.tasks[rid] in {Claimed("download_record"), Claimed("upload_commit")}
      && IsLogRefusal(refusal)
    case Answer(rid, _) => HasTask(s, rid) && s.memory.value.tasks[rid].Answering?
    case Gc(keep, lines, _) =>
      && Serving(s)
      && s.memory.value.guard.None?
      && Requests(lines) == PruneRequests(s.memory.value.requests, PruneTable(s.memory.value.table, keep))
    case Meddle(_, state) => state != Some(FILE_DELETED_SENTINEL)
    case Crash => s.memory.Some?
    case Restart => s.memory.None?
    case Settle(appends) => Recovering(s) && Markers(s.memory.value.table) != []
    case ResolveStuck(rid, _) =>
      Recovering(s) && Markers(s.memory.value.table) == [] && Stuck(s.memory.value.requests, rid)
    case Serve => Recovered(s)
  }

  // ---- serving ----

  /** The handler of `rid` moves on. */
  function Move(m: Memory, rid: string, task: Task): Memory {
    m.(tasks := m.tasks[rid := task])
  }

  /** The handler of `rid` is to answer with an error. */
  function Fail(m: Memory, rid: string, error: ProtocolError): Memory {
    Move(m, rid, Answering(ErrorLine(rid, error)))
  }

  function DoClaim(s: State, m: Memory, rid: string, op: string, io: Fate): State {
    if rid in m.requests || io.Refused? then s
    else
      var next := s.(reqs := s.reqs + [ClaimLine(rid, op)]);
      if io.Unsynced? then next
      else next.(memory := Some(Move(m, rid, Claimed(op)).(requests := m.requests[rid := ClaimEntry(op)])))
  }

  const LOG_REFUSED := ProtocolError(IoError, "write op log")
  const LOG_UNSYNCED := ProtocolError(IoError, "fsync op log")

  /** The marker this request's mutation would write. */
  function MarkerFor(s: State, m: Memory, rid: string, path: string, after: string): Marker
    requires rid in m.tasks && m.tasks[rid].Claimed?
  {
    Prepared(m.nextId + 1, rid, KindOf(m.tasks[rid].op), path, s.ws.Current(path), after, s.now)
  }

  /**
   A marker that is not acknowledged is given up at once: one that reached the log unsynced is
   withdrawn there, if that append gets through, and memory never hears of it.
   */
  function DoPrepare(s: State, m: Memory, p: Marker, io: Fate, undo: Fate): State {
    match io
    case Logged => LogMarker(s, m, p)
    case Refused => s.(memory := Some(Fail(m.(nextId := p.id), p.rid, LOG_REFUSED)))
    case Unsynced =>
      var next := s.(memory := Some(Fail(m.(nextId := p.id), p.rid, LOG_UNSYNCED)));
      if undo.Refused? then Abandon(next.(ops := s.ops + [p], now := s.now + 1), p.id)
      else next.(ops := s.ops + [p] + [Aborted(p.id, s.now + 1)], now := s.now + 2)
  }

  function LogMarker(s: State, m: Memory, p: Marker): State {
    s.(ops := s.ops + [p],
       now := s.now + 1,
       memory := Some(Move(m, p.rid, Mutating).(nextId := p.id, table := m.table + [p], guard := Some(p))))
  }

  function Abandon(s: State, id: nat): State {
    s.(h := s.h.(abandoned := s.h.abandoned + {id}))
  }

  /** What is promised once the reply of `rid` is known. */
  function Promising(s: State, rid: string, msg: Message): map<string, Message> {
    if rid in s.pruned.requests then s.promised else s.promised[rid := msg]
  }

  /**
   The workspace changes; from here on the mutation is one its request is to be told of, unless
   another writer was at the file since it was prepared: then only once it is committed.
   */
  function DoInstall(s: State, p: Marker): State {
    s.(ws := s.ws.Install(p.path, AfterState(p.after)),
       h := s.h.(landed := s.h.landed + {p.id}),
       promised := if p.id in s.h.obscured then s.promised else Promising(s, p.rid, ReconstructResult(CommitOf(p, s.now))))
  }

  /** The mutation did not happen. Only an acknowledged withdrawal removes the marker from memory. */
  function DoWithdraw(s: State, m: Memory, p: Marker, error: ProtocolError, io: Fate): State {
    var n := Fail(m.(guard := None), p.rid, error);
    if io.Refused? then Abandon(s.(memory := Some(n)), p.id)
    else
      var next := s.(ops := s.ops + [Aborted(p.id, s.now)], now := s.now + 1);
      if io.Unsynced? then Abandon(next.(memory := Some(n)), p.id)
      else next.(memory := Some(n.(table := DropPrepared(m.table, p.id))))
  }

  function DoCommit(s: State, m: Memory, p: Marker, synced: bool): State {
    var c := CommitOf(p, s.now);
    var next := s.(ops := s.ops + [c], now := s.now + 1);
    if synced then
      next.(promised := Promising(s, p.rid, ReconstructResult(c)),
            memory := Some(Move(m, p.rid, Answering(DoneLine(p.rid, ReconstructResult(c)))).(
                             table := Upsert(m.table, c), guard := None)))
    else Unpromise(next.(memory := Some(Fail(m.(guard := None), p.rid, LOG_UNSYNCED))), p.rid)
  }

  /** A handler that is to answer with an error although its effect is on record. */
  function Unpromise(s: State, rid: string): State {
    s.(promised := s.promised - {rid})
  }

  /** The install succeeded and something after it did not: the marker stays for the next start. */
  function DoLeave(s: State, m: Memory, p: Marker, error: ProtocolError): State {
    Unpromise(s.(memory := Some(Fail(m.(guard := None), p.rid, error))), p.rid)
  }

  function DoBeginExec(s: State, m: Memory, rid: string, spawned: bool): State {
    s.(started := if spawned then s.started + [rid] else s.started,
       memory := Some(Move(m, rid, Running(m.nextId + 1)).(nextId := m.nextId + 1)))
  }

  /** A record of something that happened, and the line its handler is to answer with. */
  function DoRecord(s: State, m: Memory, r: Record, line: ReqLine, io: Fate): State
    requires r.Exec? || r.Transfer?
  {
    var n := Move(m, r.rid, Answering(line));
    if io.Refused? then s.(memory := Some(n))
    else
      var next := s.(ops := s.ops + [r], now := s.now + 1);
      if io.Unsynced? then next.(memory := Some(n))
      else next.(memory := Some(n.(table := m.table + [r])))
  }

  /** How the append of a record looks to the handler. */
  function Seen(io: Fate, refusal: ProtocolError): Result<(), ProtocolError> {
    if io.Logged? then Ok(()) else Err(refusal)
  }

  function DoRecordExec(s: State, m: Memory, rid: string, q: ExecRequest, outcome: Ending, io: Fate,
                        refusal: ProtocolError): State
    requires rid in m.tasks && m.tasks[rid].Running?
  {
    var id := m.tasks[rid].id;
    var next := DoRecord(s, m, ExecRecord(id, rid, q, outcome, s.now), ExecLine(id, rid, outcome, Seen(io, refusal)), io);
    if io.Logged? then next.(promised := Promising(s, rid, ExecReply(id, rid, outcome))) else next
  }

  function DoRecordTransfer(s: State, m: Memory, rid: string, transfer: TransferDetail, cleaned: bool, io: Fate,
                            refusal: ProtocolError): State {
    var id := m.nextId + 1;
    var next := DoRecord(s, m.(nextId := id), Transfer(id, rid, transfer, s.now),
                         TransferLine(id, rid, transfer, Seen(io, refusal), cleaned), io);
    if io.Logged? && cleaned then next.(promised := Promising(s, rid, Reply(rid, TransferResult(id, transfer)))) else next
  }

  function DoAnswer(s: State, m: Memory, rid: string, io: Fate): State
    requires rid in m.tasks && m.tasks[rid].Answering?
  {
    var line := m.tasks[rid].line;
    var n := m.(tasks := m.tasks - {rid});
    if io.Refused? then s.(memory := Some(n))
    else
      var next := s.(reqs := s.reqs + [line]);
      if io.Unsynced? then next.(memory := Some(n))
      else next.(memory := Some(n.(requests := m.requests[line.rid := EntryOf(line)])))
  }

  /** The history the table in memory is to agree with. */
  function Remembered(h: History, m: Memory): History {
    h.(obscured := h.obscured + m.unseen)
  }

  /** What a prune that leaves `kept` leaves nothing to vouch for, earlier prunes included. */
  ghost function Unseen(s: State, m: Memory, kept: seq<Record>): set<nat> {
    m.unseen + Unvouched(Live(kept), s.ws, Remembered(s.h, m))
  }

  /** The ids of the records a prune drops, from memory and, if it gets to it, from the log. */
  function Cut(s: State, m: Memory, kept: seq<Record>, replaced: nat): set<nat> {
    (Live(m.table).Keys - Live(kept).Keys) + (if replaced < 2 then {} else Live(s.ops).Keys - Live(kept).Keys)
  }

  function Owners(live: map<nat, Record>, ids: set<nat>): set<string> {
    set id | id in ids && id in live && !live[id].Aborted? :: live[id].rid
  }

  /** The requests a prune drops the entry or a record of. */
  function Forgotten(s: State, m: Memory, kept: seq<Record>, replaced: nat): set<string> {
    var ids := Cut(s, m, kept, replaced);
    Owners(Live(m.table), ids) + Owners(Live(s.ops), ids) + (m.requests.Keys - PruneRequests(m.requests, kept).Keys)
  }

  /** The requests with a marker under one of the ids. */
  function MarkedBy(live: map<nat, Record>, ids: set<nat>): set<string> {
    set id | id in ids && id in live && live[id].Prepared? :: live[id].rid
  }

  /** The requests whose reply a prune puts at risk: those, and the ones whose marker nothing vouches for. */
  ghost function Risked(s: State, m: Memory, kept: seq<Record>, replaced: nat): set<string> {
    Forgotten(s, m, kept, replaced) + MarkedBy(Live(kept), Unseen(s, m, kept))
  }

  /**
   Memory is cut first, and then as many of the three files as `replaced` says are replaced. What
   nothing vouches for is obscured once the log is the cut table.
   */
  ghost function DoGc(s: State, m: Memory, keep: nat, lines: seq<ReqLine>, replaced: nat): State {
    var kept := PruneTable(m.table, keep);
    var unseen := Unseen(s, m, kept);
    var n := m.(table := kept, requests := PruneRequests(m.requests, kept));
    var next := s.(
      counter := if replaced >= 1 then m.nextId else s.counter,
      reqs := if replaced >= 3 then lines else s.reqs,
      promised := s.promised - Risked(s, m, kept, replaced),
      pruned := Pruned(s.pruned.requests + Forgotten(s, m, kept, replaced), s.pruned.records + Cut(s, m, kept, replaced)));
    if replaced < 2 then next.(memory := Some(n.(unseen := unseen)))
    else next.(ops := kept, memory := Some(n.(unseen := {})), h := s.h.(obscured := s.h.obscured + unseen))
  }

  /** The markers of a file, in the log and in memory. */
  function PendingOn(s: State, file: string): set<nat> {
    Pending(Live(s.ops), s.ws, file) + (if s.memory.Some? then Pending(Live(s.memory.value.table), s.ws, file) else {})
  }

  /** The requests with a marker of the file, in the log or in memory. */
  function Askers(s: State, file: string): set<string> {
    MarkedBy(Live(s.ops), PendingOn(s, file)) +
    (if s.memory.Some? then MarkedBy(Live(s.memory.value.table), PendingOn(s, file)) else {})
  }

  /**
   An upload, a command or another program writes a file: its pending markers are obscured, and no
   reply is promised for them any more.
   */
  function DoMeddle(s: State, file: string, state: Option<string>): State {
    s.(ws := s.ws.Put(file, state),
       h := s.h.(obscured := s.h.obscured + PendingOn(s, file)),
       promised := s.promised - Askers(s, file))
  }

  // ---- stopping and starting ----

  function DoCrash(s: State): State {
    s.(memory := None)
  }

  function DoRestart(s: State): State {
    s.(memory := Some(Memory(Loaded(s.ops), Requests(s.reqs), HighWater(s.counter, s.ops), false, None, map[], {})))
  }

  /** Decide the newest marker; when fewer appends are acknowledged than it needs, the start fails. */
  function DoSettle(s: State, m: Memory, appends: nat): State
    requires Markers(m.table) != []
  {
    var p := Newest(m.table);
    var v := Judge(m.table, p, s.ws);
    var line, reply := VerdictLine(p, v, s.now), VerdictReply(p, v, s.now);
    if appends == 0 then DoCrash(s)
    else if appends == 1 && reply.Some? then DoCrash(LogVerdict(s, line))
    else Settled(LogVerdict(s, line), m, VerdictTable(m.table, p, v, s.now), reply)
  }

  function LogVerdict(s: State, line: Record): State {
    s.(ops := s.ops + [line], now := s.now + 1)
  }

  function Settled(s: State, m: Memory, t: seq<Record>, reply: Option<ReqLine>): State {
    s.(reqs := s.reqs + AsSeq(reply),
       memory := Some(m.(
         table := t,
         requests := if reply.None? then m.requests else m.requests[reply.value.rid := EntryOf(reply.value)])))
  }

  function DoResolveStuck(s: State, m: Memory, rid: string, io: Fate): State
    requires rid in m.requests
  {
    match StuckLine(m.table, rid, m.requests[rid].op)
    case None => s.(memory := Some(m.(requests := m.requests - {rid})))
    case Some(line) =>
      if io.Refused? then DoCrash(s)
      else
        var next := s.(reqs := s.reqs + [line]);
        if io.Unsynced? then DoCrash(next)
        else next.(memory := Some(m.(requests := m.requests[rid := EntryOf(line)])))
  }

  function DoServe(s: State, m: Memory): State {
    s.(memory := Some(m.(serving := true)))
  }

  ghost function Do(s: State, a: Step): State
    requires Enabled(s, a)
  {
    match a
    case Claim(rid, op, io) => DoClaim(s, s.memory.value, rid, op, io)
    case Refuse(rid, error) => s.(memory := Some(Fail(s.memory.value, rid, error)))
    case Prepare(rid, path, after, io, undo) =>
      DoPrepare(s, s.memory.value, MarkerFor(s, s.memory.value, rid, path, after), io, undo)
    case Install => DoInstall(s, s.memory.value.guard.value)
    case Withdraw(error, io) => DoWithdraw(s, s.memory.value, s.memory.value.guard.value, error, io)
    case Commit(synced) => DoCommit(s, s.memory.value, s.memory.value.guard.value, synced)
    case Leave(error) => DoLeave(s, s.memory.value, s.memory.value.guard.value, error)
    case BeginExec(rid, spawned) => DoBeginExec(s, s.memory.value, rid, spawned)
    case RecordExec(rid, q, outcome, io, refusal) => DoRecordExec(s, s.memory.value, rid, q, outcome, io, refusal)
    case RecordTransfer(rid, transfer, cleaned, io, refusal) =>
      DoRecordTransfer(s, s.memory.value, rid, transfer, cleaned, io, refusal)
    case Answer(rid, io) => DoAnswer(s, s.memory.value, rid, io)
    case Gc(keep, lines, replaced) => DoGc(s, s.memory.value, keep, lines, replaced)
    case Meddle(file, state) => DoMeddle(s, file, state)
    case Crash => DoCrash(s)
    case Restart => DoRestart(s)
    case Settle(appends) => DoSettle(s, s.memory.value, appends)
    case ResolveStuck(rid, io) => DoResolveStuck(s, s.memory.value, rid, io)
    case Serve => DoServe(s, s.memory.value)
  }

  // ---- runs ----

  /** `steps` can be taken one after the other from `s`. */
  ghost predicate CanRun(s: State, steps: seq<Step>)
    decreases |steps|
  {
    steps == [] || (Enabled(s, steps[0]) && CanRun(Do(s, steps[0]), steps[1..]))
  }

  ghost function Run(s: State, steps: seq<Step>): State
    requires CanRun(s, steps)
    decreases |steps|
  {
    if steps == [] then s else Run(Do(s, steps[0]), steps[1..])
  }
}
