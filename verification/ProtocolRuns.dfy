/**
 What the handlers do to the store is what the state machine of `CrashRuns` does: every outcome of a
 create, edit or delete, and every ending of a command, is a run of its steps, whichever of the
 appends failed and however far they got; and a success they report is one the machine promises,
 unless a prune had dropped something of the request.
 */
module ProtocolRuns {
  import opened Options
  import opened Records
  import opened Replay
  import opened Recovery
  import opened Replies
  import opened CrashRuns
  import opened RunInvariant
  import FsOps

  /** A serving process with no mutation under way, about to run one for a claimed request. */
  ghost predicate Ready(s: State, m: Memory, p: Marker) {
    && Inv(s) && s.memory == Some(m) && m.serving && m.guard.None?
    && p.rid in m.tasks && m.tasks[p.rid].Claimed?
    && s.ws.Resolves(p.path) && Asks(m.tasks[p.rid].op, p.before, p.after)
    && p == MarkerFor(s, m, p.rid, p.path, p.after)
  }

  function PrepareStep(p: Marker, io: Fate, undo: Fate): Step {
    Prepare(p.rid, p.path, p.after, io, undo)
  }

  function LastStep(ops: seq<Record>, ops': seq<Record>, p: Marker, ok: bool, error: ProtocolError): Step {
    if ok then Commit(true) else if ops' != ops + [p] then Commit(false) else Leave(error)
  }

  /** The steps a protocol run took, read off what it left in log and table. */
  function Steps(ops: seq<Record>, records: seq<Record>, ops': seq<Record>, records': seq<Record>,
                 p: Marker, landed: bool, ok: bool, error: ProtocolError): seq<Step> {
    var logged := PrepareStep(p, Logged, Logged);
    if landed then
      [logged, Install, LastStep(ops, ops', p, ok, error)]
    else if records' == records + [p] then
      [logged, Withdraw(error, if ops' == ops + [p] then Refused else Unsynced)]
    else if ops' == ops then [PrepareStep(p, Refused, Refused)]
    else if ops' == ops + [p] then [PrepareStep(p, Unsynced, Refused)]
    else [logged, Withdraw(error, Logged)]
  }

  /** The marker's id is new to the table, so dropping it again gives the table back. */
  lemma MarkerIsNew(s: State, m: Memory, p: Marker)
    requires Ready(s, m, p)
    ensures p.id !in s.h.landed
    ensures DropPrepared(m.table + [p], p.id) == m.table
  {
    ServingFacts(s, m);
    NewToTable(m.table, p);
  }

  lemma NewToTable(t: seq<Record>, p: Marker)
    requires IsTable(t) && p.id !in Live(t)
    ensures DropPrepared(t + [p], p.id) == t
  {
    MembersOfLive(t);
    assert forall i :: 0 <= i < |t| ==> t[i] in t;
    assert !HasId(t, p.id) && !HasId([], p.id);
    DropPreparedShape(t, p, []);
    assert t + [p] + [] == t + [p] && t + [] == t;
  }

  lemma RunOne(s: State, a: Step)
    requires Enabled(s, a)
    ensures CanRun(s, [a]) && Run(s, [a]) == Do(s, a)
  {
    hide Enabled; hide Do;
    assert [a][1..] == [];
    assert Run(Do(s, a), []) == Do(s, a);
  }

  lemma RunTwo(s: State, a: Step, b: Step)
    requires Enabled(s, a) && Enabled(Do(s, a), b)
    ensures CanRun(s, [a, b]) && Run(s, [a, b]) == Do(Do(s, a), b)
  {
    hide Enabled; hide Do;
    assert [a, b][1..] == [b];
    RunOne(Do(s, a), b);
  }

  lemma RunThree(s: State, a: Step, b: Step, c: Step)
    requires Enabled(s, a) && Enabled(Do(s, a), b) && Enabled(Do(Do(s, a), b), c)
    ensures CanRun(s, [a, b, c]) && Run(s, [a, b, c]) == Do(Do(Do(s, a), b), c)
  {
    hide Enabled; hide Do;
    assert [a, b, c][1..] == [b, c];
    RunTwo(Do(s, a), b, c);
  }

  /** Preparing takes the lock for the marker. */
  lemma PrepareTakesLock(s: State, m: Memory, p: Marker)
    requires Ready(s, m, p)
    ensures var a := PrepareStep(p, Logged, Logged);
            && Enabled(s, a) && Do(s, a) == LogMarker(s, m, p)
            && Guarded(LogMarker(s, m, p)) && LogMarker(s, m, p).memory.value.guard == Some(p)
  {
    hide Inv; hide LogMarker;
    LoggedPrepare(s, m, p, Logged);
    LockedBy(s, m, p);
  }

  lemma LockedBy(s: State, m: Memory, p: Marker)
    requires m.serving
    ensures Guarded(LogMarker(s, m, p)) && LogMarker(s, m, p).memory.value.guard == Some(p)
  {
  }

  /** The state a run of the machine is to end in, for what a protocol run left. */
  ghost predicate EndsAs(e: State, s: State, ops': seq<Record>, records': seq<Record>, p: Marker, landed: bool) {
    && e.memory.Some?
    && e.ops == ops' && e.memory.value.table == records'
    && e.ws == (if landed then s.ws.Install(p.path, AfterState(p.after)) else s.ws)
    && e.h.landed == (if landed then s.h.landed + {p.id} else s.h.landed)
    && e.memory.value.guard.None?
  }

  /** The request is promised the message. */
  predicate Promises(e: State, rid: string, msg: Message) {
    rid in e.promised && e.promised[rid] == msg
  }

  /** When a mutation was committed does not show in its reply. */
  lemma ReplyIsTimeless(p: Marker, ts: nat, ts': nat)
    ensures ReconstructResult(CommitOf(p, ts)) == ReconstructResult(CommitOf(p, ts'))
  {
  }

  /** The state once the mutation is in place. */
  ghost predicate InPlace(e: State, s: State, m: Memory, p: Marker) {
    && Guarded(e) && e.memory.value.guard == Some(p) && p.id in e.h.landed
    && e.ops == s.ops + [p] && e.memory.value.table == m.table + [p] && e.now == p.ts + 1
    && e.ws == s.ws.Install(p.path, AfterState(p.after))
    && e.h.landed == s.h.landed + {p.id}
    && e.pruned == s.pruned
  }

  lemma InstalledRun(s: State, m: Memory, p: Marker)
    requires Ready(s, m, p) && p.id !in s.h.landed
    ensures var a := PrepareStep(p, Logged, Logged);
            && Enabled(s, a) && Enabled(Do(s, a), Install)
            && InPlace(Do(Do(s, a), Install), s, m, p)
  {
    hide Ready; hide Inv; hide DoPrepare; hide ReconstructResult; hide Live; hide Asks;
    PrepareTakesLock(s, m, p);
    Clock(s, m, p);
  }

  lemma CommittedRun(e: State, s: State, m: Memory, p: Marker, ops': seq<Record>, records': seq<Record>, ok: bool,
                     error: ProtocolError)
    requires InPlace(e, s, m, p) && FsOps.Outcome(s.ops, m.table, ops', records', p, true, ok)
    ensures var c := LastStep(s.ops, ops', p, ok, error);
            && Enabled(e, c) && EndsAs(Do(e, c), s, ops', records', p, true)
            && (ok && p.rid !in s.pruned.requests ==> Promises(Do(e, c), p.rid, ReconstructResult(CommitOf(p, p.ts + 1))))
  {
    hide ReconstructResult; hide Upsert; hide Live; hide DropPrepared;
  }

  lemma LandedRun(s: State, m: Memory, p: Marker, ops': seq<Record>, records': seq<Record>, ok: bool, error: ProtocolError)
    requires Ready(s, m, p) && p.id !in s.h.landed
    requires FsOps.Outcome(s.ops, m.table, ops', records', p, true, ok)
    ensures var steps := Steps(s.ops, m.table, ops', records', p, true, ok, error);
            && CanRun(s, steps) && EndsAs(Run(s, steps), s, ops', records', p, true)
            && (ok && p.rid !in s.pruned.requests ==>
                  Promises(Run(s, steps), p.rid, ReconstructResult(CommitOf(p, p.ts + 1))))
  {
    hide Ready; hide InPlace; hide Run; hide CanRun; hide ReconstructResult; hide EndsAs; hide Enabled; hide Do;
    hide FsOps.Outcome; hide Promises;
    var a := PrepareStep(p, Logged, Logged);
    InstalledRun(s, m, p);
    var e := Do(Do(s, a), Install);
    CommittedRun(e, s, m, p, ops', records', ok, error);
    RunThree(s, a, Install, LastStep(s.ops, ops', p, ok, error));
  }

  lemma WithdrawnRun(s: State, m: Memory, p: Marker, io: Fate, error: ProtocolError)
    requires Ready(s, m, p) && p.id !in s.h.landed
    ensures var steps := [PrepareStep(p, Logged, Logged), Withdraw(error, io)];
            CanRun(s, steps) &&
            EndsAs(Run(s, steps), s,
                   if io.Refused? then s.ops + [p] else s.ops + [p] + [Aborted(p.id, p.ts + 1)],
                   if io.Logged? then DropPrepared(m.table + [p], p.id) else m.table + [p], p, false)
  {
    hide Ready; hide Inv; hide Run; hide CanRun; hide DoPrepare; hide Live; hide Asks; hide DropPrepared;
    PrepareTakesLock(s, m, p);
    RunTwo(s, PrepareStep(p, Logged, Logged), Withdraw(error, io));
    Clock(s, m, p);
  }

  lemma Clock(s: State, m: Memory, p: Marker)
    requires Ready(s, m, p)
    ensures p.ts == s.now
  {
    hide Inv;
  }

  lemma FailedRun(s: State, m: Memory, p: Marker, io: Fate)
    requires Ready(s, m, p) && !io.Logged?
    ensures var steps := [PrepareStep(p, io, Refused)];
            CanRun(s, steps) && EndsAs(Run(s, steps), s, if io.Refused? then s.ops else s.ops + [p], m.table, p, false)
  {
    hide Inv; hide Run; hide CanRun;
    RunOne(s, PrepareStep(p, io, Refused));
  }

  /**
   The protocols refine the state machine: however a create, edit or delete ends, log, table,
   workspace and what landed are those of a run of the machine -- a prepare refused or written in
   vain; prepare and withdraw, the withdrawal logged, written unsynced, or lost; prepare, install,
   and then a commit, a commit written unsynced, or neither. What a success is answered with is
   promised.
   */
  lemma OutcomeIsARun(s: State, m: Memory, p: Marker, ops': seq<Record>, records': seq<Record>,
                      landed: bool, ok: bool, error: ProtocolError)
    requires Ready(s, m, p)
    requires FsOps.Outcome(s.ops, m.table, ops', records', p, landed, ok)
    ensures var steps := Steps(s.ops, m.table, ops', records', p, landed, ok, error);
            && CanRun(s, steps) && EndsAs(Run(s, steps), s, ops', records', p, landed)
            && (ok && p.rid !in s.pruned.requests ==> forall ts: nat {:trigger CommitOf(p, ts)} ::
                  Promises(Run(s, steps), p.rid, ReconstructResult(CommitOf(p, ts))))
  {
    hide Ready; hide CanRun; hide Run; hide DropPrepared; hide EndsAs; hide FsOps.Outcome; hide Enabled;
    hide ReconstructResult;
    forall ts: nat {:trigger CommitOf(p, ts)} ensures ReconstructResult(CommitOf(p, ts)) == ReconstructResult(CommitOf(p, p.ts + 1)) {
      ReplyIsTimeless(p, ts, p.ts + 1);
    }
    OkLanded(s.ops, m.table, ops', records', p, landed, ok);
    MarkerIsNew(s, m, p);
    if landed {
      LandedRun(s, m, p, ops', records', ok, error);
    } else {
      UnlandedCases(s.ops, m.table, ops', records', p, ok);
      UnlandedRun(s, m, p, ops', records', error);
    }
  }

  lemma OkLanded(ops: seq<Record>, records: seq<Record>, ops': seq<Record>, records': seq<Record>, p: Marker, landed: bool, ok: bool)
    requires FsOps.Outcome(ops, records, ops', records', p, landed, ok)
    ensures ok ==> landed
  {
  }

  lemma UnlandedCases(ops: seq<Record>, records: seq<Record>, ops': seq<Record>, records': seq<Record>, p: Marker, ok: bool)
    requires FsOps.Outcome(ops, records, ops', records', p, false, ok) && DropPrepared(records + [p], p.id) == records
    ensures ops' == ops || ops' == ops + [p] || ops' == ops + [p] + [Aborted(p.id, p.ts + 1)]
    ensures records' == records || (records' == records + [p] && ops' != ops)
  {
    hide DropPrepared;
  }

  lemma UnlandedRun(s: State, m: Memory, p: Marker, ops': seq<Record>, records': seq<Record>, error: ProtocolError)
    requires Ready(s, m, p) && p.id !in s.h.landed && DropPrepared(m.table + [p], p.id) == m.table
    requires ops' == s.ops || ops' == s.ops + [p] || ops' == s.ops + [p] + [Aborted(p.id, p.ts + 1)]
    requires records' == m.table || (records' == m.table + [p] && ops' != s.ops)
    ensures var steps := Steps(s.ops, m.table, ops', records', p, false, false, error);
            CanRun(s, steps) && EndsAs(Run(s, steps), s, ops', records', p, false)
  {
    hide Ready; hide CanRun; hide Run; hide DropPrepared; hide EndsAs; hide Enabled;
    if records' == m.table + [p] {
      WithdrawnRun(s, m, p, if ops' == s.ops + [p] then Refused else Unsynced, error);
    } else if ops' == s.ops {
      FailedRun(s, m, p, Refused);
    } else if ops' == s.ops + [p] {
      FailedRun(s, m, p, Unsynced);
    } else {
      WithdrawnRun(s, m, p, Logged, error);
    }
  }

  // ---- commands ----

  /** How an append ended, read off the log it may have reached and the word it was answered with. */
  function FateOf(acknowledged: bool, written: bool): Fate {
    if acknowledged then Logged else if written then Unsynced else Refused
  }

  function FaultOf(r: Result<(), ProtocolError>): ProtocolError {
    if r.Err? then r.error else LOG_REFUSED
  }

  /**
   However the two appends of a command's ending end, what its handler leaves is a run of the
   machine, and if the record was acknowledged the reply of the command is promised.
   */
  lemma ExecIsARun(s: State, m: Memory, rid: string, q: ExecRequest, outcome: Ending,
                   recorded: Result<(), ProtocolError>, remembered: Result<(), ProtocolError>,
                   ops': seq<Record>, records': seq<Record>, reqs': seq<ReqLine>, requests': map<string, Entry>)
    requires s.memory == Some(m) && m.serving && rid in m.tasks && m.tasks[rid].Running?
    requires recorded.Err? ==> IsLogRefusal(recorded.error)
    // what `Handlers.HandleExec` ensures
    requires var r := ExecRecord(m.tasks[rid].id, rid, q, outcome, s.now);
             && records' == (if recorded.Ok? then m.table + [r] else m.table)
             && (ops' == s.ops + [r] || (ops' == s.ops && recorded.Err?))
    requires var line := ExecLine(m.tasks[rid].id, rid, outcome, recorded);
             && requests' == (if remembered.Ok? then m.requests[rid := EntryOf(line)] else m.requests)
             && (reqs' == s.reqs + [line] || (reqs' == s.reqs && remembered.Err?))
    ensures var id := m.tasks[rid].id;
            var steps := [RecordExec(rid, q, outcome, FateOf(recorded.Ok?, ops' != s.ops), FaultOf(recorded)),
                          Answer(rid, FateOf(remembered.Ok?, reqs' != s.reqs))];
            CanRun(s, steps) &&
            var e := Run(s, steps);
            && e.ops == ops' && e.reqs == reqs' && e.ws == s.ws && e.memory.Some?
            && e.memory.value.table == records' && e.memory.value.requests == requests'
            && (recorded.Ok? && rid !in s.pruned.requests ==> Promises(e, rid, ExecReply(id, rid, outcome)))
            && (recorded.Ok? && remembered.Ok? && rid !in s.pruned.requests ==>
                  Promises(e, rid, ExecSent(id, rid, outcome, recorded, remembered)))
  {
    hide ExecRecord; hide EntryOf; hide Run; hide CanRun; hide ExecLine; hide ExecReply; hide IsLogRefusal;
    var id := m.tasks[rid].id;
    var a := RecordExec(rid, q, outcome, FateOf(recorded.Ok?, ops' != s.ops), FaultOf(recorded));
    var b := Answer(rid, FateOf(remembered.Ok?, reqs' != s.reqs));
    RecordIs(id, rid, q, outcome, s.now);
    FaultIsRefusal(recorded);
    var line := ExecLine(id, rid, outcome, recorded);
    RecordRun(s, m, rid, q, outcome, recorded, ops' != s.ops);
    assert Enabled(Do(s, a), b);
    RunTwo(s, a, b);
    SentIsReply(id, rid, outcome);
  }

  lemma RecordRun(s: State, m: Memory, rid: string, q: ExecRequest, outcome: Ending,
                  recorded: Result<(), ProtocolError>, written: bool)
    requires s.memory == Some(m) && m.serving && rid in m.tasks && m.tasks[rid].Running?
    requires IsLogRefusal(FaultOf(recorded)) && (recorded.Ok? ==> written)
    ensures var id := m.tasks[rid].id;
            var a := RecordExec(rid, q, outcome, FateOf(recorded.Ok?, written), FaultOf(recorded));
            var r, line := ExecRecord(id, rid, q, outcome, s.now), ExecLine(id, rid, outcome, recorded);
            && Enabled(s, a) && line.rid == rid
            && var e := Do(s, a);
               && e.ops == (if written then s.ops + [r] else s.ops) && e.reqs == s.reqs && e.ws == s.ws
               && e.memory == Some(m.(table := if recorded.Ok? then m.table + [r] else m.table,
                                      tasks := m.tasks[rid := Answering(line)]))
               && (recorded.Ok? && rid !in s.pruned.requests ==> Promises(e, rid, ExecReply(id, rid, outcome)))
  {
    hide ExecRecord; hide ExecReply;
    RecordIs(m.tasks[rid].id, rid, q, outcome, s.now);
  }

  lemma FaultIsRefusal(r: Result<(), ProtocolError>)
    requires r.Err? ==> IsLogRefusal(r.error)
    ensures IsLogRefusal(FaultOf(r))
  {
  }

  lemma SentIsReply(id: nat, rid: string, outcome: Ending)
    ensures ExecSent(id, rid, outcome, Ok(()), Ok(())) == ExecReply(id, rid, outcome)
  {
  }

  lemma RecordIs(id: nat, rid: string, q: ExecRequest, outcome: Ending, ts: nat)
    ensures ExecRecord(id, rid, q, outcome, ts).Exec? && ExecRecord(id, rid, q, outcome, ts).rid == rid
  {
  }
}
