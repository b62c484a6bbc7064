/**
 Many handler threads over one store. The lock that serializes appends is modelled, and so is
 every point where a thread holds it between a log line and the matching change in memory, the
 unlocked lookup before a claim, the three writes of a pruning run, each of which may fail, appends
 that fail before or after their line is in the log, a crash anywhere and a restart.
 */
module Interleaving {
  import opened Options
  import opened Records
  import opened Replay
  import opened Recovery
  import opened ExactRecovery
  import opened Pruning
  import opened Fixpoint
  import opened RunInvariant
  import CrashRuns

  /** One tracked change of the record table. */
  datatype Change = Push(r: Record) | Replace(c: Record) | Drop(p: Record, ts: nat)

  function LineFor(change: Change): Record {
    match change
    case Push(r) => r
    case Replace(c) => c
    case Drop(p, ts) => Aborted(p.id, ts)
  }

  function Applied(records: seq<Record>, change: Change): seq<Record> {
    match change
    case Push(r) => records + [r]
    case Replace(c) => Upsert(records, c)
    case Drop(p, _) => DropPrepared(records, p.id)
  }

  /** Where a thread is. The last five hold the append lock. */
  datatype Pc =
    | Idle
    | Claiming(rid: string, op: string)
    | Owner(rid: string)
    | Allocated(rid: string, id: nat)
    | Marked(rid: string, marker: Record)
    | Deciding(rid: string, op: string)
    | OpLogged(rid: string, change: Change)
    | ReqLogged(line: ReqLine)
    | TablesCut
    | CounterSaved
    | OpsSaved
  {
    predicate Holds() {
      Deciding? || OpLogged? || ReqLogged? || Prunes()
    }

    predicate Prunes() {
      TablesCut? || CounterSaved? || OpsSaved?
    }

    /** The operation id the thread is working on. */
    function Id(): Option<nat> {
      match this
      case Allocated(_, id) => Some(id)
      case Marked(_, p) => Some(p.id)
      case OpLogged(_, change) => Some(LineFor(change).id)
      case _ => None
    }
  }

  /**
   `opsBehind` and `reqsBehind` are history: an append whose line was written was reported as failed,
   and the line was not taken back, or a prune failed half way, and neither a prune nor a start has brought the two together since.
   */
  datatype Memory = Memory(
    records: seq<Record>, requests: map<string, Entry>, nextId: nat, lock: Option<nat>, threads: map<nat, Pc>,
    opsBehind: bool, reqsBehind: bool)
  {
    function Thread(t: nat): Pc {
      if t in threads then threads[t] else Idle
    }

    function Holder(): Pc {
      if lock.Some? then Thread(lock.value) else Idle
    }

    function Move(t: nat, pc: Pc): Memory {
      this.(threads := threads[t := pc])
    }

    function Take(t: nat, pc: Pc): Memory {
      this.(lock := Some(t), threads := threads[t := pc])
    }

    function Release(t: nat, pc: Pc): Memory {
      this.(lock := None, threads := threads[t := pc])
    }
  }

  /** `durable` is history: the ids of all records ever written to the log. */
  datatype State = State(
    ops: seq<Record>, reqs: seq<ReqLine>, counter: nat, memory: Option<Memory>, durable: set<nat>, cleared: set<string>)

  /** `undone` is when a marker that could not be synced was taken back in the log, if that line got there. */
  datatype Step =
    | Look(t: nat, rid: string, op: string)
    | Lock(t: nat)
    | Decide(t: nat, io: CrashRuns.Fate)
    | Allocate(t: nat)
    | LogOp(t: nat, change: Change, io: CrashRuns.Fate, undone: Option<nat>)
    | Answer(t: nat, line: ReqLine, io: CrashRuns.Fate)
    | Apply(t: nat)
    | GiveUp(t: nat)
    | Cut(t: nat, keep: nat)
    | SaveCounter(t: nat)
    | SaveOps(t: nat)
    | SaveReqs(t: nat, lines: seq<ReqLine>)
    | AbandonPrune(t: nat)
    | Crash
    | Restart(ws: Workspace, now: nat, stuck: seq<Stalled>)
    | FailedStart(ws: Workspace, now: nat, stuck: seq<Stalled>, opsWritten: nat, reqsWritten: nat)

  /** The change a thread may make next: a new record under its own fresh id, or the end of its marker. */
  predicate Allowed(pc: Pc, change: Change) {
    match pc
    case Allocated(rid, id) =>
      change.Push? && change.r.id == id && !change.r.Aborted? && !change.r.Fs? && change.r.rid == rid
    case Marked(rid, p) =>
      || (change.Replace? && p.Prepared? && change.c == CommitOf(p, change.c.ts))
      || (change.Drop? && change.p == p)
    case _ => false
  }

  ghost predicate Enabled(s: State, a: Step) {
    match a
    case Crash => s.memory.Some?
    case Restart(ws, now, stuck) => s.memory.None? && Collects(stuck, SettledRequests(s.ops, s.reqs, ws, now))
    case FailedStart(ws, now, stuck, k, j) =>
      && s.memory.None?
      && k <= |Recover(s.ops, s.reqs, ws, now, stuck).ops|
      && j <= |Recover(s.ops, s.reqs, ws, now, stuck).reqs|
    case _ => s.memory.Some? && ThreadEnabled(s, s.memory.value, a)
  }

  ghost predicate ThreadEnabled(s: State, m: Memory, a: Step) {
    match a
    case Look(t, _, _) => m.Thread(t).Idle?
    case Lock(t) => m.Thread(t).Claiming? && m.lock.None?
    case Decide(t, _) => m.Thread(t).Deciding?
    case Allocate(t) => m.Thread(t).Owner?
    case LogOp(t, change, _, _) => m.lock.None? && Allowed(m.Thread(t), change)
    case Answer(t, line, _) =>
      m.lock.None? && m.Thread(t).Owner? && line.rid == m.Thread(t).rid && !line.status.InProgress?
    case Apply(t) => m.Thread(t).OpLogged? || m.Thread(t).ReqLogged?
    case GiveUp(t) => m.Thread(t).Allocated? || m.Thread(t).Marked?
    case Cut(t, _) => m.Thread(t).Idle? && m.lock.None?
    case SaveCounter(t) => m.Thread(t).TablesCut?
    case SaveOps(t) => m.Thread(t).CounterSaved?
    case SaveReqs(t, lines) => m.Thread(t).OpsSaved? && Requests(lines) == m.requests
    case AbandonPrune(t) => m.Thread(t).Prunes()
    case _ => false
  }

  function LogLine(s: State, r: Record, m: Memory): State {
    s.(ops := s.ops + [r], durable := s.durable + {r.id}, memory := Some(m))
  }

  /** Where a thread goes on once its logged change is in memory too. */
  function After(rid: string, change: Change): Pc {
    if change.Push? && change.r.Prepared? then Marked(rid, change.r) else Owner(rid)
  }

  function DoRestart(s: State, ws: Workspace, now: nat, stuck: seq<Stalled>): State {
    var r := Recover(s.ops, s.reqs, ws, now, stuck);
    s.(ops := s.ops + r.ops,
       reqs := s.reqs + r.reqs,
       cleared := (set rid | rid in Requests(s.reqs + r.reqs) && rid !in r.requests),
       memory := Some(Memory(r.table, r.requests, CrashRuns.HighWater(s.counter, s.ops), None, map[], false, false)))
  }

  /** Recovery stops after any of its appends. */
  function DoFailedStart(s: State, ws: Workspace, now: nat, stuck: seq<Stalled>, k: nat, j: nat): State
    requires k <= |Recover(s.ops, s.reqs, ws, now, stuck).ops|
    requires j <= |Recover(s.ops, s.reqs, ws, now, stuck).reqs|
  {
    var r := Recover(s.ops, s.reqs, ws, now, stuck);
    s.(ops := s.ops + r.ops[..k], reqs := s.reqs + r.reqs[..j])
  }

  /** A marker that reached the log unsynced and was superseded there at once. */
  predicate TakenBack(change: Change, io: CrashRuns.Fate, undone: Option<nat>) {
    change.Push? && change.r.Prepared? && io.Unsynced? && undone.Some?
  }

  function ThreadStep(s: State, m: Memory, a: Step): State
    requires ThreadEnabled(s, m, a)
  {
    match a
    case Look(t, rid, op) => if rid in m.requests then s else s.(memory := Some(m.Move(t, Claiming(rid, op))))
    case Lock(t) => s.(memory := Some(m.Take(t, Deciding(m.Thread(t).rid, m.Thread(t).op))))
    case Decide(t, io) =>
      var pc := m.Thread(t);
      if pc.rid in m.requests || io.Refused? then s.(memory := Some(m.Release(t, Idle)))
      else
        var line := ClaimLine(pc.rid, pc.op);
        if io.Unsynced? then s.(reqs := s.reqs + [line], memory := Some(m.(reqsBehind := true).Release(t, Idle)))
        else s.(reqs := s.reqs + [line], memory := Some(m.Move(t, ReqLogged(line))))
    case Allocate(t) =>
      s.(memory := Some(m.(nextId := m.nextId + 1).Move(t, Allocated(m.Thread(t).rid, m.nextId + 1))))
    case LogOp(t, change, io, undone) =>
      var rid := m.Thread(t).rid;
      if TakenBack(change, io, undone) then
        var n := m.Move(t, Owner(rid));
        LogLine(LogLine(s, change.r, n), Aborted(change.r.id, undone.value), n)
      else if io.Refused? then s.(memory := Some(m.Move(t, Owner(rid))))
      else if io.Unsynced? then LogLine(s, LineFor(change), m.(opsBehind := true).Move(t, Owner(rid)))
      else LogLine(s, LineFor(change), m.Take(t, OpLogged(rid, change)))
    case Answer(t, line, io) =>
      if io.Refused? then s.(memory := Some(m.Move(t, Idle)))
      else if io.Unsynced? then s.(reqs := s.reqs + [line], memory := Some(m.(reqsBehind := true).Move(t, Idle)))
      else s.(reqs := s.reqs + [line], memory := Some(m.Take(t, ReqLogged(line))))
    case Apply(t) =>
      match m.Thread(t) {
        case OpLogged(rid, change) =>
          s.(memory := Some(m.(records := Applied(m.records, change)).Release(t, After(rid, change))))
        case ReqLogged(line) =>
          var next := if line.status.InProgress? then Owner(line.rid) else Idle;
          s.(memory := Some(m.(requests := m.requests[line.rid := EntryOf(line)]).Release(t, next)))
        case _ => s
      }
    case GiveUp(t) => s.(memory := Some(m.Move(t, Owner(m.Thread(t).rid))))
    case Cut(t, keep) =>
      var kept := PruneTable(m.records, keep);
      s.(memory := Some(m.(records := kept, requests := PruneRequests(m.requests, kept)).Take(t, TablesCut)))
    case SaveCounter(t) => s.(counter := m.nextId, memory := Some(m.Move(t, CounterSaved)))
    case SaveOps(t) => s.(ops := m.records, memory := Some(m.(opsBehind := false).Move(t, OpsSaved)))
    case SaveReqs(t, lines) => s.(reqs := lines, memory := Some(m.(reqsBehind := false).Release(t, Idle)))
    case AbandonPrune(t) =>
      s.(memory := Some(m.(opsBehind := m.opsBehind || !m.Thread(t).OpsSaved?, reqsBehind := true).Release(t, Idle)))
  }

  function Do(s: State, a: Step): State
    requires Enabled(s, a)
  {
    match a
    case Crash => s.(memory := None)
    case Restart(ws, now, stuck) => DoRestart(s, ws, now, stuck)
    case FailedStart(ws, now, stuck, k, j) => DoFailedStart(s, ws, now, stuck, k, j)
    case _ => ThreadStep(s, s.memory.value, a)
  }

  // ---- the invariant ----

  /** Exactly the thread the lock names is at a place where the lock is held. */
  ghost predicate LockInv(m: Memory) {
    forall t: nat :: m.Thread(t).Holds() <==> m.lock == Some(t)
  }

  /** A part of the live records, with every marker among them. */
  ghost predicate PrunedFrom(kept: map<nat, Record>, live: map<nat, Record>) {
    && (forall id :: id in kept ==> id in live && kept[id] == live[id])
    && (forall id :: id in live && live[id].Prepared? ==> id in kept)
  }

  /** A table of records whose ids are on the books. */
  ghost predicate Tabled(records: seq<Record>, durable: set<nat>) {
    IsTable(records) && forall id :: id in Live(records) ==> id in durable
  }

  /** The table is the log's, once the thread holding the lock has done what it logged. */
  ghost predicate TableInv(holder: Pc, records: seq<Record>, live: map<nat, Record>) {
    match holder
    case OpLogged(_, change) => Agrees(Applied(records, change), live)
    case TablesCut => PrunedFrom(Live(records), live)
    case CounterSaved => PrunedFrom(Live(records), live)
    case _ => Agrees(records, live)
  }

  /** Nothing but what is under `id` goes or changes. */
  ghost predicate Extends(live: map<nat, Record>, next: map<nat, Record>, id: nat) {
    forall i :: i in live && i != id ==> i in next && next[i] == live[i]
  }

  /** What the table is in any case, and what applying a logged change will leave it. */
  ghost predicate SoundInv(holder: Pc, records: seq<Record>, live: map<nat, Record>, durable: set<nat>) {
    && Tabled(records, durable)
    && (holder.OpLogged? ==>
          && (holder.change.Push? ==> holder.change.r.id in live && live[holder.change.r.id] == holder.change.r)
          && Tabled(Applied(records, holder.change), durable)
          && Extends(Live(records), Live(Applied(records, holder.change)), LineFor(holder.change).id))
  }

  /** A marker whose thread has not ended it is in the table. */
  ghost predicate MarkInv(m: Memory) {
    forall t: nat :: m.Thread(t).Marked? ==>
      m.Thread(t).marker.id in Live(m.records) && Live(m.records)[m.Thread(t).marker.id] == m.Thread(t).marker
  }

  /** Equal, but for requests recovery cleared from memory and left in the log. */
  ghost predicate SameRequests(requests: map<string, Entry>, replayed: map<string, Entry>, cleared: set<string>) {
    && (forall rid :: rid in requests ==> rid in replayed && replayed[rid] == requests[rid])
    && (forall rid :: rid in replayed && rid !in requests ==> rid in cleared)
  }

  ghost predicate RequestInv(holder: Pc, requests: map<string, Entry>, replayed: map<string, Entry>, cleared: set<string>) {
    match holder
    case ReqLogged(line) => SameRequests(requests[line.rid := EntryOf(line)], replayed, cleared)
    case TablesCut => true
    case CounterSaved => true
    case OpsSaved => true
    case _ => SameRequests(requests, replayed, cleared)
  }

  /** What is out has a smaller number than what comes next, in memory and after a restart. */
  ghost predicate IdInv(top: nat, counter: nat, durable: set<nat>, holder: Pc, nextId: nat) {
    && (forall id :: id in durable ==> id <= nextId)
    && top <= nextId
    && (holder.CounterSaved? || holder.OpsSaved? ==> forall id :: id in durable ==> id <= counter)
  }

  /** Threads work on distinct ids; a fresh one is in no record, a marker is as its thread left it. */
  ghost predicate WorkInv(m: Memory, live: map<nat, Record>, durable: set<nat>) {
    && (forall t: nat, u: nat {:trigger m.Thread(t).Id(), m.Thread(u).Id()} ::
          t != u && m.Thread(t).Id().Some? ==> m.Thread(t).Id() != m.Thread(u).Id())
    && (forall t: nat :: m.Thread(t).Id().Some? ==> m.Thread(t).Id().value <= m.nextId)
    && (forall t: nat :: m.Thread(t).Allocated? ==> m.Thread(t).id !in durable)
    && (forall t: nat :: m.Thread(t).Marked? ==>
          var p := m.Thread(t).marker;
          p.Prepared? && p.id in live && live[p.id] == p)
  }

  ghost predicate DiskInv(ops: seq<Record>, counter: nat, durable: set<nat>) {
    && (forall id :: id in durable ==> id <= CrashRuns.HighWater(counter, ops))
    && (forall id :: id in Live(ops) ==> id in durable)
  }

  ghost predicate Inv(s: State) {
    && DiskInv(s.ops, s.counter, s.durable)
    && (s.memory.Some? ==>
          var m := s.memory.value;
          && LockInv(m)
          && SoundInv(m.Holder(), m.records, Live(s.ops), s.durable) && MarkInv(m)
          && (!m.opsBehind ==> TableInv(m.Holder(), m.records, Live(s.ops)))
          && (!m.reqsBehind ==> RequestInv(m.Holder(), m.requests, Requests(s.reqs), s.cleared))
          && IdInv(CrashRuns.HighWater(s.counter, s.ops), s.counter, s.durable, m.Holder(), m.nextId)
          && WorkInv(m, Live(s.ops), s.durable))
  }

  // ---- ids ----

  lemma {:induction false} HighWaterBelow(counter: nat, ops: seq<Record>, bound: nat)
    requires counter <= bound && forall r :: r in ops ==> r.id <= bound
    ensures CrashRuns.HighWater(counter, ops) <= bound
  {
    if ops != [] {
      assert ops == ops[..|ops| - 1] + [ops[|ops| - 1]];
      HighWaterBelow(counter, ops[..|ops| - 1], bound);
    }
  }

  /** Lines under ids already in the log raise no mark and bring no id. */
  lemma {:induction false} OldIdsOnly(counter: nat, ops: seq<Record>, lines: seq<Record>, ids: set<nat>)
    requires forall r :: r in lines ==> r.id in ids
    requires forall id :: id in ids ==> id <= CrashRuns.HighWater(counter, ops)
    requires forall id :: id in Live(ops) ==> id in ids
    ensures CrashRuns.HighWater(counter, ops + lines) == CrashRuns.HighWater(counter, ops)
    ensures forall id :: id in Live(ops + lines) ==> id in ids
    decreases |lines|
  {
    if lines == [] {
      assert ops + lines == ops;
    } else {
      hide Live; hide CrashRuns.HighWater;
      var init := lines[..|lines| - 1];
      assert lines == init + [lines[|lines| - 1]];
      OldIdsOnly(counter, ops, init, ids);
      assert ops + lines == (ops + init) + [lines[|lines| - 1]];
      AppendViews(counter, ops + init, lines[|lines| - 1]);
    }
  }

  /** Recovery writes under the ids of the markers it found. */
  lemma {:induction false} SettleAllIds(t: seq<Record>, ps: seq<Record>, ws: Workspace, now: nat)
    requires forall p :: p in ps ==> p.Prepared?
    ensures forall r :: r in SettleAll(t, ps, ws, now).ops ==> exists p :: p in ps && p.id == r.id
    decreases |ps|
  {
    if ps != [] {
      hide Judge; hide VerdictTable; hide VerdictReply; hide VerdictAction;
      var p := ps[|ps| - 1];
      var v := Judge(t, p, ws);
      assert ps == ps[..|ps| - 1] + [p];
      SettleAllIds(VerdictTable(t, p, v, now), ps[..|ps| - 1], ws, now + 1);
      assert VerdictLine(p, v, now).id == p.id;
    }
  }

  lemma RecoveredIds(ops: seq<Record>, ws: Workspace, now: nat)
    ensures forall r :: r in RecoverOps(ops, ws, now).ops ==> r.id in Live(ops)
  {
    LoadedIsLive(ops);
    var t := Loaded(ops);
    SettleAllIds(t, Markers(t), ws, now);
  }

  // ---- starting ----

  lemma StartDisk(s: State, ws: Workspace, now: nat, k: nat)
    requires DiskInv(s.ops, s.counter, s.durable) && k <= |RecoverOps(s.ops, ws, now).ops|
    ensures var ops := s.ops + RecoverOps(s.ops, ws, now).ops[..k];
            && CrashRuns.HighWater(s.counter, ops) == CrashRuns.HighWater(s.counter, s.ops)
            && forall id :: id in Live(ops) ==> id in s.durable
  {
    RecoveredIds(s.ops, ws, now);
    hide Live; hide RecoverOps;
    OldIdsOnly(s.counter, s.ops, RecoverOps(s.ops, ws, now).ops[..k], s.durable);
  }

  lemma FailedStartKeeps(s: State, ws: Workspace, now: nat, stuck: seq<Stalled>, k: nat, j: nat)
    requires Inv(s) && Enabled(s, FailedStart(ws, now, stuck, k, j))
    ensures Inv(DoFailedStart(s, ws, now, stuck, k, j))
  {
    hide RecoverOps; hide ResolveAll; hide Live; hide CrashRuns.HighWater;
    StartDisk(s, ws, now, k);
  }

  /** Whatever recovery answered or cleared, its tables are the new logs' tables up to what it cleared. */
  lemma StartRequests(ops: seq<Record>, reqs: seq<ReqLine>, ws: Workspace, now: nat, stuck: seq<Stalled>)
    requires Collects(stuck, SettledRequests(ops, reqs, ws, now))
    ensures var r := Recover(ops, reqs, ws, now, stuck);
            var replayed := Requests(reqs + r.reqs);
            SameRequests(r.requests, replayed, set rid | rid in replayed && rid !in r.requests)
  {
    hide RecoverOps; hide StuckLine; hide Requests; hide Remember; hide ResolveAll;
    var settled := RecoverOps(ops, ws, now);
    var requests := SettledRequests(ops, reqs, ws, now);
    var log := reqs + settled.reqs;
    var r := Recover(ops, reqs, ws, now, stuck);
    RememberIsReplay(reqs, settled.reqs);
    ResolveAllEntries(settled.table, requests, stuck);
    ResolveAllLines(settled.table, requests, stuck, log);
    var lines := ResolveAll(settled.table, requests, stuck).lines;
    assert reqs + r.reqs == log + lines;
    forall rid | rid in r.requests ensures At(Requests(log + lines), rid) == At(r.requests, rid) {
      if x :| x in stuck && x.rid == rid {
        assert At(r.requests, rid) == StuckEntry(settled.table, x.rid, x.op);
      } else {
        assert At(r.requests, rid) == At(requests, rid);
        assert At(Requests(log + lines), rid) == At(Requests(log), rid);
      }
    }
  }

  lemma RestartKeeps(s: State, ws: Workspace, now: nat, stuck: seq<Stalled>)
    requires Inv(s) && Enabled(s, Restart(ws, now, stuck))
    ensures Inv(DoRestart(s, ws, now, stuck))
  {
    hide RecoverOps; hide Live; hide CrashRuns.HighWater; hide Requests; hide SettledRequests; hide ResolveAll;
    hide Collects; hide IsTable;
    var r := RecoverOps(s.ops, ws, now);
    assert r.ops[..|r.ops|] == r.ops;
    StartDisk(s, ws, now, |r.ops|);
    SettleTable(s.ops, ws, now);
    StartRequests(s.ops, s.reqs, ws, now, stuck);
  }

  // ---- a thread moves ----

  lemma HolderIs(m: Memory, t: nat)
    requires LockInv(m) && m.Thread(t).Holds()
    ensures m.lock == Some(t) && m.Holder() == m.Thread(t)
  {
  }

  lemma MoveKeepsLock(m: Memory, t: nat, pc: Pc)
    requires LockInv(m) && (pc.Holds() <==> m.Thread(t).Holds())
    ensures LockInv(m.Move(t, pc))
    ensures m.lock != Some(t) ==> m.Move(t, pc).Holder() == m.Holder()
    ensures m.lock == Some(t) ==> m.Move(t, pc).Holder() == pc
  {
    var n := m.Move(t, pc);
    forall u: nat ensures n.Thread(u).Holds() <==> n.lock == Some(u) {
      assert u != t ==> n.Thread(u) == m.Thread(u);
    }
  }

  lemma TakeKeepsLock(m: Memory, t: nat, pc: Pc)
    requires LockInv(m) && m.lock.None? && pc.Holds()
    ensures LockInv(m.Take(t, pc)) && m.Take(t, pc).Holder() == pc
  {
    var n := m.Take(t, pc);
    forall u: nat ensures n.Thread(u).Holds() <==> n.lock == Some(u) {
      assert u != t ==> n.Thread(u) == m.Thread(u);
    }
  }

  lemma ReleaseKeepsLock(m: Memory, t: nat, pc: Pc)
    requires LockInv(m) && m.Thread(t).Holds() && !pc.Holds()
    ensures LockInv(m.Release(t, pc)) && m.Release(t, pc).Holder() == Idle
  {
    var n := m.Release(t, pc);
    forall u: nat ensures n.Thread(u).Holds() <==> n.lock == Some(u) {
      assert u != t ==> n.Thread(u) == m.Thread(u);
    }
  }

  /** A thread goes on with the id it had, or drops it. */
  lemma MoveKeepsWork(m: Memory, n: Memory, t: nat, pc: Pc, live: map<nat, Record>, durable: set<nat>)
    requires WorkInv(m, live, durable) && n.threads == m.threads[t := pc] && n.nextId == m.nextId
    requires pc.Id().None? || pc.Id() == m.Thread(t).Id()
    requires !pc.Allocated?
    requires pc.Marked? ==> var p := pc.marker; p.Prepared? && p.id in live && live[p.id] == p
    ensures WorkInv(n, live, durable)
  {
    assert forall u: nat :: u != t ==> n.Thread(u) == m.Thread(u);
    assert n.Thread(t) == pc;
  }

  /** Who has no marker of its own takes none from the table. */
  lemma MoveKeepsMarks(m: Memory, n: Memory, t: nat, pc: Pc)
    requires MarkInv(m) && n.threads == m.threads[t := pc] && n.records == m.records && !pc.Marked?
    ensures MarkInv(n)
  {
    assert forall u: nat :: u != t ==> n.Thread(u) == m.Thread(u);
    assert n.Thread(t) == pc;
  }

  /** A thread gets the next id. */
  lemma AllocateKeepsWork(m: Memory, n: Memory, t: nat, rid: string, live: map<nat, Record>, durable: set<nat>)
    requires WorkInv(m, live, durable) && forall id :: id in durable ==> id <= m.nextId
    requires n.nextId == m.nextId + 1 && n.threads == m.threads[t := Allocated(rid, m.nextId + 1)]
    ensures WorkInv(n, live, durable)
  {
    assert forall u: nat :: u != t ==> n.Thread(u) == m.Thread(u);
    assert n.Thread(t) == Allocated(rid, m.nextId + 1);
  }

  /** A thread logs a line under its own id, and is to apply it or has given up. */
  lemma LogKeepsWork(m: Memory, n: Memory, t: nat, pc: Pc, id: nat,
                     live: map<nat, Record>, next: map<nat, Record>, durable: set<nat>)
    requires WorkInv(m, live, durable) && n.nextId == m.nextId && n.threads == m.threads[t := pc]
    requires m.Thread(t).Id() == Some(id) && (pc.Id().None? || pc.Id() == Some(id)) && !pc.Allocated? && !pc.Marked?
    requires forall i :: i in live && i != id ==> i in next && next[i] == live[i]
    ensures WorkInv(n, next, durable + {id})
  {
    assert forall u: nat :: u != t ==> n.Thread(u) == m.Thread(u);
    assert n.Thread(t) == pc;
    forall u: nat | n.Thread(u).Allocated? || n.Thread(u).Marked? ensures n.Thread(u).Id() != Some(id) {
      assert m.Thread(u).Id() != m.Thread(t).Id();
    }
  }

  lemma AllowedId(m: Memory, t: nat, change: Change)
    requires Allowed(m.Thread(t), change)
    ensures m.Thread(t).Id() == Some(LineFor(change).id)
    ensures m.Thread(t).Allocated? || m.Thread(t).Marked?
    ensures forall live, durable :: WorkInv(m, live, durable) ==> LineFor(change).id <= m.nextId
  {
  }

  // ---- the table ----

  /** What one line does to the log, whatever becomes of it in memory. */
  lemma LoggedLive(ops: seq<Record>, r: Record)
    ensures forall id :: id in Live(ops) && id != r.id ==> id in Live(ops + [r]) && Live(ops + [r])[id] == Live(ops)[id]
    ensures forall id :: id in Live(ops + [r]) ==> id in Live(ops) || id == r.id
  {
    LiveAppend(ops, r);
  }

  /** What is logged and then applied keeps log and table equal. */
  lemma LoggedAgrees(m: Memory, t: nat, change: Change, ops: seq<Record>, durable: set<nat>)
    requires WorkInv(m, Live(ops), durable) && Allowed(m.Thread(t), change)
    requires Agrees(m.records, Live(ops)) && forall id :: id in Live(ops) ==> id in durable
    ensures Agrees(Applied(m.records, change), Live(ops + [LineFor(change)]))
  {
    hide Live;
    LiveAppend(ops, LineFor(change));
    match change
    case Push(r) => PushAgrees(m.records, Live(ops), r);
    case Replace(c) => UpsertLive(m.records, c);
    case Drop(p, ts) => DropPreparedLive(m.records, p.id);
  }

  /** Applied, a change leaves a table in any case. */
  lemma AppliedIsTable(m: Memory, t: nat, change: Change, live: map<nat, Record>, durable: set<nat>)
    requires WorkInv(m, live, durable) && Allowed(m.Thread(t), change) && Tabled(m.records, durable) && MarkInv(m)
    ensures Tabled(Applied(m.records, change), durable + {LineFor(change).id})
    ensures Extends(Live(m.records), Live(Applied(m.records, change)), LineFor(change).id)
  {
    hide Live;
    match change
    case Push(r) => PushAgrees(m.records, Live(m.records), r);
    case Replace(c) => UpsertLive(m.records, c);
    case Drop(p, ts) => DropPreparedLive(m.records, p.id);
  }

  lemma CutTable(records: seq<Record>, live: map<nat, Record>, keep: nat)
    requires Agrees(records, live)
    ensures IsTable(PruneTable(records, keep)) && PrunedFrom(Live(PruneTable(records, keep)), live)
  {
    hide Live;
    var kept := PruneTable(records, keep);
    RetainKeepsTable(records, Excess(records, keep));
    PruneByKind(records, keep);
    MembersOfLive(records);
    MembersOfLive(kept);
    MarkersTable(records);
    MarkersTable(kept);
    forall id | id in Live(kept) ensures id in live && Live(kept)[id] == live[id] {
      assert Live(kept)[id] in kept;
      assert Live(kept)[id] in records;
    }
    forall id | id in live && live[id].Prepared? ensures id in Live(kept) {
      assert live[id] in records;
      assert live[id] in Markers(records);
      assert live[id] in kept;
    }
  }

  // ---- the steps ----

  /** A thread that does not hold the lock goes on without touching anything else. */
  lemma QuietMoveKeeps(s: State, m: Memory, t: nat, pc: Pc)
    requires Inv(s) && s.memory == Some(m) && !m.Thread(t).Holds() && !pc.Holds()
    requires pc.Id().None?
    ensures Inv(s.(memory := Some(m.Move(t, pc))))
  {
    hide Live; hide Requests; hide DiskInv; hide WorkInv; hide LockInv; hide TableInv; hide RequestInv; hide CrashRuns.HighWater;
    hide SoundInv; hide MarkInv;
    NotHolding(m, t);
    MoveKeepsLock(m, t, pc);
    MoveKeepsMarks(m, m.Move(t, pc), t, pc);
    MoveKeepsWork(m, m.Move(t, pc), t, pc, Live(s.ops), s.durable);
  }

  lemma NotHolding(m: Memory, t: nat)
    requires LockInv(m) && !m.Thread(t).Holds()
    ensures m.lock != Some(t)
  {
  }

  lemma FreeIsIdle(m: Memory)
    requires m.lock.None?
    ensures m.Holder() == Idle
  {
  }

  lemma AllocateKeeps(s: State, m: Memory, t: nat)
    requires Inv(s) && s.memory == Some(m) && ThreadEnabled(s, m, Allocate(t))
    ensures Inv(ThreadStep(s, m, Allocate(t)))
  {
    hide Live; hide Requests; hide DiskInv; hide WorkInv; hide LockInv; hide TableInv; hide RequestInv; hide CrashRuns.HighWater;
    hide SoundInv; hide MarkInv;
    NotHolding(m, t);
    var pc := Allocated(m.Thread(t).rid, m.nextId + 1);
    var n := m.(nextId := m.nextId + 1);
    NextIdIsNotLocked(m);
    MoveKeepsLock(n, t, pc);
    MoveKeepsMarks(m, n.Move(t, pc), t, pc);
    AllocateKeepsWork(m, n.Move(t, pc), t, m.Thread(t).rid, Live(s.ops), s.durable);
  }

  lemma NextIdIsNotLocked(m: Memory)
    requires LockInv(m)
    ensures forall id :: LockInv(m.(nextId := id)) && m.(nextId := id).Holder() == m.Holder()
  {
    forall id ensures LockInv(m.(nextId := id)) && m.(nextId := id).Holder() == m.Holder() {
      var n := m.(nextId := id);
      assert forall t: nat :: n.Thread(t) == m.Thread(t);
    }
  }

  lemma LockKeeps(s: State, m: Memory, t: nat)
    requires Inv(s) && s.memory == Some(m) && ThreadEnabled(s, m, Lock(t))
    ensures Inv(ThreadStep(s, m, Lock(t)))
  {
    hide Live; hide Requests; hide DiskInv; hide WorkInv; hide LockInv; hide CrashRuns.HighWater; hide MarkInv; hide Tabled;
    var pc := Deciding(m.Thread(t).rid, m.Thread(t).op);
    FreeIsIdle(m);
    TakeKeepsLock(m, t, pc);
    MoveKeepsMarks(m, m.Take(t, pc), t, pc);
    MoveKeepsWork(m, m.Take(t, pc), t, pc, Live(s.ops), s.durable);
  }

  lemma SameAfterLine(requests: map<string, Entry>, log: seq<ReqLine>, cleared: set<string>, line: ReqLine)
    requires SameRequests(requests, Requests(log), cleared)
    ensures SameRequests(requests[line.rid := EntryOf(line)], Requests(log + [line]), cleared)
  {
    hide Requests;
    RequestsAppend(log, line);
  }

  /** The flags are no one's business but the invariant's. */
  lemma FlagsAreQuiet(m: Memory, opsBehind: bool, reqsBehind: bool)
    requires LockInv(m) && MarkInv(m)
    ensures var n := m.(opsBehind := opsBehind, reqsBehind := reqsBehind); LockInv(n) && MarkInv(n) && n.Holder() == m.Holder()
    ensures forall t: nat :: m.(opsBehind := opsBehind, reqsBehind := reqsBehind).Thread(t) == m.Thread(t)
  {
    var n := m.(opsBehind := opsBehind, reqsBehind := reqsBehind);
    assert forall t: nat :: n.Thread(t) == m.Thread(t);
  }

  lemma DecideKeeps(s: State, m: Memory, t: nat, io: CrashRuns.Fate)
    requires Inv(s) && s.memory == Some(m) && ThreadEnabled(s, m, Decide(t, io))
    ensures Inv(ThreadStep(s, m, Decide(t, io)))
  {
    hide Live; hide Requests; hide DiskInv; hide WorkInv; hide LockInv; hide CrashRuns.HighWater; hide SameRequests;
    hide MarkInv; hide Tabled;
    HolderIs(m, t);
    var pc := m.Thread(t);
    if pc.rid in m.requests || !io.Logged? {
      var n := if pc.rid !in m.requests && io.Unsynced? then m.(reqsBehind := true) else m;
      FlagsAreQuiet(m, m.opsBehind, n.reqsBehind);
      ReleaseKeepsLock(n, t, Idle);
      MoveKeepsMarks(m, n.Release(t, Idle), t, Idle);
      MoveKeepsWork(m, n.Release(t, Idle), t, Idle, Live(s.ops), s.durable);
    } else {
      var line := ClaimLine(pc.rid, pc.op);
      if !m.reqsBehind {
        SameAfterLine(m.requests, s.reqs, s.cleared, line);
      }
      MoveKeepsLock(m, t, ReqLogged(line));
      MoveKeepsMarks(m, m.Move(t, ReqLogged(line)), t, ReqLogged(line));
      MoveKeepsWork(m, m.Move(t, ReqLogged(line)), t, ReqLogged(line), Live(s.ops), s.durable);
    }
  }

  lemma AnswerKeeps(s: State, m: Memory, t: nat, line: ReqLine, io: CrashRuns.Fate)
    requires Inv(s) && s.memory == Some(m) && ThreadEnabled(s, m, Answer(t, line, io))
    ensures Inv(ThreadStep(s, m, Answer(t, line, io)))
  {
    hide Live; hide Requests; hide DiskInv; hide WorkInv; hide LockInv; hide CrashRuns.HighWater; hide SameRequests;
    hide MarkInv; hide Tabled;
    FreeIsIdle(m);
    if io.Logged? {
      if !m.reqsBehind {
        SameAfterLine(m.requests, s.reqs, s.cleared, line);
      }
      TakeKeepsLock(m, t, ReqLogged(line));
      MoveKeepsMarks(m, m.Take(t, ReqLogged(line)), t, ReqLogged(line));
      MoveKeepsWork(m, m.Take(t, ReqLogged(line)), t, ReqLogged(line), Live(s.ops), s.durable);
    } else {
      var n := if io.Unsynced? then m.(reqsBehind := true) else m;
      FlagsAreQuiet(m, m.opsBehind, n.reqsBehind);
      NotHolding(m, t);
      MoveKeepsLock(n, t, Idle);
      MoveKeepsMarks(m, n.Move(t, Idle), t, Idle);
      MoveKeepsWork(m, n.Move(t, Idle), t, Idle, Live(s.ops), s.durable);
    }
  }

  lemma LogOpDisk(ops: seq<Record>, counter: nat, durable: set<nat>, r: Record)
    requires DiskInv(ops, counter, durable)
    ensures DiskInv(ops + [r], counter, durable + {r.id})
  {
    hide Live; hide CrashRuns.HighWater;
    LoggedLive(ops, r);
    AppendViews(counter, ops, r);
  }

  /** Whether it is applied next or given up, a line under the thread's own id keeps ids and work. */
  lemma LogOpParts(s: State, m: Memory, n: Memory, t: nat, change: Change, pc: Pc)
    requires WorkInv(m, Live(s.ops), s.durable) && DiskInv(s.ops, s.counter, s.durable)
    requires IdInv(CrashRuns.HighWater(s.counter, s.ops), s.counter, s.durable, Idle, m.nextId)
    requires Allowed(m.Thread(t), change) && n.nextId == m.nextId && n.threads == m.threads[t := pc]
    requires (pc.Id().None? || pc.Id() == Some(LineFor(change).id)) && !pc.Allocated? && !pc.Marked?
    ensures var line := LineFor(change);
            var ops, durable := s.ops + [line], s.durable + {line.id};
            && DiskInv(ops, s.counter, durable) && WorkInv(n, Live(ops), durable)
            && IdInv(CrashRuns.HighWater(s.counter, ops), s.counter, durable, Idle, n.nextId)
  {
    hide Live; hide CrashRuns.HighWater; hide Allowed; hide WorkInv; hide LineFor; hide DiskInv;
    var line := LineFor(change);
    AllowedId(m, t, change);
    LoggedLive(s.ops, line);
    LogKeepsWork(m, n, t, pc, line.id, Live(s.ops), Live(s.ops + [line]), s.durable);
    LogOpDisk(s.ops, s.counter, s.durable, line);
    AppendViews(s.counter, s.ops, line);
  }

  lemma LogOpKeeps(s: State, m: Memory, t: nat, change: Change, undone: Option<nat>)
    requires Inv(s) && s.memory == Some(m) && ThreadEnabled(s, m, LogOp(t, change, CrashRuns.Logged, undone))
    ensures Inv(ThreadStep(s, m, LogOp(t, change, CrashRuns.Logged, undone)))
  {
    hide Live; hide Requests; hide DiskInv; hide WorkInv; hide LockInv; hide SameRequests; hide CrashRuns.HighWater; hide Agrees;
    hide Allowed; hide Applied; hide LineFor; hide MarkInv; hide Tabled; hide Extends;
    AllowedId(m, t, change);
    var pc := OpLogged(m.Thread(t).rid, change);
    FreeIsIdle(m);
    LogOpParts(s, m, m.Take(t, pc), t, change, pc);
    if change.Push? {
      PushIsLogged(m, t, change, s.ops);
    }
    MoreBooks(m.records, s.durable, LineFor(change).id);
    AppliedIsTable(m, t, change, Live(s.ops), s.durable);
    if !m.opsBehind {
      LiveIsBooked(s.ops, s.counter, s.durable);
      LoggedAgrees(m, t, change, s.ops, s.durable);
    }
    TakeKeepsLock(m, t, pc);
    MoveKeepsMarks(m, m.Take(t, pc), t, pc);
  }

  lemma PushIsLogged(m: Memory, t: nat, change: Change, ops: seq<Record>)
    requires Allowed(m.Thread(t), change) && change.Push?
    ensures var live := Live(ops + [LineFor(change)]); change.r.id in live && live[change.r.id] == change.r
  {
    LiveAppend(ops, change.r);
  }

  lemma MoreBooks(records: seq<Record>, durable: set<nat>, id: nat)
    requires Tabled(records, durable)
    ensures Tabled(records, durable + {id})
  {
    hide Live; hide IsTable;
  }

  lemma LiveIsBooked(ops: seq<Record>, counter: nat, durable: set<nat>)
    requires DiskInv(ops, counter, durable)
    ensures forall id :: id in Live(ops) ==> id in durable
  {
  }

  /** The line is in the log, the word is that it failed, and the table never hears of it. */
  lemma UnsyncedOpKeeps(s: State, m: Memory, t: nat, change: Change, undone: Option<nat>)
    requires Inv(s) && s.memory == Some(m) && ThreadEnabled(s, m, LogOp(t, change, CrashRuns.Unsynced, undone))
    requires !TakenBack(change, CrashRuns.Unsynced, undone)
    ensures Inv(ThreadStep(s, m, LogOp(t, change, CrashRuns.Unsynced, undone)))
  {
    hide Live; hide Requests; hide DiskInv; hide WorkInv; hide LockInv; hide SameRequests; hide CrashRuns.HighWater; hide Agrees;
    hide Allowed; hide Applied; hide LineFor; hide MarkInv; hide Tabled; hide Extends;
    AllowedId(m, t, change);
    var pc := Owner(m.Thread(t).rid);
    var n := m.(opsBehind := true);
    FreeIsIdle(m);
    FlagsAreQuiet(m, true, m.reqsBehind);
    NotHolding(m, t);
    LogOpParts(s, m, n.Move(t, pc), t, change, pc);
    MoreBooks(m.records, s.durable, LineFor(change).id);
    MoveKeepsLock(n, t, pc);
    MoveKeepsMarks(m, n.Move(t, pc), t, pc);
  }

  /** The marker is in the log and superseded there: table and log say what they said before. */
  lemma TakenBackKeeps(s: State, m: Memory, t: nat, change: Change, undone: Option<nat>)
    requires Inv(s) && s.memory == Some(m) && ThreadEnabled(s, m, LogOp(t, change, CrashRuns.Unsynced, undone))
    requires TakenBack(change, CrashRuns.Unsynced, undone)
    ensures Inv(ThreadStep(s, m, LogOp(t, change, CrashRuns.Unsynced, undone)))
  {
    hide Live; hide Requests; hide DiskInv; hide WorkInv; hide LockInv; hide SameRequests; hide CrashRuns.HighWater; hide Agrees;
    hide Allowed; hide MarkInv; hide Tabled; hide Extends;
    AllowedId(m, t, change);
    var p, pc := change.r, Owner(m.Thread(t).rid);
    var n := m.Move(t, pc);
    FreeIsIdle(m);
    NotHolding(m, t);
    TakenBackLive(s, m, t, change, undone.value);
    TakenBackParts(s, m, n, t, change, undone.value);
    MoreBooks(m.records, s.durable, p.id);
    assert s.durable + {p.id} + {p.id} == s.durable + {p.id};
    MoveKeepsLock(m, t, pc);
    MoveKeepsMarks(m, n, t, pc);
  }

  lemma TakenBackLive(s: State, m: Memory, t: nat, change: Change, at: nat)
    requires WorkInv(m, Live(s.ops), s.durable) && DiskInv(s.ops, s.counter, s.durable)
    requires Allowed(m.Thread(t), change) && change.Push?
    ensures Live(s.ops + [change.r] + [Aborted(change.r.id, at)]) == Live(s.ops)
  {
    hide Live; hide CrashRuns.HighWater;
    LiveAppend(s.ops, change.r);
    LiveAppend(s.ops + [change.r], Aborted(change.r.id, at));
    assert Live(s.ops)[change.r.id := change.r] - {change.r.id} == Live(s.ops);
  }

  lemma TakenBackParts(s: State, m: Memory, n: Memory, t: nat, change: Change, at: nat)
    requires WorkInv(m, Live(s.ops), s.durable) && DiskInv(s.ops, s.counter, s.durable)
    requires IdInv(CrashRuns.HighWater(s.counter, s.ops), s.counter, s.durable, Idle, m.nextId)
    requires Allowed(m.Thread(t), change) && change.Push? && n.nextId == m.nextId
    requires n.threads == m.threads[t := Owner(m.Thread(t).rid)]
    requires Live(s.ops + [change.r] + [Aborted(change.r.id, at)]) == Live(s.ops)
    ensures var ops, durable := s.ops + [change.r] + [Aborted(change.r.id, at)], s.durable + {change.r.id};
            && DiskInv(ops, s.counter, durable) && WorkInv(n, Live(ops), durable)
            && IdInv(CrashRuns.HighWater(s.counter, ops), s.counter, durable, Idle, n.nextId)
  {
    hide Live; hide CrashRuns.HighWater; hide Allowed; hide WorkInv; hide DiskInv;
    AllowedId(m, t, change);
    var p, pc := change.r, Owner(m.Thread(t).rid);
    LogKeepsWork(m, n, t, pc, p.id, Live(s.ops), Live(s.ops), s.durable);
    LogOpDisk(s.ops, s.counter, s.durable, p);
    LogOpDisk(s.ops + [p], s.counter, s.durable + {p.id}, Aborted(p.id, at));
    assert s.durable + {p.id} + {p.id} == s.durable + {p.id};
    AppendViews(s.counter, s.ops, p);
    AppendViews(s.counter, s.ops + [p], Aborted(p.id, at));
  }

  /** A marker that was just pushed is live. */
  lemma PushedIsLive(records: seq<Record>, r: Record)
    requires IsTable(records + [r])
    ensures r.id in Live(records + [r]) && Live(records + [r])[r.id] == r
  {
    MembersOfLive(records + [r]);
    assert (records + [r])[|records|] == r;
  }

  lemma AppliedPush(records: seq<Record>, change: Change)
    requires change.Push?
    ensures Applied(records, change) == records + [change.r]
  {
  }

  lemma LockIgnoresTables(m: Memory, n: Memory)
    requires LockInv(m) && n.lock == m.lock && n.threads == m.threads
    ensures LockInv(n) && n.Holder() == m.Holder()
    ensures forall t: nat :: n.Thread(t) == m.Thread(t)
  {
    assert forall t: nat :: n.Thread(t) == m.Thread(t);
  }

  /** Other threads' markers are under other ids. */
  lemma ApplyKeepsMarks(m: Memory, n: Memory, t: nat, live: map<nat, Record>, durable: set<nat>)
    requires WorkInv(m, live, durable) && MarkInv(m) && m.Thread(t).OpLogged?
    requires var change := m.Thread(t).change;
             && n.records == Applied(m.records, change) && n.threads == m.threads[t := After(m.Thread(t).rid, change)]
             && IsTable(n.records) && Extends(Live(m.records), Live(n.records), LineFor(change).id)
    ensures MarkInv(n)
  {
    hide Live; hide IsTable;
    var change := m.Thread(t).change;
    if change.Push? {
      AppliedPush(m.records, change);
      PushedIsLive(m.records, change.r);
    }
    assert forall u: nat :: u != t ==> n.Thread(u) == m.Thread(u);
    assert n.Thread(t) == After(m.Thread(t).rid, change);
    forall u: nat | n.Thread(u).Marked?
      ensures n.Thread(u).marker.id in Live(n.records) && Live(n.records)[n.Thread(u).marker.id] == n.Thread(u).marker {
      if u != t {
        assert m.Thread(u).Id() != m.Thread(t).Id();
      }
    }
  }

  /** What was pushed is in the log under its id: it was logged just before, by this thread. */
  lemma ApplyOpKeeps(s: State, m: Memory, t: nat)
    requires Inv(s) && s.memory == Some(m) && m.Thread(t).OpLogged?
    ensures Inv(ThreadStep(s, m, Apply(t)))
  {
    hide Live; hide Requests; hide DiskInv; hide WorkInv; hide LockInv; hide SameRequests; hide CrashRuns.HighWater; hide Agrees;
    hide Applied; hide MarkInv; hide Tabled; hide Extends;
    var rid, change := m.Thread(t).rid, m.Thread(t).change;
    HolderIs(m, t);
    var n := m.(records := Applied(m.records, change));
    LockIgnoresTables(m, n);
    ReleaseKeepsLock(n, t, After(rid, change));
    TabledIsTable(n.records, s.durable);
    ApplyKeepsMarks(m, n.Release(t, After(rid, change)), t, Live(s.ops), s.durable);
    MoveKeepsWork(m, n.Release(t, After(rid, change)), t, After(rid, change), Live(s.ops), s.durable);
  }

  lemma TabledIsTable(records: seq<Record>, durable: set<nat>)
    requires Tabled(records, durable)
    ensures IsTable(records)
  {
  }

  lemma ApplyReqKeeps(s: State, m: Memory, t: nat)
    requires Inv(s) && s.memory == Some(m) && m.Thread(t).ReqLogged?
    ensures Inv(ThreadStep(s, m, Apply(t)))
  {
    hide Live; hide Requests; hide DiskInv; hide WorkInv; hide LockInv; hide SameRequests; hide CrashRuns.HighWater; hide Agrees;
    hide MarkInv; hide Tabled;
    var line := m.Thread(t).line;
    HolderIs(m, t);
    var n := m.(requests := m.requests[line.rid := EntryOf(line)]);
    LockIgnoresTables(m, n);
    var next := if line.status.InProgress? then Owner(line.rid) else Idle;
    ReleaseKeepsLock(n, t, next);
    MoveKeepsMarks(m, n.Release(t, next), t, next);
    MoveKeepsWork(m, n.Release(t, next), t, next, Live(s.ops), s.durable);
  }

  /** A prune keeps every marker, and so those of threads that have not ended theirs. */
  lemma CutKeepsMarks(m: Memory, n: Memory, t: nat, live: map<nat, Record>, durable: set<nat>)
    requires MarkInv(m) && WorkInv(m, live, durable) && PrunedFrom(Live(n.records), Live(m.records))
    requires n.threads == m.threads[t := TablesCut]
    ensures MarkInv(n)
  {
    hide Live;
    assert forall u: nat :: u != t ==> n.Thread(u) == m.Thread(u);
    assert n.Thread(t) == TablesCut;
  }

  lemma CutKeeps(s: State, m: Memory, t: nat, keep: nat)
    requires Inv(s) && s.memory == Some(m) && ThreadEnabled(s, m, Cut(t, keep))
    ensures Inv(ThreadStep(s, m, Cut(t, keep)))
  {
    hide Live; hide Requests; hide DiskInv; hide WorkInv; hide LockInv; hide SameRequests; hide CrashRuns.HighWater;
    hide PruneTable; hide PruneRequests; hide IsTable; hide PrunedFrom; hide MarkInv;
    FreeIsIdle(m);
    CutTable(m.records, Live(m.records), keep);
    var kept := PruneTable(m.records, keep);
    var n := m.(records := kept, requests := PruneRequests(m.requests, kept));
    LockIgnoresTables(m, n);
    TakeKeepsLock(n, t, TablesCut);
    CutIsBooked(kept, m.records, s.durable);
    CutKeepsMarks(m, n.Take(t, TablesCut), t, Live(s.ops), s.durable);
    MoveKeepsWork(m, n.Take(t, TablesCut), t, TablesCut, Live(s.ops), s.durable);
  }

  lemma CutIsBooked(kept: seq<Record>, records: seq<Record>, durable: set<nat>)
    requires IsTable(kept) && PrunedFrom(Live(kept), Live(records)) && Tabled(records, durable)
    ensures Tabled(kept, durable)
  {
    hide Live; hide IsTable;
  }

  lemma {:induction false} CounterCovers(counter: nat, ops: seq<Record>, nextId: nat)
    requires CrashRuns.HighWater(counter, ops) <= nextId
    ensures CrashRuns.HighWater(nextId, ops) == nextId
  {
    if ops != [] {
      CounterCovers(counter, ops[..|ops| - 1], nextId);
    }
  }

  /** The counter goes first: from here on it alone covers every id that is out. */
  lemma SaveCounterKeeps(s: State, m: Memory, t: nat)
    requires Inv(s) && s.memory == Some(m) && ThreadEnabled(s, m, SaveCounter(t))
    ensures Inv(ThreadStep(s, m, SaveCounter(t)))
  {
    hide Live; hide Requests; hide WorkInv; hide LockInv; hide SameRequests; hide CrashRuns.HighWater; hide Agrees;
    hide PrunedFrom; hide MarkInv; hide Tabled;
    HolderIs(m, t);
    MoveKeepsLock(m, t, CounterSaved);
    MoveKeepsMarks(m, m.Move(t, CounterSaved), t, CounterSaved);
    MoveKeepsWork(m, m.Move(t, CounterSaved), t, CounterSaved, Live(s.ops), s.durable);
    CounterCovers(s.counter, s.ops, m.nextId);
  }

  /** The cut table becomes the log, whatever the log was. */
  lemma SaveOpsParts(live: map<nat, Record>, counter: nat, durable: set<nat>, m: Memory)
    requires Tabled(m.records, durable) && MarkInv(m) && WorkInv(m, live, durable)
    requires forall id :: id in durable ==> id <= counter
    ensures DiskInv(m.records, counter, durable) && WorkInv(m, Live(m.records), durable)
    ensures CrashRuns.HighWater(counter, m.records) == counter
    ensures Agrees(m.records, Live(m.records))
  {
    hide Live; hide CrashRuns.HighWater;
    MembersOfLive(m.records);
    HighWaterBelow(counter, m.records, counter);
    CounterBelow(counter, m.records);
  }

  lemma SaveOpsKeeps(s: State, m: Memory, t: nat)
    requires Inv(s) && s.memory == Some(m) && ThreadEnabled(s, m, SaveOps(t))
    ensures Inv(ThreadStep(s, m, SaveOps(t)))
  {
    CounterBelow(s.counter, s.ops);
    hide Live; hide Requests; hide WorkInv; hide LockInv; hide SameRequests; hide CrashRuns.HighWater; hide Agrees; hide DiskInv;
    hide PrunedFrom; hide MarkInv; hide Tabled;
    HolderIs(m, t);
    SaveOpsParts(Live(s.ops), s.counter, s.durable, m);
    var n := m.(opsBehind := false);
    FlagsAreQuiet(m, false, m.reqsBehind);
    MoveKeepsLock(n, t, OpsSaved);
    MoveKeepsMarks(m, n.Move(t, OpsSaved), t, OpsSaved);
    MoveKeepsWork(m, n.Move(t, OpsSaved), t, OpsSaved, Live(m.records), s.durable);
  }

  lemma CounterBelow(counter: nat, ops: seq<Record>)
    ensures counter <= CrashRuns.HighWater(counter, ops)
  {
  }

  lemma SaveReqsKeeps(s: State, m: Memory, t: nat, lines: seq<ReqLine>)
    requires Inv(s) && s.memory == Some(m) && ThreadEnabled(s, m, SaveReqs(t, lines))
    ensures Inv(ThreadStep(s, m, SaveReqs(t, lines)))
  {
    hide Live; hide WorkInv; hide LockInv; hide CrashRuns.HighWater; hide Agrees; hide DiskInv; hide Requests; hide MarkInv;
    hide Tabled;
    HolderIs(m, t);
    var n := m.(reqsBehind := false);
    FlagsAreQuiet(m, m.opsBehind, false);
    ReleaseKeepsLock(n, t, Idle);
    MoveKeepsMarks(m, n.Release(t, Idle), t, Idle);
    MoveKeepsWork(m, n.Release(t, Idle), t, Idle, Live(s.ops), s.durable);
  }

  /** A file that cannot be replaced ends the prune: the tables stay cut, the files that follow stay as they were. */
  lemma AbandonPruneKeeps(s: State, m: Memory, t: nat)
    requires Inv(s) && s.memory == Some(m) && ThreadEnabled(s, m, AbandonPrune(t))
    ensures Inv(ThreadStep(s, m, AbandonPrune(t)))
  {
    hide Live; hide WorkInv; hide LockInv; hide CrashRuns.HighWater; hide Agrees; hide DiskInv; hide Requests; hide MarkInv;
    hide Tabled; hide PrunedFrom;
    HolderIs(m, t);
    var behind := m.opsBehind || !m.Thread(t).OpsSaved?;
    var n := m.(opsBehind := behind, reqsBehind := true);
    FlagsAreQuiet(m, behind, true);
    ReleaseKeepsLock(n, t, Idle);
    MoveKeepsMarks(m, n.Release(t, Idle), t, Idle);
    MoveKeepsWork(m, n.Release(t, Idle), t, Idle, Live(s.ops), s.durable);
  }

  lemma StepKeeps(s: State, a: Step)
    requires Inv(s) && Enabled(s, a)
    ensures Inv(Do(s, a))
  {
    hide Inv; hide Recover;
    match a
    case Crash => CrashKeeps(s);
    case Restart(ws, now, stuck) => RestartKeeps(s, ws, now, stuck);
    case FailedStart(ws, now, stuck, k, j) => FailedStartKeeps(s, ws, now, stuck, k, j);
    case _ => ThreadStepKeeps(s, s.memory.value, a);
  }

  lemma CrashKeeps(s: State)
    requires Inv(s)
    ensures Inv(s.(memory := None))
  {
    hide Live; hide CrashRuns.HighWater;
  }

  lemma ThreadStepKeeps(s: State, m: Memory, a: Step)
    requires Inv(s) && s.memory == Some(m) && ThreadEnabled(s, m, a)
    ensures Inv(ThreadStep(s, m, a))
  {
    hide Inv; hide Requests; hide PruneTable; hide PruneRequests;
    match a
    case Look(t, rid, op) => QuietMoveKeeps(s, m, t, Claiming(rid, op));
    case Lock(t) => LockKeeps(s, m, t);
    case Decide(t, io) => DecideKeeps(s, m, t, io);
    case Allocate(t) => AllocateKeeps(s, m, t);
    case LogOp(t, change, io, undone) =>
      AllowedId(m, t, change);
      match io {
        case Logged => LogOpKeeps(s, m, t, change, undone);
        case Unsynced =>
          if TakenBack(change, io, undone) {
            TakenBackKeeps(s, m, t, change, undone);
          } else {
            UnsyncedOpKeeps(s, m, t, change, undone);
          }
        case Refused => QuietMoveKeeps(s, m, t, Owner(m.Thread(t).rid));
      }
    case Answer(t, line, io) => AnswerKeeps(s, m, t, line, io);
    case Apply(t) =>
      if m.Thread(t).OpLogged? {
        ApplyOpKeeps(s, m, t);
      } else {
        ApplyReqKeeps(s, m, t);
      }
    case GiveUp(t) => QuietMoveKeeps(s, m, t, Owner(m.Thread(t).rid));
    case Cut(t, keep) => CutKeeps(s, m, t, keep);
    case SaveCounter(t) => SaveCounterKeeps(s, m, t);
    case SaveOps(t) => SaveOpsKeeps(s, m, t);
    case SaveReqs(t, lines) => SaveReqsKeeps(s, m, t, lines);
    case AbandonPrune(t) => AbandonPruneKeeps(s, m, t);
  }

  // ---- every run ----

  /** `steps` can be taken one after the other from `s`, whatever threads they belong to. */
  ghost predicate Possible(s: State, steps: seq<Step>)
    decreases |steps|
  {
    steps == [] || (Enabled(s, steps[0]) && Possible(Do(s, steps[0]), steps[1..]))
  }

  ghost function Final(s: State, steps: seq<Step>): State
    requires Possible(s, steps)
    decreases |steps|
  {
    if steps == [] then s else Final(Do(s, steps[0]), steps[1..])
  }

  lemma {:induction false} RunKeeps(s: State, steps: seq<Step>)
    requires Inv(s) && Possible(s, steps)
    ensures Inv(Final(s, steps))
    decreases |steps|
  {
    hide Inv; hide Enabled; hide Do;
    if steps != [] {
      StepKeeps(s, steps[0]);
      RunKeeps(Do(s, steps[0]), steps[1..]);
    }
  }

  /** An empty state directory, not yet opened. */
  const EMPTY := State([], [], 0, None, {}, {})

  lemma EmptyHolds()
    ensures Inv(EMPTY)
  {
  }

  /**
   Tables refine logs: after any interleaving of any number of threads with prunes, failed appends,
   crashes and restarts, whenever the append lock is free and no line was written in vain since the
   last prune or start, the record table is the replay of the operations log; and so with
   the request table and the request log, up to requests recovery cleared.
   */
  lemma TablesRefineLogs(steps: seq<Step>)
    requires Possible(EMPTY, steps)
    requires Final(EMPTY, steps).memory.Some? && Final(EMPTY, steps).memory.value.lock.None?
    ensures var s := Final(EMPTY, steps);
            var m := s.memory.value;
            && IsTable(m.records)
            && (!m.opsBehind ==> Live(m.records) == Live(s.ops))
            && (!m.reqsBehind ==>
                  && (forall rid :: rid in m.requests ==> rid in Requests(s.reqs) && Requests(s.reqs)[rid] == m.requests[rid])
                  && (forall rid :: rid in Requests(s.reqs) && rid !in m.requests ==> rid in s.cleared))
  {
    EmptyHolds();
    RunKeeps(EMPTY, steps);
    FreeIsIdle(Final(EMPTY, steps).memory.value);
  }

  /** A line written in vain and not taken back, or a prune that could not finish. */
  predicate InVain(a: Step) {
    || (a.Decide? && a.io.Unsynced?)
    || (a.LogOp? && a.io.Unsynced? && !TakenBack(a.change, a.io, a.undone))
    || (a.Answer? && a.io.Unsynced?)
    || a.AbandonPrune?
  }

  predicate InStep(s: State) {
    s.memory.Some? ==> !s.memory.value.opsBehind && !s.memory.value.reqsBehind
  }

  /** Nothing else takes table and log apart, and a start brings them together. */
  lemma {:induction false} InStepUnlessInVain(s: State, steps: seq<Step>)
    requires Possible(s, steps) && forall i :: 0 <= i < |steps| ==> !InVain(steps[i])
    requires InStep(s) || (steps != [] && steps[0].Restart?)
    ensures InStep(Final(s, steps))
    decreases |steps|
  {
    hide Enabled; hide Do;
    if steps != [] {
      StaysInStep(s, steps[0]);
      InStepUnlessInVain(Do(s, steps[0]), steps[1..]);
    }
  }

  lemma StaysInStep(s: State, a: Step)
    requires Enabled(s, a) && !InVain(a) && (InStep(s) || a.Restart?)
    ensures InStep(Do(s, a))
  {
    hide Recover; hide Requests; hide PruneTable; hide PruneRequests; hide Collects; hide Upsert; hide DropPrepared;
  }

  /**
   Only pruning and the record's own operation take it out of the table: what a thread has applied
   survives every other step of every thread, and so, by the theorem above, is in the log.
   */
  lemma OnlyPruningForgets(s: State, a: Step, r: Record)
    requires Inv(s) && s.memory.Some? && Enabled(s, a) && !a.Crash? && r in s.memory.value.records
    ensures Do(s, a).memory.Some?
    ensures || r in Do(s, a).memory.value.records
            || (a.Cut? && r !in PruneTable(s.memory.value.records, a.keep))
            || (a.Apply? && s.memory.value.Thread(a.t).OpLogged? && LineFor(s.memory.value.Thread(a.t).change).id == r.id)
  {
    hide Inv; hide PruneTable; hide PruneRequests; hide Requests; hide Upsert; hide DropPrepared; hide DoRestart;
    var m := s.memory.value;
    if a.Apply? && m.Thread(a.t).OpLogged? {
      var change := m.Thread(a.t).change;
      if change.Replace? && change.c.id != r.id {
        UpsertKeeps(m.records, change.c, r);
      } else if change.Drop? && change.p.id != r.id {
        DropKeeps(m.records, change.p.id, r);
      }
    }
  }

  lemma {:induction false} UpsertKeeps(t: seq<Record>, c: Record, r: Record)
    requires r in t && r.id != c.id
    ensures r in Upsert(t, c)
  {
    assert t == [t[0]] + t[1..];
    if t[0].id != c.id && r != t[0] {
      UpsertKeeps(t[1..], c, r);
    }
  }

  lemma {:induction false} DropKeeps(t: seq<Record>, id: nat, r: Record)
    requires r in t && r.id != id
    ensures r in DropPrepared(t, id)
  {
    assert t == [t[0]] + t[1..];
    if r in t[1..] {
      DropKeeps(t[1..], id, r);
    }
  }

  // ---- ids over time ----

  /** Every record in the log, superseded or aborted ones included, has its id on the books. */
  ghost predicate Booked(s: State) {
    forall r :: r in s.ops ==> r.id in s.durable
  }

  lemma StepBooks(s: State, a: Step)
    requires Inv(s) && Booked(s) && Enabled(s, a)
    ensures Booked(Do(s, a)) && s.durable <= Do(s, a).durable
  {
    hide LockInv; hide WorkInv; hide RequestInv; hide IdInv; hide CrashRuns.HighWater; hide ResolveAll; hide RecoverOps;
    hide SoundInv; hide MarkInv; hide TableInv; hide Requests; hide PruneTable; hide PruneRequests; hide Upsert; hide DropPrepared;
    hide Collects; hide Allowed;
    match a
    case Restart(ws, now, stuck) => RecoveredIds(s.ops, ws, now);
    case FailedStart(ws, now, stuck, k, j) => RecoveredIds(s.ops, ws, now);
    case SaveOps(t) => SavedIds(s, s.memory.value, t);
    case _ =>
  }

  lemma SavedIds(s: State, m: Memory, t: nat)
    requires Inv(s) && s.memory == Some(m) && m.Thread(t).CounterSaved?
    ensures forall r :: r in m.records ==> r.id in s.durable
  {
    HolderIs(m, t);
    MembersOfLive(m.records);
  }

  lemma {:induction false} RunBooks(s: State, steps: seq<Step>)
    requires Inv(s) && Booked(s) && Possible(s, steps)
    ensures Inv(Final(s, steps)) && Booked(Final(s, steps)) && s.durable <= Final(s, steps).durable
    decreases |steps|
  {
    hide Inv; hide Enabled; hide Do; hide Booked;
    if steps != [] {
      StepKeeps(s, steps[0]);
      StepBooks(s, steps[0]);
      RunBooks(Do(s, steps[0]), steps[1..]);
    }
  }

  /**
   Operation ids are never reused: an id that was in the log at any time is given to no later
   allocation, across prunes, crashes between their writes, and restarts.
   */
  lemma IdsAreNeverReused(earlier: seq<Step>, later: seq<Step>, r: Record, t: nat)
    requires Possible(EMPTY, earlier) && r in Final(EMPTY, earlier).ops
    requires Possible(Final(EMPTY, earlier), later)
    requires var s := Final(Final(EMPTY, earlier), later); Enabled(s, Allocate(t))
    ensures var s := Final(Final(EMPTY, earlier), later);
            Do(s, Allocate(t)).memory.value.Thread(t).id > r.id
  {
    EmptyHolds();
    RunBooks(EMPTY, earlier);
    RunBooks(Final(EMPTY, earlier), later);
  }
}
