/**
 At most once across crashes: over any run, whatever others write, a request no prune dropped
 anything of owns at most one record and starts a command at most once, and lands at most one file
 mutation but for those whose file another writer changed while they were pending.

 The log and the table in memory are held to it each on its own, since a prune writes the table back
 over the log.
 */
module AtMostOnce {
  import opened Options
  import opened Records
  import opened Replay
  import opened Recovery
  import opened WriteAhead
  import opened ExactRecovery
  import opened Pruning
  import opened Replies
  import opened CrashRuns
  import opened RunInvariant

  /** A request that will not be executed again: it is answered, or it is an exec. */
  predicate Spent(e: Entry) {
    !e.status.InProgress? || e.op == Some("exec")
  }

  ghost predicate Owns(live: map<nat, Record>, rid: string) {
    exists id :: id in live && !live[id].Aborted? && live[id].rid == rid
  }

  /** `gone` are the requests a prune dropped something of: nothing is said of them. */
  ghost predicate OneRecordEach(live: map<nat, Record>, gone: set<string>) {
    forall i, j :: i in live && j in live && i != j && !live[i].Aborted? && !live[j].Aborted? && live[i].rid == live[j].rid ==>
                     live[i].rid in gone
  }

  predicate Unique(started: seq<string>, gone: set<string>) {
    forall i, j :: 0 <= i < j < |started| && started[i] == started[j] ==> started[i] in gone
  }

  /** What landed, is not obscured and was not pruned: recovery cannot take it for something that did not happen. */
  function Plain(s: State): set<nat> {
    s.h.landed - s.h.obscured - s.pruned.records
  }

  /** What records and history say about each other. `table` is requests.jsonl, replayed. */
  ghost predicate DiskOnce(live: map<nat, Record>, table: map<string, Entry>, landed: set<nat>, started: seq<string>,
                           gone: set<string>) {
    && OneRecordEach(live, gone)
    && (forall id :: id in landed ==> id in live && live[id].Mutation())
    && (forall rid :: rid !in gone && Owns(live, rid) ==> rid in table)
    && (forall rid :: rid !in gone && rid in started ==> rid in table && Spent(table[rid]))
    && Unique(started, gone)
  }

  /** The line a handler is to answer with is its own, and its last. */
  predicate Shaped(task: Task, rid: string) {
    task.Answering? ==> task.line.rid == rid && Terminal(task.line)
  }

  ghost predicate TaskOnce(live: map<nat, Record>, table: map<string, Entry>, m: Memory, rid: string)
    requires rid in m.tasks
  {
    && rid in m.requests
    && match m.tasks[rid]
       case Claimed(op) => rid in table && m.requests[rid].op == Some(op) && table[rid].op == Some(op) && !Owns(live, rid)
       case Running(_) => !Owns(live, rid)
       case Mutating => true
       case Answering(line) => true
  }

  ghost predicate MemoryOnce(live: map<nat, Record>, table: map<string, Entry>, started: seq<string>, gone: set<string>,
                             m: Memory) {
    && (forall rid :: rid !in gone && Owns(live, rid) ==> rid in m.requests)
    && (forall rid :: rid in m.requests ==> rid in table)
    && (forall rid :: rid in m.tasks ==> Shaped(m.tasks[rid], rid))
    && (forall rid :: rid in m.tasks && rid !in gone ==> TaskOnce(live, table, m, rid))
    && (forall rid :: rid !in gone && rid in started ==> rid in m.requests && Spent(m.requests[rid]))
    && (forall rid :: rid !in gone && rid in started && rid in m.tasks ==> !m.tasks[rid].Claimed?)
  }

  /** Both, for one view of the records. */
  ghost predicate ViewOnce(live: map<nat, Record>, s: State, m: Memory) {
    && DiskOnce(live, Requests(s.reqs), Plain(s), s.started, s.pruned.requests)
    && MemoryOnce(live, Requests(s.reqs), s.started, s.pruned.requests, m)
  }

  ghost predicate Once(s: State) {
    && DiskOnce(Live(s.ops), Requests(s.reqs), Plain(s), s.started, s.pruned.requests)
    && (s.memory.Some? ==>
          && MemoryOnce(Live(s.ops), Requests(s.reqs), s.started, s.pruned.requests, s.memory.value)
          && (s.memory.value.serving ==> ViewOnce(Live(s.memory.value.table), s, s.memory.value)))
  }

  /** What a server that serves has, and is to have again. */
  lemma Views(s: State, m: Memory)
    requires s.memory == Some(m) && m.serving
    ensures Once(s) <==> ViewOnce(Live(s.ops), s, m) && ViewOnce(Live(m.table), s, m)
  {
    hide DiskOnce; hide MemoryOnce; hide Live; hide Requests;
  }

  // ---- records come and go, in one view ----

  /** The step touches neither the request log nor what was started, pruned or landed. */
  ghost predicate SameFiles(s: State, next: State) {
    next.reqs == s.reqs && next.started == s.started && next.pruned == s.pruned && Plain(next) == Plain(s)
  }

  lemma PushOnce(live: map<nat, Record>, s: State, m: Memory, next: State, n: Memory, r: Record, task: Task)
    requires ViewOnce(live, s, m) && SameFiles(s, next)
    requires r.id !in live && !r.Aborted? && r.rid in m.tasks && (r.rid !in s.pruned.requests ==> !Owns(live, r.rid))
    requires r.rid !in s.pruned.requests ==> r.rid in m.requests
    requires task.Mutating? || (task.Answering? && Shaped(task, r.rid))
    requires n.requests == m.requests && n.tasks == m.tasks[r.rid := task]
    ensures ViewOnce(live[r.id := r], next, n)
  {
    hide Requests; hide Plain; hide Spent;
    var after, table, gone := live[r.id := r], Requests(s.reqs), s.pruned.requests;
    forall rid | Owns(after, rid) ensures rid == r.rid || Owns(live, rid) {
      var id :| id in after && !after[id].Aborted? && after[id].rid == rid;
      assert id != r.id ==> id in live && live[id].rid == rid;
    }
    forall id | id in live && !live[id].Aborted? && live[id].rid == r.rid ensures r.rid in gone {
      assert Owns(live, live[id].rid);
    }
    forall rid | rid in n.tasks && rid !in gone ensures TaskOnce(after, table, n, rid) {
      assert rid in m.tasks && (rid != r.rid ==> TaskOnce(live, table, m, rid));
    }
  }

  lemma ReplacedOwns(live: map<nat, Record>, r: Record)
    requires r.id in live && !live[r.id].Aborted? && r.Fs? && r.rid == live[r.id].rid
    ensures forall rid :: Owns(live[r.id := r], rid) ==> Owns(live, rid)
  {
    var after := live[r.id := r];
    forall rid | Owns(after, rid) ensures Owns(live, rid) {
      var id :| id in after && !after[id].Aborted? && after[id].rid == rid;
      assert id in live && !live[id].Aborted? ==> live[id].rid == rid;
    }
  }

  lemma RemovedOwns(live: map<nat, Record>, id: nat)
    ensures forall rid :: Owns(live - {id}, rid) ==> Owns(live, rid)
  {
    forall rid | Owns(live - {id}, rid) ensures Owns(live, rid) {
      var i :| i in live - {id} && !live[i].Aborted? && live[i].rid == rid;
    }
  }

  /** A record takes the slot of another of the same request: its marker is committed. */
  lemma ReplaceOnce(live: map<nat, Record>, table: map<string, Entry>, landed: set<nat>, started: seq<string>,
                    gone: set<string>, r: Record)
    requires DiskOnce(live, table, landed, started, gone) && r.id in live && !live[r.id].Aborted? && r.Fs?
    requires r.rid == live[r.id].rid
    ensures DiskOnce(live[r.id := r], table, landed, started, gone)
  {
    hide Unique; hide Spent; hide Owns;
    ReplacedOwns(live, r);
  }

  lemma RemoveOnce(live: map<nat, Record>, table: map<string, Entry>, landed: set<nat>, started: seq<string>,
                   gone: set<string>, id: nat)
    requires DiskOnce(live, table, landed, started, gone) && id !in landed
    ensures DiskOnce(live - {id}, table, landed, started, gone)
  {
    hide Unique; hide Spent; hide Owns;
    RemovedOwns(live, id);
  }

  /** A handler moves on while records are replaced or withdrawn; no request gains a record. */
  lemma MoveOnce(live: map<nat, Record>, after: map<nat, Record>, s: State, m: Memory, next: State, n: Memory,
                 rid: string, task: Task)
    requires ViewOnce(live, s, m) && SameFiles(s, next)
    requires DiskOnce(after, Requests(s.reqs), Plain(s), s.started, s.pruned.requests)
    requires forall q :: Owns(after, q) ==> Owns(live, q)
    requires n.requests == m.requests && n.tasks == m.tasks[rid := task] && (rid !in s.pruned.requests ==> rid in m.requests)
    requires !task.Claimed? && Shaped(task, rid) && (task.Running? ==> rid in m.tasks && m.tasks[rid].Claimed?)
    ensures ViewOnce(after, next, n)
  {
    hide Owns; hide Spent; hide Terminal; hide DiskOnce; hide Requests; hide Plain;
    var table := Requests(s.reqs);
    forall q | q in n.tasks && q !in s.pruned.requests ensures TaskOnce(after, table, n, q) {
      assert q in m.tasks ==> TaskOnce(live, table, m, q);
    }
  }

  /** Records that stay as they are while a handler moves on. */
  lemma StayOnce(live: map<nat, Record>, s: State, m: Memory, next: State, n: Memory, rid: string, task: Task)
    requires ViewOnce(live, s, m) && SameFiles(s, next)
    requires n.requests == m.requests && n.tasks == m.tasks[rid := task] && (rid !in s.pruned.requests ==> rid in m.requests)
    requires !task.Claimed? && Shaped(task, rid) && (task.Running? ==> rid in m.tasks && m.tasks[rid].Claimed?)
    ensures ViewOnce(live, next, n)
  {
    hide Owns; hide DiskOnce; hide MemoryOnce; hide Requests; hide Plain;
    MoveOnce(live, live, s, m, next, n, rid, task);
  }

  ghost predicate Heeds(m: Memory, n: Memory, line: ReqLine) {
    && line.rid !in n.tasks
    && (n.requests == m.requests[line.rid := EntryOf(line)] || n.requests == m.requests)
    && (forall q :: q in n.tasks ==> q in m.tasks && n.tasks[q] == m.tasks[q])
  }

  /** A terminal line is logged for a request no handler is working on any more. */
  lemma AnsweredDisk(live: map<nat, Record>, table: map<string, Entry>, landed: set<nat>, started: seq<string>,
                     gone: set<string>, line: ReqLine)
    requires DiskOnce(live, table, landed, started, gone) && Terminal(line)
    ensures DiskOnce(live, table[line.rid := EntryOf(line)], landed, started, gone)
  {
    hide Owns; hide OneRecordEach; hide Unique;
  }

  /** Memory may hear of it or not. */
  lemma AnsweredOnce(live: map<nat, Record>, table: map<string, Entry>, started: seq<string>, gone: set<string>,
                     m: Memory, n: Memory, line: ReqLine)
    requires MemoryOnce(live, table, started, gone, m) && Terminal(line) && Heeds(m, n, line)
    ensures MemoryOnce(live, table[line.rid := EntryOf(line)], started, gone, n)
  {
    hide Owns;
    forall q | q in n.tasks && q !in gone ensures TaskOnce(live, table[line.rid := EntryOf(line)], n, q) {
      assert TaskOnce(live, table, m, q);
    }
  }

  /** A request that is not known is claimed: no record is its own and no command was started for it. */
  lemma ClaimedOnce(live: map<nat, Record>, table: map<string, Entry>, landed: set<nat>, started: seq<string>,
                    gone: set<string>, m: Memory, rid: string, op: string)
    requires DiskOnce(live, table, landed, started, gone) && MemoryOnce(live, table, started, gone, m) && rid !in m.requests
    ensures rid !in gone ==> !Owns(live, rid) && rid !in started
    ensures DiskOnce(live, table[rid := ClaimEntry(op)], landed, started, gone)
    ensures MemoryOnce(live, table[rid := ClaimEntry(op)], started, gone, m)
    ensures MemoryOnce(live, table[rid := ClaimEntry(op)], started, gone,
                       m.(requests := m.requests[rid := ClaimEntry(op)], tasks := m.tasks[rid := Claimed(op)]))
  {
    hide Owns; hide OneRecordEach; hide Unique; hide Spent; hide TaskOnce; hide Shaped;
    ClaimedTasks(live, table, started, gone, m, rid, op);
    assert rid !in gone ==> !Owns(live, rid) && rid !in started;
  }

  lemma ClaimedTasks(live: map<nat, Record>, table: map<string, Entry>, started: seq<string>, gone: set<string>, m: Memory,
                     rid: string, op: string)
    requires MemoryOnce(live, table, started, gone, m) && rid !in m.requests
    ensures var n := m.(requests := m.requests[rid := ClaimEntry(op)], tasks := m.tasks[rid := Claimed(op)]);
            && (forall q :: q in n.tasks ==> Shaped(n.tasks[q], q))
            && (forall q :: q in n.tasks && q !in gone ==> TaskOnce(live, table[rid := ClaimEntry(op)], n, q))
            && (forall q :: q in m.tasks && q !in gone ==> TaskOnce(live, table[rid := ClaimEntry(op)], m, q))
  {
    hide Owns; hide Spent;
    var n := m.(requests := m.requests[rid := ClaimEntry(op)], tasks := m.tasks[rid := Claimed(op)]);
    forall q | q in n.tasks && q !in gone ensures TaskOnce(live, table[rid := ClaimEntry(op)], n, q) {
      assert q != rid ==> TaskOnce(live, table, m, q);
    }
    forall q | q in m.tasks && q !in gone ensures TaskOnce(live, table[rid := ClaimEntry(op)], m, q) {
      assert TaskOnce(live, table, m, q);
    }
  }

  /** A command is started by the holder of the claim: none was started for the request before. */
  lemma StartedOnce(live: map<nat, Record>, table: map<string, Entry>, landed: set<nat>, started: seq<string>,
                    gone: set<string>, m: Memory, rid: string, id: nat)
    requires DiskOnce(live, table, landed, started, gone) && MemoryOnce(live, table, started, gone, m)
    requires rid in m.tasks && m.tasks[rid] == Claimed("exec")
    ensures rid !in gone ==> rid !in started && !Owns(live, rid)
    ensures DiskOnce(live, table, landed, started + [rid], gone)
    ensures MemoryOnce(live, table, started + [rid], gone, m.(nextId := id, tasks := m.tasks[rid := Running(id)]))
  {
    hide Owns; hide OneRecordEach;
    assert rid !in gone ==> TaskOnce(live, table, m, rid) && rid !in started;
    var n := m.(nextId := id, tasks := m.tasks[rid := Running(id)]);
    forall q | q in n.tasks && q !in gone ensures TaskOnce(live, table, n, q) {
      assert TaskOnce(live, table, m, q);
    }
  }

  /** Less may have landed. */
  lemma FewerPlain(live: map<nat, Record>, table: map<string, Entry>, landed: set<nat>, fewer: set<nat>, started: seq<string>,
                   gone: set<string>)
    requires DiskOnce(live, table, landed, started, gone) && fewer <= landed
    ensures DiskOnce(live, table, fewer, started, gone)
  {
    hide Owns; hide OneRecordEach; hide Unique; hide Spent;
  }

  // ---- the steps ----

  lemma ClaimOnce(s: State, m: Memory, rid: string, op: string, io: Fate)
    requires Once(s) && s.memory == Some(m) && m.serving
    ensures Once(DoClaim(s, m, rid, op, io))
  {
    hide DiskOnce; hide MemoryOnce; hide Live; hide Requests;
    if rid !in m.requests {
      RequestsAppend(s.reqs, ClaimLine(rid, op));
      ClaimedOnce(Live(s.ops), Requests(s.reqs), Plain(s), s.started, s.pruned.requests, m, rid, op);
      ClaimedOnce(Live(m.table), Requests(s.reqs), Plain(s), s.started, s.pruned.requests, m, rid, op);
    }
  }

  /** What is known of the request of a handler. */
  lemma TaskFacts(s: State, m: Memory, rid: string)
    requires Once(s) && s.memory == Some(m) && rid in m.tasks
    ensures Shaped(m.tasks[rid], rid)
    ensures rid !in s.pruned.requests ==> rid in m.requests && TaskOnce(Live(s.ops), Requests(s.reqs), m, rid)
    ensures rid !in s.pruned.requests && (m.tasks[rid].Claimed? || m.tasks[rid].Running?) ==>
              !Owns(Live(s.ops), rid) && (m.serving ==> !Owns(Live(m.table), rid))
  {
    hide DiskOnce; hide Owns; hide Live; hide Requests;
    if m.serving && rid !in s.pruned.requests {
      assert TaskOnce(Live(m.table), Requests(s.reqs), m, rid);
    }
  }

  lemma PrepareOnce(s: State, m: Memory, p: Marker, io: Fate, undo: Fate)
    requires Inv(s) && Once(s) && s.memory == Some(m) && m.serving
    requires p.rid in m.tasks && m.tasks[p.rid].Claimed? && p.id == m.nextId + 1
    ensures Once(DoPrepare(s, m, p, io, undo))
  {
    hide Inv; hide DiskOnce; hide MemoryOnce; hide Live; hide Requests; hide Owns; hide TaskOnce; hide Plain; hide ViewOnce;
    hide View; hide Twins; hide HighWater; hide IsTable; hide HistoryOld;
    FreshIds(s, m);
    ServingFacts(s, m);
    TaskFacts(s, m, p.rid);
    WithdrawnAtOnce(s, m, p);
    Views(s, m);
    LiveAppend(s.ops, p);
    var next := DoPrepare(s, m, p, io, undo);
    var n := next.memory.value;
    assert SameFiles(s, next) by { PlainStays(s, next); }
    var task := n.tasks[p.rid];
    if io.Logged? {
      LiveAppend(m.table, p);
      PushOnce(Live(s.ops), s, m, next, n, p, task);
      PushOnce(Live(m.table), s, m, next, n, p, task);
    } else {
      StayOnce(Live(m.table), s, m, next, n, p.rid, task);
      StayOnce(Live(s.ops), s, m, next, n, p.rid, task);
      PushOnce(Live(s.ops), s, m, next, n, p, task);
    }
    Views(next, n);
  }

  lemma PlainStays(s: State, next: State)
    requires next.h.landed == s.h.landed && next.h.obscured == s.h.obscured && next.pruned == s.pruned
    requires next.reqs == s.reqs && next.started == s.started
    ensures SameFiles(s, next)
  {
  }

  /** The request of the mutation in flight owns its marker, in both views. */
  lemma GuardFacts(s: State, m: Memory)
    requires Inv(s) && Once(s) && s.memory == Some(m) && m.serving && m.guard.Some?
    ensures var p := m.guard.value;
            && p.id in Live(s.ops) && Live(s.ops)[p.id] == p && Owns(Live(s.ops), p.rid)
            && p.id in Live(m.table) && Live(m.table)[p.id] == p && Owns(Live(m.table), p.rid)
            && (p.rid !in s.pruned.requests ==> p.rid in m.requests)
  {
    hide Inv; hide Live; hide DiskOnce; hide TaskOnce; hide View; hide Twins; hide Requests; hide HighWater;
    ServingFacts(s, m);
    assert Owns(Live(s.ops), m.guard.value.rid);
  }

  lemma InstalledOnce(live: map<nat, Record>, table: map<string, Entry>, landed: set<nat>, started: seq<string>,
                      gone: set<string>, id: nat, fewer: set<nat>)
    requires DiskOnce(live, table, landed, started, gone) && id in live && live[id].Mutation() && fewer <= landed + {id}
    ensures DiskOnce(live, table, fewer, started, gone)
  {
    hide Owns; hide OneRecordEach; hide Unique; hide Spent;
  }

  lemma InstallOnce(s: State, m: Memory)
    requires Inv(s) && Once(s) && s.memory == Some(m) && Enabled(s, Install)
    ensures Once(DoInstall(s, m.guard.value))
  {
    hide DiskOnce; hide MemoryOnce; hide Live; hide Requests; hide Owns; hide Inv; hide ReconstructResult;
    GuardFacts(s, m);
    var next, id := DoInstall(s, m.guard.value), m.guard.value.id;
    InstalledOnce(Live(s.ops), Requests(s.reqs), Plain(s), s.started, s.pruned.requests, id, Plain(next));
    InstalledOnce(Live(m.table), Requests(s.reqs), Plain(s), s.started, s.pruned.requests, id, Plain(next));
  }

  lemma WithdrawOnce(s: State, m: Memory, error: ProtocolError, io: Fate)
    requires Inv(s) && Once(s) && s.memory == Some(m) && Enabled(s, Withdraw(error, io))
    ensures Once(DoWithdraw(s, m, m.guard.value, error, io))
  {
    hide DiskOnce; hide MemoryOnce; hide Live; hide Requests; hide Owns; hide Inv; hide DropPrepared; hide ViewOnce; hide Plain;
    var p := m.guard.value;
    var next := DoWithdraw(s, m, p, error, io);
    var n, task := next.memory.value, Answering(ErrorLine(p.rid, error));
    GuardFacts(s, m);
    Views(s, m);
    PlainStays(s, next);
    UnlandedIsNotPlain(s, p.id);
    LiveAppend(s.ops, Aborted(p.id, s.now));
    if io.Refused? {
      StayOnce(Live(s.ops), s, m, next, n, p.rid, task);
    } else {
      RemovedView(Live(s.ops), s, m, next, n, p.id, p.rid, task);
    }
    if io.Logged? {
      TableFacts(s, m);
      DropPreparedLive(m.table, p.id);
      RemovedView(Live(m.table), s, m, next, n, p.id, p.rid, task);
    } else {
      StayOnce(Live(m.table), s, m, next, n, p.rid, task);
    }
    Views(next, n);
  }

  lemma TableFacts(s: State, m: Memory)
    requires Inv(s) && s.memory == Some(m)
    ensures IsTable(m.table)
  {
    hide ViewInv; hide ServingInv; hide RecoveringInv; hide Live; hide HighWater;
  }

  lemma UnlandedIsNotPlain(s: State, id: nat)
    requires id !in s.h.landed
    ensures id !in Plain(s)
  {
  }

  /** A marker that did not land leaves a view, and its handler is to answer. */
  lemma RemovedView(live: map<nat, Record>, s: State, m: Memory, next: State, n: Memory, id: nat, rid: string, task: Task)
    requires ViewOnce(live, s, m) && SameFiles(s, next) && id !in Plain(s)
    requires n.requests == m.requests && n.tasks == m.tasks[rid := task] && (rid !in s.pruned.requests ==> rid in m.requests)
    requires task.Answering? && Shaped(task, rid)
    ensures ViewOnce(live - {id}, next, n)
  {
    hide Owns; hide DiskOnce; hide MemoryOnce; hide Requests; hide Plain;
    RemoveOnce(live, Requests(s.reqs), Plain(s), s.started, s.pruned.requests, id);
    RemovedOwns(live, id);
    MoveOnce(live, live - {id}, s, m, next, n, rid, task);
  }

  /** A marker is committed in a view. */
  lemma CommittedView(live: map<nat, Record>, s: State, m: Memory, next: State, n: Memory, p: Marker, c: Record, task: Task)
    requires ViewOnce(live, s, m) && SameFiles(s, next) && p.id in live && live[p.id] == p && c == CommitOf(p, s.now)
    requires n.requests == m.requests && n.tasks == m.tasks[p.rid := task] && (p.rid !in s.pruned.requests ==> p.rid in m.requests)
    requires task.Answering? && Shaped(task, p.rid)
    ensures ViewOnce(live[p.id := c], next, n)
  {
    hide Owns; hide DiskOnce; hide MemoryOnce; hide Requests; hide Plain;
    ReplaceOnce(live, Requests(s.reqs), Plain(s), s.started, s.pruned.requests, c);
    ReplacedOwns(live, c);
    MoveOnce(live, live[p.id := c], s, m, next, n, p.rid, task);
  }

  lemma CommitOnce(s: State, m: Memory, synced: bool)
    requires Inv(s) && Once(s) && s.memory == Some(m) && Enabled(s, Commit(synced))
    ensures Once(DoCommit(s, m, m.guard.value, synced))
  {
    hide DiskOnce; hide MemoryOnce; hide Live; hide Requests; hide Owns; hide Inv; hide Upsert; hide ReconstructResult;
    hide ViewOnce; hide Plain; hide Promising;
    var p := m.guard.value;
    var c, next := CommitOf(p, s.now), DoCommit(s, m, p, synced);
    var n, task := next.memory.value, next.memory.value.tasks[p.rid];
    GuardFacts(s, m);
    Views(s, m);
    PlainStays(s, next);
    LiveAppend(s.ops, c);
    CommittedView(Live(s.ops), s, m, next, n, p, c, task);
    if synced {
      TableFacts(s, m);
      UpsertLive(m.table, c);
      CommittedView(Live(m.table), s, m, next, n, p, c, task);
    } else {
      StayOnce(Live(m.table), s, m, next, n, p.rid, task);
    }
    Views(next, n);
  }

  lemma LeaveOnce(s: State, m: Memory, error: ProtocolError)
    requires Inv(s) && Once(s) && s.memory == Some(m) && Enabled(s, Leave(error))
    ensures Once(DoLeave(s, m, m.guard.value, error))
  {
    hide DiskOnce; hide MemoryOnce; hide Live; hide Requests; hide Owns; hide Inv; hide ViewOnce; hide Plain;
    var p := m.guard.value;
    var next := DoLeave(s, m, p, error);
    GuardFacts(s, m);
    BothStay(s, m, next, next.memory.value, p.rid, Answering(ErrorLine(p.rid, error)));
  }

  /** A handler moves on and no record changes. */
  lemma BothStay(s: State, m: Memory, next: State, n: Memory, rid: string, task: Task)
    requires Once(s) && s.memory == Some(m) && m.serving && next.memory == Some(n) && n.serving
    requires next.ops == s.ops && n.table == m.table && next.h == s.h && next.pruned == s.pruned
    requires next.reqs == s.reqs && next.started == s.started
    requires n.requests == m.requests && n.tasks == m.tasks[rid := task] && (rid !in s.pruned.requests ==> rid in m.requests)
    requires !task.Claimed? && Shaped(task, rid) && (task.Running? ==> rid in m.tasks && m.tasks[rid].Claimed?)
    ensures Once(next)
  {
    hide DiskOnce; hide MemoryOnce; hide Live; hide Requests; hide Owns; hide ViewOnce; hide Plain; hide Once; hide Shaped;
    Views(s, m);
    PlainStays(s, next);
    StayOnce(Live(s.ops), s, m, next, n, rid, task);
    StayOnce(Live(m.table), s, m, next, n, rid, task);
    Views(next, n);
  }

  /** A handler reaches its answer without touching the logs. */
  lemma MovedOnce(s: State, m: Memory, rid: string, nextId: nat, task: Task)
    requires Once(s) && s.memory == Some(m) && m.serving && rid in m.tasks
    requires (task.Answering? && Shaped(task, rid)) || (task.Running? && m.tasks[rid].Claimed?)
    ensures Once(s.(memory := Some(m.(nextId := nextId, tasks := m.tasks[rid := task]))))
  {
    hide DiskOnce; hide MemoryOnce; hide Live; hide Requests; hide Owns; hide Once; hide Terminal; hide TaskOnce;
    TaskFacts(s, m, rid);
    var n := m.(nextId := nextId, tasks := m.tasks[rid := task]);
    BothStay(s, m, s.(memory := Some(n)), n, rid, task);
  }

  lemma BeginExecOnce(s: State, m: Memory, rid: string, spawned: bool)
    requires Once(s) && s.memory == Some(m) && m.serving && rid in m.tasks && m.tasks[rid] == Claimed("exec")
    ensures Once(DoBeginExec(s, m, rid, spawned))
  {
    hide DiskOnce; hide MemoryOnce; hide Live; hide Requests; hide TaskOnce;
    if spawned {
      StartedOnce(Live(s.ops), Requests(s.reqs), Plain(s), s.started, s.pruned.requests, m, rid, m.nextId + 1);
      StartedOnce(Live(m.table), Requests(s.reqs), Plain(s), s.started, s.pruned.requests, m, rid, m.nextId + 1);
    } else {
      MovedOnce(s, m, rid, m.nextId + 1, Running(m.nextId + 1));
    }
  }

  /** A record is appended, or is not, and its handler is to answer. */
  lemma RecordOnce(s: State, m: Memory, nextId: nat, r: Record, line: ReqLine, io: Fate)
    requires Once(s) && s.memory == Some(m) && m.serving && (r.Exec? || r.Transfer?)
    requires r.id !in Live(s.ops) && r.id !in Live(m.table)
    requires r.rid in m.tasks && (m.tasks[r.rid].Running? || m.tasks[r.rid].Claimed?)
    requires line.rid == r.rid && Terminal(line)
    ensures Once(DoRecord(s, m.(nextId := nextId), r, line, io))
  {
    hide DiskOnce; hide MemoryOnce; hide Live; hide Requests; hide Owns; hide TaskOnce; hide ViewOnce; hide Plain; hide Once;
    var next := DoRecord(s, m.(nextId := nextId), r, line, io);
    var n, task := next.memory.value, Answering(line);
    TaskFacts(s, m, r.rid);
    Views(s, m);
    PlainStays(s, next);
    LiveAppend(s.ops, r);
    LiveAppend(m.table, r);
    if io.Refused? {
      StayOnce(Live(s.ops), s, m, next, n, r.rid, task);
    } else {
      PushOnce(Live(s.ops), s, m, next, n, r, task);
    }
    if io.Logged? {
      PushOnce(Live(m.table), s, m, next, n, r, task);
    } else {
      StayOnce(Live(m.table), s, m, next, n, r.rid, task);
    }
    Views(next, n);
  }

  /** One view through an answer. */
  lemma AnsweredView(live: map<nat, Record>, s: State, m: Memory, rid: string, io: Fate)
    requires ViewOnce(live, s, m) && rid in m.tasks && m.tasks[rid].Answering? && m.tasks[rid].line.rid == rid
    requires Terminal(m.tasks[rid].line)
    ensures var next := DoAnswer(s, m, rid, io); ViewOnce(live, next, next.memory.value)
  {
    hide Requests; hide Owns; hide DiskOnce; hide MemoryOnce; hide Plain; hide Terminal;
    var line, next := m.tasks[rid].line, DoAnswer(s, m, rid, io);
    var n := next.memory.value;
    assert Plain(next) == Plain(s) by { PlainIsHistory(s, next); }
    if io.Refused? {
      FewerTasks(live, Requests(s.reqs), s.started, s.pruned.requests, m, n);
    } else {
      RequestsAppend(s.reqs, line);
      AnsweredDisk(live, Requests(s.reqs), Plain(s), s.started, s.pruned.requests, line);
      AnsweredOnce(live, Requests(s.reqs), s.started, s.pruned.requests, m, n, line);
    }
  }

  lemma PlainIsHistory(s: State, next: State)
    requires next.h == s.h && next.pruned == s.pruned
    ensures Plain(next) == Plain(s)
  {
  }

  lemma FewerTasks(live: map<nat, Record>, table: map<string, Entry>, started: seq<string>, gone: set<string>, m: Memory, n: Memory)
    requires MemoryOnce(live, table, started, gone, m) && n.requests == m.requests
    requires forall q :: q in n.tasks ==> q in m.tasks && n.tasks[q] == m.tasks[q]
    ensures MemoryOnce(live, table, started, gone, n)
  {
    hide Owns; hide Spent; hide Terminal;
    forall q | q in n.tasks && q !in gone ensures TaskOnce(live, table, n, q) {
      assert TaskOnce(live, table, m, q);
    }
  }

  lemma AnswerOnce(s: State, m: Memory, rid: string, io: Fate)
    requires Once(s) && s.memory == Some(m) && m.serving && rid in m.tasks && m.tasks[rid].Answering?
    ensures Once(DoAnswer(s, m, rid, io))
  {
    hide Live; hide Requests; hide Owns; hide DiskOnce; hide MemoryOnce; hide TaskOnce; hide Once; hide ViewOnce;
    TaskFacts(s, m, rid);
    Views(s, m);
    AnsweredView(Live(s.ops), s, m, rid, io);
    AnsweredView(Live(m.table), s, m, rid, io);
    var next := DoAnswer(s, m, rid, io);
    Views(next, next.memory.value);
  }

  // ---- stopping and starting ----

  lemma RestartOnce(s: State)
    requires Once(s)
    ensures Once(DoRestart(s))
  {
    hide Live; hide Requests; hide Owns; hide Loaded; hide HighWater; hide OneRecordEach; hide Unique; hide Spent;
  }

  /** A decided marker leaves its request with the one record it had, or with none. */
  lemma DecidedOnce(live: map<nat, Record>, table: map<string, Entry>, landed: set<nat>, started: seq<string>,
                    gone: set<string>, p: Record, v: Verdict, now: nat)
    requires DiskOnce(live, table, landed, started, gone) && p.Prepared? && p.id in live && live[p.id] == p
    requires p.id in landed ==> v.Landed?
    ensures var line := VerdictLine(p, v, now);
            var next := if line.Aborted? then live - {p.id} else live[p.id := line];
            DiskOnce(next, table, landed, started, gone) && forall rid :: Owns(next, rid) ==> Owns(live, rid)
  {
    hide DiskOnce; hide Owns; hide ReconstructResult;
    if v.Landed? {
      ReplaceOnce(live, table, landed, started, gone, CommitOf(p, now));
      ReplacedOwns(live, CommitOf(p, now));
    } else {
      RemoveOnce(live, table, landed, started, gone, p.id);
      RemovedOwns(live, p.id);
    }
  }

  lemma IdleOnce(live: map<nat, Record>, next: map<nat, Record>, table: map<string, Entry>, started: seq<string>,
                 gone: set<string>, m: Memory, n: Memory)
    requires MemoryOnce(live, table, started, gone, m) && n.tasks == map[] && n.requests == m.requests
    requires forall rid :: Owns(next, rid) ==> Owns(live, rid)
    ensures MemoryOnce(next, table, started, gone, n)
  {
    hide Owns; hide Spent;
  }

  lemma SettleOnce(s: State, m: Memory, appends: nat)
    requires Inv(s) && Once(s) && s.memory == Some(m) && !m.serving && Markers(m.table) != []
    ensures Once(DoSettle(s, m, appends))
  {
    NewestFacts(s, m);
    SettleOnceAt(s, m, appends, CrashRuns.Newest(m.table));
  }

  /** What landed and is not obscured is found to have landed. */
  lemma NewestFacts(s: State, m: Memory)
    requires Inv(s) && s.memory == Some(m) && !m.serving && Markers(m.table) != []
    ensures var p := CrashRuns.Newest(m.table);
            && p.id in Live(s.ops) && Live(s.ops)[p.id] == p
            && (p.id in s.h.landed && p.id !in s.h.obscured ==> Judge(m.table, p, s.ws).Landed?)
            && m.tasks == map[]
  {
    hide MemoryInv; hide HistoryOld; hide DiskOnce; hide MemoryOnce; hide Live; hide Judge; hide Markers; hide HighWater;
    hide Settling; hide VerdictTable;
    RecoveringFacts(s, m);
    NextDecision(s, m);
    LandedIsNotAbandoned(s);
  }

  lemma LandedIsNotAbandoned(s: State)
    requires Inv(s)
    ensures forall id :: id in s.h.landed ==> id !in s.h.abandoned
  {
    hide MemoryInv; hide HistoryOld; hide Live; hide HighWater; hide AllVisible;
  }

  /** The line of a decision, in the log and in memory. */
  lemma DecisionOnce(s: State, m: Memory, p: Marker, v: Verdict)
    requires Once(s) && s.memory == Some(m) && m.tasks == map[] && p.id in Live(s.ops) && Live(s.ops)[p.id] == p
    requires p.id in s.h.landed && p.id !in s.h.obscured ==> v.Landed?
    ensures var live, n := Live(s.ops + [VerdictLine(p, v, s.now)]), m.(table := VerdictTable(m.table, p, v, s.now));
            && DiskOnce(live, Requests(s.reqs), Plain(s), s.started, s.pruned.requests)
            && MemoryOnce(live, Requests(s.reqs), s.started, s.pruned.requests, n)
  {
    hide DiskOnce; hide MemoryOnce; hide Live; hide Requests; hide Owns; hide ReconstructResult; hide VerdictTable;
    var live, table, gone, line := Live(s.ops), Requests(s.reqs), s.pruned.requests, VerdictLine(p, v, s.now);
    LiveAppend(s.ops, line);
    DecidedOnce(live, table, Plain(s), s.started, gone, p, v, s.now);
    IdleOnce(live, Live(s.ops + [line]), table, s.started, gone, m, m.(table := VerdictTable(m.table, p, v, s.now)));
  }

  lemma LoggedOnce(s: State, m: Memory, p: Marker, v: Verdict)
    requires Once(s) && s.memory == Some(m) && !m.serving && m.tasks == map[] && p.id in Live(s.ops) && Live(s.ops)[p.id] == p
    requires p.id in s.h.landed && p.id !in s.h.obscured ==> v.Landed?
    ensures Once(DoCrash(LogVerdict(s, VerdictLine(p, v, s.now))))
  {
    hide DiskOnce; hide MemoryOnce; hide Live; hide Requests; hide VerdictTable; hide VerdictLine; hide ReconstructResult;
    DecisionOnce(s, m, p, v);
  }

  lemma SettledOnce(s: State, m: Memory, p: Marker, v: Verdict)
    requires Once(s) && s.memory == Some(m) && !m.serving && m.tasks == map[] && p.id in Live(s.ops) && Live(s.ops)[p.id] == p
    requires p.id in s.h.landed && p.id !in s.h.obscured ==> v.Landed?
    ensures Once(Settled(LogVerdict(s, VerdictLine(p, v, s.now)), m, VerdictTable(m.table, p, v, s.now), VerdictReply(p, v, s.now)))
  {
    hide DiskOnce; hide MemoryOnce; hide Live; hide Requests; hide VerdictTable; hide VerdictLine; hide ReconstructResult;
    var reply, n := VerdictReply(p, v, s.now), m.(table := VerdictTable(m.table, p, v, s.now));
    DecisionOnce(s, m, p, v);
    NoReply(s.reqs);
    if reply.Some? {
      var next := Live(s.ops + [VerdictLine(p, v, s.now)]);
      RequestsAppend(s.reqs, reply.value);
      AnsweredDisk(next, Requests(s.reqs), Plain(s), s.started, s.pruned.requests, reply.value);
      AnsweredOnce(next, Requests(s.reqs), s.started, s.pruned.requests, n,
                   n.(requests := m.requests[reply.value.rid := EntryOf(reply.value)]), reply.value);
    }
  }

  lemma SettleOnceAt(s: State, m: Memory, appends: nat, p: Record)
    requires Once(s) && s.memory == Some(m) && !m.serving && m.tasks == map[]
    requires Markers(m.table) != [] && p == CrashRuns.Newest(m.table)
    requires p.id in Live(s.ops) && Live(s.ops)[p.id] == p
    requires p.id in s.h.landed && p.id !in s.h.obscured ==> Judge(m.table, p, s.ws).Landed?
    ensures Once(DoSettle(s, m, appends))
  {
    hide Once; hide Live; hide Judge; hide Markers; hide VerdictTable; hide VerdictLine; hide VerdictReply; hide Settled;
    hide LogVerdict; hide DoCrash;
    var v := Judge(m.table, p, s.ws);
    CrashOnce(s);
    LoggedOnce(s, m, p, v);
    SettledOnce(s, m, p, v);
  }

  lemma NoReply(reqs: seq<ReqLine>)
    ensures reqs + AsSeq<ReqLine>(None) == reqs
  {
  }

  /** A request is forgotten only if no record of it exists and no command was started for it. */
  lemma ForgetOnce(live: map<nat, Record>, table: map<string, Entry>, started: seq<string>, gone: set<string>,
                   m: Memory, rid: string)
    requires MemoryOnce(live, table, started, gone, m) && m.tasks == map[] && !Owns(live, rid)
    requires rid in m.requests && !Spent(m.requests[rid])
    ensures MemoryOnce(live, table, started, gone, m.(requests := m.requests - {rid}))
  {
    hide Owns;
  }

  /** With no marker left, a request without a committed record has no record at all. */
  lemma Unowned(t: seq<Record>, rid: string)
    requires IsTable(t) && Markers(t) == [] && FindCommitted(t, rid).None?
    ensures !Owns(Live(t), rid)
  {
    MembersOfLive(t);
    NoMarkers(t);
    forall id | id in Live(t) ensures Live(t)[id].rid != rid {
      assert Live(t)[id] in t;
    }
  }

  lemma ResolveStuckOnce(s: State, m: Memory, rid: string, io: Fate)
    requires Inv(s) && Once(s) && s.memory == Some(m) && Enabled(s, ResolveStuck(rid, io))
    ensures Once(DoResolveStuck(s, m, rid, io))
  {
    hide Inv; hide Once; hide Owns; hide Live; hide Markers; hide FindCommitted; hide DoResolveStuck;
    RecoveringFacts(s, m);
    if FindCommitted(m.table, rid).None? {
      Unowned(m.table, rid);
    }
    ResolveStuckAt(s, m, rid, io);
  }

  lemma ResolveStuckAt(s: State, m: Memory, rid: string, io: Fate)
    requires Once(s) && s.memory == Some(m) && !m.serving && m.tasks == map[] && Stuck(m.requests, rid)
    requires FindCommitted(m.table, rid).None? ==> !Owns(Live(s.ops), rid)
    ensures Once(DoResolveStuck(s, m, rid, io))
  {
    hide DiskOnce; hide MemoryOnce; hide Live; hide Requests; hide Owns; hide ReconstructResult;
    var gone := s.pruned.requests;
    match StuckLine(m.table, rid, m.requests[rid].op)
    case None => ForgetOnce(Live(s.ops), Requests(s.reqs), s.started, gone, m, rid);
    case Some(line) =>
      RequestsAppend(s.reqs, line);
      AnsweredDisk(Live(s.ops), Requests(s.reqs), Plain(s), s.started, gone, line);
      AnsweredOnce(Live(s.ops), Requests(s.reqs), s.started, gone, m, m.(requests := m.requests[rid := EntryOf(line)]), line);
  }

  lemma ServeOnce(s: State, m: Memory)
    requires Inv(s) && Once(s) && s.memory == Some(m) && !m.serving
    ensures Once(DoServe(s, m))
  {
    hide Inv; hide Live; hide Requests; hide Owns; hide DiskOnce; hide Settling; hide HighWater; hide IsTable;
    RecoveringFacts(s, m);
  }

  // ---- pruning ----

  /** The entries of all requests but those that are gone are as they were. */
  ghost predicate Thinned(requests: map<string, Entry>, fewer: map<string, Entry>, gone: set<string>) {
    && (forall rid :: rid in fewer ==> rid in requests && fewer[rid] == requests[rid])
    && (forall rid :: rid in requests && rid !in gone ==> rid in fewer)
  }

  lemma CutOwns(live: map<nat, Record>, kept: map<nat, Record>)
    requires forall id :: id in kept ==> id in live && kept[id] == live[id]
    ensures forall rid :: Owns(kept, rid) ==> Owns(live, rid)
  {
    forall rid | Owns(kept, rid) ensures Owns(live, rid) {
      var id :| id in kept && !kept[id].Aborted? && kept[id].rid == rid;
      assert live[id].rid == rid;
    }
  }

  /** A view is cut, or stays, and so is the file of requests. */
  lemma CutDisk(live: map<nat, Record>, kept: map<nat, Record>, table: map<string, Entry>, table': map<string, Entry>,
                landed: set<nat>, landed': set<nat>, started: seq<string>, gone: set<string>, gone': set<string>,
                m: Memory, n: Memory)
    requires DiskOnce(live, table, landed, started, gone) && MemoryOnce(live, table, started, gone, m)
    requires forall id :: id in kept ==> id in live && kept[id] == live[id]
    requires landed' <= landed && gone <= gone' && forall id :: id in landed' ==> id in kept
    requires Thinned(m.requests, n.requests, gone') && (table' == table || table' == n.requests)
    ensures DiskOnce(kept, table', landed', started, gone')
  {
    hide Owns; hide Spent; hide TaskOnce; hide Shaped;
    CutOwns(live, kept);
  }

  lemma CutMemory(live: map<nat, Record>, kept: map<nat, Record>, table: map<string, Entry>, table': map<string, Entry>,
                  started: seq<string>, gone: set<string>, gone': set<string>, m: Memory, n: Memory)
    requires MemoryOnce(live, table, started, gone, m) && gone <= gone' && n.tasks == m.tasks
    requires forall id :: id in kept ==> id in live && kept[id] == live[id]
    requires Thinned(m.requests, n.requests, gone') && (table' == table || table' == n.requests)
    ensures MemoryOnce(kept, table', started, gone', n)
  {
    hide Owns; hide Spent; hide Shaped;
    CutOwns(live, kept);
    forall rid | rid in n.tasks && rid !in gone' ensures TaskOnce(kept, table', n, rid) {
      assert TaskOnce(live, table, m, rid);
    }
  }

  /** What a prune leaves of requests, and what it takes note of. */
  lemma PrunedRequests(s: State, m: Memory, keep: nat, lines: seq<ReqLine>, replaced: nat)
    ensures var next, kept := DoGc(s, m, keep, lines, replaced), PruneTable(m.table, keep);
            var n := next.memory.value;
            && n.tasks == m.tasks && n.table == kept && n.serving == m.serving && next.started == s.started
            && Thinned(m.requests, n.requests, next.pruned.requests)
            && s.pruned.requests <= next.pruned.requests && Plain(next) <= Plain(s)
            && (forall id :: id in Plain(next) && id in Live(m.table) ==> id in Live(kept))
  {
    hide PruneTable; hide Unvouched; hide Live; hide Owners; hide RetainedRequests;
  }

  lemma GcOnce(s: State, m: Memory, keep: nat, lines: seq<ReqLine>, replaced: nat)
    requires Inv(s) && Once(s) && s.memory == Some(m) && Enabled(s, Gc(keep, lines, replaced))
    ensures Once(DoGc(s, m, keep, lines, replaced))
  {
    hide Inv; hide DiskOnce; hide MemoryOnce; hide Live; hide Requests; hide PruneTable; hide PruneRequests; hide Plain;
    hide Unseen; hide Risked; hide Forgotten; hide CrashRuns.Cut; hide Thinned;
    var next, kept := DoGc(s, m, keep, lines, replaced), PruneTable(m.table, keep);
    var n, table, table' := next.memory.value, Requests(s.reqs), Requests(next.reqs);
    TableFacts(s, m);
    PrunedIsPart(m.table, keep);
    PrunedRequests(s, m, keep, lines, replaced);
    PlainIsLive(Live(m.table), table, Plain(s), s.started, s.pruned.requests);
    PlainIsLive(Live(s.ops), table, Plain(s), s.started, s.pruned.requests);
    var gone, gone' := s.pruned.requests, next.pruned.requests;
    CutDisk(Live(m.table), Live(kept), table, table', Plain(s), Plain(next), s.started, gone, gone', m, n);
    CutMemory(Live(m.table), Live(kept), table, table', s.started, gone, gone', m, n);
    if replaced < 2 {
      CutDisk(Live(s.ops), Live(s.ops), table, table', Plain(s), Plain(next), s.started, gone, gone', m, n);
      CutMemory(Live(s.ops), Live(s.ops), table, table', s.started, gone, gone', m, n);
    }
  }

  lemma PlainIsLive(live: map<nat, Record>, table: map<string, Entry>, landed: set<nat>, started: seq<string>, gone: set<string>)
    requires DiskOnce(live, table, landed, started, gone)
    ensures forall id :: id in landed ==> id in live
  {
    hide Owns; hide OneRecordEach; hide Unique; hide Spent;
  }

  // ---- every step, every run ----

  lemma RecordStepOnce(s: State, a: Step)
    requires Inv(s) && Once(s) && Enabled(s, a) && (a.RecordExec? || a.RecordTransfer?)
    ensures Once(Do(s, a))
  {
    hide Once; hide Live; hide Inv; hide DoRecord; hide ExecReply; hide IsLogRefusal;
    var m := s.memory.value;
    FreshIds(s, m);
    match a
    case RecordExec(rid, q, outcome, io, refusal) =>
      var id := m.tasks[rid].id;
      var line := ExecLine(id, rid, outcome, Seen(io, refusal));
      RecordOnce(s, m, m.nextId, ExecRecord(id, rid, q, outcome, s.now), line, io);
      PromiseOnce(DoRecord(s, m, ExecRecord(id, rid, q, outcome, s.now), line, io), Do(s, a).promised);
    case RecordTransfer(rid, transfer, cleaned, io, refusal) =>
      var id := m.nextId + 1;
      var line := TransferLine(id, rid, transfer, Seen(io, refusal), cleaned);
      RecordOnce(s, m, id, Transfer(id, rid, transfer, s.now), line, io);
      PromiseOnce(DoRecord(s, m.(nextId := id), Transfer(id, rid, transfer, s.now), line, io), Do(s, a).promised);
  }

  lemma PromiseOnce(s: State, promised: map<string, Message>)
    requires Once(s)
    ensures Once(s.(promised := promised))
  {
    hide DiskOnce; hide MemoryOnce; hide Live; hide Requests;
  }

  lemma ServingStepOnce(s: State, a: Step)
    requires Inv(s) && Once(s) && Enabled(s, a)
    requires a.Claim? || a.Refuse? || a.Prepare? || a.BeginExec? || a.RecordExec? || a.RecordTransfer? || a.Answer?
    ensures Once(Do(s, a))
  {
    hide Inv; hide Once; hide DoPrepare; hide DoAnswer; hide DoClaim; hide DoBeginExec; hide Asks; hide DoRecordExec;
    hide DoRecordTransfer; hide IsLogRefusal;
    var m := s.memory.value;
    match a
    case Claim(rid, op, io) => ClaimOnce(s, m, rid, op, io);
    case Refuse(rid, error) => MovedOnce(s, m, rid, m.nextId, Answering(ErrorLine(rid, error)));
    case Prepare(rid, path, after, io, undo) => PrepareOnce(s, m, MarkerFor(s, m, rid, path, after), io, undo);
    case BeginExec(rid, spawned) => BeginExecOnce(s, m, rid, spawned);
    case RecordExec(_, _, _, _, _) => RecordStepOnce(s, a);
    case RecordTransfer(_, _, _, _, _) => RecordStepOnce(s, a);
    case Answer(rid, io) => AnswerOnce(s, m, rid, io);
  }

  lemma StepOnce(s: State, a: Step)
    requires Inv(s) && Once(s) && Enabled(s, a)
    ensures Once(Do(s, a))
  {
    hide Inv; hide Once; hide DoInstall; hide DoWithdraw; hide DoCommit; hide DoLeave; hide DoGc;
    hide DoSettle; hide DoRestart; hide DoResolveStuck; hide DoCrash; hide DoServe; hide DoMeddle; hide Asks; hide IsLogRefusal;
    hide Markers; hide Requests; hide PruneRequests; hide PruneTable;
    match a
    case Install => InstallOnce(s, s.memory.value);
    case Withdraw(error, io) => WithdrawOnce(s, s.memory.value, error, io);
    case Commit(synced) => CommitOnce(s, s.memory.value, synced);
    case Leave(error) => LeaveOnce(s, s.memory.value, error);
    case Gc(keep, lines, replaced) => GcOnce(s, s.memory.value, keep, lines, replaced);
    case Meddle(file, state) => MeddleOnce(s, file, state);
    case Crash => CrashOnce(s);
    case Restart => RestartOnce(s);
    case Settle(appends) => SettleOnce(s, s.memory.value, appends);
    case ResolveStuck(rid, io) => ResolveStuckOnce(s, s.memory.value, rid, io);
    case Serve => ServeOnce(s, s.memory.value);
    case _ => ServingStepOnce(s, a);
  }

  /** Another writer changes no record, no request and no handler. */
  lemma MeddleOnce(s: State, file: string, state: Option<string>)
    requires Once(s)
    ensures Once(DoMeddle(s, file, state))
  {
    hide DiskOnce; hide MemoryOnce; hide Live; hide Requests; hide Pending;
    var next := DoMeddle(s, file, state);
    FewerPlain(Live(s.ops), Requests(s.reqs), Plain(s), Plain(next), s.started, s.pruned.requests);
    if s.memory.Some? && s.memory.value.serving {
      FewerPlain(Live(s.memory.value.table), Requests(s.reqs), Plain(s), Plain(next), s.started, s.pruned.requests);
    }
  }

  lemma CrashOnce(s: State)
    requires Once(s)
    ensures Once(DoCrash(s))
  {
    hide Live; hide Requests; hide DiskOnce; hide MemoryOnce;
  }

  lemma {:induction false} RunOnce(s: State, steps: seq<Step>)
    requires Inv(s) && Once(s) && CanRun(s, steps)
    ensures Once(Run(s, steps))
    decreases |steps|
  {
    hide Inv; hide Once; hide Enabled; hide Do;
    if steps != [] {
      StepKeeps(s, steps[0]);
      StepOnce(s, steps[0]);
      RunOnce(Do(s, steps[0]), steps[1..]);
    }
  }

  lemma InitIsOnce(ws: Workspace)
    ensures Once(Init(ws))
  {
  }

  /**
   At most once: however claims, replays, failed appends, prunes, other writers, crashes and
   recoveries interleave, a request no prune dropped anything of owns at most one prepared or
   committed record, and its command was started at most once. A mutation that landed stays on
   record until a prune drops it, so that at most one of such a request ever did -- but for mutations
   whose file another writer changed, or that a prune left nothing to vouch for, while their marker
   was pending.
   */
  lemma EveryRequestHappensAtMostOnce(ws: Workspace, steps: seq<Step>)
    requires SaneWorkspace(ws) && CanRun(Init(ws), steps)
    ensures var s := Run(Init(ws), steps);
            var live, gone := Live(s.ops), s.pruned.requests;
            && (forall i, j :: i in live && j in live && i != j && live[i].rid == live[j].rid ==> live[i].rid in gone)
            && (forall id :: id in s.h.landed && id !in s.h.obscured && id !in s.pruned.records ==>
                  id in live && live[id].Mutation())
            && (forall i, j :: 0 <= i < j < |s.started| && s.started[i] == s.started[j] ==> s.started[i] in gone)
  {
    hide Run; hide CanRun; hide Inv; hide MemoryOnce; hide Owns; hide Spent;
    InitHolds(ws);
    InitIsOnce(ws);
    RunOnce(Init(ws), steps);
  }
}
