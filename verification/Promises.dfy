/**
 What is promised to requests: that whatever they are answered with is the reply their handler was to
 send, once its effect is on record. The invariants, and the steps of a server that serves.
 */
module Promises {
  import opened Options
  import opened Records
  import opened Replay
  import opened Recovery
  import opened WriteAhead
  import opened Replies
  import opened CrashRuns
  import opened RunInvariant
  import opened AtMostOnce

  /** The reply a record, or a marker whose mutation landed, stands for. */
  function Meaning(r: Record): Message
    requires !r.Aborted?
  {
    ReconstructResult(if r.Prepared? then CommitOf(r, 0) else r)
  }

  predicate StandsAt(live: map<nat, Record>, landed: set<nat>, rid: string, msg: Message, id: nat) {
    && id in live && !live[id].Aborted? && live[id].rid == rid
    && (live[id].Prepared? ==> id in landed)
    && Meaning(live[id]) == msg
  }

  /** A record of the request stands for the message. */
  ghost predicate Stands(live: map<nat, Record>, landed: set<nat>, rid: string, msg: Message) {
    exists id :: StandsAt(live, landed, rid, msg, id)
  }

  /** If the request has a result in the table, it is replayed as the message. */
  predicate Says(table: map<string, Entry>, rid: string, msg: Message) {
    rid in table && table[rid].result.Some? ==> Replayed(rid, table[rid]) == msg
  }

  /** Only a request in progress has no result. */
  ghost predicate Concluded(table: map<string, Entry>) {
    forall rid :: rid in table && table[rid].result.None? ==> table[rid].status.InProgress?
  }

  /** What landed and is not obscured. */
  function Shown(h: History): set<nat> {
    h.landed - h.obscured
  }

  ghost predicate DiskPromise(live: map<nat, Record>, table: map<string, Entry>, landed: set<nat>,
                              promised: map<string, Message>) {
    && (forall rid :: rid in promised ==> Stands(live, landed, rid, promised[rid]))
    && (forall rid :: rid in promised ==> Says(table, rid, promised[rid]))
    && Concluded(table)
  }

  /**
   What a handler holds for its request: nothing is answered yet, and a success is one that was
   promised, unless a prune dropped something of the request.
   */
  ghost predicate TaskPromise(table: map<string, Entry>, promised: map<string, Message>, gone: set<string>, m: Memory,
                              rid: string)
    requires rid in m.tasks
  {
    && rid in m.requests && m.requests[rid].result.None?
    && (rid in table ==> table[rid].result.None?)
    && (m.tasks[rid].Answering? ==>
          var line := m.tasks[rid].line;
          && line.rid == rid && EntryOf(line).result.Some?
          && (rid in promised ==> Replayed(rid, EntryOf(line)) == promised[rid])
          && (line.status.Done? ==> rid in promised || rid in gone))
  }

  ghost predicate TasksPromise(table: map<string, Entry>, promised: map<string, Message>, gone: set<string>, m: Memory) {
    forall rid :: rid in m.tasks ==> TaskPromise(table, promised, gone, m, rid)
  }

  /** The mutation holding the write lock is that of a handler, and promised once it landed. */
  ghost predicate GuardPromise(landed: set<nat>, promised: map<string, Message>, gone: set<string>, m: Memory) {
    m.guard.Some? ==>
      var p := m.guard.value;
      && p.rid in m.tasks && m.tasks[p.rid].Mutating? && p.id !in m.unseen
      && (p.id in landed && p.rid !in gone ==> p.rid in promised && promised[p.rid] == Meaning(p))
  }

  ghost predicate RequestsPromise(table: map<string, Entry>, promised: map<string, Message>, m: Memory) {
    && (forall rid :: rid in promised ==> rid in m.requests && Says(m.requests, rid, promised[rid]))
    && Concluded(m.requests)
    && (!m.serving ==> forall rid :: rid in m.requests ==> rid in table && table[rid] == m.requests[rid])
  }

  ghost predicate MemoryPromise(table: map<string, Entry>, landed: set<nat>, promised: map<string, Message>, gone: set<string>,
                                m: Memory) {
    RequestsPromise(table, promised, m) && TasksPromise(table, promised, gone, m) && GuardPromise(landed, promised, gone, m)
  }

  /** Nothing is promised for a request that a prune dropped something of. */
  ghost predicate Apart(promised: map<string, Message>, gone: set<string>) {
    forall rid :: rid in promised ==> rid !in gone
  }

  /** The promises hold of the log, and of the table a prune would write back over it. */
  ghost predicate Promise(s: State) {
    && DiskPromise(Live(s.ops), Requests(s.reqs), Shown(s.h), s.promised)
    && Apart(s.promised, s.pruned.requests)
    && (s.memory.Some? ==>
          && MemoryPromise(Requests(s.reqs), Shown(s.h), s.promised, s.pruned.requests, s.memory.value)
          && (s.memory.value.serving ==> TablePromise(s, s.memory.value)))
  }

  ghost predicate TablePromise(s: State, m: Memory) {
    DiskPromise(Live(m.table), Requests(s.reqs), Shown(Remembered(s.h, m)), s.promised)
  }

  // ---- what records do to promises ----

  lemma StandsStays(live: map<nat, Record>, next: map<nat, Record>, landed: set<nat>, landed': set<nat>, rid: string,
                    msg: Message)
    requires Stands(live, landed, rid, msg) && landed <= landed'
    requires forall id :: StandsAt(live, landed, rid, msg, id) ==>
               id in next && !next[id].Aborted? && next[id].rid == rid && Meaning(next[id]) == msg
               && (next[id].Prepared? ==> live[id].Prepared?)
    ensures Stands(next, landed', rid, msg)
  {
    var id :| StandsAt(live, landed, rid, msg, id);
    assert StandsAt(next, landed', rid, msg, id);
  }

  /** A request whose record stands for something owns that record, and no other. */
  lemma StandingOwns(live: map<nat, Record>, landed: set<nat>, rid: string, msg: Message)
    requires Stands(live, landed, rid, msg)
    ensures Owns(live, rid)
  {
    var id :| StandsAt(live, landed, rid, msg, id);
  }

  lemma StandingOnly(live: map<nat, Record>, landed: set<nat>, gone: set<string>, rid: string, msg: Message)
    requires Stands(live, landed, rid, msg) && OneRecordEach(live, gone) && rid !in gone
    ensures forall id :: id in live && !live[id].Aborted? && live[id].rid == rid ==> StandsAt(live, landed, rid, msg, id)
  {
    var id :| StandsAt(live, landed, rid, msg, id);
  }

  /** New records take nothing from a promise. */
  lemma MoreRecords(live: map<nat, Record>, table: map<string, Entry>, landed: set<nat>,
                    promised: map<string, Message>, r: Record)
    requires DiskPromise(live, table, landed, promised) && r.id !in live
    ensures DiskPromise(live[r.id := r], table, landed, promised)
  {
    hide Says; hide Concluded; hide Stands; hide Meaning;
    forall rid | rid in promised ensures Stands(live[r.id := r], landed, rid, promised[rid]) {
      StandsStays(live, live[r.id := r], landed, landed, rid, promised[rid]);
    }
  }

  /** A marker becomes its commit. */
  lemma CommittedRecord(live: map<nat, Record>, table: map<string, Entry>, landed: set<nat>, promised: map<string, Message>,
                        p: Record, now: nat)
    requires DiskPromise(live, table, landed, promised) && p.Prepared? && p.id in live && live[p.id] == p
    ensures DiskPromise(live[p.id := CommitOf(p, now)], table, landed, promised)
  {
    hide Says; hide Concluded; hide Stands;
    var next := live[p.id := CommitOf(p, now)];
    forall rid | rid in promised ensures Stands(next, landed, rid, promised[rid]) {
      StandsStays(live, next, landed, landed, rid, promised[rid]);
    }
  }

  /** A marker that did not land is withdrawn. */
  lemma WithdrawnRecord(live: map<nat, Record>, table: map<string, Entry>, landed: set<nat>,
                        promised: map<string, Message>, id: nat)
    requires DiskPromise(live, table, landed, promised) && id in live && live[id].Prepared? && id !in landed
    ensures DiskPromise(live - {id}, table, landed, promised)
  {
    hide Says; hide Concluded; hide Stands; hide Meaning;
    forall rid | rid in promised ensures Stands(live - {id}, landed, rid, promised[rid]) {
      StandsStays(live, live - {id}, landed, landed, rid, promised[rid]);
    }
  }

  /** A promise is made for a record that stands for it, while the request has no result. */
  lemma NewPromise(live: map<nat, Record>, table: map<string, Entry>, landed: set<nat>, landed': set<nat>,
                   promised: map<string, Message>, rid: string, msg: Message)
    requires DiskPromise(live, table, landed, promised) && landed <= landed'
    requires Stands(live, landed', rid, msg) && (rid in table ==> table[rid].result.None?)
    ensures DiskPromise(live, table, landed', promised[rid := msg])
  {
    hide Concluded; hide Stands;
    forall q | q in promised && q != rid ensures Stands(live, landed', q, promised[q]) {
      StandsStays(live, live, landed, landed', q, promised[q]);
    }
  }

  lemma FewerPromises(live: map<nat, Record>, table: map<string, Entry>, landed: set<nat>,
                      promised: map<string, Message>, rid: string)
    requires DiskPromise(live, table, landed, promised)
    ensures DiskPromise(live, table, landed, promised - {rid})
  {
    hide Says; hide Concluded; hide Stands;
  }

  /** A line is logged that keeps to what was promised. */
  lemma OneMoreLine(live: map<nat, Record>, table: map<string, Entry>, landed: set<nat>,
                    promised: map<string, Message>, line: ReqLine)
    requires DiskPromise(live, table, landed, promised)
    requires EntryOf(line).result.None? ==> line.status.InProgress?
    requires line.rid in promised && EntryOf(line).result.Some? ==> Replayed(line.rid, EntryOf(line)) == promised[line.rid]
    ensures DiskPromise(live, table[line.rid := EntryOf(line)], landed, promised)
  {
    hide Stands; hide Replayed;
  }

  // ---- what handlers hold ----

  /** A line a handler may hold. */
  ghost predicate Holds(promised: map<string, Message>, gone: set<string>, line: ReqLine) {
    && EntryOf(line).result.Some?
    && (line.rid in promised ==> Replayed(line.rid, EntryOf(line)) == promised[line.rid])
    && (line.status.Done? ==> line.rid in promised || line.rid in gone)
  }

  /** One handler moves on; only its own promise changes. */
  lemma HandlerMoves(table: map<string, Entry>, landed: set<nat>, promised: map<string, Message>, gone: set<string>, m: Memory,
                     landed': set<nat>, promised': map<string, Message>, n: Memory, rid: string, task: Task)
    requires MemoryPromise(table, landed, promised, gone, m) && rid in m.tasks
    requires n.requests == m.requests && n.tasks == m.tasks[rid := task] && n.serving == m.serving
    requires forall q :: q != rid ==> (q in promised' <==> q in promised) && (q in promised' ==> promised'[q] == promised[q])
    requires task.Answering? ==> task.line.rid == rid && Holds(promised', gone, task.line)
    requires GuardPromise(landed', promised', gone, n)
    ensures MemoryPromise(table, landed', promised', gone, n)
  {
    hide EntryOf; hide Replayed; hide GuardPromise;
    assert TaskPromise(table, promised, gone, m, rid);
    forall q | q in n.tasks ensures TaskPromise(table, promised', gone, n, q) {
      assert TaskPromise(table, promised, gone, m, q);
    }
    forall q | q in promised' ensures q in n.requests && Says(n.requests, q, promised'[q]) {
      assert q != rid ==> q in promised && Says(m.requests, q, promised[q]);
    }
  }

  // ---- the steps ----

  /** What the invariant says of one handler and one record. */
  lemma PromiseFacts(s: State, m: Memory, rid: string)
    requires Once(s) && Promise(s) && s.memory == Some(m) && rid in m.tasks
    ensures TaskPromise(Requests(s.reqs), s.promised, s.pruned.requests, m, rid)
    ensures m.tasks[rid].Claimed? || m.tasks[rid].Running? ==> rid !in s.promised
    ensures m.guard.Some? && m.guard.value.rid == rid ==> m.tasks[rid].Mutating?
  {
    hide Stands; hide Live; hide Requests; hide Says; hide TaskPromise; hide Owns; hide Meaning; hide Once; hide TaskOnce;
    hide TablePromise; hide Concluded; hide RequestsPromise;
    TaskFacts(s, m, rid);
    if rid in s.promised {
      StandingOwns(Live(s.ops), Shown(s.h), rid, s.promised[rid]);
    }
  }

  lemma PromiseParts(s: State)
    requires Promise(s)
    ensures DiskPromise(Live(s.ops), Requests(s.reqs), Shown(s.h), s.promised)
    ensures Apart(s.promised, s.pruned.requests)
    ensures s.memory.Some? ==>
              && MemoryPromise(Requests(s.reqs), Shown(s.h), s.promised, s.pruned.requests, s.memory.value)
              && (s.memory.value.serving ==>
                    DiskPromise(Live(s.memory.value.table), Requests(s.reqs), Shown(Remembered(s.h, s.memory.value)), s.promised))
  {
    hide DiskPromise; hide MemoryPromise; hide Apart;
  }

  /** What a server that serves is to have, to keep its promises. */
  lemma PromiseRebuilt(s: State, m: Memory)
    requires s.memory == Some(m) && Apart(s.promised, s.pruned.requests)
    requires DiskPromise(Live(s.ops), Requests(s.reqs), Shown(s.h), s.promised)
    requires DiskPromise(Live(m.table), Requests(s.reqs), Shown(Remembered(s.h, m)), s.promised)
    requires MemoryPromise(Requests(s.reqs), Shown(s.h), s.promised, s.pruned.requests, m)
    ensures Promise(s)
  {
    hide DiskPromise; hide MemoryPromise; hide Apart; hide Live; hide Requests; hide Shown;
  }

  lemma GuardStays(s: State, m: Memory, n: Memory, promised: map<string, Message>, rid: string)
    requires Promise(s) && s.memory == Some(m) && n.guard == m.guard && n.unseen == m.unseen
    requires rid in m.tasks && !m.tasks[rid].Mutating?
    requires forall q :: q != rid && q in m.tasks ==> q in n.tasks && n.tasks[q] == m.tasks[q]
    requires forall q :: q != rid && q in s.promised ==> q in promised && promised[q] == s.promised[q]
    ensures GuardPromise(Shown(s.h), promised, s.pruned.requests, n)
  {
    hide Requests; hide Live; hide DiskPromise; hide RequestsPromise; hide TasksPromise; hide Meaning; hide Shown;
    hide TablePromise;
  }

  /** A handler that promised nothing is to answer with an error, or goes on to work. */
  lemma HandlerGoesOn(s: State, m: Memory, n: Memory, rid: string, task: Task)
    requires Promise(s) && s.memory == Some(m) && rid in m.tasks && !m.tasks[rid].Mutating? && rid !in s.promised
    requires n.requests == m.requests && n.tasks == m.tasks[rid := task] && n.serving == m.serving && n.guard == m.guard
    requires n.unseen == m.unseen
    requires task.Answering? ==> exists error :: task.line == ErrorLine(rid, error)
    ensures MemoryPromise(Requests(s.reqs), Shown(s.h), s.promised, s.pruned.requests, n)
  {
    hide MemoryPromise; hide DiskPromise; hide GuardPromise; hide Live; hide Requests; hide Replayed; hide Shown; hide TablePromise;
    PromiseParts(s);
    GuardStays(s, m, n, s.promised, rid);
    HandlerMoves(Requests(s.reqs), Shown(s.h), s.promised, s.pruned.requests, m, Shown(s.h), s.promised, n, rid, task);
  }

  lemma ClaimPromise(s: State, m: Memory, rid: string, op: string, io: Fate)
    requires Promise(s) && s.memory == Some(m) && m.serving
    ensures Promise(DoClaim(s, m, rid, op, io))
  {
    hide DiskPromise; hide MemoryPromise; hide Live; hide Requests; hide Replayed; hide Meaning; hide Shown; hide Apart;
    if rid !in m.requests && !io.Refused? {
      var line := ClaimLine(rid, op);
      var table := Requests(s.reqs);
      PromiseParts(s);
      RequestsAppend(s.reqs, line);
      OneMoreLine(Live(s.ops), table, Shown(s.h), s.promised, line);
      OneMoreLine(Live(m.table), table, Shown(Remembered(s.h, m)), s.promised, line);
      KnownPromise(table, Shown(s.h), s.promised, s.pruned.requests, m, rid, op);
    }
  }

  lemma KnownPromise(table: map<string, Entry>, landed: set<nat>, promised: map<string, Message>, gone: set<string>,
                     m: Memory, rid: string, op: string)
    requires MemoryPromise(table, landed, promised, gone, m) && rid !in m.requests && m.serving
    ensures var table' := table[rid := ClaimEntry(op)];
            && MemoryPromise(table', landed, promised, gone, m)
            && MemoryPromise(table', landed, promised, gone,
                             Move(m, rid, Claimed(op)).(requests := m.requests[rid := ClaimEntry(op)]))
  {
    hide TaskPromise; hide RequestsPromise; hide Meaning;
    var table' := table[rid := ClaimEntry(op)];
    var n := Move(m, rid, Claimed(op)).(requests := m.requests[rid := ClaimEntry(op)]);
    KnownRequest(table, promised, m, rid, op);
    forall q | q in n.tasks ensures TaskPromise(table', promised, gone, n, q)
      ensures q in m.tasks ==> q != rid && TaskPromise(table', promised, gone, m, q) {
      KnownTask(table, promised, gone, m, rid, op, q);
    }
  }

  lemma KnownRequest(table: map<string, Entry>, promised: map<string, Message>, m: Memory, rid: string, op: string)
    requires RequestsPromise(table, promised, m) && rid !in m.requests && m.serving
    ensures var table' := table[rid := ClaimEntry(op)];
            && RequestsPromise(table', promised, m)
            && RequestsPromise(table', promised, Move(m, rid, Claimed(op)).(requests := m.requests[rid := ClaimEntry(op)]))
  {
    hide Replayed;
  }

  lemma KnownTask(table: map<string, Entry>, promised: map<string, Message>, gone: set<string>, m: Memory,
                  rid: string, op: string, q: string)
    requires TasksPromise(table, promised, gone, m) && rid !in m.requests
    ensures var table' := table[rid := ClaimEntry(op)];
            var n := Move(m, rid, Claimed(op)).(requests := m.requests[rid := ClaimEntry(op)]);
            && (q in n.tasks ==>
                  TaskPromise(table', promised, gone, n, q) && (q in m.tasks ==> TaskPromise(table', promised, gone, m, q)))
            && (q in m.tasks ==> q != rid)
  {
    hide Replayed; hide EntryOf;
    assert q in m.tasks ==> TaskPromise(table, promised, gone, m, q);
  }

  lemma RefusePromise(s: State, m: Memory, rid: string, error: ProtocolError)
    requires Once(s) && Promise(s) && s.memory == Some(m) && rid in m.tasks && m.tasks[rid].Claimed?
    ensures Promise(s.(memory := Some(Fail(m, rid, error))))
  {
    hide MemoryPromise; hide DiskPromise; hide Once; hide Live; hide Requests; hide TaskPromise; hide Apart; hide Shown;
    PromiseFacts(s, m, rid);
    HandlerGoesOn(s, m, Fail(m, rid, error), rid, Answering(ErrorLine(rid, error)));
  }

  lemma BeginExecPromise(s: State, m: Memory, rid: string, spawned: bool)
    requires Once(s) && Promise(s) && s.memory == Some(m) && rid in m.tasks && m.tasks[rid].Claimed?
    ensures Promise(DoBeginExec(s, m, rid, spawned))
  {
    hide MemoryPromise; hide DiskPromise; hide Once; hide Live; hide Requests; hide TaskPromise; hide Apart; hide Shown;
    PromiseFacts(s, m, rid);
    HandlerGoesOn(s, m, DoBeginExec(s, m, rid, spawned).memory.value, rid, Running(m.nextId + 1));
  }

  lemma PreparePromise(s: State, m: Memory, p: Marker, io: Fate, undo: Fate)
    requires Inv(s) && Once(s) && Promise(s) && s.memory == Some(m) && m.serving && m.guard.None?
    requires p.rid in m.tasks && m.tasks[p.rid].Claimed? && p.id == m.nextId + 1
    ensures Promise(DoPrepare(s, m, p, io, undo))
  {
    hide Inv; hide MemoryPromise; hide DiskPromise; hide Once; hide Live; hide Requests; hide View; hide HistoryOld; hide Twins;
    hide TaskPromise; hide Apart; hide GuardPromise; hide HighWater; hide IsTable; hide Promise; hide TablePromise;
    PromiseFacts(s, m, p.rid);
    PromiseParts(s);
    ServingFacts(s, m);
    FreshIds(s, m);
    var next := DoPrepare(s, m, p, io, undo);
    var n := next.memory.value;
    PreparedRecords(s, m, p, io, undo);
    if io.Logged? {
      NewMarker(s, m, p);
      GuardTaken(s.h, s.promised, s.pruned.requests, m, n, p);
      HandlerMoves(Requests(s.reqs), Shown(s.h), s.promised, s.pruned.requests, m, Shown(s.h), s.promised, n, p.rid, Mutating);
    } else {
      HandlerGoesOn(s, m, n, p.rid, n.tasks[p.rid]);
    }
    assert Shown(next.h) == Shown(s.h);
    PromiseRebuilt(next, n);
  }

  /** The two views of the records after a marker, however its appends end. */
  lemma PreparedRecords(s: State, m: Memory, p: Marker, io: Fate, undo: Fate)
    requires Inv(s) && Promise(s) && s.memory == Some(m) && m.serving && p.id == m.nextId + 1
    ensures var next := DoPrepare(s, m, p, io, undo);
            var n := next.memory.value;
            && DiskPromise(Live(next.ops), Requests(s.reqs), Shown(next.h), s.promised)
            && DiskPromise(Live(n.table), Requests(s.reqs), Shown(Remembered(next.h, n)), s.promised)
  {
    hide Inv; hide MemoryPromise; hide DiskPromise; hide Live; hide Requests; hide View; hide HistoryOld; hide Twins;
    hide HighWater; hide IsTable;
    FreshIds(s, m);
    LiveAppend(s.ops, p);
    LiveAppend(m.table, p);
    WithdrawnAtOnce(s, m, p);
    MoreRecords(Live(s.ops), Requests(s.reqs), Shown(s.h), s.promised, p);
    MoreRecords(Live(m.table), Requests(s.reqs), Shown(Remembered(s.h, m)), s.promised, p);
    SameShown(s, m, DoPrepare(s, m, p, io, undo));
  }

  /** What is given up, and what else happens to memory, changes nothing about what landed and is not obscured. */
  lemma SameShown(s: State, m: Memory, next: State)
    requires next.h.landed == s.h.landed && next.h.obscured == s.h.obscured
    ensures Shown(next.h) == Shown(s.h)
    ensures next.memory.Some? && next.memory.value.unseen == m.unseen ==>
              Shown(Remembered(next.h, next.memory.value)) == Shown(Remembered(s.h, m))
  {
  }

  lemma NewMarker(s: State, m: Memory, p: Marker)
    requires HistoryOld(s.h, m.nextId) && p.id == m.nextId + 1 && forall id :: id in m.unseen ==> id <= m.nextId
    ensures p.id !in s.h.landed && p.id !in m.unseen
  {
  }

  /** The lock is taken for a new marker. */
  lemma GuardTaken(h: History, promised: map<string, Message>, gone: set<string>, m: Memory, n: Memory, p: Marker)
    requires n.guard == Some(p) && n.tasks == m.tasks[p.rid := Mutating] && n.unseen == m.unseen
    requires p.id !in h.landed && p.id !in m.unseen
    ensures GuardPromise(Shown(h), promised, gone, n)
  {
    hide Meaning;
  }

  lemma InstallPromise(s: State, m: Memory)
    requires Inv(s) && Once(s) && Promise(s) && s.memory == Some(m) && Enabled(s, Install)
    ensures Promise(DoInstall(s, m.guard.value))
  {
    hide Inv; hide MemoryPromise; hide DiskPromise; hide Once; hide Live; hide Requests; hide Says; hide Stands; hide TaskPromise;
    hide Apart; hide Promise; hide TablePromise; hide Meaning; hide GuardPromise; hide ReconstructResult;
    var p := m.guard.value;
    var next := DoInstall(s, p);
    GuardFacts(s, m);
    GuardTask(s, m);
    PromiseParts(s);
    ReplyIsMeaning(p, s.now);
    if p.id in s.h.obscured || p.rid in s.pruned.requests {
      UnpromisedInstall(s, m, p);
    } else {
      PromiseFacts(s, m, p.rid);
      InstalledRecord(s, m, p);
      HandlerMoves(Requests(s.reqs), Shown(s.h), s.promised, s.pruned.requests, m, Shown(next.h), next.promised, m, p.rid,
                   Mutating);
    }
    MayPromise(s, p.rid, Meaning(p));
    PromiseRebuilt(next, m);
  }

  lemma ReplyIsMeaning(p: Marker, now: nat)
    ensures ReconstructResult(CommitOf(p, now)) == Meaning(p)
  {
  }

  lemma MayPromise(s: State, rid: string, msg: Message)
    requires Apart(s.promised, s.pruned.requests)
    ensures Apart(Promising(s, rid, msg), s.pruned.requests)
  {
  }

  /** More may have landed without anything being promised of it. */
  lemma MoreLanded(live: map<nat, Record>, table: map<string, Entry>, landed: set<nat>, landed': set<nat>,
                   promised: map<string, Message>)
    requires DiskPromise(live, table, landed, promised) && landed <= landed'
    ensures DiskPromise(live, table, landed', promised)
  {
    hide Says; hide Concluded; hide Stands; hide Meaning;
    forall rid | rid in promised ensures Stands(live, landed', rid, promised[rid]) {
      StandsStays(live, live, landed, landed', rid, promised[rid]);
    }
  }

  /** An install nothing is promised of. */
  lemma UnpromisedInstall(s: State, m: Memory, p: Marker)
    requires Promise(s) && s.memory == Some(m) && m.serving && m.guard == Some(p)
    requires p.id in s.h.obscured || p.rid in s.pruned.requests
    ensures var next := DoInstall(s, p);
            && next.promised == s.promised
            && DiskPromise(Live(s.ops), Requests(s.reqs), Shown(next.h), s.promised)
            && DiskPromise(Live(m.table), Requests(s.reqs), Shown(Remembered(next.h, m)), s.promised)
            && MemoryPromise(Requests(s.reqs), Shown(next.h), s.promised, s.pruned.requests, m)
  {
    hide DiskPromise; hide Live; hide Requests; hide RequestsPromise; hide TasksPromise; hide Meaning; hide ReconstructResult;
    var next := DoInstall(s, p);
    MoreLanded(Live(s.ops), Requests(s.reqs), Shown(s.h), Shown(next.h), s.promised);
    MoreLanded(Live(m.table), Requests(s.reqs), Shown(Remembered(s.h, m)), Shown(Remembered(next.h, m)), s.promised);
  }

  /** An install that is promised, in both views. */
  lemma InstalledRecord(s: State, m: Memory, p: Marker)
    requires Promise(s) && s.memory == Some(m) && m.serving && m.guard == Some(p)
    requires p.id !in s.h.obscured && p.rid !in s.pruned.requests && p.rid in m.tasks
    requires p.id in Live(s.ops) && Live(s.ops)[p.id] == p && p.id in Live(m.table) && Live(m.table)[p.id] == p
    requires TaskPromise(Requests(s.reqs), s.promised, s.pruned.requests, m, p.rid)
    ensures var next := DoInstall(s, p);
            && next.promised == s.promised[p.rid := Meaning(p)]
            && DiskPromise(Live(s.ops), Requests(s.reqs), Shown(next.h), next.promised)
            && DiskPromise(Live(m.table), Requests(s.reqs), Shown(Remembered(next.h, m)), next.promised)
            && GuardPromise(Shown(next.h), next.promised, s.pruned.requests, m)
  {
    hide DiskPromise; hide Live; hide Requests; hide RequestsPromise; hide TasksPromise; hide Meaning; hide Stands;
    var next := DoInstall(s, p);
    ReplyIsMeaning(p, s.now);
    StandsThere(Live(s.ops), Shown(next.h), p);
    StandsThere(Live(m.table), Shown(Remembered(next.h, m)), p);
    NewPromise(Live(s.ops), Requests(s.reqs), Shown(s.h), Shown(next.h), s.promised, p.rid, Meaning(p));
    NewPromise(Live(m.table), Requests(s.reqs), Shown(Remembered(s.h, m)), Shown(Remembered(next.h, m)), s.promised, p.rid,
               Meaning(p));
  }

  lemma StandsThere(live: map<nat, Record>, landed: set<nat>, r: Record)
    requires r.id in live && live[r.id] == r && !r.Aborted? && (r.Prepared? ==> r.id in landed)
    ensures Stands(live, landed, r.rid, Meaning(r))
  {
    assert StandsAt(live, landed, r.rid, Meaning(r), r.id);
  }

  lemma GuardTask(s: State, m: Memory)
    requires Promise(s) && s.memory == Some(m) && m.guard.Some?
    ensures var p := m.guard.value;
            && p.rid in m.tasks && m.tasks[p.rid].Mutating? && m.tasks == m.tasks[p.rid := Mutating] && p.id !in m.unseen
  {
    hide DiskPromise; hide Live; hide Requests; hide RequestsPromise; hide TasksPromise; hide Meaning; hide TablePromise;
  }

  /** A mutation that did not happen promised nothing. */
  lemma UnlandedPromisesNothing(s: State, m: Memory)
    requires Inv(s) && Once(s) && Promise(s) && s.memory == Some(m) && m.serving && m.guard.Some?
    requires m.guard.value.id !in s.h.landed
    ensures m.guard.value.rid !in s.promised
  {
    hide Inv; hide MemoryOnce; hide MemoryPromise; hide Live; hide Requests; hide Stands; hide Says; hide Owns; hide ViewOnce;
    hide TablePromise; hide Meaning;
    var p := m.guard.value;
    GuardFacts(s, m);
    if p.rid in s.promised {
      StandingOnly(Live(s.ops), Shown(s.h), s.pruned.requests, p.rid, s.promised[p.rid]);
    }
  }

  lemma WithdrawPromise(s: State, m: Memory, error: ProtocolError, io: Fate)
    requires Inv(s) && Once(s) && Promise(s) && s.memory == Some(m) && Enabled(s, Withdraw(error, io))
    ensures Promise(DoWithdraw(s, m, m.guard.value, error, io))
  {
    hide Inv; hide MemoryPromise; hide DiskPromise; hide Once; hide Live; hide Requests; hide DropPrepared; hide Replayed;
    hide Promise; hide TablePromise; hide Apart; hide Shown; hide ReconstructResult;
    var p := m.guard.value;
    var next := DoWithdraw(s, m, p, error, io);
    var n := next.memory.value;
    GuardFacts(s, m);
    GuardTask(s, m);
    UnlandedPromisesNothing(s, m);
    PromiseParts(s);
    NotShown(s, m, p.id);
    TableFacts(s, m);
    LiveAppend(s.ops, Aborted(p.id, s.now));
    WithdrawnRecord(Live(s.ops), Requests(s.reqs), Shown(s.h), s.promised, p.id);
    if io.Logged? {
      DropPreparedLive(m.table, p.id);
      WithdrawnRecord(Live(m.table), Requests(s.reqs), Shown(Remembered(s.h, m)), s.promised, p.id);
    }
    HandlerMoves(Requests(s.reqs), Shown(s.h), s.promised, s.pruned.requests, m, Shown(s.h), s.promised, n, p.rid,
                 Answering(ErrorLine(p.rid, error)));
    SameShown(s, m, next);
    PromiseRebuilt(next, n);
  }

  lemma NotShown(s: State, m: Memory, id: nat)
    requires id !in s.h.landed
    ensures id !in Shown(s.h) && id !in Shown(Remembered(s.h, m))
  {
  }

  lemma CommitPromise(s: State, m: Memory, synced: bool)
    requires Inv(s) && Once(s) && Promise(s) && s.memory == Some(m) && Enabled(s, Commit(synced))
    ensures Promise(DoCommit(s, m, m.guard.value, synced))
  {
    hide DoCommit; hide Promise; hide Inv; hide Once; hide Live;
    if synced {
      SyncedCommitPromise(s, m);
    } else {
      UnsyncedCommitPromise(s, m);
    }
  }

  /** A commit that is acknowledged is promised, whatever was at its file. */
  lemma SyncedCommitPromise(s: State, m: Memory)
    requires Inv(s) && Once(s) && Promise(s) && s.memory == Some(m) && Enabled(s, Commit(true))
    ensures Promise(DoCommit(s, m, m.guard.value, true))
  {
    hide Inv; hide MemoryPromise; hide DiskPromise; hide Once; hide Live; hide Requests; hide Upsert; hide EntryOf; hide Promise;
    hide TablePromise; hide Apart; hide Shown; hide TaskPromise; hide Stands; hide Replayed; hide Holds;
    var p := m.guard.value;
    var c, next := CommitOf(p, s.now), DoCommit(s, m, p, true);
    var n, msg := next.memory.value, ReconstructResult(c);
    GuardFacts(s, m);
    GuardTask(s, m);
    PromiseFacts(s, m, p.rid);
    PromiseParts(s);
    TableFacts(s, m);
    LiveAppend(s.ops, c);
    UpsertLive(m.table, c);
    CommittedView(Live(s.ops), s, m, Shown(s.h), p, c);
    CommittedView(Live(m.table), s, m, Shown(Remembered(s.h, m)), p, c);
    MayPromise(s, p.rid, msg);
    MayHoldPromised(next.promised, s.pruned.requests, p.rid, msg);
    HandlerMoves(Requests(s.reqs), Shown(s.h), s.promised, s.pruned.requests, m, Shown(s.h), next.promised, n, p.rid,
                 n.tasks[p.rid]);
    SameShown(s, m, next);
    PromiseRebuilt(next, n);
  }

  /** One view through a commit that is acknowledged. */
  lemma CommittedView(live: map<nat, Record>, s: State, m: Memory, landed: set<nat>, p: Marker, c: Record)
    requires DiskPromise(live, Requests(s.reqs), landed, s.promised) && p.id in live && live[p.id] == p && c == CommitOf(p, s.now)
    requires p.rid in m.tasks && TaskPromise(Requests(s.reqs), s.promised, s.pruned.requests, m, p.rid)
    ensures DiskPromise(live[p.id := c], Requests(s.reqs), landed, Promising(s, p.rid, ReconstructResult(c)))
  {
    hide DiskPromise; hide Requests; hide Stands;
    CommittedRecord(live, Requests(s.reqs), landed, s.promised, p, s.now);
    if p.rid !in s.pruned.requests {
      StandsThere(live[p.id := c], landed, c);
      NewPromise(live[p.id := c], Requests(s.reqs), landed, landed, s.promised, p.rid, ReconstructResult(c));
    }
  }

  lemma UnsyncedCommitPromise(s: State, m: Memory)
    requires Inv(s) && Once(s) && Promise(s) && s.memory == Some(m) && Enabled(s, Commit(false))
    ensures Promise(DoCommit(s, m, m.guard.value, false))
  {
    hide Inv; hide MemoryPromise; hide DiskPromise; hide Once; hide Live; hide Requests; hide EntryOf; hide Promise;
    hide TablePromise; hide Apart; hide Shown; hide Stands; hide Replayed; hide ReconstructResult; hide Holds;
    var p := m.guard.value;
    var c, next := CommitOf(p, s.now), DoCommit(s, m, p, false);
    GuardFacts(s, m);
    GuardTask(s, m);
    PromiseParts(s);
    LiveAppend(s.ops, c);
    CommittedRecord(Live(s.ops), Requests(s.reqs), Shown(s.h), s.promised, p, s.now);
    FewerPromises(Live(s.ops)[p.id := c], Requests(s.reqs), Shown(s.h), s.promised, p.rid);
    FewerPromises(Live(m.table), Requests(s.reqs), Shown(Remembered(s.h, m)), s.promised, p.rid);
    StillApart(s.promised, s.pruned.requests, next.promised);
    MayHoldError(next.promised, s.pruned.requests, p.rid, LOG_UNSYNCED);
    HandlerMoves(Requests(s.reqs), Shown(s.h), s.promised, s.pruned.requests, m, Shown(s.h), next.promised,
                 next.memory.value, p.rid, Answering(ErrorLine(p.rid, LOG_UNSYNCED)));
    SameShown(s, m, next);
    PromiseRebuilt(next, next.memory.value);
  }

  lemma StillApart(promised: map<string, Message>, gone: set<string>, fewer: map<string, Message>)
    requires Apart(promised, gone) && forall rid :: rid in fewer ==> rid in promised
    ensures Apart(fewer, gone)
  {
  }

  lemma MayHoldError(promised: map<string, Message>, gone: set<string>, rid: string, error: ProtocolError)
    ensures rid !in promised ==> Holds(promised, gone, ErrorLine(rid, error))
  {
  }

  lemma MayHoldPromised(promised: map<string, Message>, gone: set<string>, rid: string, msg: Message)
    requires if rid in promised then promised[rid] == msg else rid in gone
    ensures Holds(promised, gone, DoneLine(rid, msg))
  {
  }

  lemma LeavePromise(s: State, m: Memory, error: ProtocolError)
    requires Inv(s) && Once(s) && Promise(s) && s.memory == Some(m) && Enabled(s, Leave(error))
    ensures Promise(DoLeave(s, m, m.guard.value, error))
  {
    hide Inv; hide MemoryPromise; hide DiskPromise; hide Once; hide Live; hide Requests; hide EntryOf; hide Meaning; hide Promise;
    hide TablePromise; hide Apart; hide Shown; hide Replayed; hide Holds;
    var p := m.guard.value;
    var next := DoLeave(s, m, p, error);
    GuardFacts(s, m);
    GuardTask(s, m);
    PromiseParts(s);
    FewerPromises(Live(s.ops), Requests(s.reqs), Shown(s.h), s.promised, p.rid);
    FewerPromises(Live(m.table), Requests(s.reqs), Shown(Remembered(s.h, m)), s.promised, p.rid);
    StillApart(s.promised, s.pruned.requests, next.promised);
    MayHoldError(next.promised, s.pruned.requests, p.rid, error);
    HandlerMoves(Requests(s.reqs), Shown(s.h), s.promised, s.pruned.requests, m, Shown(s.h), next.promised,
                 next.memory.value, p.rid, Answering(ErrorLine(p.rid, error)));
    SameShown(s, m, next);
    PromiseRebuilt(next, next.memory.value);
  }

  /** A record is appended; if it is acknowledged its handler may promise what the record stands for. */
  lemma RecordPromise(s: State, m: Memory, nextId: nat, r: Record, line: ReqLine, io: Fate, promised: map<string, Message>)
    requires Inv(s) && Once(s) && Promise(s) && s.memory == Some(m) && m.serving
    requires (r.Exec? || r.Transfer?) && r.rid in m.tasks && (m.tasks[r.rid].Claimed? || m.tasks[r.rid].Running?)
    requires r.id !in Live(s.ops) && r.id !in Live(m.table) && line.rid == r.rid
    requires promised == s.promised || (io.Logged? && promised == Promising(s, r.rid, ReconstructResult(r)))
    requires Holds(promised, s.pruned.requests, line)
    ensures Promise(DoRecord(s, m.(nextId := nextId), r, line, io).(promised := promised))
  {
    hide Inv; hide MemoryPromise; hide DiskPromise; hide Once; hide Live; hide Requests; hide EntryOf; hide ReconstructResult;
    hide Holds; hide Says; hide Promise; hide TablePromise; hide Apart; hide Shown; hide TaskPromise; hide GuardPromise;
    var next := DoRecord(s, m.(nextId := nextId), r, line, io).(promised := promised);
    var n := next.memory.value;
    PromiseFacts(s, m, r.rid);
    PromiseParts(s);
    LiveAppend(s.ops, r);
    LiveAppend(m.table, r);
    RecordedView(Live(s.ops), s, m, Shown(s.h), r, promised, !io.Refused?, io.Logged?);
    RecordedView(Live(m.table), s, m, Shown(Remembered(s.h, m)), r, promised, io.Logged?, io.Logged?);
    MayPromise(s, r.rid, ReconstructResult(r));
    GuardStays(s, m, n, promised, r.rid);
    HandlerMoves(Requests(s.reqs), Shown(s.h), s.promised, s.pruned.requests, m, Shown(s.h), promised, n, r.rid, Answering(line));
    SameShown(s, m, next);
    PromiseRebuilt(next, n);
  }

  /** One view through a record that is appended, or is not, and may be promised if it is. */
  lemma RecordedView(live: map<nat, Record>, s: State, m: Memory, landed: set<nat>, r: Record, promised: map<string, Message>,
                     appended: bool, logged: bool)
    requires DiskPromise(live, Requests(s.reqs), landed, s.promised) && r.id !in live && (r.Exec? || r.Transfer?)
    requires r.rid in m.tasks && TaskPromise(Requests(s.reqs), s.promised, s.pruned.requests, m, r.rid)
    requires promised == s.promised || (logged && promised == Promising(s, r.rid, ReconstructResult(r)))
    requires logged ==> appended
    ensures DiskPromise(if appended then live[r.id := r] else live, Requests(s.reqs), landed, promised)
  {
    hide DiskPromise; hide Requests; hide Stands; hide ReconstructResult;
    MoreRecords(live, Requests(s.reqs), landed, s.promised, r);
    if promised != s.promised {
      StandsThere(live[r.id := r], landed, r);
      RecordMeans(r);
      NewPromise(live[r.id := r], Requests(s.reqs), landed, landed, s.promised, r.rid, ReconstructResult(r));
    }
  }

  lemma RecordMeans(r: Record)
    requires r.Committed()
    ensures Meaning(r) == ReconstructResult(r)
  {
  }

  lemma ExecLineHolds(id: nat, rid: string, q: ExecRequest, outcome: Ending, io: Fate, refusal: ProtocolError, ts: nat,
                      promised: map<string, Message>, gone: set<string>)
    requires rid !in promised
    ensures var r := ExecRecord(id, rid, q, outcome, ts);
            var line := ExecLine(id, rid, outcome, Seen(io, refusal));
            && r.id == id && r.rid == rid && r.Exec? && line.rid == rid
            && ReconstructResult(r) == ExecReply(id, rid, outcome)
            && Holds(if io.Logged? && rid !in gone then promised[rid := ExecReply(id, rid, outcome)] else promised, gone, line)
  {
    ExecRecordStandsForReply(id, rid, q, outcome, ts);
  }

  lemma RecordExecPromise(s: State, m: Memory, rid: string, q: ExecRequest, outcome: Ending, io: Fate, refusal: ProtocolError)
    requires Inv(s) && Once(s) && Promise(s) && s.memory == Some(m) && m.serving && rid in m.tasks && m.tasks[rid].Running?
    ensures Promise(DoRecordExec(s, m, rid, q, outcome, io, refusal))
  {
    hide Inv; hide Promise; hide Once; hide Live; hide Requests; hide Holds; hide ExecRecord; hide ExecReply; hide ExecLine;
    hide ReconstructResult; hide DoRecord; hide TaskPromise;
    var id := m.tasks[rid].id;
    FreshIds(s, m);
    PromiseFacts(s, m, rid);
    ExecLineHolds(id, rid, q, outcome, io, refusal, s.now, s.promised, s.pruned.requests);
    var promised := if io.Logged? then Promising(s, rid, ExecReply(id, rid, outcome)) else s.promised;
    var r, line := ExecRecord(id, rid, q, outcome, s.now), ExecLine(id, rid, outcome, Seen(io, refusal));
    SamePromises(s, m, r, line, io);
    RecordPromise(s, m, m.nextId, r, line, io, promised);
  }

  lemma SamePromises(s: State, m: Memory, r: Record, line: ReqLine, io: Fate)
    requires r.Exec? || r.Transfer?
    ensures DoRecord(s, m, r, line, io).promised == s.promised
  {
  }

  lemma TransferLineHolds(id: nat, rid: string, transfer: TransferDetail, io: Fate, refusal: ProtocolError, cleaned: bool,
                          promised: map<string, Message>, gone: set<string>)
    requires rid !in promised
    ensures var line := TransferLine(id, rid, transfer, Seen(io, refusal), cleaned);
            && line.rid == rid
            && Holds(if io.Logged? && cleaned && rid !in gone then promised[rid := Reply(rid, TransferResult(id, transfer))]
                     else promised, gone, line)
  {
  }

  lemma RecordTransferPromise(s: State, m: Memory, rid: string, transfer: TransferDetail, cleaned: bool, io: Fate,
                              refusal: ProtocolError)
    requires Inv(s) && Once(s) && Promise(s) && s.memory == Some(m) && m.serving && rid in m.tasks && m.tasks[rid].Claimed?
    ensures Promise(DoRecordTransfer(s, m, rid, transfer, cleaned, io, refusal))
  {
    hide Inv; hide Promise; hide Once; hide Live; hide Requests; hide Holds; hide TransferLine; hide DoRecord; hide TaskPromise;
    var id := m.nextId + 1;
    FreshIds(s, m);
    PromiseFacts(s, m, rid);
    TransferLineHolds(id, rid, transfer, io, refusal, cleaned, s.promised, s.pruned.requests);
    var promised := if io.Logged? && cleaned then Promising(s, rid, Reply(rid, TransferResult(id, transfer))) else s.promised;
    var r, line := Transfer(id, rid, transfer, s.now), TransferLine(id, rid, transfer, Seen(io, refusal), cleaned);
    SamePromises(s, m.(nextId := id), r, line, io);
    RecordPromise(s, m, id, r, line, io, promised);
  }

  lemma AnswerPromise(s: State, m: Memory, rid: string, io: Fate)
    requires Once(s) && Promise(s) && s.memory == Some(m) && rid in m.tasks && m.tasks[rid].Answering? && m.serving
    ensures Promise(DoAnswer(s, m, rid, io))
  {
    hide Once; hide Live; hide Requests; hide DiskPromise; hide Replayed; hide MemoryPromise; hide Promise; hide TablePromise;
    hide Apart; hide Shown;
    var line := m.tasks[rid].line;
    var next := DoAnswer(s, m, rid, io);
    PromiseFacts(s, m, rid);
    PromiseParts(s);
    RequestsAppend(s.reqs, line);
    OneMoreLine(Live(s.ops), Requests(s.reqs), Shown(s.h), s.promised, line);
    OneMoreLine(Live(m.table), Requests(s.reqs), Shown(Remembered(s.h, m)), s.promised, line);
    AnsweredPromise(Requests(s.reqs), Shown(s.h), s.promised, s.pruned.requests, m, rid);
    SameShown(s, m, next);
    PromiseRebuilt(next, next.memory.value);
  }

  /** However far an answer gets, memory and table keep to the promise. */
  lemma AnsweredPromise(table: map<string, Entry>, landed: set<nat>, promised: map<string, Message>,
                        gone: set<string>, m: Memory, rid: string)
    requires MemoryPromise(table, landed, promised, gone, m) && m.serving && rid in m.tasks && m.tasks[rid].Answering?
    ensures var line := m.tasks[rid].line;
            var n, table' := m.(tasks := m.tasks - {rid}), table[line.rid := EntryOf(line)];
            && MemoryPromise(table, landed, promised, gone, n)
            && MemoryPromise(table', landed, promised, gone, n)
            && MemoryPromise(table', landed, promised, gone, n.(requests := m.requests[line.rid := EntryOf(line)]))
  {
    hide Replayed; hide EntryOf; hide Meaning;
    assert TaskPromise(table, promised, gone, m, rid);
    var line := m.tasks[rid].line;
    var n, table' := m.(tasks := m.tasks - {rid}), table[line.rid := EntryOf(line)];
    forall q | q in n.tasks
      ensures TaskPromise(table, promised, gone, n, q) && TaskPromise(table', promised, gone, n, q)
      ensures TaskPromise(table', promised, gone, n.(requests := m.requests[line.rid := EntryOf(line)]), q) {
      assert TaskPromise(table, promised, gone, m, q);
    }
  }
}
