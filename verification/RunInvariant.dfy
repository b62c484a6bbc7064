/**
 The write-ahead invariant holds over every run of the server, so recovery is exact after any
 crash, whatever failed to be logged, was pruned, or was written by others on the way -- but for
 markers whose file others wrote while they were pending, that a prune left nothing to vouch for,
 or whose withdrawal was lost.

 The log and the table in memory are held to the same invariant each on its own: after an append
 whose sync failed the two differ, and a prune then writes the table back over the log.
 */
module RunInvariant {
  import opened Options
  import opened Records
  import opened Replay
  import opened Recovery
  import opened WriteAhead
  import opened ExactRecovery
  import opened ExactCondition
  import opened Pruning
  import opened Replies
  import opened CrashRuns

  /** The table lists exactly the records of `live`. */
  ghost predicate Agrees(t: seq<Record>, live: map<nat, Record>) {
    IsTable(t) && Live(t) == live
  }

  /** What holds of a list of live records, on disk or in memory; `top` bounds the ids in it. */
  ghost predicate ViewInv(live: map<nat, Record>, top: nat, ws: Workspace, now: nat, h: History) {
    && Good(live, ws, h)
    && NewerThanAll(live, now)
    && (forall id :: id in live ==> id <= top)
  }

  /** Only the mutation holding the write lock can be short of its install. */
  ghost predicate GuardCovers(live: map<nat, Record>, h: History, guard: Option<Marker>) {
    && (guard.Some? ==> guard.value.id in live && live[guard.value.id] == guard.value && guard.value.id !in h.abandoned)
    && (forall id :: Unlanded(live, h, id) ==> guard.Some? && guard.value.id == id)
  }

  ghost predicate View(live: map<nat, Record>, top: nat, ws: Workspace, now: nat, h: History, guard: Option<Marker>) {
    ViewInv(live, top, ws, now, h) && GuardCovers(live, h, guard)
  }

  /** A marker that is in both views is the same in both. */
  ghost predicate Twins(a: map<nat, Record>, b: map<nat, Record>) {
    forall id :: id in a && id in b && a[id].Prepared? && b[id].Prepared? ==> a[id] == b[id]
  }

  lemma TwinsPut(a: map<nat, Record>, b: map<nat, Record>, r: Record)
    requires Twins(a, b) && !r.Prepared?
    ensures Twins(a[r.id := r], b) && Twins(a[r.id := r], b[r.id := r])
  {
  }

  /** The ids of commands that were started and have no record yet are out, but unused. */
  ghost predicate RunningFresh(live: map<nat, Record>, m: Memory) {
    forall rid :: rid in m.tasks && m.tasks[rid].Running? ==> m.tasks[rid].id <= m.nextId && m.tasks[rid].id !in live
  }

  ghost predicate RunningApart(m: Memory) {
    forall r, q :: r in m.tasks && q in m.tasks && m.tasks[r].Running? && m.tasks[q].Running? && r != q ==>
                     m.tasks[r].id != m.tasks[q].id
  }

  ghost predicate ServingInv(live: map<nat, Record>, top: nat, ws: Workspace, now: nat, h: History, m: Memory) {
    && View(live, top, ws, now, h, m.guard)
    && View(Live(m.table), top, ws, now, Remembered(h, m), m.guard)
    && (forall id :: id in m.unseen ==> id <= top)
    && Twins(live, Live(m.table))
    && RunningFresh(live, m) && RunningFresh(Live(m.table), m) && RunningApart(m)
  }

  ghost predicate RecoveringInv(live: map<nat, Record>, ws: Workspace, h: History, m: Memory) {
    m.guard.None? && m.tasks == map[] && m.unseen == {} && Live(m.table) == live && Decidable(m.table, ws, h)
  }

  /** `top` is the id high-water mark the files give. */
  ghost predicate MemoryInv(live: map<nat, Record>, top: nat, ws: Workspace, now: nat, h: History, m: Memory) {
    && IsTable(m.table) && top <= m.nextId
    && if m.serving then ServingInv(live, top, ws, now, h, m) else RecoveringInv(live, ws, h, m)
  }

  ghost predicate HistoryOld(h: History, top: nat) {
    && (forall id :: id in h.landed ==> id <= top)
    && (forall id :: id in h.abandoned ==> id <= top)
    && (forall id :: id in h.obscured ==> id <= top)
  }

  ghost predicate Inv(s: State) {
    var live, top := Live(s.ops), HighWater(s.counter, s.ops);
    && ViewInv(live, top, s.ws, s.now, s.h)
    && HistoryOld(s.h, top)
    && (s.memory.Some? ==> MemoryInv(live, top, s.ws, s.now, s.h, s.memory.value))
  }

  function Max(a: nat, b: nat): nat {
    if a < b then b else a
  }

  /** What one appended record does to the two views of the log the invariant uses. */
  lemma AppendViews(counter: nat, ops: seq<Record>, r: Record)
    ensures HighWater(counter, ops + [r]) == Max(HighWater(counter, ops), r.id)
    ensures !r.Aborted? ==> Live(ops + [r]) == Live(ops)[r.id := r]
    ensures r.Aborted? ==> Live(ops + [r]) == Live(ops) - {r.id}
  {
    LiveAppend(ops, r);
    assert (ops + [r])[..|ops|] == ops;
  }

  // ---- the table ----

  lemma SnocTable(t: seq<Record>, r: Record)
    requires IsTable(t) && !r.Aborted?
    requires forall x :: x in t ==> x.id != r.id
    ensures IsTable(t + [r])
  {
    assert forall i :: 0 <= i < |t| ==> t[i] in t;
  }

  lemma PushAgrees(t: seq<Record>, live: map<nat, Record>, r: Record)
    requires Agrees(t, live) && r.id !in live && !r.Aborted?
    ensures Agrees(t + [r], live[r.id := r])
  {
    MembersOfLive(t);
    SnocTable(t, r);
    LiveAppend(t, r);
  }

  // ---- one view through one step ----

  /** Time passes and ids are given out. */
  lemma TickView(live: map<nat, Record>, top: nat, ws: Workspace, now: nat, h: History, guard: Option<Marker>, top': nat, now': nat)
    requires View(live, top, ws, now, h, guard) && top <= top' && now <= now'
    ensures View(live, top', ws, now', h, guard)
  {
    hide Good; hide GuardCovers;
  }

  /** With no mutation under way every marker is settled. */
  lemma IdleIsSettled(live: map<nat, Record>, h: History)
    requires GuardCovers(live, h, None)
    ensures AllSettled(live, h)
  {
    forall id | id in live && live[id].Prepared? ensures id in h.landed || id in h.abandoned {
      assert !Unlanded(live, h, id);
    }
  }

  lemma PrepareView(live: map<nat, Record>, top: nat, ws: Workspace, now: nat, h: History, p: Marker)
    requires View(live, top, ws, now, h, None)
    requires SaneMarker(p, ws) && ws.Current(p.path) == p.before && p.id > top && p.ts == now
    requires p.id !in h.landed + h.abandoned + h.obscured
    ensures View(live[p.id := p], Max(top, p.id), ws, now + 1, h, Some(p))
  {
    hide SaneMarker; hide Good;
    IdleIsSettled(live, h);
    PrepareKeepsGood(live, ws, h, p);
    var n := live[p.id := p];
    forall id ensures Unlanded(n, h, id) ==> id == p.id {
      assert Unlanded(n, h, id) && id != p.id ==> Unlanded(live, h, id);
    }
  }

  lemma InstallView(live: map<nat, Record>, top: nat, ws: Workspace, now: nat, h: History, p: Marker)
    requires View(live, top, ws, now, h, Some(p)) && p.id !in h.landed
    ensures View(live, top, ws.Install(p.path, AfterState(p.after)), now, h.(landed := h.landed + {p.id}), Some(p))
  {
    hide Good;
    assert Unlanded(live, h, p.id);
    InstallKeepsGood(live, ws, h, p.id);
    var h' := h.(landed := h.landed + {p.id});
    forall i ensures !Unlanded(live, h', i) {
      assert Unlanded(live, h', i) ==> Unlanded(live, h, i);
    }
  }

  /** A mutation is given up and its marker stays. */
  lemma AbandonView(live: map<nat, Record>, top: nat, ws: Workspace, now: nat, h: History, guard: Option<Marker>, id: nat)
    requires View(live, top, ws, now, h, guard) && id !in h.landed
    requires guard.Some? ==> guard.value.id == id
    ensures View(live, top, ws, now, h.(abandoned := h.abandoned + {id}), None)
  {
    hide Good;
    AbandonKeepsGood(live, ws, h, id);
    var h' := h.(abandoned := h.abandoned + {id});
    forall i ensures !Unlanded(live, h', i) {
      assert Unlanded(live, h', i) ==> Unlanded(live, h, i);
    }
  }

  /** A mutation that did not happen is withdrawn. */
  lemma DropView(live: map<nat, Record>, top: nat, ws: Workspace, now: nat, h: History, guard: Option<Marker>, id: nat)
    requires View(live, top, ws, now, h, guard) && id !in h.landed && id in live && live[id].Prepared?
    requires guard.Some? ==> guard.value.id == id
    ensures View(live - {id}, top, ws, now, h, None)
  {
    hide Good;
    AbortKeepsGood(live, ws, h, id);
    forall i ensures !Unlanded(live - {id}, h, i) {
      assert Unlanded(live - {id}, h, i) ==> Unlanded(live, h, i);
    }
  }

  lemma CommitView(live: map<nat, Record>, top: nat, ws: Workspace, now: nat, h: History, p: Marker)
    requires View(live, top, ws, now, h, Some(p)) && p.id in h.landed
    ensures View(live[p.id := CommitOf(p, now)], top, ws, now + 1, h, None)
  {
    hide Good;
    CommitKeepsGood(live, ws, h, p.id, now);
    var n := live[p.id := CommitOf(p, now)];
    forall i ensures !Unlanded(n, h, i) {
      assert Unlanded(n, h, i) ==> Unlanded(live, h, i);
    }
  }

  lemma LeaveView(live: map<nat, Record>, top: nat, ws: Workspace, now: nat, h: History, p: Marker)
    requires View(live, top, ws, now, h, Some(p)) && p.id in h.landed
    ensures View(live, top, ws, now, h, None)
  {
    hide ViewInv;
  }

  lemma RecordView(live: map<nat, Record>, top: nat, ws: Workspace, now: nat, h: History, guard: Option<Marker>, r: Record)
    requires View(live, top, ws, now, h, guard)
    requires (r.Exec? || r.Transfer?) && r.id !in live && r.ts == now
    ensures View(live[r.id := r], Max(top, r.id), ws, now + 1, h, guard)
  {
    hide Good;
    OtherKeepsGood(live, ws, h, r);
    var n := live[r.id := r];
    forall i ensures Unlanded(n, h, i) <==> Unlanded(live, h, i) {
    }
    assert GuardCovers(n, h, guard);
  }

  lemma MeddleView(live: map<nat, Record>, top: nat, ws: Workspace, now: nat, h: History, guard: Option<Marker>,
                   file: string, state: Option<string>, ids: set<nat>)
    requires View(live, top, ws, now, h, guard) && state != Some(FILE_DELETED_SENTINEL)
    requires forall i :: i in live && live[i].Prepared? ==> (i in ids <==> i in Pending(live, ws, file))
    ensures View(live, top, ws.Put(file, state), now, h.(obscured := h.obscured + ids), guard)
  {
    hide Good;
    MeddleKeepsGood(live, ws, h, file, state, ids);
    var h' := h.(obscured := h.obscured + ids);
    forall i ensures Unlanded(live, h', i) <==> Unlanded(live, h, i) {
    }
  }

  /** With no mutation in flight, what a prune leaves is good once what it leaves unvouched is exempt. */
  lemma PrunedView(live: map<nat, Record>, kept: map<nat, Record>, top: nat, ws: Workspace, now: nat, h: History)
    requires View(live, top, ws, now, h, None)
    requires forall id :: id in kept ==> id in live && kept[id] == live[id]
    ensures View(kept, top, ws, now, h.(obscured := h.obscured + Unvouched(kept, ws, h)), None)
  {
    hide Good; hide AllVisible; hide Closed; hide Unvouched;
    var ids := Unvouched(kept, ws, h);
    var h' := h.(obscured := h.obscured + ids);
    StillClosed(live, kept, ws, h);
    OthersAreVisible(kept, ws, h);
    forall id ensures !Unlanded(kept, h', id) {
      assert Unlanded(kept, h', id) ==> Unlanded(live, h, id);
    }
    IdleIsSettled(live, h);
    PruneKeepsGood(live, kept, ws, h, ids);
  }

  lemma StillClosed(live: map<nat, Record>, kept: map<nat, Record>, ws: Workspace, h: History)
    requires Good(live, ws, h)
    requires forall id :: id in kept ==> id in live && kept[id] == live[id]
    ensures Closed(kept, h.obscured)
  {
    hide AllVisible; hide SaneMarker;
  }

  lemma UnvouchedAreLive(kept: map<nat, Record>, ws: Workspace, h: History)
    ensures forall id :: id in Unvouched(kept, ws, h) ==> id in kept
  {
    hide Undermined;
  }

  lemma TwinsPending(a: map<nat, Record>, b: map<nat, Record>, ws: Workspace, file: string)
    requires Twins(a, b)
    ensures forall i :: i in a && a[i].Prepared? ==>
              (i in Pending(a, ws, file) + Pending(b, ws, file) <==> i in Pending(a, ws, file))
    ensures forall i :: i in b && b[i].Prepared? ==>
              (i in Pending(a, ws, file) + Pending(b, ws, file) <==> i in Pending(b, ws, file))
  {
  }

  lemma PrunedIsPart(t: seq<Record>, keep: nat)
    requires IsTable(t)
    ensures var kept := PruneTable(t, keep);
            && IsTable(kept)
            && (forall id :: id in Live(kept) ==> id in Live(t) && Live(kept)[id] == Live(t)[id])
            && (forall r :: r in kept ==> r.id in Live(t))
  {
    hide Live; hide IsTable;
    var kept := PruneTable(t, keep);
    RetainKeepsTable(t, Excess(t, keep));
    MembersOfLive(t);
    MembersOfLive(kept);
    forall id | id in Live(kept) ensures id in Live(t) && Live(kept)[id] == Live(t)[id] {
      assert Live(kept)[id] in kept;
      assert Live(kept)[id] in t;
    }
  }

  /** What a serving process can rely on. */
  lemma ServingFacts(s: State, m: Memory)
    requires Inv(s) && s.memory == Some(m) && m.serving
    ensures SaneWorkspace(s.ws) && IsTable(m.table)
    ensures HighWater(s.counter, s.ops) <= m.nextId && HistoryOld(s.h, m.nextId)
    ensures View(Live(s.ops), HighWater(s.counter, s.ops), s.ws, s.now, s.h, m.guard)
    ensures View(Live(m.table), HighWater(s.counter, s.ops), s.ws, s.now, Remembered(s.h, m), m.guard)
    ensures forall id :: id in m.unseen ==> id <= HighWater(s.counter, s.ops)
    ensures Twins(Live(s.ops), Live(m.table))
    ensures forall id :: id in Live(s.ops) || id in Live(m.table) ==> id <= HighWater(s.counter, s.ops)
    ensures m.guard.Some? ==>
              var p := m.guard.value;
              && p.id in Live(s.ops) && Live(s.ops)[p.id] == p
              && p.id in Live(m.table) && Live(m.table)[p.id] == p
              && p.id <= HighWater(s.counter, s.ops)
  {
    hide Live; hide HighWater;
  }

  /** And what it is to have kept, for its next state to have the invariant. */
  lemma ServingRebuilt(s: State, m: Memory)
    requires s.memory == Some(m) && m.serving && IsTable(m.table)
    requires HighWater(s.counter, s.ops) <= m.nextId && HistoryOld(s.h, HighWater(s.counter, s.ops))
    requires ServingInv(Live(s.ops), HighWater(s.counter, s.ops), s.ws, s.now, s.h, m)
    ensures Inv(s)
  {
    hide ViewInv; hide Live; hide HighWater; hide GuardCovers;
  }

  lemma ServingParts(s: State, m: Memory)
    requires Inv(s) && s.memory == Some(m) && m.serving
    ensures ServingInv(Live(s.ops), HighWater(s.counter, s.ops), s.ws, s.now, s.h, m)
    ensures IsTable(m.table) && HighWater(s.counter, s.ops) <= m.nextId && HistoryOld(s.h, HighWater(s.counter, s.ops))
  {
    hide ViewInv; hide Live; hide HighWater; hide GuardCovers;
  }

  /** Running commands stay fresh while no record takes their ids. */
  lemma RunningStays(live: map<nat, Record>, next: map<nat, Record>, m: Memory, n: Memory, rid: string)
    requires RunningFresh(live, m) && RunningApart(m) && m.nextId <= n.nextId
    requires forall q :: q in n.tasks && q != rid ==> q in m.tasks && n.tasks[q] == m.tasks[q]
    requires rid in n.tasks ==> !n.tasks[rid].Running?
    requires forall q :: q in m.tasks && q != rid && m.tasks[q].Running? && m.tasks[q].id in next ==> m.tasks[q].id in live
    ensures RunningFresh(next, n) && RunningApart(n)
  {
  }

  // ---- the mutation protocol ----

  lemma AsksIsSane(ws: Workspace, id: nat, rid: string, op: string, path: string, after: string, ts: nat)
    requires SaneWorkspace(ws) && ws.Resolves(path) && Asks(op, ws.Current(path), after)
    ensures SaneMarker(Prepared(id, rid, KindOf(op), path, ws.Current(path), after, ts), ws)
  {
  }

  lemma LogMarkerKeeps(s: State, m: Memory, p: Marker)
    requires Inv(s) && s.memory == Some(m) && m.serving && m.guard.None?
    requires SaneMarker(p, s.ws) && s.ws.Current(p.path) == p.before && p.id == m.nextId + 1 && p.ts == s.now
    ensures Inv(LogMarker(s, m, p))
  {
    hide Inv; hide ViewInv; hide GuardCovers; hide Live; hide HighWater; hide IsTable; hide SaneMarker;
    ServingParts(s, m);
    ServingFacts(s, m);
    var live, top := Live(s.ops), HighWater(s.counter, s.ops);
    PrepareView(live, top, s.ws, s.now, s.h, p);
    PrepareView(Live(m.table), top, s.ws, s.now, Remembered(s.h, m), p);
    AppendViews(s.counter, s.ops, p);
    PushAgrees(m.table, Live(m.table), p);
    var next := LogMarker(s, m, p);
    RunningStays(live, live[p.id := p], m, next.memory.value, p.rid);
    RunningStays(Live(m.table), Live(m.table)[p.id := p], m, next.memory.value, p.rid);
    ServingRebuilt(next, next.memory.value);
  }

  /** A marker that is not acknowledged: it left the log as it was, or it is given up in the log. */
  lemma FailedPrepareKeeps(s: State, m: Memory, p: Marker, io: Fate, undo: Fate)
    requires Inv(s) && s.memory == Some(m) && m.serving && m.guard.None? && !io.Logged?
    requires SaneMarker(p, s.ws) && s.ws.Current(p.path) == p.before && p.id == m.nextId + 1 && p.ts == s.now
    ensures Inv(DoPrepare(s, m, p, io, undo))
  {
    hide Inv; hide ViewInv; hide GuardCovers; hide Live; hide HighWater; hide IsTable; hide SaneMarker;
    ServingParts(s, m);
    ServingFacts(s, m);
    var live, top := Live(s.ops), HighWater(s.counter, s.ops);
    var next := DoPrepare(s, m, p, io, undo);
    RunningStays(Live(m.table), Live(m.table), m, next.memory.value, p.rid);
    if io.Unsynced? {
      AppendViews(s.counter, s.ops, p);
      if undo.Refused? {
        RunningStays(live, live[p.id := p], m, next.memory.value, p.rid);
        PrepareView(live, top, s.ws, s.now, s.h, p);
        AbandonView(live[p.id := p], p.id, s.ws, s.now + 1, s.h, Some(p), p.id);
        AbandonView(Live(m.table), top, s.ws, s.now, Remembered(s.h, m), None, p.id);
        TickView(Live(m.table), top, s.ws, s.now, Remembered(next.h, m), None, p.id, s.now + 1);
      } else {
        WithdrawnAtOnce(s, m, p);
        RunningStays(live, live, m, next.memory.value, p.rid);
        TickView(live, top, s.ws, s.now, s.h, None, p.id, s.now + 2);
        TickView(Live(m.table), top, s.ws, s.now, Remembered(s.h, m), None, p.id, s.now + 2);
      }
    } else {
      RunningStays(live, live, m, next.memory.value, p.rid);
    }
    ServingRebuilt(next, next.memory.value);
  }

  lemma WithdrawnAtOnce(s: State, m: Memory, p: Marker)
    requires Inv(s) && s.memory == Some(m) && m.serving && p.id == m.nextId + 1
    ensures var ops := s.ops + [p] + [Aborted(p.id, s.now + 1)];
            Live(ops) == Live(s.ops) && HighWater(s.counter, ops) == p.id
  {
    hide Inv; hide View; hide Live; hide HighWater;
    ServingFacts(s, m);
    AppendViews(s.counter, s.ops, p);
    AppendViews(s.counter, s.ops + [p], Aborted(p.id, s.now + 1));
    assert Live(s.ops)[p.id := p] - {p.id} == Live(s.ops);
  }

  lemma PrepareKeeps(s: State, m: Memory, rid: string, path: string, after: string, io: Fate, undo: Fate)
    requires Inv(s) && s.memory == Some(m) && Enabled(s, Prepare(rid, path, after, io, undo))
    ensures Inv(Do(s, Prepare(rid, path, after, io, undo)))
  {
    hide Inv; hide DoPrepare; hide LogMarker;
    ServingFacts(s, m);
    AsksIsSane(s.ws, m.nextId + 1, rid, m.tasks[rid].op, path, after, s.now);
    var p := MarkerFor(s, m, rid, path, after);
    if io.Logged? {
      LogMarkerKeeps(s, m, p);
      LoggedPrepare(s, m, p, undo);
    } else {
      FailedPrepareKeeps(s, m, p, io, undo);
    }
  }

  lemma LoggedPrepare(s: State, m: Memory, p: Marker, undo: Fate)
    ensures DoPrepare(s, m, p, Logged, undo) == LogMarker(s, m, p)
  {
  }

  lemma InstallKeeps(s: State, m: Memory)
    requires Inv(s) && s.memory == Some(m) && Enabled(s, Install)
    ensures Inv(DoInstall(s, m.guard.value))
  {
    hide Inv; hide ViewInv; hide GuardCovers; hide Live; hide HighWater; hide IsTable;
    ServingParts(s, m);
    ServingFacts(s, m);
    var p := m.guard.value;
    InstallView(Live(s.ops), HighWater(s.counter, s.ops), s.ws, s.now, s.h, p);
    InstallView(Live(m.table), HighWater(s.counter, s.ops), s.ws, s.now, Remembered(s.h, m), p);
    ServingRebuilt(DoInstall(s, p), m);
  }

  lemma WithdrawKeeps(s: State, m: Memory, error: ProtocolError, io: Fate)
    requires Inv(s) && s.memory == Some(m) && Enabled(s, Withdraw(error, io))
    ensures Inv(DoWithdraw(s, m, m.guard.value, error, io))
  {
    hide Inv; hide DoWithdraw;
    if io.Logged? {
      LoggedWithdrawKeeps(s, m, error);
    } else {
      FailedWithdrawKeeps(s, m, error, io);
    }
  }

  lemma LoggedWithdrawKeeps(s: State, m: Memory, error: ProtocolError)
    requires Inv(s) && s.memory == Some(m) && m.serving && m.guard.Some? && m.guard.value.id !in s.h.landed
    ensures Inv(DoWithdraw(s, m, m.guard.value, error, Logged))
  {
    hide Inv; hide ViewInv; hide GuardCovers; hide Live; hide HighWater; hide IsTable; hide DropPrepared;
    ServingParts(s, m);
    ServingFacts(s, m);
    var p := m.guard.value;
    var live, top := Live(s.ops), HighWater(s.counter, s.ops);
    var next := DoWithdraw(s, m, p, error, Logged);
    AppendViews(s.counter, s.ops, Aborted(p.id, s.now));
    DropPreparedLive(m.table, p.id);
    WithdrawnView(live, top, s.ws, s.now, s.h, Some(p), p.id);
    WithdrawnView(Live(m.table), top, s.ws, s.now, Remembered(s.h, m), Some(p), p.id);
    RunningStays(live, live - {p.id}, m, next.memory.value, p.rid);
    RunningStays(Live(m.table), Live(m.table) - {p.id}, m, next.memory.value, p.rid);
    ServingRebuilt(next, next.memory.value);
  }

  lemma FailedWithdrawKeeps(s: State, m: Memory, error: ProtocolError, io: Fate)
    requires Inv(s) && s.memory == Some(m) && m.serving && m.guard.Some? && m.guard.value.id !in s.h.landed
    requires !io.Logged?
    ensures Inv(DoWithdraw(s, m, m.guard.value, error, io))
  {
    hide Inv; hide ViewInv; hide GuardCovers; hide Live; hide HighWater; hide IsTable; hide DropPrepared;
    ServingParts(s, m);
    ServingFacts(s, m);
    var p := m.guard.value;
    var live, top := Live(s.ops), HighWater(s.counter, s.ops);
    var next := DoWithdraw(s, m, p, error, io);
    AbandonView(live, top, s.ws, s.now, s.h, Some(p), p.id);
    AbandonView(Live(m.table), top, s.ws, s.now, Remembered(s.h, m), Some(p), p.id);
    RunningStays(Live(m.table), Live(m.table), m, next.memory.value, p.rid);
    if io.Unsynced? {
      AppendViews(s.counter, s.ops, Aborted(p.id, s.now));
      RunningStays(live, live - {p.id}, m, next.memory.value, p.rid);
      WithdrawnView(live, top, s.ws, s.now, next.h, None, p.id);
      TickView(Live(m.table), top, s.ws, s.now, Remembered(next.h, m), None, top, s.now + 1);
    } else {
      RunningStays(live, live, m, next.memory.value, p.rid);
    }
    ServingRebuilt(next, next.memory.value);
  }

  lemma WithdrawnView(live: map<nat, Record>, top: nat, ws: Workspace, now: nat, h: History, guard: Option<Marker>, id: nat)
    requires View(live, top, ws, now, h, guard) && id !in h.landed && id in live && live[id].Prepared?
    requires guard.Some? ==> guard.value.id == id
    ensures View(live - {id}, top, ws, now + 1, h, None)
  {
    hide ViewInv; hide GuardCovers;
    DropView(live, top, ws, now, h, guard, id);
    TickView(live - {id}, top, ws, now, h, None, top, now + 1);
  }

  lemma CommitKeeps(s: State, m: Memory, synced: bool)
    requires Inv(s) && s.memory == Some(m) && Enabled(s, Commit(synced))
    ensures Inv(DoCommit(s, m, m.guard.value, synced))
  {
    hide Inv; hide ViewInv; hide GuardCovers; hide Live; hide HighWater; hide IsTable; hide Upsert; hide ReconstructResult;
    hide Twins; hide RunningFresh; hide RunningApart; hide HistoryOld;
    ServingParts(s, m);
    ServingFacts(s, m);
    var p := m.guard.value;
    var live, top := Live(s.ops), HighWater(s.counter, s.ops);
    var next := DoCommit(s, m, p, synced);
    var c := CommitOf(p, s.now);
    AppendViews(s.counter, s.ops, c);
    TwinsPut(live, Live(m.table), c);
    CommitView(live, top, s.ws, s.now, s.h, p);
    RunningStays(live, live[p.id := c], m, next.memory.value, p.rid);
    if synced {
      UpsertLive(m.table, c);
      RunningStays(Live(m.table), Live(m.table)[p.id := c], m, next.memory.value, p.rid);
      CommitView(Live(m.table), top, s.ws, s.now, Remembered(s.h, m), p);
    } else {
      RunningStays(Live(m.table), Live(m.table), m, next.memory.value, p.rid);
      LeaveView(Live(m.table), top, s.ws, s.now, Remembered(s.h, m), p);
      TickView(Live(m.table), top, s.ws, s.now, Remembered(s.h, m), None, top, s.now + 1);
    }
    ServingRebuilt(next, next.memory.value);
  }

  lemma LeaveKeeps(s: State, m: Memory, error: ProtocolError)
    requires Inv(s) && s.memory == Some(m) && Enabled(s, Leave(error))
    ensures Inv(DoLeave(s, m, m.guard.value, error))
  {
    hide Inv; hide ViewInv; hide GuardCovers; hide Live; hide HighWater; hide IsTable;
    ServingParts(s, m);
    ServingFacts(s, m);
    var p := m.guard.value;
    var next := DoLeave(s, m, p, error);
    LeaveView(Live(s.ops), HighWater(s.counter, s.ops), s.ws, s.now, s.h, p);
    LeaveView(Live(m.table), HighWater(s.counter, s.ops), s.ws, s.now, Remembered(s.h, m), p);
    RunningStays(Live(s.ops), Live(s.ops), m, next.memory.value, p.rid);
    RunningStays(Live(m.table), Live(m.table), m, next.memory.value, p.rid);
    ServingRebuilt(next, next.memory.value);
  }

  // ---- everything else that appends ----

  lemma RecordKeeps(s: State, m: Memory, r: Record, line: ReqLine, io: Fate)
    requires Inv(s) && s.memory == Some(m) && m.serving
    requires (r.Exec? || r.Transfer?) && r.id <= m.nextId && r.ts == s.now
    requires r.id !in Live(s.ops) && r.id !in Live(m.table)
    requires forall q :: q in m.tasks && m.tasks[q].Running? && q != r.rid ==> m.tasks[q].id != r.id
    ensures Inv(DoRecord(s, m, r, line, io))
  {
    hide Inv; hide ViewInv; hide GuardCovers; hide Live; hide HighWater; hide IsTable; hide Twins;
    hide RunningApart; hide HistoryOld;
    ServingParts(s, m);
    TopStays(s.h, HighWater(s.counter, s.ops), HighWater(s.counter, s.ops + [r]));
    TwinsPut(Live(s.ops), Live(m.table), r);
    var live, top := Live(s.ops), HighWater(s.counter, s.ops);
    var next := DoRecord(s, m, r, line, io);
    if !io.Refused? {
      AppendViews(s.counter, s.ops, r);
      RecordView(live, top, s.ws, s.now, s.h, m.guard, r);
      RunningStays(live, live[r.id := r], m, next.memory.value, r.rid);
    } else {
      RunningStays(live, live, m, next.memory.value, r.rid);
    }
    if io.Logged? {
      PushAgrees(m.table, Live(m.table), r);
      RecordView(Live(m.table), top, s.ws, s.now, Remembered(s.h, m), m.guard, r);
      RunningStays(Live(m.table), Live(m.table)[r.id := r], m, next.memory.value, r.rid);
    } else {
      TickView(Live(m.table), top, s.ws, s.now, Remembered(s.h, m), m.guard, HighWater(next.counter, next.ops), next.now);
      RunningStays(Live(m.table), Live(m.table), m, next.memory.value, r.rid);
    }
    ServingRebuilt(next, next.memory.value);
  }

  lemma TopStays(h: History, top: nat, top': nat)
    ensures HistoryOld(h, top) && top <= top' ==> HistoryOld(h, top')
  {
  }

  /** The next id, and those of commands without a record, are in neither view. */
  lemma FreshIds(s: State, m: Memory)
    requires Inv(s) && s.memory == Some(m) && m.serving
    ensures m.nextId + 1 !in Live(s.ops) && m.nextId + 1 !in Live(m.table)
    ensures forall q :: q in m.tasks && m.tasks[q].Running? ==>
              m.tasks[q].id <= m.nextId && m.tasks[q].id !in Live(s.ops) && m.tasks[q].id !in Live(m.table)
    ensures RunningApart(m)
  {
    hide Live; hide HighWater; hide Good; hide GuardCovers;
  }

  lemma NextIdKeeps(s: State, m: Memory, nextId: nat)
    requires Inv(s) && s.memory == Some(m) && m.serving && m.nextId <= nextId
    ensures Inv(s.(memory := Some(m.(nextId := nextId))))
  {
    hide Inv; hide ViewInv; hide GuardCovers; hide Live; hide HighWater; hide IsTable;
    ServingParts(s, m);
    ServingRebuilt(s.(memory := Some(m.(nextId := nextId))), m.(nextId := nextId));
  }

  lemma RecordStepKeeps(s: State, a: Step)
    requires Inv(s) && Enabled(s, a) && (a.RecordExec? || a.RecordTransfer?)
    ensures Inv(Do(s, a))
  {
    hide Inv; hide Live; hide HighWater; hide DoRecord; hide ExecLine; hide ExecReply; hide TransferLine; hide IsLogRefusal;
    var m := s.memory.value;
    FreshIds(s, m);
    match a
    case RecordExec(rid, q, outcome, io, refusal) =>
      var id := m.tasks[rid].id;
      var line := ExecLine(id, rid, outcome, Seen(io, refusal));
      RecordKeeps(s, m, ExecRecord(id, rid, q, outcome, s.now), line, io);
      PromiseKeeps(DoRecord(s, m, ExecRecord(id, rid, q, outcome, s.now), line, io), Promising(s, rid, ExecReply(id, rid, outcome)));
    case RecordTransfer(rid, transfer, cleaned, io, refusal) =>
      var id := m.nextId + 1;
      var n := m.(nextId := id);
      var line := TransferLine(id, rid, transfer, Seen(io, refusal), cleaned);
      NextIdKeeps(s, m, id);
      var s' := s.(memory := Some(n));
      SameRecord(s, s', n, Transfer(id, rid, transfer, s.now), line, io);
      RecordKeeps(s', n, Transfer(id, rid, transfer, s.now), line, io);
      PromiseKeeps(DoRecord(s, n, Transfer(id, rid, transfer, s.now), line, io),
                   Promising(s, rid, Reply(rid, TransferResult(id, transfer))));
  }

  lemma SameRecord(s: State, s': State, m: Memory, r: Record, line: ReqLine, io: Fate)
    requires (r.Exec? || r.Transfer?) && s' == s.(memory := Some(m))
    ensures DoRecord(s, m, r, line, io) == DoRecord(s', m, r, line, io)
  {
  }

  /** The invariant does not speak of promises. */
  lemma PromiseKeeps(s: State, promised: map<string, Message>)
    requires Inv(s)
    ensures Inv(s.(promised := promised))
  {
    hide ViewInv; hide MemoryInv; hide Live; hide HighWater; hide HistoryOld;
  }

  /** A prune cuts the table, and as many of the files as it gets to. */
  lemma GcKeeps(s: State, m: Memory, keep: nat, lines: seq<ReqLine>, replaced: nat)
    requires Inv(s) && s.memory == Some(m) && Enabled(s, Gc(keep, lines, replaced))
    ensures Inv(DoGc(s, m, keep, lines, replaced))
  {
    hide Inv; hide ViewInv; hide GuardCovers; hide Live; hide IsTable; hide PruneTable; hide PruneRequests; hide Requests;
    hide HighWater; hide Unvouched; hide RunningFresh; hide RunningApart;
    hide Risked; hide Forgotten; hide Cut;
    ServingParts(s, m);
    ServingFacts(s, m);
    var next := DoGc(s, m, keep, lines, replaced);
    var n, kept := next.memory.value, PruneTable(m.table, keep);
    var live, top, top' := Live(s.ops), HighWater(s.counter, s.ops), HighWater(next.counter, next.ops);
    PrunedIsPart(m.table, keep);
    PrunedHighWater(m.nextId, kept);
    PrunedHighWater(m.nextId, s.ops);
    PrunedHistory(s, m, keep, lines, replaced);
    PrunedView(Live(m.table), Live(kept), top, s.ws, s.now, Remembered(s.h, m));
    UnvouchedAreLive(Live(kept), s.ws, Remembered(s.h, m));
    TickView(Live(kept), top, s.ws, s.now, Remembered(next.h, n), None, top', s.now);
    TickView(live, top, s.ws, s.now, s.h, None, top', s.now);
    RunningThinned(live, live, m, n);
    RunningThinned(Live(m.table), Live(kept), m, n);
    ServingRebuilt(next, n);
  }

  /** What is obscured for the cut table: for the log, too, if the log was replaced by it. */
  lemma PrunedHistory(s: State, m: Memory, keep: nat, lines: seq<ReqLine>, replaced: nat)
    ensures var next, h := DoGc(s, m, keep, lines, replaced), Remembered(s.h, m);
            var n, kept := next.memory.value, Live(PruneTable(m.table, keep));
            && Remembered(next.h, n) == h.(obscured := h.obscured + Unvouched(kept, s.ws, h))
            && (replaced >= 2 ==> next.h == Remembered(next.h, n))
            && (replaced < 2 ==> next.h == s.h)
  {
    hide PruneTable; hide PruneRequests; hide Unvouched; hide Live; hide Risked; hide Forgotten; hide Cut;
  }

  lemma RunningThinned(live: map<nat, Record>, next: map<nat, Record>, m: Memory, n: Memory)
    requires RunningFresh(live, m) && RunningApart(m) && n.tasks == m.tasks && n.nextId == m.nextId
    ensures (forall id :: id in next ==> id in live) ==> RunningFresh(next, n)
    ensures RunningApart(n)
  {
  }

  /** After pruning the counter alone is the high-water mark. */
  lemma {:induction false} PrunedHighWater(counter: nat, kept: seq<Record>)
    requires forall r :: r in kept ==> r.id <= counter
    ensures HighWater(counter, kept) == counter
  {
    if kept != [] {
      assert kept == kept[..|kept| - 1] + [kept[|kept| - 1]];
      PrunedHighWater(counter, kept[..|kept| - 1]);
    }
  }

  // ---- another writer ----

  /** Another writer makes no decision wrong but those about the markers of the file it wrote. */
  lemma MeddleStaysDecidable(t: seq<Record>, ws: Workspace, h: History, file: string, state: Option<string>, ids: set<nat>)
    requires Decidable(t, ws, h) && state != Some(FILE_DELETED_SENTINEL)
    requires forall i :: 0 <= i < |t| && t[i].Prepared? ==>
               (t[i].id in ids <==> ws.Resolves(t[i].path) && ws.spelling[t[i].path] == file)
    ensures Decidable(t, ws.Put(file, state), h.(obscured := h.obscured + ids))
  {
    hide IsTable; hide Evidence;
    var ws', h' := ws.Put(file, state), h.(obscured := h.obscured + ids);
    forall i | 0 <= i < |t| && t[i].Prepared? ensures SaneMarker(t[i], ws') {
      assert SaneMarker(t[i], ws);
    }
    forall i | 0 <= i < |t| && t[i].Prepared? && t[i].id !in ids
      ensures ws'.Current(t[i].path) == ws.Current(t[i].path) {
      assert SaneMarker(t[i], ws);
    }
    forall i | 0 <= i < |t| && t[i].Prepared? && t[i].id !in h'.abandoned ensures SettledBy(t, ws', h', i) {
      assert SettledBy(t, ws, h, i);
    }
  }

  lemma MeddleKeeps(s: State, file: string, state: Option<string>)
    requires Inv(s) && state != Some(FILE_DELETED_SENTINEL)
    ensures Inv(DoMeddle(s, file, state))
  {
    hide Inv; hide DoMeddle;
    if s.memory.None? {
      MeddleStopped(s, file, state);
    } else if s.memory.value.serving {
      MeddleServing(s, s.memory.value, file, state);
    } else {
      MeddleRecovering(s, s.memory.value, file, state);
    }
  }

  lemma MeddleStopped(s: State, file: string, state: Option<string>)
    requires Inv(s) && state != Some(FILE_DELETED_SENTINEL) && s.memory.None?
    ensures Inv(DoMeddle(s, file, state))
  {
    hide Live; hide HighWater; hide Good;
    MeddleKeepsGood(Live(s.ops), s.ws, s.h, file, state, PendingOn(s, file));
  }

  lemma MeddleServing(s: State, m: Memory, file: string, state: Option<string>)
    requires Inv(s) && state != Some(FILE_DELETED_SENTINEL) && s.memory == Some(m) && m.serving
    ensures Inv(DoMeddle(s, file, state))
  {
    hide Inv; hide View; hide Live; hide HighWater; hide Pending; hide IsTable; hide Twins;
    ServingParts(s, m);
    ServingFacts(s, m);
    var live, top, ids := Live(s.ops), HighWater(s.counter, s.ops), PendingOn(s, file);
    TwinsPending(live, Live(m.table), s.ws, file);
    MeddleView(live, top, s.ws, s.now, s.h, m.guard, file, state, ids);
    MeddleView(Live(m.table), top, s.ws, s.now, Remembered(s.h, m), m.guard, file, state, ids);
    assert Remembered(DoMeddle(s, file, state).h, m) == Remembered(s.h, m).(obscured := Remembered(s.h, m).obscured + ids);
    PendingIsLive(live, s.ws, file);
    PendingIsLive(Live(m.table), s.ws, file);
    ServingRebuilt(DoMeddle(s, file, state), m);
  }

  lemma PendingIsLive(live: map<nat, Record>, ws: Workspace, file: string)
    ensures forall id :: id in Pending(live, ws, file) ==> id in live
  {
  }

  lemma MeddleRecovering(s: State, m: Memory, file: string, state: Option<string>)
    requires Inv(s) && state != Some(FILE_DELETED_SENTINEL) && s.memory == Some(m) && !m.serving
    ensures Inv(DoMeddle(s, file, state))
  {
    hide Inv; hide Live; hide HighWater; hide Good; hide IsTable; hide Decidable;
    var live, ids := Live(s.ops), PendingOn(s, file);
    RecoveringFacts(s, m);
    SettledView(s);
    MembersOfLive(m.table);
    MeddleKeepsGood(live, s.ws, s.h, file, state, ids);
    forall i | 0 <= i < |m.table| && m.table[i].Prepared?
      ensures m.table[i].id in ids <==> s.ws.Resolves(m.table[i].path) && s.ws.spelling[m.table[i].path] == file {
      SlotIsLive(m.table, s.ops, i);
    }
    MeddleStaysDecidable(m.table, s.ws, s.h, file, state, ids);
    RecoveringRebuilt(DoMeddle(s, file, state), m);
  }

  lemma RecoveringRebuilt(s: State, m: Memory)
    requires s.memory == Some(m) && !m.serving && m.guard.None? && m.tasks == map[] && m.unseen == {} && IsTable(m.table)
    requires HighWater(s.counter, s.ops) <= m.nextId && HistoryOld(s.h, HighWater(s.counter, s.ops))
    requires ViewInv(Live(s.ops), HighWater(s.counter, s.ops), s.ws, s.now, s.h)
    requires Live(m.table) == Live(s.ops) && Decidable(m.table, s.ws, s.h)
    ensures Inv(s)
  {
    hide ViewInv; hide Live; hide HighWater; hide Decidable;
  }

  // ---- stopping and starting ----

  lemma RestartKeeps(s: State)
    requires Inv(s)
    ensures Inv(DoRestart(s))
  {
    hide Live; hide Loaded; hide Decidable; hide HighWater; hide Good; hide IsTable;
    LoadedIsLive(s.ops);
    LoadedIsDecidable(s.ops, s.ws, s.h);
  }

  lemma RecoveringFacts(s: State, m: Memory)
    requires Inv(s) && s.memory == Some(m) && !m.serving
    ensures HighWater(s.counter, s.ops) <= m.nextId && m.guard.None? && m.tasks == map[] && m.unseen == {}
    ensures IsTable(m.table) && Live(m.table) == Live(s.ops)
    ensures forall id :: id in Live(s.ops) ==> id <= HighWater(s.counter, s.ops)
    ensures Settling(m.table, s.now, s.ops, s.ws, s.h)
    ensures HistoryOld(s.h, HighWater(s.counter, s.ops))
  {
    hide Live; hide HighWater; hide Decidable; hide Good;
  }

  lemma SettledParts(live: map<nat, Record>, top: nat, s: State, m: Memory, log: seq<Record>, t: seq<Record>)
    requires forall id :: id in live ==> id <= top
    requires top <= m.nextId && !m.serving && m.guard.None? && m.tasks == map[] && m.unseen == {}
    requires forall id :: id in Live(log) ==> id in live
    requires Settling(t, s.now + 1, log, s.ws, s.h)
    ensures ViewInv(Live(log), top, s.ws, s.now + 1, s.h)
    ensures forall requests :: MemoryInv(Live(log), top, s.ws, s.now + 1, s.h, m.(table := t, requests := requests))
  {
    hide Good; hide Live; hide HighWater;
  }

  lemma SettledInv(s: State, m: Memory, line: Record, t: seq<Record>)
    requires Inv(s) && s.memory == Some(m) && !m.serving
    requires line.id in Live(s.ops) && Settling(t, s.now + 1, s.ops + [line], s.ws, s.h)
    ensures Inv(DoCrash(LogVerdict(s, line)))
    ensures forall reply :: Inv(Settled(LogVerdict(s, line), m, t, reply))
  {
    hide ViewInv; hide MemoryInv; hide Settling; hide Live; hide HighWater; hide HistoryOld;
    AppendViews(s.counter, s.ops, line);
    RecoveringFacts(s, m);
    SettledParts(Live(s.ops), HighWater(s.counter, s.ops), s, m, s.ops + [line], t);
  }

  /** The next decision of a recovery: exact unless its marker is exempt, with the invariant kept either way. */
  lemma NextDecision(s: State, m: Memory)
    requires Inv(s) && s.memory == Some(m) && !m.serving && Markers(m.table) != []
    ensures var p := CrashRuns.Newest(m.table);
            var v := Judge(m.table, p, s.ws);
            && p.id in Live(s.ops) && Live(s.ops)[p.id] == p
            && (!Exempt(p, s.h) ==> v == ExactVerdict(p, s.h.landed))
            && Settling(VerdictTable(m.table, p, v, s.now), s.now + 1, s.ops + [VerdictLine(p, v, s.now)], s.ws, s.h)
  {
    hide Inv; hide Settling; hide Live; hide Judge; hide VerdictTable; hide VerdictLine; hide Markers; hide Exempt;
    hide IsTable; hide HighWater; hide HistoryOld;
    RecoveringFacts(s, m);
    SettleNewest(m.table, s.now, s.ops, s.ws, s.h);
    MembersOfLive(m.table);
  }

  /** However far the appends of one decision get, the log stays one recovery can decide. */
  lemma SettleKeeps(s: State, m: Memory, appends: nat)
    requires Inv(s) && s.memory == Some(m) && Enabled(s, Settle(appends))
    ensures Inv(DoSettle(s, m, appends))
  {
    hide ViewInv; hide MemoryInv; hide Settling; hide Judge; hide VerdictReply; hide VerdictTable; hide Live; hide HistoryOld;
    hide Exempt;
    var p := CrashRuns.Newest(m.table);
    var v := Judge(m.table, p, s.ws);
    NextDecision(s, m);
    SettledInv(s, m, VerdictLine(p, v, s.now), VerdictTable(m.table, p, v, s.now));
  }

  lemma ServeKeeps(s: State, m: Memory)
    requires Inv(s) && s.memory == Some(m) && Enabled(s, Serve)
    ensures Inv(DoServe(s, m))
  {
    hide Inv; hide ViewInv; hide Live; hide HighWater; hide Markers; hide IsTable; hide HistoryOld; hide GuardCovers;
    RecoveringFacts(s, m);
    SettledView(s);
    NothingInFlight(m.table, s.h);
    assert Remembered(s.h, m) == s.h;
    ServingRebuilt(DoServe(s, m), m.(serving := true));
  }

  lemma NothingInFlight(t: seq<Record>, h: History)
    requires IsTable(t) && Markers(t) == []
    ensures GuardCovers(Live(t), h, None) && Twins(Live(t), Live(t))
  {
    hide Live; hide IsTable; hide Markers;
    NoMarkers(t);
    MembersOfLive(t);
    forall id | id in Live(t) ensures !Live(t)[id].Prepared? {
      assert Live(t)[id] in t;
    }
  }

  lemma SettledView(s: State)
    requires Inv(s)
    ensures ViewInv(Live(s.ops), HighWater(s.counter, s.ops), s.ws, s.now, s.h)
  {
    hide ViewInv; hide MemoryInv; hide HistoryOld;
  }

  // ---- every step ----

  /** Steps that only touch the request table and the handlers. */
  lemma TouchKeeps(s: State, reqs: seq<ReqLine>, requests: map<string, Entry>, tasks: map<string, Task>)
    requires Inv(s) && s.memory.Some?
    requires s.memory.value.serving || tasks == map[]
    requires forall rid :: rid in tasks && tasks[rid].Running? ==>
               rid in s.memory.value.tasks && s.memory.value.tasks[rid] == tasks[rid]
    ensures Inv(s.(reqs := reqs, memory := Some(s.memory.value.(requests := requests, tasks := tasks))))
    ensures Inv(s.(reqs := reqs, memory := None))
  {
    hide View; hide ViewInv; hide Decidable; hide Live; hide HighWater; hide HistoryOld;
    var m := s.memory.value;
    var n := m.(requests := requests, tasks := tasks);
    if m.serving {
      RunningOnly(Live(s.ops), m, n);
      RunningOnly(Live(m.table), m, n);
    }
  }

  lemma RunningOnly(live: map<nat, Record>, m: Memory, n: Memory)
    requires RunningFresh(live, m) && RunningApart(m) && n.nextId == m.nextId
    requires forall q :: q in n.tasks && n.tasks[q].Running? ==> q in m.tasks && m.tasks[q] == n.tasks[q]
    ensures RunningFresh(live, n) && RunningApart(n)
  {
  }

  lemma BeginExecKeeps(s: State, m: Memory, rid: string, spawned: bool)
    requires Inv(s) && s.memory == Some(m) && m.serving
    ensures Inv(DoBeginExec(s, m, rid, spawned))
  {
    hide Inv; hide ViewInv; hide GuardCovers; hide Live; hide HighWater; hide IsTable;
    ServingParts(s, m);
    ServingFacts(s, m);
    var next := DoBeginExec(s, m, rid, spawned);
    OneMoreRunning(Live(s.ops), m, rid);
    OneMoreRunning(Live(m.table), m, rid);
    ServingRebuilt(next, next.memory.value);
  }

  lemma OneMoreRunning(live: map<nat, Record>, m: Memory, rid: string)
    requires RunningFresh(live, m) && RunningApart(m) && m.nextId + 1 !in live
    ensures var n := Move(m, rid, Running(m.nextId + 1)).(nextId := m.nextId + 1); RunningFresh(live, n) && RunningApart(n)
  {
  }

  lemma MemoryStepKeeps(s: State, a: Step)
    requires Inv(s) && Enabled(s, a)
    requires a.Claim? || a.Refuse? || a.BeginExec? || a.Answer? || a.ResolveStuck?
    ensures Inv(Do(s, a))
  {
    hide Inv; hide StuckLine; hide EntryOf; hide Asks; hide DoBeginExec; hide Markers;
    var m := s.memory.value;
    match a
    case Claim(rid, op, _) =>
      TouchKeeps(s, s.reqs + [ClaimLine(rid, op)], m.requests, m.tasks);
      TouchKeeps(s, s.reqs + [ClaimLine(rid, op)], m.requests[rid := ClaimEntry(op)], m.tasks[rid := Claimed(op)]);
    case Refuse(rid, error) =>
      TouchKeeps(s, s.reqs, m.requests, m.tasks[rid := Answering(ErrorLine(rid, error))]);
    case BeginExec(rid, spawned) =>
      BeginExecKeeps(s, m, rid, spawned);
    case Answer(rid, _) =>
      var line := m.tasks[rid].line;
      TouchKeeps(s, s.reqs, m.requests, m.tasks - {rid});
      TouchKeeps(s, s.reqs + [line], m.requests, m.tasks - {rid});
      TouchKeeps(s, s.reqs + [line], m.requests[line.rid := EntryOf(line)], m.tasks - {rid});
    case ResolveStuck(rid, _) =>
      RecoveringFacts(s, m);
      TouchKeeps(s, s.reqs, m.requests - {rid}, m.tasks);
      var line := StuckLine(m.table, rid, m.requests[rid].op);
      if line.Some? {
        TouchKeeps(s, s.reqs + [line.value], m.requests[rid := EntryOf(line.value)], m.tasks);
      }
  }

  lemma StepKeeps(s: State, a: Step)
    requires Inv(s) && Enabled(s, a)
    ensures Inv(Do(s, a))
  {
    hide Inv; hide Asks; hide Requests; hide PruneRequests; hide IsLogRefusal;
    hide DoPrepare; hide DoInstall; hide DoWithdraw; hide DoCommit; hide DoLeave; hide DoGc; hide DoMeddle; hide DoRestart;
    hide DoSettle; hide DoServe; hide DoRecordExec; hide DoRecordTransfer; hide DoBeginExec; hide DoClaim; hide DoAnswer;
    hide DoResolveStuck; hide Markers; hide PruneTable;
    match a
    case Prepare(rid, path, after, io, undo) => PrepareKeeps(s, s.memory.value, rid, path, after, io, undo);
    case Install => InstallKeeps(s, s.memory.value);
    case Withdraw(error, io) => WithdrawKeeps(s, s.memory.value, error, io);
    case Commit(synced) => CommitKeeps(s, s.memory.value, synced);
    case Leave(error) => LeaveKeeps(s, s.memory.value, error);
    case RecordExec(_, _, _, _, _) => RecordStepKeeps(s, a);
    case RecordTransfer(_, _, _, _, _) => RecordStepKeeps(s, a);
    case Gc(keep, lines, replaced) => GcKeeps(s, s.memory.value, keep, lines, replaced);
    case Meddle(file, state) => MeddleKeeps(s, file, state);
    case Crash => CrashKeeps(s);
    case Restart => RestartKeeps(s);
    case Settle(appends) => SettleKeeps(s, s.memory.value, appends);
    case Serve => ServeKeeps(s, s.memory.value);
    case _ => MemoryStepKeeps(s, a);
  }

  lemma CrashKeeps(s: State)
    requires Inv(s)
    ensures Inv(DoCrash(s))
  {
    hide ViewInv; hide MemoryInv; hide HistoryOld;
  }

  // ---- every run ----

  lemma {:induction false} RunKeeps(s: State, steps: seq<Step>)
    requires Inv(s) && CanRun(s, steps)
    ensures Inv(Run(s, steps))
    decreases |steps|
  {
    hide Inv; hide Enabled; hide Do;
    if steps != [] {
      StepKeeps(s, steps[0]);
      RunKeeps(Do(s, steps[0]), steps[1..]);
    }
  }

  lemma InitHolds(ws: Workspace)
    requires SaneWorkspace(ws)
    ensures Inv(Init(ws))
  {
  }

  /** What a run leaves for recovery to work with. */
  lemma RunIsGood(ws: Workspace, steps: seq<Step>)
    requires SaneWorkspace(ws) && CanRun(Init(ws), steps)
    ensures var s := Run(Init(ws), steps); Good(Live(s.ops), s.ws, s.h) && NewerThanAll(Live(s.ops), s.now)
  {
    hide CanRun; hide Run; hide Good; hide NewerThanAll; hide MemoryInv; hide HistoryOld;
    InitHolds(ws);
    RunKeeps(Init(ws), steps);
  }

  /**
   Recovery is exact after every run: whatever a run of claims, mutations, commands, transfers,
   prunes, failed appends, other writers, crashes and half-finished recoveries left in the log, the
   next start synthesizes a commit for a marker exactly if its install landed, drops it otherwise,
   and reports no conflict -- but for markers whose file another writer changed after they were
   written, that a prune left nothing to vouch for, or whose withdrawal was not acknowledged.
   */
  lemma EveryStartRecoversExactly(ws: Workspace, steps: seq<Step>, p: Record)
    requires SaneWorkspace(ws) && CanRun(Init(ws), steps)
    requires var s := Run(Init(ws), steps); p in Markers(Loaded(s.ops)) && !Exempt(p, s.h)
    ensures var s := Run(Init(ws), steps);
            var actions := RecoverOps(s.ops, s.ws, s.now).actions;
            && (Synthesized(p.id) in actions <==> p.id in s.h.landed)
            && (Dropped(p.id) in actions <==> p.id !in s.h.landed)
            && Conflicted(p.id) !in actions
  {
    hide CanRun; hide Run; hide Exempt; hide Markers; hide Loaded; hide RecoverOps; hide Good; hide NewerThanAll;
    RunIsGood(ws, steps);
    var s := Run(Init(ws), steps);
    RecoveryMatchesHistory(s.ops, s.ws, s.h, s.now, p);
  }

  /** The same for each single decision of a recovery in progress. */
  lemma EveryDecisionIsExact(ws: Workspace, steps: seq<Step>)
    requires SaneWorkspace(ws) && CanRun(Init(ws), steps)
    requires var s := Run(Init(ws), steps);
             && Recovering(s) && Markers(s.memory.value.table) != []
             && !Exempt(CrashRuns.Newest(s.memory.value.table), s.h)
    ensures var s := Run(Init(ws), steps);
            var p := CrashRuns.Newest(s.memory.value.table);
            Judge(s.memory.value.table, p, s.ws) == ExactVerdict(p, s.h.landed)
  {
    hide CanRun; hide Run; hide Inv; hide Markers; hide Settling; hide Exempt; hide Judge;
    InitHolds(ws);
    RunKeeps(Init(ws), steps);
    var s := Run(Init(ws), steps);
    NextDecision(s, s.memory.value);
  }

  // ---- the markers nothing is promised for ----

  /** A marker is not exempt when it is written, whatever happened to its file before. */
  lemma NewMarkersAreNotExempt(s: State, a: Step)
    requires Inv(s) && Enabled(s, a) && a.Prepare? && a.io.Logged?
    ensures var next := Do(s, a); Guarded(next) && !Exempt(next.memory.value.guard.value, next.h)
  {
    hide Inv; hide Asks; hide Live; hide View; hide Twins; hide IsTable; hide HighWater;
    ServingFacts(s, s.memory.value);
  }

  /**
   It becomes obscured only by another writer of its file while it is pending, or by a prune that
   replaced the log, after which neither file nor record shows that it, or a later marker of its
   path, landed -- because of what that prune cut, or one before it that did not get to the log.
   */
  lemma ObscuredOnlyBy(s: State, a: Step, id: nat)
    requires Enabled(s, a) && id in Do(s, a).h.obscured && id !in s.h.obscured
    ensures a.Meddle? || a.Gc?
    ensures a.Meddle? ==> id in PendingOn(s, a.file)
    ensures a.Gc? ==>
              var m := s.memory.value;
              var kept := Live(PruneTable(m.table, a.keep));
              && a.replaced >= 2 && (id in m.unseen || id in Unvouched(kept, s.ws, Remembered(s.h, m)))
              && (m.unseen == {} ==> !AllVisible(kept, s.ws, s.h))
  {
    hide Asks; hide Live; hide IsLogRefusal; hide Markers; hide PendingOn; hide AllVisible; hide Unvouched; hide Requests;
    hide PruneTable; hide PruneRequests; hide Askers; hide Loaded; hide Judge; hide VerdictTable; hide VerdictLine;
    hide VerdictReply; hide StuckLine; hide ReconstructResult; hide HighWater; hide EntryOf; hide Risked; hide Forgotten; hide Cut;
    if a.Gc? && s.memory.value.unseen == {} {
      var kept := Live(PruneTable(s.memory.value.table, a.keep));
      assert Remembered(s.h, s.memory.value) == s.h;
      if AllVisible(kept, s.ws, s.h) {
        VouchedIsNotObscured(kept, s.ws, s.h);
      }
    }
  }

  /** A marker that is not exempt is right: the invariant is the condition recovery needs. */
  lemma DecidableIsRight(t: seq<Record>, ws: Workspace, h: History, i: nat)
    requires Decidable(t, ws, h) && i < |t| && t[i].Prepared? && !Exempt(t[i], h)
    ensures Right(t, i, ws, h.landed)
  {
    assert SaneMarker(t[i], ws) && SettledBy(t, ws, h, i);
    if t[i].id in h.landed && exists j :: i < j < |t| && Evidence(t[j], t[i], h.landed) {
      var j :| i < j < |t| && Evidence(t[j], t[i], h.landed);
      assert ContinuesAt(t, i, j, h.landed);
    }
  }

  /** The exempt markers of a table are right as well. */
  ghost predicate ExemptAreRight(t: seq<Record>, ws: Workspace, h: History) {
    forall i :: 0 <= i < |t| && t[i].Prepared? && Exempt(t[i], h) ==> Right(t, i, ws, h.landed)
  }

  lemma OnlyExemptMatter(t: seq<Record>, ws: Workspace, h: History)
    requires Decidable(t, ws, h)
    ensures AllRight(t, ws, h.landed) <==> ExemptAreRight(t, ws, h)
  {
    hide Decidable; hide Right; hide Exempt;
    forall i | 0 <= i < |t| && t[i].Prepared? && !Exempt(t[i], h) ensures Right(t, i, ws, h.landed) {
      DecidableIsRight(t, ws, h, i);
    }
  }

  /**
   Exactly when the whole report of a start is right: after any run, if and only if each exempt
   marker happens to be -- a landed one still shown by its file or by a later record, any other
   with its file as it was and no record continuing from it.
   */
  lemma EveryStartIsRightExactlyWhen(ws: Workspace, steps: seq<Step>)
    requires SaneWorkspace(ws) && CanRun(Init(ws), steps)
    ensures var s := Run(Init(ws), steps);
            RecoverOps(s.ops, s.ws, s.now).actions == ExactActions(Markers(Loaded(s.ops)), s.h.landed)
            <==> ExemptAreRight(Loaded(s.ops), s.ws, s.h)
  {
    hide CanRun; hide Run; hide Good; hide NewerThanAll; hide AllRight; hide ExemptAreRight; hide RecoverOps; hide Loaded;
    hide Markers; hide ExactActions; hide Decidable;
    RunIsGood(ws, steps);
    var s := Run(Init(ws), steps);
    LoadedIsDecidable(s.ops, s.ws, s.h);
    OnlyExemptMatter(Loaded(s.ops), s.ws, s.h);
    RecoveryIsExactExactlyWhen(s.ops, s.ws, s.h.landed, s.now);
  }
}
