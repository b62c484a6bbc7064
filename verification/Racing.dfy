/**
 Threads racing for one request id: at most one of them owns it, one line claims it, and once its
 result is remembered the last line for it stays terminal.
 */
module Racing {
  import opened Options
  import opened Records
  import opened Replay
  import opened Recovery
  import opened Pruning
  import opened Fixpoint
  import opened Interleaving

  /** The thread has claimed `rid`, or is about to have. */
  predicate Works(pc: Pc, rid: string) {
    match pc
    case Owner(r) => r == rid
    case Allocated(r, _) => r == rid
    case Marked(r, _) => r == rid
    case OpLogged(r, _) => r == rid
    case ReqLogged(line) => line.rid == rid
    case _ => false
  }

  /** How many lines claim `rid`. */
  function Claims(reqs: seq<ReqLine>, rid: string): nat {
    if reqs == [] then 0
    else
      var line := reqs[|reqs| - 1];
      Claims(reqs[..|reqs| - 1], rid) + if line.rid == rid && line.status.InProgress? then 1 else 0
  }

  lemma ClaimsAppend(reqs: seq<ReqLine>, line: ReqLine, rid: string)
    ensures Claims(reqs + [line], rid)
            == Claims(reqs, rid) + if line.rid == rid && line.status.InProgress? then 1 else 0
  {
    assert (reqs + [line])[..|reqs|] == reqs;
  }

  /** A line for `rid` is in the table or, with the lock still held, about to be. */
  predicate Taken(m: Memory, rid: string) {
    rid in m.requests || (m.Holder().ReqLogged? && m.Holder().line.rid == rid)
  }

  ghost predicate OneWorker(m: Memory, rid: string) {
    && (forall t: nat, u: nat {:trigger m.Thread(t), m.Thread(u)} ::
          Works(m.Thread(t), rid) && Works(m.Thread(u), rid) ==> t == u)
    && (forall t: nat :: Works(m.Thread(t), rid) ==> Taken(m, rid))
    && (forall t: nat :: m.Thread(t).ReqLogged? && m.Thread(t).line.rid == rid && !(rid in m.requests) ==>
          m.Thread(t).line.status.InProgress?)
    && (rid in m.requests && !m.requests[rid].status.InProgress? ==> forall t: nat :: !Works(m.Thread(t), rid))
  }

  /** `base` lines claimed `rid` in earlier lives of the server. */
  ghost predicate RaceInv(s: State, m: Memory, rid: string, base: int) {
    && LockInv(m)
    && OneWorker(m, rid)
    && Claims(s.reqs, rid) == base + if Taken(m, rid) then 1 else 0
  }

  /** Steps of threads within one life of the server and between two prunes, appends that fail included. */
  predicate Ordinary(a: Step) {
    a.Look? || a.Lock? || a.Decide? || a.Allocate? || a.LogOp? || a.Answer? || a.Apply? || a.GiveUp?
  }

  /** A line that claims `rid` and was reported as failed when it could not be synced: it stays, and nobody owns it. */
  predicate ClaimsInVain(s: State, a: Step, rid: string) {
    && s.memory.Some? && a.Decide? && a.io.Unsynced?
    && s.memory.value.Thread(a.t).Deciding? && s.memory.value.Thread(a.t).rid == rid && rid !in s.memory.value.requests
  }

  /** How many such lines a run leaves. */
  ghost function VainClaims(s: State, steps: seq<Step>, rid: string): nat
    requires Possible(s, steps)
    decreases |steps|
  {
    if steps == [] then 0
    else (if ClaimsInVain(s, steps[0], rid) then 1 else 0) + VainClaims(Do(s, steps[0]), steps[1..], rid)
  }

  /** A thread moves without gaining or losing `rid`, and no table changes. */
  lemma MoveKeepsRace(m: Memory, n: Memory, t: nat, pc: Pc, rid: string)
    requires OneWorker(m, rid) && n.threads == m.threads[t := pc] && n.requests == m.requests
    requires Works(pc, rid) ==> Works(m.Thread(t), rid)
    requires Taken(m, rid) ==> Taken(n, rid)
    requires pc.ReqLogged? ==> rid in m.requests || pc.line.rid != rid
    ensures OneWorker(n, rid)
  {
    assert forall u: nat :: n.Thread(u) == if u == t then pc else m.Thread(u);
  }

  lemma LookKeepsRace(s: State, m: Memory, a: Step, rid: string, base: int)
    requires RaceInv(s, m, rid, base) && s.memory == Some(m) && ThreadEnabled(s, m, a)
    requires a.Look? || a.Allocate? || a.GiveUp? || a.Lock?
    ensures var n := ThreadStep(s, m, a).memory.value; RaceInv(ThreadStep(s, m, a), n, rid, base)
  {
    hide OneWorker; hide LockInv; hide Claims;
    FreeMeansIdle(m);
    match a
    case Look(t, r, op) =>
      NotHolding(m, t);
      MoveKeepsLock(m, t, Claiming(r, op));
      MoveKeepsRace(m, m.Move(t, Claiming(r, op)), t, Claiming(r, op), rid);
    case Allocate(t) =>
      var pc := Allocated(m.Thread(t).rid, m.nextId + 1);
      var n := m.(nextId := m.nextId + 1);
      NotHolding(m, t);
      NextIdIsNotLocked(m);
      MoveKeepsLock(n, t, pc);
      MoveKeepsRace(m, n.Move(t, pc), t, pc, rid);
    case GiveUp(t) =>
      var pc := Owner(m.Thread(t).rid);
      NotHolding(m, t);
      MoveKeepsLock(m, t, pc);
      MoveKeepsRace(m, m.Move(t, pc), t, pc, rid);
    case Lock(t) =>
      var pc := Deciding(m.Thread(t).rid, m.Thread(t).op);
      TakeKeepsLock(m, t, pc);
      MoveKeepsRace(m, m.Take(t, pc), t, pc, rid);
  }

  lemma FreeMeansIdle(m: Memory)
    ensures m.lock.None? ==> m.Holder() == Idle
  {
  }

  /** Whoever finds the request unclaimed under the lock is the first to claim it. */
  lemma DecideKeepsRace(s: State, m: Memory, t: nat, io: CrashRuns.Fate, rid: string, base: int)
    requires RaceInv(s, m, rid, base) && s.memory == Some(m) && ThreadEnabled(s, m, Decide(t, io))
    ensures var next := ThreadStep(s, m, Decide(t, io));
            RaceInv(next, next.memory.value, rid, base + if ClaimsInVain(s, Decide(t, io), rid) then 1 else 0)
  {
    hide LockInv; hide Claims;
    HolderIs(m, t);
    var pc := m.Thread(t);
    if pc.rid in m.requests || io.Refused? {
      ReleaseKeepsLock(m, t, Idle);
      MoveKeepsRace(m, m.Release(t, Idle), t, Idle, rid);
    } else if io.Unsynced? {
      var n := m.(reqsBehind := true);
      ClaimsAppend(s.reqs, ClaimLine(pc.rid, pc.op), rid);
      LockIgnoresTables(m, n);
      ReleaseKeepsLock(n, t, Idle);
      MoveKeepsRace(m, n.Release(t, Idle), t, Idle, rid);
    } else {
      var line := ClaimLine(pc.rid, pc.op);
      ClaimsAppend(s.reqs, line, rid);
      MoveKeepsLock(m, t, ReqLogged(line));
      var n := m.Move(t, ReqLogged(line));
      assert forall u: nat :: n.Thread(u) == if u == t then ReqLogged(line) else m.Thread(u);
    }
  }

  lemma LogKeepsRace(s: State, m: Memory, t: nat, change: Change, io: CrashRuns.Fate, undone: Option<nat>, rid: string, base: int)
    requires RaceInv(s, m, rid, base) && s.memory == Some(m) && ThreadEnabled(s, m, LogOp(t, change, io, undone))
    ensures var next := ThreadStep(s, m, LogOp(t, change, io, undone)); RaceInv(next, next.memory.value, rid, base)
  {
    AllowedId(m, t, change);
    hide OneWorker; hide LockInv; hide Claims; hide Allowed;
    var r := m.Thread(t).rid;
    FreeMeansIdle(m);
    if io.Logged? {
      TakeKeepsLock(m, t, OpLogged(r, change));
      MoveKeepsRace(m, m.Take(t, OpLogged(r, change)), t, OpLogged(r, change), rid);
    } else {
      var n := m.(opsBehind := m.opsBehind || (io.Unsynced? && !TakenBack(change, io, undone)));
      LockIgnoresTables(m, n);
      MoveKeepsLock(n, t, Owner(r));
      MoveKeepsRace(m, n.Move(t, Owner(r)), t, Owner(r), rid);
    }
  }

  lemma OwnerIsInTable(m: Memory, t: nat, rid: string)
    requires OneWorker(m, rid) && m.lock.None? && m.Thread(t) == Owner(rid)
    ensures rid in m.requests
  {
    assert Works(m.Thread(t), rid);
  }

  lemma AnswerKeepsRace(s: State, m: Memory, t: nat, line: ReqLine, io: CrashRuns.Fate, rid: string, base: int)
    requires RaceInv(s, m, rid, base) && s.memory == Some(m) && ThreadEnabled(s, m, Answer(t, line, io))
    ensures var next := ThreadStep(s, m, Answer(t, line, io)); RaceInv(next, next.memory.value, rid, base)
  {
    hide OneWorker; hide LockInv; hide Claims; hide Taken; hide Works; hide ThreadStep; hide ThreadEnabled;
    var pc := if io.Logged? then ReqLogged(line) else Idle;
    var next := ThreadStep(s, m, Answer(t, line, io));
    AnswerIs(s, m, t, line, io);
    if line.rid == rid {
      OwnerIsInTable(m, t, rid);
    }
    var n := next.memory.value;
    FreeMeansIdle(m);
    ClaimsAppend(s.reqs, line, rid);
    AnsweringMoves(m, n, t, line, pc, n.reqsBehind);
    AnsweringTakesNothing(m, n, line, rid);
    AnswererWorks(m, t, pc, line, rid);
    MoveKeepsRace(m, n, t, pc, rid);
  }

  lemma AnswerIs(s: State, m: Memory, t: nat, line: ReqLine, io: CrashRuns.Fate)
    requires ThreadEnabled(s, m, Answer(t, line, io))
    ensures m.lock.None? && m.Thread(t) == Owner(line.rid) && !line.status.InProgress?
    ensures var next := ThreadStep(s, m, Answer(t, line, io));
            && next.memory.Some? && next.reqs == (if io.Refused? then s.reqs else s.reqs + [line])
            && next.memory.value == if io.Logged? then m.Take(t, ReqLogged(line))
                                    else m.(reqsBehind := next.memory.value.reqsBehind).Move(t, Idle)
  {
    hide Allowed;
  }

  /** An answer that got into the log takes the lock, one that did not leaves it. */
  lemma AnsweringMoves(m: Memory, n: Memory, t: nat, line: ReqLine, pc: Pc, behind: bool)
    requires LockInv(m) && m.lock.None? && !m.Thread(t).Holds() && (pc == ReqLogged(line) || pc == Idle)
    requires n == if pc == Idle then m.(reqsBehind := behind).Move(t, pc) else m.Take(t, pc)
    ensures LockInv(n) && n.Holder() == pc
  {
    hide LockInv;
    FreeMeansIdle(m);
    if pc == Idle {
      var o := m.(reqsBehind := behind);
      LockIgnoresTables(m, o);
      NotHolding(m, t);
      MoveKeepsLock(o, t, pc);
    } else {
      TakeKeepsLock(m, t, pc);
    }
  }

  lemma AnsweringTakesNothing(m: Memory, n: Memory, line: ReqLine, rid: string)
    requires n.requests == m.requests && m.Holder() == Idle && (line.rid == rid ==> rid in m.requests)
    requires n.Holder() == ReqLogged(line) || n.Holder() == Idle
    ensures Taken(n, rid) <==> Taken(m, rid)
  {
  }

  lemma AnswererWorks(m: Memory, t: nat, pc: Pc, line: ReqLine, rid: string)
    requires m.Thread(t) == Owner(line.rid) && (pc == ReqLogged(line) || pc == Idle)
    ensures Works(pc, rid) ==> Works(m.Thread(t), rid)
  {
  }

  lemma ApplyKeepsRace(s: State, m: Memory, t: nat, rid: string, base: int)
    requires RaceInv(s, m, rid, base) && s.memory == Some(m) && ThreadEnabled(s, m, Apply(t))
    ensures var next := ThreadStep(s, m, Apply(t)); RaceInv(next, next.memory.value, rid, base)
  {
    hide LockInv; hide Claims; hide Applied;
    HolderIs(m, t);
    match m.Thread(t)
    case OpLogged(r, change) =>
      var n := m.(records := Applied(m.records, change));
      LockIgnoresTables(m, n);
      ReleaseKeepsLock(n, t, After(r, change));
      MoveKeepsRace(m, n.Release(t, After(r, change)), t, After(r, change), rid);
    case ReqLogged(line) =>
      var n := m.(requests := m.requests[line.rid := EntryOf(line)]);
      var pc := if line.status.InProgress? then Owner(line.rid) else Idle;
      LockIgnoresTables(m, n);
      ReleaseKeepsLock(n, t, pc);
      var o := n.Release(t, pc);
      assert forall u: nat :: o.Thread(u) == if u == t then pc else m.Thread(u);
      AppliedLine(m, o, t, line, pc, rid);
  }

  lemma AppliedLine(m: Memory, o: Memory, t: nat, line: ReqLine, pc: Pc, rid: string)
    requires OneWorker(m, rid) && m.Thread(t) == ReqLogged(line) && m.Holder() == m.Thread(t)
    requires o.requests == m.requests[line.rid := EntryOf(line)] && o.lock.None?
    requires pc == if line.status.InProgress? then Owner(line.rid) else Idle
    requires forall u: nat :: o.Thread(u) == if u == t then pc else m.Thread(u)
    ensures OneWorker(o, rid) && (Taken(o, rid) <==> Taken(m, rid))
  {
    assert Works(m.Thread(t), line.rid);
  }

  lemma StepKeepsRace(s: State, a: Step, rid: string, base: int)
    requires s.memory.Some? && RaceInv(s, s.memory.value, rid, base) && Ordinary(a) && Enabled(s, a)
    ensures Do(s, a).memory.Some?
    ensures RaceInv(Do(s, a), Do(s, a).memory.value, rid, base + if ClaimsInVain(s, a, rid) then 1 else 0)
  {
    hide RaceInv;
    var m := s.memory.value;
    match a
    case Decide(t, io) => DecideKeepsRace(s, m, t, io, rid, base);
    case LogOp(t, change, io, undone) => LogKeepsRace(s, m, t, change, io, undone, rid, base);
    case Answer(t, line, io) => AnswerKeepsRace(s, m, t, line, io, rid, base);
    case Apply(t) => ApplyKeepsRace(s, m, t, rid, base);
    case _ => LookKeepsRace(s, m, a, rid, base);
  }

  // ---- one worker, always ----

  /** In any state, prunes under way included. */
  ghost predicate Sole(s: State, rid: string) {
    s.memory.Some? ==> LockInv(s.memory.value) && OneWorker(s.memory.value, rid)
  }

  /** A prune keeps the requests in progress, and so those somebody works on. */
  lemma PruneKeepsWorker(s: State, m: Memory, a: Step, rid: string)
    requires Sole(s, rid) && s.memory == Some(m) && ThreadEnabled(s, m, a)
    requires a.Cut? || a.SaveCounter? || a.SaveOps? || a.SaveReqs? || a.AbandonPrune?
    ensures Sole(ThreadStep(s, m, a), rid)
  {
    hide LockInv; hide Requests; hide PruneTable; hide OneWorker; hide RetainedRequests;
    FreeMeansIdle(m);
    var n := ThreadStep(s, m, a).memory.value;
    match a
    case Cut(t, keep) =>
      var o := m.(records := n.records, requests := n.requests);
      LockIgnoresTables(m, o);
      TakeKeepsLock(o, t, TablesCut);
      CutKeepsWorker(m, n, t, rid);
    case SaveCounter(t) =>
      MoveKeepsLock(m, t, CounterSaved);
      PrunerIsIdle(m, n, t, CounterSaved, rid);
    case SaveOps(t) =>
      LockIgnoresTables(m, m.(opsBehind := false));
      MoveKeepsLock(m.(opsBehind := false), t, OpsSaved);
      PrunerIsIdle(m, n, t, OpsSaved, rid);
    case SaveReqs(t, _) =>
      LockIgnoresTables(m, m.(reqsBehind := false));
      ReleaseKeepsLock(m.(reqsBehind := false), t, Idle);
      PrunerIsIdle(m, n, t, Idle, rid);
    case AbandonPrune(t) =>
      var o := m.(opsBehind := n.opsBehind, reqsBehind := true);
      LockIgnoresTables(m, o);
      ReleaseKeepsLock(o, t, Idle);
      PrunerIsIdle(m, n, t, Idle, rid);
  }

  lemma CutKeepsWorker(m: Memory, n: Memory, t: nat, rid: string)
    requires LockInv(m) && OneWorker(m, rid) && m.lock.None? && n.threads == m.threads[t := TablesCut]
    requires exists kept :: n.requests == PruneRequests(m.requests, kept)
    ensures OneWorker(n, rid)
  {
    hide RetainedRequests;
    assert forall u: nat :: n.Thread(u) == if u == t then TablesCut else m.Thread(u);
    assert forall u: nat :: !m.Thread(u).Holds();
  }

  lemma PrunerIsIdle(m: Memory, n: Memory, t: nat, pc: Pc, rid: string)
    requires LockInv(m) && OneWorker(m, rid) && m.Thread(t).Prunes() && (pc.Prunes() || pc == Idle)
    requires n.threads == m.threads[t := pc] && n.requests == m.requests
    ensures OneWorker(n, rid)
  {
    HolderIs(m, t);
    MoveKeepsRace(m, n, t, pc, rid);
  }

  lemma StepKeepsSole(s: State, a: Step, rid: string)
    requires Sole(s, rid) && Enabled(s, a)
    ensures Sole(Do(s, a), rid)
  {
    hide OneWorker; hide LockInv; hide Recover; hide Requests; hide Claims; hide Collects; hide ThreadStep; hide ThreadEnabled;
    if Ordinary(a) {
      StepKeepsRace(s, a, rid, Claims(s.reqs, rid) - if Taken(s.memory.value, rid) then 1 else 0);
    } else if a.Restart? {
      StartIsSole(s, a.ws, a.now, a.stuck, rid);
    } else if !a.Crash? && !a.FailedStart? {
      PruneKeepsWorker(s, s.memory.value, a, rid);
    }
  }

  lemma StartIsSole(s: State, ws: Workspace, now: nat, stuck: seq<Stalled>, rid: string)
    ensures Sole(DoRestart(s, ws, now, stuck), rid)
  {
    hide Recover; hide Requests;
    var m := DoRestart(s, ws, now, stuck).memory.value;
    assert forall t: nat :: m.Thread(t) == Idle;
  }

  lemma {:induction false} RunKeepsSole(s: State, steps: seq<Step>, rid: string)
    requires Sole(s, rid) && Possible(s, steps)
    ensures Sole(Final(s, steps), rid)
    decreases |steps|
  {
    hide Sole; hide Do; hide Enabled;
    if steps != [] {
      StepKeepsSole(s, steps[0], rid);
      RunKeepsSole(Do(s, steps[0]), steps[1..], rid);
    }
  }

  /**
   At no time do two threads work on one request: over any interleaving with prunes, appends that
   fail, crashes and restarts.
   */
  lemma NeverTwoWorkers(steps: seq<Step>, rid: string, t: nat, u: nat)
    requires Possible(EMPTY, steps) && Final(EMPTY, steps).memory.Some?
    requires var m := Final(EMPTY, steps).memory.value; Works(m.Thread(t), rid) && Works(m.Thread(u), rid)
    ensures t == u
    ensures var m := Final(EMPTY, steps).memory.value;
            rid in m.requests ==> m.requests[rid].status.InProgress?
  {
    hide Possible; hide Final;
    RunKeepsSole(EMPTY, steps, rid);
  }

  // ---- whole races ----

  /** The server is up and `rid` is unclaimed: not in the table, and no thread at work on it. */
  ghost predicate Unclaimed(s: State, rid: string) {
    && s.memory.Some?
    && s.memory.value.lock.None?
    && rid !in s.memory.value.requests
    && forall t: nat :: !Works(s.memory.value.Thread(t), rid)
  }

  ghost predicate AllOrdinary(steps: seq<Step>) {
    forall i :: 0 <= i < |steps| ==> Ordinary(steps[i])
  }

  lemma {:induction false} RunKeepsRace(s: State, steps: seq<Step>, rid: string, base: int)
    requires Inv(s) && s.memory.Some? && RaceInv(s, s.memory.value, rid, base)
    requires Possible(s, steps) && AllOrdinary(steps)
    ensures var e := Final(s, steps);
            Inv(e) && e.memory.Some? && RaceInv(e, e.memory.value, rid, base + VainClaims(s, steps, rid))
    decreases |steps|
  {
    hide Inv; hide RaceInv; hide Do; hide Enabled;
    if steps != [] {
      StepKeeps(s, steps[0]);
      StepKeepsRace(s, steps[0], rid, base);
      RunKeepsRace(Do(s, steps[0]), steps[1..], rid, base + if ClaimsInVain(s, steps[0], rid) then 1 else 0);
    }
  }

  /**
   A race has one winner: whatever threads do, at most one at a time holds the request, and the log
   gains one line claiming it exactly if one of them got it -- never two, but for lines that were
   reported as failed, which nobody owns.
   */
  lemma OneWinner(s: State, steps: seq<Step>, rid: string)
    requires Inv(s) && Unclaimed(s, rid) && Possible(s, steps) && AllOrdinary(steps)
    ensures var e := Final(s, steps);
            && e.memory.Some?
            && Claims(e.reqs, rid) == Claims(s.reqs, rid) + VainClaims(s, steps, rid) + (if Taken(e.memory.value, rid) then 1 else 0)
            && forall t: nat, u: nat {:trigger e.memory.value.Thread(t), e.memory.value.Thread(u)} ::
                 Works(e.memory.value.Thread(t), rid) && Works(e.memory.value.Thread(u), rid) ==> t == u
  {
    hide Inv; hide Claims; hide Possible; hide Final;
    UnclaimedIsRace(s, rid);
    RunKeepsRace(s, steps, rid, Claims(s.reqs, rid));
  }

  /** The request is answered with `e`, in memory and in the log. */
  ghost predicate AnsweredWith(s: State, rid: string, e: Entry) {
    && s.memory.Some?
    && rid in s.memory.value.requests && s.memory.value.requests[rid] == e && !e.status.InProgress?
    && rid in Requests(s.reqs) && Requests(s.reqs)[rid] == e
  }

  /** The request is in progress and nobody works on it: the word was that its result could not be remembered. */
  ghost predicate Forsaken(m: Memory, rid: string) {
    rid in m.requests && m.requests[rid].status.InProgress? && forall t: nat :: !Works(m.Thread(t), rid)
  }

  /** What memory knows of the request, or is about to, is the last line of the log for it, if anyone is to conclude it. */
  ghost predicate Echo(s: State, m: Memory, rid: string) {
    if m.Holder().ReqLogged? && m.Holder().line.rid == rid then
      rid in Requests(s.reqs) && Requests(s.reqs)[rid] == EntryOf(m.Holder().line)
    else
      rid in m.requests && !Forsaken(m, rid) ==> rid in Requests(s.reqs) && Requests(s.reqs)[rid] == m.requests[rid]
  }

  /** Nobody takes a request up that is in the table. */
  lemma ForsakenStays(m: Memory, n: Memory, t: nat, pc: Pc, rid: string)
    requires n.threads == m.threads[t := pc] && n.requests == m.requests
    requires Works(pc, rid) ==> Works(m.Thread(t), rid) || rid !in m.requests
    ensures Forsaken(m, rid) ==> Forsaken(n, rid)
  {
    assert forall u: nat :: n.Thread(u) == if u == t then pc else m.Thread(u);
  }

  lemma EchoStays(s: State, m: Memory, next: State, n: Memory, rid: string)
    requires Echo(s, m, rid) && n.requests == m.requests && next.reqs == s.reqs
    requires n.Holder() == m.Holder() || (!n.Holder().ReqLogged? && !m.Holder().ReqLogged?)
    requires Forsaken(m, rid) ==> Forsaken(n, rid)
    ensures Echo(next, n, rid)
  {
    hide Requests; hide Forsaken;
  }

  /** A line is logged by the thread that holds the lock from here on. */
  lemma EchoOfLine(s: State, m: Memory, next: State, n: Memory, line: ReqLine, rid: string)
    requires Echo(s, m, rid) && n.requests == m.requests && n.Holder() == ReqLogged(line) && !m.Holder().ReqLogged?
    requires next.reqs == s.reqs + [line] && (Forsaken(m, rid) ==> Forsaken(n, rid))
    ensures Echo(next, n, rid)
  {
    hide Requests; hide EntryOf; hide Forsaken;
    RequestsAppend(s.reqs, line);
  }

  /** A line that was reported as failed is no news of `rid`, or leaves it to nobody. */
  lemma EchoInVain(s: State, m: Memory, next: State, n: Memory, line: ReqLine, rid: string)
    requires Echo(s, m, rid) && n.requests == m.requests && !n.Holder().ReqLogged? && !m.Holder().ReqLogged?
    requires next.reqs == s.reqs + [line] && (Forsaken(m, rid) ==> Forsaken(n, rid))
    requires line.rid == rid ==> rid !in m.requests || Forsaken(n, rid)
    ensures Echo(next, n, rid)
  {
    hide Requests; hide EntryOf; hide Forsaken;
    RequestsAppend(s.reqs, line);
  }

  lemma StepKeepsEcho(s: State, a: Step, rid: string, base: int)
    requires s.memory.Some? && Echo(s, s.memory.value, rid) && RaceInv(s, s.memory.value, rid, base)
    requires Ordinary(a) && Enabled(s, a)
    ensures Do(s, a).memory.Some? && Echo(Do(s, a), Do(s, a).memory.value, rid)
  {
    hide Echo; hide OneWorker; hide LockInv; hide Claims; hide Requests; hide Allowed; hide Applied;
    var m := s.memory.value;
    match a
    case Decide(t, io) => DecidedEcho(s, m, t, io, rid);
    case Answer(t, line, io) => AnsweredEcho(s, m, t, line, io, rid);
    case LogOp(t, change, io, undone) => LoggedEcho(s, m, t, change, io, undone, rid);
    case Apply(t) => AppliedEcho(s, m, t, rid);
    case _ => QuietEcho(s, m, a, rid);
  }

  lemma DecidedEcho(s: State, m: Memory, t: nat, io: CrashRuns.Fate, rid: string)
    requires LockInv(m) && Echo(s, m, rid) && s.memory == Some(m) && ThreadEnabled(s, m, Decide(t, io))
    ensures var next := ThreadStep(s, m, Decide(t, io)); Echo(next, next.memory.value, rid)
  {
    hide Echo; hide LockInv; hide Requests; hide Forsaken;
    HolderIs(m, t);
    var line := ClaimLine(m.Thread(t).rid, m.Thread(t).op);
    var next := ThreadStep(s, m, Decide(t, io));
    var n := next.memory.value;
    if line.rid !in m.requests && io.Logged? {
      MoveKeepsLock(m, t, ReqLogged(line));
      ForsakenStays(m, n, t, ReqLogged(line), rid);
      EchoOfLine(s, m, next, n, line, rid);
    } else {
      var o := m.(reqsBehind := n.reqsBehind);
      LockIgnoresTables(m, o);
      ReleaseKeepsLock(o, t, Idle);
      ForsakenStays(m, n, t, Idle, rid);
      if line.rid !in m.requests && io.Unsynced? {
        EchoInVain(s, m, next, n, line, rid);
      } else {
        EchoStays(s, m, next, n, rid);
      }
    }
  }

  lemma AnsweredEcho(s: State, m: Memory, t: nat, line: ReqLine, io: CrashRuns.Fate, rid: string)
    requires LockInv(m) && OneWorker(m, rid) && Echo(s, m, rid) && s.memory == Some(m) && ThreadEnabled(s, m, Answer(t, line, io))
    ensures var next := ThreadStep(s, m, Answer(t, line, io)); Echo(next, next.memory.value, rid)
  {
    hide Echo; hide LockInv; hide Requests; hide Forsaken; hide OneWorker;
    FreeMeansIdle(m);
    var next := ThreadStep(s, m, Answer(t, line, io));
    var n := next.memory.value;
    if io.Logged? {
      TakeKeepsLock(m, t, ReqLogged(line));
      ForsakenStays(m, n, t, ReqLogged(line), rid);
      EchoOfLine(s, m, next, n, line, rid);
    } else {
      var o := m.(reqsBehind := n.reqsBehind);
      NotHolding(m, t);
      LockIgnoresTables(m, o);
      MoveKeepsLock(o, t, Idle);
      ForsakenStays(m, n, t, Idle, rid);
      if io.Unsynced? {
        if line.rid == rid {
          LastWorkerLeaves(m, n, t, rid);
        }
        EchoInVain(s, m, next, n, line, rid);
      } else {
        EchoStays(s, m, next, n, rid);
      }
    }
  }

  lemma LastWorkerLeaves(m: Memory, n: Memory, t: nat, rid: string)
    requires OneWorker(m, rid) && m.lock.None? && m.Thread(t) == Owner(rid)
    requires n.threads == m.threads[t := Idle] && n.requests == m.requests
    ensures Forsaken(n, rid)
  {
    assert forall u: nat :: n.Thread(u) == if u == t then Idle else m.Thread(u);
    assert Works(m.Thread(t), rid);
  }

  lemma LoggedEcho(s: State, m: Memory, t: nat, change: Change, io: CrashRuns.Fate, undone: Option<nat>, rid: string)
    requires LockInv(m) && Echo(s, m, rid) && s.memory == Some(m) && ThreadEnabled(s, m, LogOp(t, change, io, undone))
    ensures var next := ThreadStep(s, m, LogOp(t, change, io, undone)); Echo(next, next.memory.value, rid)
  {
    AllowedId(m, t, change);
    hide Echo; hide LockInv; hide Requests; hide Allowed; hide Forsaken;
    FreeMeansIdle(m);
    NotHolding(m, t);
    var next := ThreadStep(s, m, LogOp(t, change, io, undone));
    var n := next.memory.value;
    var pc := if io.Logged? then OpLogged(m.Thread(t).rid, change) else Owner(m.Thread(t).rid);
    if io.Logged? {
      TakeKeepsLock(m, t, pc);
    } else {
      var o := m.(opsBehind := n.opsBehind);
      LockIgnoresTables(m, o);
      MoveKeepsLock(o, t, pc);
    }
    ForsakenStays(m, n, t, pc, rid);
    EchoStays(s, m, next, n, rid);
  }

  lemma AppliedEcho(s: State, m: Memory, t: nat, rid: string)
    requires LockInv(m) && Echo(s, m, rid) && s.memory == Some(m) && ThreadEnabled(s, m, Apply(t))
    ensures var next := ThreadStep(s, m, Apply(t)); Echo(next, next.memory.value, rid)
  {
    hide LockInv; hide Requests; hide Applied; hide EntryOf;
    HolderIs(m, t);
    match m.Thread(t)
    case OpLogged(r, change) =>
      var n := m.(records := Applied(m.records, change));
      LockIgnoresTables(m, n);
      ReleaseKeepsLock(n, t, After(r, change));
      ForsakenStays(m, n.Release(t, After(r, change)), t, After(r, change), rid);
    case ReqLogged(line) =>
      var n := m.(requests := m.requests[line.rid := EntryOf(line)]);
      var pc := if line.status.InProgress? then Owner(line.rid) else Idle;
      LockIgnoresTables(m, n);
      ReleaseKeepsLock(n, t, pc);
      if line.rid != rid {
        ForsakenStays(n, n.Release(t, pc), t, pc, rid);
      }
  }

  lemma QuietEcho(s: State, m: Memory, a: Step, rid: string)
    requires LockInv(m) && Echo(s, m, rid) && s.memory == Some(m) && ThreadEnabled(s, m, a)
    requires a.Look? || a.Allocate? || a.GiveUp? || a.Lock?
    ensures var next := ThreadStep(s, m, a); Echo(next, next.memory.value, rid)
  {
    hide Echo; hide LockInv; hide Requests; hide Forsaken;
    FreeMeansIdle(m);
    var next := ThreadStep(s, m, a);
    var n := next.memory.value;
    match a
    case Look(t, r, op) =>
      NotHolding(m, t);
      MoveKeepsLock(m, t, Claiming(r, op));
      ForsakenStays(m, m.Move(t, Claiming(r, op)), t, Claiming(r, op), rid);
      EchoStays(s, m, next, n, rid);
    case Allocate(t) =>
      NotHolding(m, t);
      NextIdIsNotLocked(m);
      MoveKeepsLock(m.(nextId := m.nextId + 1), t, n.Thread(t));
      ForsakenStays(m, n, t, n.Thread(t), rid);
      EchoStays(s, m, next, n, rid);
    case GiveUp(t) =>
      NotHolding(m, t);
      MoveKeepsLock(m, t, n.Thread(t));
      ForsakenStays(m, n, t, n.Thread(t), rid);
      EchoStays(s, m, next, n, rid);
    case Lock(t) =>
      TakeKeepsLock(m, t, n.Thread(t));
      ForsakenStays(m, n, t, n.Thread(t), rid);
      EchoStays(s, m, next, n, rid);
  }

  lemma {:induction false} RunKeepsEcho(s: State, steps: seq<Step>, rid: string, base: int)
    requires Inv(s) && s.memory.Some? && RaceInv(s, s.memory.value, rid, base) && Echo(s, s.memory.value, rid)
    requires Possible(s, steps) && AllOrdinary(steps)
    ensures var e := Final(s, steps); e.memory.Some? && Echo(e, e.memory.value, rid)
    decreases |steps|
  {
    hide Inv; hide RaceInv; hide Do; hide Enabled; hide Echo;
    if steps != [] {
      StepKeeps(s, steps[0]);
      StepKeepsRace(s, steps[0], rid, base);
      StepKeepsEcho(s, steps[0], rid, base);
      RunKeepsEcho(Do(s, steps[0]), steps[1..], rid, base + if ClaimsInVain(s, steps[0], rid) then 1 else 0);
    }
  }

  /** A terminal entry in memory is the last line of the log. */
  lemma AnswerIsLogged(s: State, rid: string, base: int)
    requires s.memory.Some? && RaceInv(s, s.memory.value, rid, base) && Echo(s, s.memory.value, rid)
    requires rid in s.memory.value.requests && !s.memory.value.requests[rid].status.InProgress?
    ensures AnsweredWith(s, rid, s.memory.value.requests[rid])
  {
    hide Requests; hide Claims;
    var m := s.memory.value;
    if m.Holder().ReqLogged? {
      assert !Works(m.Thread(m.lock.value), rid);
    }
  }

  lemma OtherLine(log: seq<ReqLine>, line: ReqLine, rid: string)
    requires line.rid != rid && rid in Requests(log)
    ensures rid in Requests(log + [line]) && Requests(log + [line])[rid] == Requests(log)[rid]
  {
    RequestsAppend(log, line);
  }

  lemma StepKeepsAnswer(s: State, a: Step, rid: string, base: int, e: Entry)
    requires AnsweredWith(s, rid, e) && RaceInv(s, s.memory.value, rid, base) && Ordinary(a) && Enabled(s, a)
    ensures AnsweredWith(Do(s, a), rid, e)
  {
    hide Requests; hide Claims; hide LockInv; hide Applied; hide Allowed; hide EntryOf; hide Taken;
    if a.Decide? || a.Answer? {
      LineKeepsAnswer(s, a, rid, base, e);
    } else if a.LogOp? {
      AllowedId(s.memory.value, a.t, a.change);
    }
  }

  lemma LineKeepsAnswer(s: State, a: Step, rid: string, base: int, e: Entry)
    requires AnsweredWith(s, rid, e) && RaceInv(s, s.memory.value, rid, base) && Enabled(s, a) && (a.Decide? || a.Answer?)
    ensures AnsweredWith(Do(s, a), rid, e)
  {
    hide Requests; hide Claims; hide LockInv; hide EntryOf; hide Taken;
    var m := s.memory.value;
    assert !Works(m.Thread(a.t), rid);
    if a.Answer? {
      OtherLine(s.reqs, a.line, rid);
    } else if m.Thread(a.t).rid != rid {
      OtherLine(s.reqs, ClaimLine(m.Thread(a.t).rid, m.Thread(a.t).op), rid);
    }
  }

  /** Once remembered, a result is what every later restart would read. */
  lemma {:induction false} AnswerIsLastingIn(s: State, steps: seq<Step>, rid: string, base: int, e: Entry)
    requires Inv(s) && AnsweredWith(s, rid, e) && RaceInv(s, s.memory.value, rid, base)
    requires Possible(s, steps) && AllOrdinary(steps)
    ensures AnsweredWith(Final(s, steps), rid, e)
    decreases |steps|
  {
    hide Inv; hide RaceInv; hide Do; hide Enabled; hide Requests;
    if steps != [] {
      StepKeeps(s, steps[0]);
      StepKeepsRace(s, steps[0], rid, base);
      StepKeepsAnswer(s, steps[0], rid, base, e);
      AnswerIsLastingIn(Do(s, steps[0]), steps[1..], rid, base + if ClaimsInVain(s, steps[0], rid) then 1 else 0, e);
    }
  }

  /**
   Once the winner has remembered its result, the last line for the request is that terminal one,
   and so it stays: at the end of the race, and after anything threads do later.
   */
  lemma RememberedForGood(s: State, race: seq<Step>, later: seq<Step>, rid: string)
    requires Inv(s) && Unclaimed(s, rid) && Possible(s, race) && AllOrdinary(race)
    requires var e := Final(s, race);
             && e.memory.Some? && rid in e.memory.value.requests && !e.memory.value.requests[rid].status.InProgress?
             && Possible(e, later) && AllOrdinary(later)
    ensures var e := Final(s, race);
            && AnsweredWith(e, rid, e.memory.value.requests[rid])
            && AnsweredWith(Final(e, later), rid, e.memory.value.requests[rid])
  {
    hide Inv; hide Requests; hide Claims; hide Possible; hide Final;
    var base := Claims(s.reqs, rid);
    UnclaimedIsRace(s, rid);
    RunKeepsRace(s, race, rid, base);
    RunKeepsEcho(s, race, rid, base);
    var e := Final(s, race);
    base := base + VainClaims(s, race, rid);
    AnswerIsLogged(e, rid, base);
    AnswerIsLastingIn(e, later, rid, base, e.memory.value.requests[rid]);
  }

  lemma UnclaimedIsRace(s: State, rid: string)
    requires Inv(s) && Unclaimed(s, rid)
    ensures RaceInv(s, s.memory.value, rid, Claims(s.reqs, rid)) && Echo(s, s.memory.value, rid)
  {
    hide WorkInv; hide TableInv; hide RequestInv; hide IdInv; hide SoundInv; hide MarkInv; hide DiskInv; hide Requests;
    hide Claims; hide CrashRuns.HighWater; hide Live;
  }
}
