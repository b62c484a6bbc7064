/**
 The client's request multiplexer: callers that wait for a turn, register, write, time out or are
 dropped, the reader that hands replies out by id, the input that a closing client takes away, and
 the close that lets everyone go.
 */
module Multiplexer {
  import opened Options

  /** A line the server sent, readable or not, for the request it names. */
  datatype Reply = Reply(rid: nat, readable: bool, text: string)

  datatype Caller =
    | Waiting
    | Registered(rid: nat)
    | Sent(rid: nat)
    | Received(rid: nat, reply: Reply)
    | TurnTimedOut
    | ReplyTimedOut(rid: nat)
    | WriteFailed(rid: nat)
    | Dropped(last: Option<nat>)
    | Closed(last: Option<nat>)
  {
    function Id(): Option<nat> {
      match this
      case Waiting => None
      case TurnTimedOut => None
      case Dropped(last) => last
      case Closed(last) => last
      case _ => Some(rid)
    }
  }

  /**
   `open` while the reader runs, `stdin` while the server's input has not been taken away.
   `pending` is the reply map: which caller an id belongs to, and on a serial connection the slot
   as well. `mail` holds the replies handed over. `owner` (who was given an id), `written` and `answered` are history.
   */
  datatype State = State(
    serial: bool, open: bool, stdin: bool, permit: bool, nextId: nat, callers: map<nat, Caller>,
    pending: map<nat, nat>, mail: map<nat, Reply>, owner: map<nat, nat>, written: set<nat>, answered: set<nat>)

  datatype Step =
    | Call(c: nat)
    | Register(c: nat)
    | TimeOutWaiting(c: nat)
    | Write(c: nat)
    | FailWriting(c: nat)
    | Read(reply: Reply)
    | Receive(c: nat)
    | TimeOut(c: nat)
    | Drop(c: nat)
    | TakeStdin
    | Close
    | FindNoStdin(c: nat)
    | LoseConnection(c: nat)

  function Init(serial: bool): State {
    State(serial, true, true, true, 0, map[], map[], map[], map[], {}, {})
  }

  predicate Is(s: State, c: nat, state: Caller) {
    c in s.callers && s.callers[c] == state
  }

  predicate Enabled(s: State, a: Step) {
    match a
    case Call(c) => c !in s.callers
    case Register(c) => Is(s, c, Waiting) && (s.serial ==> s.permit)
    case TimeOutWaiting(c) => Is(s, c, Waiting) && s.serial
    case Write(c) => s.stdin && c in s.callers && s.callers[c].Registered?
    case FailWriting(c) => s.stdin && c in s.callers && s.callers[c].Registered?
    case Read(reply) => s.open && reply.rid in s.written
    case Receive(c) => c in s.callers && s.callers[c].Sent? && s.callers[c].rid in s.mail
    case TimeOut(c) => s.open && c in s.callers && s.callers[c].Sent? && s.callers[c].rid !in s.mail
    case Drop(c) => c in s.callers && (s.callers[c].Waiting? || s.callers[c].Registered? || s.callers[c].Sent?)
    case TakeStdin => s.open && s.stdin
    case Close => s.open
    case FindNoStdin(c) => !s.stdin && c in s.callers && s.callers[c].Registered?
    // a reply already handed over comes first
    case LoseConnection(c) => !s.open && c in s.callers && s.callers[c].Sent? && s.callers[c].rid !in s.mail
  }

  /** The entry of `rid` leaves the map, and on a serial connection its slot is free again. */
  function Remove(s: State, rid: nat): State {
    if rid in s.pending then s.(pending := s.pending - {rid}, permit := true) else s
  }

  function Do(s: State, a: Step): State
    requires Enabled(s, a)
  {
    match a
    case Call(c) => s.(callers := s.callers[c := if s.open then Waiting else Closed(None)])
    case Register(c) =>
      s.(permit := !s.serial,
         nextId := s.nextId + 1,
         callers := s.callers[c := Registered(s.nextId)],
         pending := s.pending[s.nextId := c],
         owner := s.owner[s.nextId := c])
    case TimeOutWaiting(c) => s.(callers := s.callers[c := TurnTimedOut])
    case Write(c) =>
      var rid := s.callers[c].rid;
      s.(callers := s.callers[c := Sent(rid)], written := s.written + {rid})
    // part of the line may be out, and the entry stays
    case FailWriting(c) =>
      var rid := s.callers[c].rid;
      s.(callers := s.callers[c := WriteFailed(rid)], written := s.written + {rid})
    case Read(reply) =>
      var handed := if reply.rid in s.pending then s.(mail := s.mail[reply.rid := reply]) else s;
      Remove(handed, reply.rid).(answered := s.answered + {reply.rid})
    case Receive(c) =>
      var rid := s.callers[c].rid;
      s.(callers := s.callers[c := Received(rid, s.mail[rid])])
    case TimeOut(c) =>
      var rid := s.callers[c].rid;
      var timedOut := s.(callers := s.callers[c := ReplyTimedOut(rid)]);
      if s.serial then timedOut else Remove(timedOut, rid)
    case Drop(c) => s.(callers := s.callers[c := Dropped(s.callers[c].Id())])
    case TakeStdin => s.(stdin := false)
    // the map is drained, and the slot in it with it
    case Close => s.(open := false, pending := map[], permit := true)
    // the reader may still be up: the caller takes its own entry out
    case FindNoStdin(c) => Remove(s.(callers := s.callers[c := Closed(s.callers[c].Id())]), s.callers[c].rid)
    case LoseConnection(c) => s.(callers := s.callers[c := Closed(s.callers[c].Id())])
  }

  // ---- the invariant ----

  /** On a serial connection the permit is out exactly while one entry holds it. */
  ghost predicate SlotInv(serial: bool, permit: bool, pending: map<nat, nat>) {
    serial ==>
      && (permit <==> pending == map[])
      && (forall r, q :: r in pending && q in pending ==> r == q)
  }

  /** Ids are handed out once, and a caller keeps the one it got. */
  ghost predicate IdInv(callers: map<nat, Caller>, owner: map<nat, nat>, nextId: nat) {
    && (forall rid :: rid in owner ==> rid < nextId && owner[rid] in callers && callers[owner[rid]].Id() == Some(rid))
    && (forall c :: c in callers && callers[c].Id().Some? ==>
          callers[c].Id().value in owner && owner[callers[c].Id().value] == c)
  }

  /** What is written has an owner, and unanswered it still has its entry on an open serial connection. */
  ghost predicate LineInv(serial: bool, open: bool, owner: map<nat, nat>, pending: map<nat, nat>, written: set<nat>, answered: set<nat>) {
    && (forall rid :: rid in pending ==> rid in owner && owner[rid] == pending[rid])
    && (forall rid :: rid in written ==> rid in owner)
    && (forall rid :: open && serial && rid in written && rid !in answered ==> rid in pending)
    && (forall rid :: rid in answered ==> rid in written)
  }

  /** Who is still to write has an entry while the connection is open; who received a reply received the one its id got. */
  ghost predicate CallerInv(open: bool, callers: map<nat, Caller>, pending: map<nat, nat>, written: set<nat>, mail: map<nat, Reply>) {
    && (forall c :: c in callers && callers[c].Registered? ==>
          callers[c].rid !in written && (open ==> callers[c].rid in pending))
    && (forall c :: c in callers && callers[c].Sent? ==> callers[c].rid in written)
    && (forall c :: c in callers && callers[c].Received? ==>
          callers[c].rid in mail && mail[callers[c].rid] == callers[c].reply)
  }

  /** A reply in the mail has left the map, so no second one can follow it. */
  ghost predicate MailInv(pending: map<nat, nat>, mail: map<nat, Reply>, answered: set<nat>) {
    forall rid :: rid in mail ==> rid !in pending && rid in answered && mail[rid].rid == rid
  }

  ghost predicate Inv(s: State) {
    && SlotInv(s.serial, s.permit, s.pending)
    && IdInv(s.callers, s.owner, s.nextId)
    && LineInv(s.serial, s.open, s.owner, s.pending, s.written, s.answered)
    && CallerInv(s.open, s.callers, s.pending, s.written, s.mail)
    && MailInv(s.pending, s.mail, s.answered)
  }

  /** A caller moves on under the id it had. */
  lemma MoveKeepsIds(callers: map<nat, Caller>, owner: map<nat, nat>, nextId: nat, c: nat, next: Caller)
    requires IdInv(callers, owner, nextId)
    requires if c in callers then next.Id() == callers[c].Id() else next.Id().None?
    ensures IdInv(callers[c := next], owner, nextId)
  {
  }

  lemma MoveKeepsCallers(open: bool, callers: map<nat, Caller>, pending: map<nat, nat>, written: set<nat>, mail: map<nat, Reply>,
                         c: nat, next: Caller)
    requires CallerInv(open, callers, pending, written, mail)
    requires next.Registered? ==> next.rid !in written && (open ==> next.rid in pending)
    requires next.Sent? ==> next.rid in written
    requires next.Received? ==> next.rid in mail && mail[next.rid] == next.reply
    ensures CallerInv(open, callers[c := next], pending, written, mail)
  {
  }

  lemma QuietKeeps(s: State, c: nat, a: Step)
    requires Inv(s) && Enabled(s, a)
    requires a == Call(c) || a == TimeOutWaiting(c) || a == Receive(c) || a == Drop(c) || a == LoseConnection(c)
    ensures Inv(Do(s, a))
  {
    hide SlotInv; hide IdInv; hide LineInv; hide CallerInv; hide MailInv;
    var next := Do(s, a).callers[c];
    MoveKeepsIds(s.callers, s.owner, s.nextId, c, next);
    MoveKeepsCallers(s.open, s.callers, s.pending, s.written, s.mail, c, next);
  }

  /** A waiting caller gets an id no one has had. */
  lemma RegisterKeeps(s: State, c: nat)
    requires Inv(s) && Enabled(s, Register(c))
    ensures Inv(Do(s, Register(c)))
  {
    hide SlotInv; hide IdInv; hide CallerInv;
    var rid := s.nextId;
    NextIdIsNew(s);
    NewIdKeepsIds(s.callers, s.owner, rid, c);
    NewIdKeepsCallers(s.open, s.callers, s.pending, s.written, s.mail, rid, c);
    NewIdKeepsSlot(s, rid, c);
  }

  lemma NextIdIsNew(s: State)
    requires Inv(s)
    ensures s.nextId !in s.owner && s.nextId !in s.written && s.nextId !in s.pending && s.nextId !in s.mail
  {
  }

  lemma NewIdKeepsIds(callers: map<nat, Caller>, owner: map<nat, nat>, rid: nat, c: nat)
    requires IdInv(callers, owner, rid) && c in callers && callers[c] == Waiting
    ensures IdInv(callers[c := Registered(rid)], owner[rid := c], rid + 1)
  {
  }

  lemma NewIdKeepsCallers(open: bool, callers: map<nat, Caller>, pending: map<nat, nat>, written: set<nat>, mail: map<nat, Reply>,
                          rid: nat, c: nat)
    requires CallerInv(open, callers, pending, written, mail) && rid !in written
    ensures CallerInv(open, callers[c := Registered(rid)], pending[rid := c], written, mail)
  {
  }

  lemma NewIdKeepsSlot(s: State, rid: nat, c: nat)
    requires SlotInv(s.serial, s.permit, s.pending) && (s.serial ==> s.permit)
    ensures SlotInv(s.serial, !s.serial, s.pending[rid := c])
  {
    assert rid in s.pending[rid := c];
  }

  /** Writing is done once per id: the caller is registered under it, and only until then. */
  lemma WriteKeeps(s: State, c: nat, a: Step)
    requires Inv(s) && Enabled(s, a) && (a == Write(c) || a == FailWriting(c))
    ensures s.callers[c].rid !in s.written && Inv(Do(s, a))
  {
    hide SlotInv; hide MailInv;
    var rid, next := s.callers[c].rid, Do(s, a).callers[c];
    hide IdInv;
    MoveKeepsIds(s.callers, s.owner, s.nextId, c, next);
    WrittenKeepsCallers(s, c, next);
  }

  lemma WrittenKeepsCallers(s: State, c: nat, next: Caller)
    requires Inv(s) && c in s.callers && s.callers[c].Registered? && next.Id() == s.callers[c].Id()
    requires next.Sent? || next.WriteFailed?
    ensures CallerInv(s.open, s.callers[c := next], s.pending, s.written + {s.callers[c].rid}, s.mail)
  {
    var rid := s.callers[c].rid;
    forall d | d in s.callers && d != c && s.callers[d].Registered? ensures s.callers[d].rid != rid {
      assert s.callers[d].Id() == Some(s.callers[d].rid);
    }
  }

  lemma ReadKeeps(s: State, reply: Reply)
    requires Inv(s) && Enabled(s, Read(reply))
    ensures Inv(Do(s, Read(reply)))
  {
    hide IdInv;
    RemovalKeepsCallers(s, reply.rid, reply);
  }

  /** Only an entry whose line is out leaves the map. */
  lemma RemovalKeepsCallers(s: State, rid: nat, reply: Reply)
    requires CallerInv(s.open, s.callers, s.pending, s.written, s.mail) && rid in s.written
    requires MailInv(s.pending, s.mail, s.answered)
    ensures CallerInv(s.open, s.callers, s.pending - {rid}, s.written, s.mail)
    ensures rid in s.pending ==> CallerInv(s.open, s.callers, s.pending - {rid}, s.written, s.mail[rid := reply])
  {
  }

  lemma TimeOutKeeps(s: State, c: nat)
    requires Inv(s) && Enabled(s, TimeOut(c))
    ensures Inv(Do(s, TimeOut(c)))
  {
    hide SlotInv; hide IdInv; hide LineInv; hide MailInv;
    var next := ReplyTimedOut(s.callers[c].rid);
    MoveKeepsIds(s.callers, s.owner, s.nextId, c, next);
    MoveKeepsCallers(s.open, s.callers, s.pending, s.written, s.mail, c, next);
    if !s.serial {
      RemovalKeepsCallers(s.(callers := s.callers[c := next]), next.rid, Reply(0, true, ""));
      RemovalKeepsRest(s, next.rid);
    }
  }

  lemma RemovalKeepsRest(s: State, rid: nat)
    requires !s.serial && LineInv(s.serial, s.open, s.owner, s.pending, s.written, s.answered) && MailInv(s.pending, s.mail, s.answered)
    ensures LineInv(s.serial, s.open, s.owner, s.pending - {rid}, s.written, s.answered)
    ensures MailInv(s.pending - {rid}, s.mail, s.answered) && forall permit :: SlotInv(s.serial, permit, s.pending - {rid})
  {
  }

  lemma TakeStdinKeeps(s: State)
    requires Inv(s) && Enabled(s, TakeStdin)
    ensures Inv(Do(s, TakeStdin))
  {
    hide SlotInv; hide IdInv; hide LineInv; hide CallerInv; hide MailInv;
  }

  /** The close lets everyone go: no entry is left, and no line is waited for. */
  lemma CloseKeeps(s: State)
    requires Inv(s) && Enabled(s, Close)
    ensures Inv(Do(s, Close))
  {
    hide IdInv;
  }

  /** A caller that finds the input gone frees its own slot, and leaves everyone else's entry alone. */
  lemma FindNoStdinKeeps(s: State, c: nat)
    requires Inv(s) && Enabled(s, FindNoStdin(c))
    ensures Inv(Do(s, FindNoStdin(c)))
    ensures s.callers[c].rid !in s.written
    ensures forall rid :: rid in s.pending && rid != s.callers[c].rid ==> rid in Do(s, FindNoStdin(c)).pending
  {
    hide IdInv;
    var rid, next := s.callers[c].rid, Closed(s.callers[c].Id());
    MoveKeepsIds(s.callers, s.owner, s.nextId, c, next);
    UnwrittenRemovalKeepsCallers(s, c, next);
  }

  lemma UnwrittenRemovalKeepsCallers(s: State, c: nat, next: Caller)
    requires Inv(s) && c in s.callers && s.callers[c].Registered? && next == Closed(s.callers[c].Id())
    ensures CallerInv(s.open, s.callers[c := next], s.pending - {s.callers[c].rid}, s.written, s.mail)
    ensures s.callers[c].rid !in s.pending ==> CallerInv(s.open, s.callers[c := next], s.pending, s.written, s.mail)
  {
    forall d | d in s.callers && d != c && s.callers[d].Registered? ensures s.callers[d].rid != s.callers[c].rid {
      assert s.callers[d].Id() == Some(s.callers[d].rid) && s.callers[c].Id() == Some(s.callers[c].rid);
    }
  }

  lemma StepKeeps(s: State, a: Step)
    requires Inv(s) && Enabled(s, a)
    ensures Inv(Do(s, a))
  {
    hide Inv; hide Do;
    match a
    case Register(c) => RegisterKeeps(s, c);
    case Write(c) => WriteKeeps(s, c, a);
    case FailWriting(c) => WriteKeeps(s, c, a);
    case Read(reply) => ReadKeeps(s, reply);
    case TimeOut(c) => TimeOutKeeps(s, c);
    case Call(c) => QuietKeeps(s, c, a);
    case TimeOutWaiting(c) => QuietKeeps(s, c, a);
    case Receive(c) => QuietKeeps(s, c, a);
    case Drop(c) => QuietKeeps(s, c, a);
    case TakeStdin => TakeStdinKeeps(s);
    case Close => CloseKeeps(s);
    case FindNoStdin(c) => FindNoStdinKeeps(s, c);
    case LoseConnection(c) => QuietKeeps(s, c, a);
  }

  // ---- every run ----

  predicate Possible(s: State, steps: seq<Step>)
    decreases |steps|
  {
    steps == [] || (Enabled(s, steps[0]) && Possible(Do(s, steps[0]), steps[1..]))
  }

  function Final(s: State, steps: seq<Step>): State
    requires Possible(s, steps)
    decreases |steps|
  {
    if steps == [] then s else Final(Do(s, steps[0]), steps[1..])
  }

  lemma {:induction false} RunKeeps(s: State, steps: seq<Step>)
    requires Inv(s) && Possible(s, steps)
    ensures Inv(Final(s, steps))
    decreases |steps|
  {
    hide Inv; hide Enabled; hide Do;
    if steps != [] {
      StepKeeps(s, steps[0]);
      RunKeeps(Do(s, steps[0]), steps[1..]);
    }
  }

  /** An open serial connection has at most one written request that is unanswered. */
  lemma OneInFlight(steps: seq<Step>, r: nat, q: nat)
    requires Possible(Init(true), steps)
    requires var s := Final(Init(true), steps);
             s.open && r in s.written && r !in s.answered && q in s.written && q !in s.answered
    ensures r == q
  {
    RunKeeps(Init(true), steps);
    InitKeepsSerial(Init(true), steps);
  }

  lemma {:induction false} InitKeepsSerial(s: State, steps: seq<Step>)
    requires Possible(s, steps)
    ensures Final(s, steps).serial == s.serial
    decreases |steps|
  {
    if steps != [] {
      InitKeepsSerial(Do(s, steps[0]), steps[1..]);
    }
  }

  /** A request that timed out waiting for its turn was never written. */
  lemma TurnTimeoutIsNeverWritten(serial: bool, steps: seq<Step>, c: nat)
    requires Possible(Init(serial), steps)
    requires Is(Final(Init(serial), steps), c, TurnTimedOut)
    ensures var s := Final(Init(serial), steps);
            forall rid :: rid in s.written ==> rid in s.owner && s.owner[rid] != c
  {
    RunKeeps(Init(serial), steps);
  }

  /** On any connection a caller receives only the reply that names its own id. */
  lemma RepliesAreOnesOwn(serial: bool, steps: seq<Step>, c: nat)
    requires Possible(Init(serial), steps)
    requires var s := Final(Init(serial), steps); c in s.callers && s.callers[c].Received?
    ensures var s := Final(Init(serial), steps);
            var rid := s.callers[c].rid;
            s.callers[c].reply.rid == rid && rid in s.owner && s.owner[rid] == c && rid in s.answered
  {
    RunKeeps(Init(serial), steps);
  }

  /** And at most one: the first reply that finds its entry is the one that stays. */
  lemma {:induction false} FirstReplyStays(s: State, steps: seq<Step>, rid: nat)
    requires Inv(s) && Possible(s, steps) && rid in s.mail
    ensures rid in Final(s, steps).mail && Final(s, steps).mail[rid] == s.mail[rid]
    decreases |steps|
  {
    hide Possible; hide SlotInv; hide IdInv; hide LineInv; hide CallerInv;
    if steps != [] {
      Unfold(s, steps);
      StepKeeps(s, steps[0]);
      FirstReplyStays(Do(s, steps[0]), steps[1..], rid);
    }
  }

  lemma Unfold(s: State, steps: seq<Step>)
    requires Possible(s, steps) && steps != []
    ensures Enabled(s, steps[0]) && Possible(Do(s, steps[0]), steps[1..])
  {
  }
}
