/**
 Recovery is exact: run over any log the server can have left, it synthesizes a commit for the
 markers that landed, drops the others and reports no conflict -- and so does the next start
 when recovery itself is cut off after any of its own appends.
 */
module ExactRecovery {
  import opened Records
  import opened Replay
  import opened Recovery
  import opened WriteAhead

  lemma {:induction false} MarkersConcat(a: seq<Record>, b: seq<Record>)
    ensures Markers(a + b) == Markers(a) + Markers(b)
  {
    if a == [] {
      assert a + b == b;
    } else {
      assert (a + b)[1..] == a[1..] + b;
      MarkersConcat(a[1..], b);
    }
  }

  lemma {:induction false} NoMarkers(t: seq<Record>)
    ensures Markers(t) == [] <==> forall i :: 0 <= i < |t| ==> !t[i].Prepared?
  {
    if t != [] {
      NoMarkers(t[1..]);
      assert forall i :: 0 < i < |t| ==> t[i] == t[1..][i - 1];
    }
  }

  /** A last record that is no marker changes nothing about the markers. */
  lemma MarkersInit(t: seq<Record>)
    requires t != []
    ensures var init, last := t[..|t| - 1], t[|t| - 1];
            Markers(t) == if last.Prepared? then Markers(init) + [last] else Markers(init)
  {
    var init, last := t[..|t| - 1], t[|t| - 1];
    assert t == init + [last];
    MarkersConcat(init, [last]);
    assert [last][1..] == [];
    assert Markers(init) + [] == Markers(init);
  }

  /** The newest marker of a table, and the markers that are left without it. */
  lemma {:induction false} NewestMarker(t: seq<Record>) returns (i: nat)
    requires Markers(t) != []
    ensures i < |t| && t[i].Prepared? && t[i] == Markers(t)[|Markers(t)| - 1]
    ensures forall j :: i < j < |t| ==> !t[j].Prepared?
    ensures Markers(t[..i]) == Markers(t)[..|Markers(t)| - 1]
    ensures Markers(t[i + 1..]) == []
  {
    hide Markers;
    var n := |t| - 1;
    if t == [] {
      NoMarkers(t);
      assert false;
    }
    MarkersInit(t);
    if t[n].Prepared? {
      i := n;
      assert t[i + 1..] == [];
    } else {
      i := NewestMarker(t[..n]);
      assert t[..n][..i] == t[..i];
    }
    NoMarkers(t[i + 1..]);
  }

  lemma LandedVerdictTable(t: seq<Record>, i: nat, now: nat)
    requires IsTable(t) && i < |t| && t[i].Prepared?
    ensures VerdictTable(t, t[i], Landed, now) == t[i := CommitOf(t[i], now)]
  {
    var a, b := t[..i], t[i + 1..];
    assert t == a + [t[i]] + b;
    UpsertShape(a, t[i], b, CommitOf(t[i], now));
  }

  lemma DropVerdictTable(t: seq<Record>, i: nat, now: nat)
    requires IsTable(t) && i < |t| && t[i].Prepared?
    ensures forall v: Verdict :: !v.Landed? ==> VerdictTable(t, t[i], v, now) == t[..i] + t[i + 1..]
  {
    var a, b := t[..i], t[i + 1..];
    assert t == a + [t[i]] + b;
    DropPreparedShape(a, t[i], b);
  }

  /** Committing a marker in its slot leaves every other marker as decidable as it was. */
  lemma CommitStaysDecidable(t: seq<Record>, ws: Workspace, h: History, i: nat, now: nat)
    requires Decidable(t, ws, h) && i < |t| && t[i].Prepared?
    ensures Decidable(t[i := CommitOf(t[i], now)], ws, h)
  {
    hide SaneMarker; hide SaneWorkspace;
    var u := t[i := CommitOf(t[i], now)];
    forall k | 0 <= k < |u| && u[k].Prepared? && u[k].id !in h.abandoned ensures SettledBy(u, ws, h, k) {
      assert SettledBy(t, ws, h, k);
      if t[k].id in h.landed && t[k].id !in h.obscured && ws.Current(t[k].path) != AfterState(t[k].after) {
        var j :| k < j < |t| && Evidence(t[j], t[k], h.landed);
        assert Evidence(u[j], u[k], h.landed);
      }
    }
  }

  /** So does dropping one that is evidence for none that could need it. */
  lemma DropStaysDecidable(t: seq<Record>, ws: Workspace, h: History, i: nat)
    requires Decidable(t, ws, h) && i < |t| && t[i].Prepared?
    requires t[i].id in h.landed ==> t[i].id in h.obscured
    ensures Decidable(t[..i] + t[i + 1..], ws, h)
  {
    hide SaneMarker; hide SaneWorkspace;
    var u := t[..i] + t[i + 1..];
    assert forall k :: 0 <= k < |u| ==> u[k] == t[if k < i then k else k + 1];
    forall k | 0 <= k < |u| && u[k].Prepared? && u[k].id !in h.abandoned ensures SettledBy(u, ws, h, k) {
      var k' := if k < i then k else k + 1;
      assert SettledBy(t, ws, h, k');
      if t[k'].id in h.landed && t[k'].id !in h.obscured && ws.Current(t[k'].path) != AfterState(t[k'].after) {
        var j' :| k' < j' < |t| && Evidence(t[j'], t[k'], h.landed);
        assert Evidence(u[if j' < i then j' else j' - 1], u[k], h.landed);
      }
    }
  }

  /** The state recovery's loop keeps: table and log agree, both know what landed, time moves on. */
  ghost predicate Settling(t: seq<Record>, now: nat, log: seq<Record>, ws: Workspace, h: History) {
    && Decidable(t, ws, h)
    && Live(t) == Live(log)
    && Good(Live(log), ws, h)
    && NewerThanAll(Live(log), now)
  }

  lemma SlotIsLive(t: seq<Record>, log: seq<Record>, i: nat)
    requires IsTable(t) && Live(t) == Live(log) && i < |t|
    ensures t[i].id in Live(log) && Live(log)[t[i].id] == t[i]
  {
    LiveOfTable(t);
  }

  /** When a marker is the newest, no other is in flight. */
  lemma OnlyNewestInFlight(t: seq<Record>, ws: Workspace, h: History, i: nat)
    requires Decidable(t, ws, h) && i < |t| && t[i].Prepared?
    requires forall j :: i < j < |t| ==> !t[j].Prepared?
    ensures forall id :: Unlanded(Live(t), h, id) ==> id == t[i].id
  {
    hide Live; hide SaneMarker; hide Evidence; hide SaneWorkspace;
    MembersOfLive(t);
    forall id | Unlanded(Live(t), h, id) ensures id == t[i].id {
      assert Live(t)[id] in t;
      var k :| 0 <= k < |t| && t[k] == Live(t)[id];
      assert SettledBy(t, ws, h, k);
      assert t[i].Mutation();
    }
  }

  /** The newest marker is judged to have landed: its commit takes its slot. */
  lemma SettleLanded(t: seq<Record>, now: nat, log: seq<Record>, ws: Workspace, h: History, i: nat)
    requires Settling(t, now, log, ws, h)
    requires i < |t| && t[i].Prepared?
    requires forall j :: i < j < |t| ==> !t[j].Prepared?
    ensures Settling(t[i := CommitOf(t[i], now)], now + 1, log + [CommitOf(t[i], now)], ws, h)
  {
    hide Live; hide Good; hide IsTable;
    var p := t[i];
    SlotIsLive(t, log, i);
    LiveAppend(log, CommitOf(p, now));
    LandedVerdictTable(t, i, now);
    CommitStaysDecidable(t, ws, h, i, now);
    UpsertLive(t, CommitOf(p, now));
    OnlyNewestInFlight(t, ws, h, i);
    CommitKeepsGood(Live(log), ws, h, p.id, now);
  }

  /** It is judged otherwise: it is withdrawn. */
  lemma SettleDropped(t: seq<Record>, now: nat, log: seq<Record>, ws: Workspace, h: History, i: nat)
    requires Settling(t, now, log, ws, h)
    requires i < |t| && t[i].Prepared? && (t[i].id in h.landed ==> t[i].id in h.obscured)
    ensures Settling(t[..i] + t[i + 1..], now + 1, log + [Aborted(t[i].id, now)], ws, h)
  {
    hide Live; hide Good; hide IsTable;
    var p := t[i];
    SlotIsLive(t, log, i);
    LiveAppend(log, Aborted(p.id, now));
    DropVerdictTable(t, i, now);
    assert VerdictTable(t, p, NoOp, now) == DropPrepared(t, p.id);
    DropStaysDecidable(t, ws, h, i);
    DropPreparedLive(t, p.id);
    AbortKeepsGood(Live(log), ws, h, p.id);
  }

  lemma SlotMarkers(t: seq<Record>, i: nat, r: Record)
    requires i < |t| && !r.Prepared? && Markers(t[i + 1..]) == []
    ensures Markers(t[i := r]) == Markers(t[..i])
    ensures Markers(t[..i] + t[i + 1..]) == Markers(t[..i])
  {
    MarkersConcat(t[..i], t[i + 1..]);
    assert t[i := r] == t[..i] + ([r] + t[i + 1..]);
    MarkersConcat([r], t[i + 1..]);
    assert [r][1..] == [];
    MarkersConcat(t[..i], [r] + t[i + 1..]);
  }

  /** One marker, decided exactly unless it is exempt, with everything kept for the markers before it. */
  lemma SettleNewest(t: seq<Record>, now: nat, log: seq<Record>, ws: Workspace, h: History)
    requires Settling(t, now, log, ws, h) && Markers(t) != []
    ensures var ps := Markers(t);
            var p := ps[|ps| - 1];
            var v := Judge(t, p, ws);
            && p in t
            && (!Exempt(p, h) ==> v == ExactVerdict(p, h.landed))
            && Settling(VerdictTable(t, p, v, now), now + 1, log + [VerdictLine(p, v, now)], ws, h)
            && Markers(VerdictTable(t, p, v, now)) == ps[..|ps| - 1]
  {
    hide Good; hide Live; hide SettledBy; hide Judge; hide SaneMarker; hide IsTable; hide NewerThanAll;
    var i := NewestMarker(t);
    var p := t[i];
    var v := Judge(t, p, ws);
    if !Exempt(p, h) {
      NewestIsJudgedExactly(t, ws, h, i);
    }
    SlotMarkers(t, i, CommitOf(p, now));
    if v.Landed? {
      LandedVerdictTable(t, i, now);
      SettleLanded(t, now, log, ws, h, i);
    } else {
      DropVerdictTable(t, i, now);
      SettleDropped(t, now, log, ws, h, i);
    }
  }

  // ---- all of them ----

  /** Whatever one marker is decided to have been, only its own id changes, in table and log alike. */
  lemma VerdictLive(t: seq<Record>, p: Record, v: Verdict, now: nat)
    requires IsTable(t) && p in t && p.Prepared?
    ensures var u, line := VerdictTable(t, p, v, now), VerdictLine(p, v, now);
            && IsTable(u)
            && Live(u) == (if line.Aborted? then Live(t) - {p.id} else Live(t)[p.id := line])
            && forall x :: x in u && x.Prepared? <==> x in t && x.Prepared? && x.id != p.id
  {
    MembersOfLive(t);
    if v.Landed? {
      UpsertLive(t, CommitOf(p, now));
      UpsertMembers(t, CommitOf(p, now));
    } else {
      DropPreparedLive(t, p.id);
      DropPreparedMembers(t, p.id);
    }
  }

  lemma {:induction false} MarkersTable(t: seq<Record>)
    requires IsTable(t)
    ensures IsTable(Markers(t))
    ensures forall x :: x in Markers(t) <==> x in t && x.Prepared?
  {
    if t != [] {
      TableCons(t);
      MarkersTable(t[1..]);
      assert t == [t[0]] + t[1..];
      if t[0].Prepared? {
        ConsTable(t[0], Markers(t[1..]));
      }
    }
  }

  lemma TakeNone<T>(a: seq<T>, b: seq<T>)
    ensures a + b[..0] == a
  {
  }

  lemma Regroup<T>(a: seq<T>, x: T, b: seq<T>)
    ensures a + [x] + b == a + ([x] + b)
  {
  }

  lemma TakeRegroup<T>(a: seq<T>, x: T, b: seq<T>, k: nat)
    requires 0 < k <= |b| + 1
    ensures a + [x] + b[..k - 1] == a + ([x] + b)[..k]
  {
  }

  /** What is reported for one marker. */
  predicate Reports(a: Action, id: nat) {
    a == Synthesized(id) || a == Dropped(id) || a == Conflicted(id)
  }

  /** Each marker of `ps` but the exempt ones is reported as what it was. */
  ghost predicate ReportedExactly(actions: seq<Action>, ps: seq<Record>, h: History)
    requires forall p :: p in ps ==> p.Prepared?
  {
    forall p :: p in ps && !Exempt(p, h) ==>
      forall a :: a in actions && Reports(a, p.id) <==> a == if p.id in h.landed then Synthesized(p.id) else Dropped(p.id)
  }

  /** Nothing is reported of an id that has no marker. */
  lemma {:induction false} ReportsAreOfMarkers(t: seq<Record>, ps: seq<Record>, ws: Workspace, now: nat)
    requires forall p :: p in ps ==> p.Prepared?
    ensures forall a :: a in SettleAll(t, ps, ws, now).actions ==> exists p :: p in ps && Reports(a, p.id)
    decreases |ps|
  {
    if ps != [] {
      hide Judge; hide VerdictTable; hide VerdictLine; hide VerdictReply;
      var p := ps[|ps| - 1];
      var v := Judge(t, p, ws);
      assert ps == ps[..|ps| - 1] + [p];
      ReportsAreOfMarkers(VerdictTable(t, p, v, now), ps[..|ps| - 1], ws, now + 1);
      assert Reports(VerdictAction(p, v), p.id);
    }
  }

  lemma ReportOneMore(p: Record, v: Verdict, rest: seq<Action>, ps: seq<Record>, h: History)
    requires IsTable(ps) && ps != [] && (forall q :: q in ps ==> q.Prepared?) && p == ps[|ps| - 1]
    requires ReportedExactly(rest, ps[..|ps| - 1], h)
    requires forall a :: a in rest ==> exists q :: q in ps[..|ps| - 1] && Reports(a, q.id)
    requires !Exempt(p, h) ==> v == ExactVerdict(p, h.landed)
    ensures ReportedExactly([VerdictAction(p, v)] + rest, ps, h)
  {
    hide Exempt;
    TableInit(ps);
    var all := [VerdictAction(p, v)] + rest;
    assert forall a :: a in all <==> a == VerdictAction(p, v) || a in rest;
    forall q, a | q in ps && !Exempt(q, h)
      ensures a in all && Reports(a, q.id) <==> a == if q.id in h.landed then Synthesized(q.id) else Dropped(q.id) {
      if q == p {
        assert a in rest ==> !Reports(a, p.id);
      } else {
        assert q in ps[..|ps| - 1];
      }
    }
  }

  /** Settling every marker of a table reports what landed, keeps what was known, and leaves no marker. */
  lemma {:induction false} SettleAllExact(t: seq<Record>, now: nat, log: seq<Record>, ws: Workspace, h: History)
    requires Settling(t, now, log, ws, h)
    ensures var ps := Markers(t);
            var r := SettleAll(t, ps, ws, now);
            && ReportedExactly(r.actions, ps, h)
            && Markers(r.table) == []
            && Settling(r.table, r.now, log + r.ops, ws, h)
    decreases |Markers(t)|
  {
    hide Settling; hide Exempt; hide Judge; hide VerdictTable; hide VerdictLine; hide VerdictReply; hide VerdictAction;
    hide ReportedExactly; hide Reports; hide IsTable;
    var ps := Markers(t);
    var r := SettleAll(t, ps, ws, now);
    if ps == [] {
      TakeNone(log, r.ops);
      assert r.ops[..0] == r.ops;
      NothingReported(h);
    } else {
      var p := ps[|ps| - 1];
      SettleNewest(t, now, log, ws, h);
      var v := Judge(t, p, ws);
      var t', line := VerdictTable(t, p, v, now), VerdictLine(p, v, now);
      SettleAllExact(t', now + 1, log + [line], ws, h);
      var rest := SettleAll(t', ps[..|ps| - 1], ws, now + 1);
      Regroup(log, line, rest.ops);
      SettlingIsTable(t, now, log, ws, h);
      MarkersTable(t);
      ReportsAreOfMarkers(t', ps[..|ps| - 1], ws, now + 1);
      ReportOneMore(p, v, rest.actions, ps, h);
    }
  }

  lemma NothingReported(h: History)
    ensures ReportedExactly([], [], h)
  {
  }

  lemma SettlingIsTable(t: seq<Record>, now: nat, log: seq<Record>, ws: Workspace, h: History)
    requires Settling(t, now, log, ws, h)
    ensures IsTable(t)
  {
  }

  /** Cut off after any of its appends, settling leaves a log the next start recovers as exactly. */
  lemma {:induction false} SettleAllCutOff(
      t: seq<Record>, now: nat, log: seq<Record>, ws: Workspace, h: History, k: nat)
    requires Settling(t, now, log, ws, h)
    requires k <= |SettleAll(t, Markers(t), ws, now).ops|
    ensures Good(Live(log + SettleAll(t, Markers(t), ws, now).ops[..k]), ws, h)
    decreases k
  {
    hide Exempt; hide Judge; hide VerdictTable; hide VerdictLine; hide VerdictReply; hide VerdictAction; hide Live;
    hide Good; hide Decidable; hide NewerThanAll;
    var ps := Markers(t);
    var r := SettleAll(t, ps, ws, now);
    if k == 0 {
      TakeNone(log, r.ops);
    } else {
      var p := ps[|ps| - 1];
      SettleNewest(t, now, log, ws, h);
      var v := Judge(t, p, ws);
      var line := VerdictLine(p, v, now);
      SettleAllCutOff(VerdictTable(t, p, v, now), now + 1, log + [line], ws, h, k - 1);
      TakeRegroup(log, line, SettleAll(VerdictTable(t, p, v, now), ps[..|ps| - 1], ws, now + 1).ops, k);
    }
  }

  /** What a start recovers the operations log to. */
  function RecoverOps(log: seq<Record>, ws: Workspace, now: nat): Settlement {
    SettleAll(Loaded(log), Markers(Loaded(log)), ws, now)
  }

  lemma LoadedIsSettling(log: seq<Record>, ws: Workspace, h: History, now: nat)
    requires Good(Live(log), ws, h) && NewerThanAll(Live(log), now)
    ensures Settling(Loaded(log), now, log, ws, h)
  {
    LoadedIsLive(log);
    LoadedIsDecidable(log, ws, h);
  }

  /**
   The theorem for one start. `Good` is what every step of the server keeps, crashes included:
   see the run theorem in `RunInvariant`.
   */
  lemma RecoveryIsExact(log: seq<Record>, ws: Workspace, h: History, now: nat)
    requires Good(Live(log), ws, h) && NewerThanAll(Live(log), now)
    ensures var r := RecoverOps(log, ws, now);
            && ReportedExactly(r.actions, Markers(Loaded(log)), h)
            && Markers(r.table) == []
            && Live(r.table) == Live(log + r.ops)
            && Good(Live(log + r.ops), ws, h)
  {
    hide Good; hide Live; hide Decidable; hide ReportedExactly; hide SettleAll; hide Markers; hide NewerThanAll;
    LoadedIsSettling(log, ws, h, now);
    SettleAllExact(Loaded(log), now, log, ws, h);
  }

  lemma RecoveryCutOff(log: seq<Record>, ws: Workspace, h: History, now: nat, k: nat)
    requires Good(Live(log), ws, h) && NewerThanAll(Live(log), now)
    requires k <= |RecoverOps(log, ws, now).ops|
    ensures Good(Live(log + RecoverOps(log, ws, now).ops[..k]), ws, h)
  {
    hide Good; hide Live; hide SettleAll; hide Markers; hide NewerThanAll; hide Settling;
    LoadedIsSettling(log, ws, h, now);
    SettleAllCutOff(Loaded(log), now, log, ws, h, k);
  }

  /** Marker by marker: a commit exactly for what landed, a drop for the rest, no conflict. */
  lemma RecoveryMatchesHistory(log: seq<Record>, ws: Workspace, h: History, now: nat, p: Record)
    requires Good(Live(log), ws, h) && NewerThanAll(Live(log), now)
    requires p in Markers(Loaded(log)) && !Exempt(p, h)
    ensures var actions := RecoverOps(log, ws, now).actions;
            && (Synthesized(p.id) in actions <==> p.id in h.landed)
            && (Dropped(p.id) in actions <==> p.id !in h.landed)
            && Conflicted(p.id) !in actions
  {
    hide Good; hide Live; hide SettleAll; hide Markers; hide NewerThanAll; hide Exempt; hide RecoverOps;
    RecoveryIsExact(log, ws, h, now);
    var actions := RecoverOps(log, ws, now).actions;
    forall a | Reports(a, p.id)
      ensures a in actions <==> a == if p.id in h.landed then Synthesized(p.id) else Dropped(p.id) {
    }
    assert Reports(Synthesized(p.id), p.id) && Reports(Dropped(p.id), p.id) && Reports(Conflicted(p.id), p.id);
  }
}
