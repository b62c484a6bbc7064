/**
 Exactly when recovery is right, for any log, any workspace and any history: nothing is assumed of
 timestamps, spellings, hashes, other writers, pruning or withdrawals that were lost.
 */
module ExactCondition {
  import opened Records
  import opened Replay
  import opened Recovery
  import opened WriteAhead
  import opened ExactRecovery

  /** A mutation that took place: committed, or a marker of one that landed. */
  predicate Real(r: Record, landed: set<nat>) {
    r.Fs? || (r.Prepared? && r.id in landed)
  }

  predicate ContinuesAt(t: seq<Record>, i: nat, j: nat, landed: set<nat>)
    requires i < |t| && j < |t| && t[i].Prepared?
  {
    Real(t[j], landed) && t[j].path == t[i].path && StartsFrom(t[j], t[i])
  }

  /** A later record of the table, of a mutation that took place, started from what the marker was to leave. */
  predicate ReallyContinued(t: seq<Record>, i: nat, landed: set<nat>)
    requires i < |t| && t[i].Prepared?
  {
    exists j :: i < j < |t| && ContinuesAt(t, i, j, landed)
  }

  /** The file is as the marker was to leave it, and not as it was before. */
  predicate FileShows(p: Record, ws: Workspace)
    requires p.Prepared?
  {
    var current := ws.Current(p.path);
    && p.before != current
    && ((current.None? && p.after == FILE_DELETED_SENTINEL) || (current.Some? && current.value == p.after))
  }

  /** A landed marker is vouched for; one that did not land is contradicted by nothing. */
  predicate Right(t: seq<Record>, i: nat, ws: Workspace, landed: set<nat>)
    requires i < |t| && t[i].Prepared?
  {
    && ws.Resolves(t[i].path)
    && if t[i].id in landed then ReallyContinued(t, i, landed) || FileShows(t[i], ws)
       else !ReallyContinued(t, i, landed) && t[i].before == ws.Current(t[i].path)
  }

  ghost predicate AllRight(t: seq<Record>, ws: Workspace, landed: set<nat>) {
    forall i :: 0 <= i < |t| && t[i].Prepared? ==> Right(t, i, ws, landed)
  }

  /** A report of exactly what happened: newest marker first, a commit for each that landed, a drop for the rest. */
  function ExactActions(ps: seq<Record>, landed: set<nat>): seq<Action> {
    if ps == [] then []
    else
      var p := ps[|ps| - 1];
      [if p.id in landed then Synthesized(p.id) else Dropped(p.id)] + ExactActions(ps[..|ps| - 1], landed)
  }

  /** The newest marker is judged as what it was if and only if it is right. */
  lemma NewestIsRight(t: seq<Record>, i: nat, ws: Workspace, landed: set<nat>)
    requires IsTable(t) && i < |t| && t[i].Prepared?
    requires forall j :: i < j < |t| ==> !t[j].Prepared?
    ensures Judge(t, t[i], ws) == ExactVerdict(t[i], landed) <==> Right(t, i, ws, landed)
  {
    var p := t[i];
    assert Position(t, p.id) == i;
    if ContinuedFrom(t, p) {
      var j :| i < j < |t| && Continues(t[j], p);
      assert ContinuesAt(t, i, j, landed);
    }
    if ReallyContinued(t, i, landed) {
      var j :| i < j < |t| && ContinuesAt(t, i, j, landed);
      assert Continues(t[j], p);
    }
  }

  // ---- deciding one marker says nothing new about the others ----

  lemma SlotKeepsContinued(t: seq<Record>, i: nat, k: nat, landed: set<nat>, now: nat)
    requires i < |t| && t[i].Prepared? && t[i].id in landed && k < |t| && k != i && t[k].Prepared?
    ensures ReallyContinued(t[i := CommitOf(t[i], now)], k, landed) <==> ReallyContinued(t, k, landed)
  {
    var u := t[i := CommitOf(t[i], now)];
    forall j | k < j < |t| ensures ContinuesAt(u, k, j, landed) <==> ContinuesAt(t, k, j, landed) {
    }
  }

  lemma DropKeepsContinued(t: seq<Record>, i: nat, k: nat, landed: set<nat>)
    requires i < |t| && t[i].Prepared? && t[i].id !in landed && k < |t| && k != i && t[k].Prepared?
    ensures var u := t[..i] + t[i + 1..];
            var k' := if k < i then k else k - 1;
            u[k'] == t[k] && (ReallyContinued(u, k', landed) <==> ReallyContinued(t, k, landed))
  {
    var u := t[..i] + t[i + 1..];
    var k' := if k < i then k else k - 1;
    assert forall j :: 0 <= j < |u| ==> u[j] == t[if j < i then j else j + 1];
    if ReallyContinued(u, k', landed) {
      var j :| k' < j < |u| && ContinuesAt(u, k', j, landed);
      assert ContinuesAt(t, k, if j < i then j else j + 1, landed);
    }
    if ReallyContinued(t, k, landed) {
      var j :| k < j < |t| && ContinuesAt(t, k, j, landed);
      assert ContinuesAt(u, k', if j < i then j else j - 1, landed);
    }
  }

  lemma SlotKeepsRight(t: seq<Record>, i: nat, ws: Workspace, landed: set<nat>, now: nat)
    requires i < |t| && t[i].Prepared? && t[i].id in landed
    ensures AllRight(t, ws, landed) <==> Right(t, i, ws, landed) && AllRight(t[i := CommitOf(t[i], now)], ws, landed)
  {
    hide ReallyContinued;
    var u := t[i := CommitOf(t[i], now)];
    forall k | 0 <= k < |t| && k != i && t[k].Prepared? ensures Right(u, k, ws, landed) <==> Right(t, k, ws, landed) {
      SlotKeepsContinued(t, i, k, landed, now);
    }
  }

  lemma DropKeepsRight(t: seq<Record>, i: nat, ws: Workspace, landed: set<nat>)
    requires i < |t| && t[i].Prepared? && t[i].id !in landed
    ensures AllRight(t, ws, landed) <==> Right(t, i, ws, landed) && AllRight(t[..i] + t[i + 1..], ws, landed)
  {
    hide ReallyContinued;
    var u := t[..i] + t[i + 1..];
    forall k | 0 <= k < |t| && k != i && t[k].Prepared?
      ensures var k' := if k < i then k else k - 1;
              u[k'] == t[k] && (Right(u, k', ws, landed) <==> Right(t, k, ws, landed)) {
      DropKeepsContinued(t, i, k, landed);
    }
    if AllRight(t, ws, landed) {
      forall k' | 0 <= k' < |u| && u[k'].Prepared? ensures Right(u, k', ws, landed) {
        var k := if k' < i then k' else k' + 1;
        assert Right(t, k, ws, landed);
      }
    }
    if Right(t, i, ws, landed) && AllRight(u, ws, landed) {
      forall k | 0 <= k < |t| && t[k].Prepared? ensures Right(t, k, ws, landed) {
        if k != i {
          assert Right(u, if k < i then k else k - 1, ws, landed);
        }
      }
    }
  }

  // ---- all of them ----

  lemma HeadMatters(a: Action, b: Action, x: seq<Action>, y: seq<Action>)
    ensures [a] + x == [b] + y <==> a == b && x == y
  {
    assert ([a] + x)[0] == a && ([a] + x)[1..] == x;
    assert ([b] + y)[0] == b && ([b] + y)[1..] == y;
  }

  /** A table is settled to a report of what happened if and only if every marker of it is right. */
  lemma {:induction false} SettledRightly(t: seq<Record>, ws: Workspace, landed: set<nat>, now: nat)
    requires IsTable(t)
    ensures SettleAll(t, Markers(t), ws, now).actions == ExactActions(Markers(t), landed) <==> AllRight(t, ws, landed)
    decreases |Markers(t)|
  {
    hide Judge; hide VerdictTable; hide VerdictLine; hide VerdictReply; hide AllRight; hide Right; hide IsTable;
    var ps := Markers(t);
    if ps == [] {
      NoMarkers(t);
      NoneToBeRight(t, ws, landed);
    } else {
      var i := NewestMarker(t);
      var p := t[i];
      var v := Judge(t, p, ws);
      var u := VerdictTable(t, p, v, now);
      NewestIsRight(t, i, ws, landed);
      HeadMatters(VerdictAction(p, v), if p.id in landed then Synthesized(p.id) else Dropped(p.id),
                  SettleAll(u, ps[..|ps| - 1], ws, now + 1).actions, ExactActions(ps[..|ps| - 1], landed));
      SlotMarkers(t, i, CommitOf(p, now));
      if v == ExactVerdict(p, landed) {
        VerdictLive(t, p, v, now);
        if p.id in landed {
          LandedVerdictTable(t, i, now);
          SlotKeepsRight(t, i, ws, landed, now);
        } else {
          DropVerdictTable(t, i, now);
          DropKeepsRight(t, i, ws, landed);
        }
        SettledRightly(u, ws, landed, now + 1);
      } else {
        OneIsEnough(t, i, ws, landed);
      }
    }
  }

  lemma NoneToBeRight(t: seq<Record>, ws: Workspace, landed: set<nat>)
    requires forall i :: 0 <= i < |t| ==> !t[i].Prepared?
    ensures AllRight(t, ws, landed)
  {
  }

  lemma OneIsEnough(t: seq<Record>, i: nat, ws: Workspace, landed: set<nat>)
    requires i < |t| && t[i].Prepared? && !Right(t, i, ws, landed)
    ensures !AllRight(t, ws, landed)
  {
  }

  /**
   The exact condition: recovery of any log, against any workspace, reports exactly what happened
   if and only if every marker is right -- the landed ones shown by their file or by a later record
   of a mutation that took place, the others with their file as it was and no such record.
   */
  lemma RecoveryIsExactExactlyWhen(log: seq<Record>, ws: Workspace, landed: set<nat>, now: nat)
    ensures RecoverOps(log, ws, now).actions == ExactActions(Markers(Loaded(log)), landed)
            <==> AllRight(Loaded(log), ws, landed)
  {
    hide AllRight; hide Loaded; hide SettleAll;
    LoadedIsLive(log);
    SettledRightly(Loaded(log), ws, landed, now);
  }
}
