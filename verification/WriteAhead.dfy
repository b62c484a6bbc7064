/**
 The write-ahead invariant and why recovery is exact.

 `landed` is history: the ids whose install really changed the workspace. Recovery never sees
 it; the theorem is that its decisions agree with it.
 */
module WriteAhead {
  import opened Options
  import opened Records
  import opened Replay
  import opened Recovery

  /**
   What happened and recovery cannot see: `landed`, the ids whose install changed the workspace;
   `abandoned`, the ids of mutations given up whose withdrawal could not be logged; `obscured`, the
   ids of markers whose file another writer changed while they were pending, or for which a prune
   left nothing to vouch.
   */
  datatype History = History(landed: set<nat>, abandoned: set<nat>, obscured: set<nat>)

  /** No two spellings name one file, and no file hashes to the sentinel. */
  ghost predicate SaneWorkspace(ws: Workspace) {
    && (forall p, q :: p in ws.spelling && q in ws.spelling && ws.spelling[p] == ws.spelling[q] ==> p == q)
    && (forall f :: f in ws.files ==> ws.files[f] != FILE_DELETED_SENTINEL)
  }

  /** A marker a handler may write: it names a file and changes it. */
  ghost predicate SaneMarker(p: Record, ws: Workspace) {
    && p.Prepared?
    && ws.Resolves(p.path)
    && p.before != AfterState(p.after)
    && p.before != Some(FILE_DELETED_SENTINEL)
  }

  /** The markers nothing is promised for: what would show their outcome is gone, or the withdrawal is lost. */
  predicate Exempt(p: Record, h: History)
    requires p.Prepared?
  {
    p.id in h.abandoned || p.id in h.obscured
  }

  /** The markers of a file. */
  function Pending(m: map<nat, Record>, ws: Workspace, file: string): set<nat> {
    set id | id in m && m[id].Prepared? && ws.Resolves(m[id].path) && ws.spelling[m[id].path] == file
  }

  /** `j` shows that marker `p` landed: a landed mutation of the same path that started from it. */
  ghost predicate Evidence(j: Record, p: Record, landed: set<nat>)
    requires p.Prepared?
  {
    j.Mutation() && j.id in landed && j.path == p.path && StartsFrom(j, p)
  }

  // ---- over the live map, ordered by time ----

  ghost predicate NewerThanAll(m: map<nat, Record>, ts: nat) {
    forall id :: id in m ==> m[id].ts < ts
  }

  /** A marker short of its install whose mutation was not given up. */
  ghost predicate Unlanded(m: map<nat, Record>, h: History, id: nat) {
    id in m && m[id].Prepared? && id !in h.landed && id !in h.abandoned
  }

  /** Every marker landed or was given up. */
  ghost predicate AllSettled(m: map<nat, Record>, h: History) {
    forall id :: id in m && m[id].Prepared? ==> id in h.landed || id in h.abandoned
  }

  /** A marker in flight is the newest mutation, and its file is as it was before. */
  ghost predicate UnlandedIsNewest(m: map<nat, Record>, ws: Workspace, h: History, id: nat)
    requires id in m && m[id].Prepared?
  {
    && (id !in h.obscured ==> ws.Current(m[id].path) == m[id].before)
    && forall j :: j in m && j != id && m[j].Mutation() ==> m[j].ts < m[id].ts
  }

  /** A marker that landed is vouched for by a newer record or by the file itself. */
  ghost predicate LandedIsVisible(m: map<nat, Record>, ws: Workspace, landed: set<nat>, id: nat)
    requires id in m && m[id].Prepared?
  {
    || ws.Current(m[id].path) == AfterState(m[id].after)
    || exists j :: j in m && m[j].ts > m[id].ts && Evidence(m[j], m[id], landed)
  }

  ghost predicate AllVisible(m: map<nat, Record>, ws: Workspace, h: History) {
    forall id {:trigger LandedIsVisible(m, ws, h.landed, id)} ::
      id in m && m[id].Prepared? && id in h.landed && id !in h.obscured ==> LandedIsVisible(m, ws, h.landed, id)
  }

  /** `p` is the older of two markers of a path. */
  predicate Older(p: Record, q: Record) {
    p.Prepared? && q.Prepared? && p.path == q.path && p.ts < q.ts
  }

  /** What is obscured of a path is obscured from the oldest marker on: none relies on a later one that is. */
  ghost predicate Closed(m: map<nat, Record>, obscured: set<nat>) {
    forall i, j :: i in m && j in m && Older(m[i], m[j]) && j in obscured ==> i in obscured
  }

  ghost predicate Good(m: map<nat, Record>, ws: Workspace, h: History) {
    && SaneWorkspace(ws)
    && h.landed !! h.abandoned
    && (forall id :: id in m ==> m[id].id == id && !m[id].Aborted?)
    && (forall i, j :: i in m && j in m && i != j ==> m[i].ts != m[j].ts)
    && (forall id :: id in m && m[id].Prepared? ==> SaneMarker(m[id], ws))
    && (forall id {:trigger UnlandedIsNewest(m, ws, h, id)} :: Unlanded(m, h, id) ==> UnlandedIsNewest(m, ws, h, id))
    && Closed(m, h.obscured)
    && AllVisible(m, ws, h)
  }

  /** Mutations are serialized, so at most one marker is in flight. */
  lemma OnlyOneUnlanded(m: map<nat, Record>, ws: Workspace, h: History, i: nat, j: nat)
    requires Good(m, ws, h) && Unlanded(m, h, i) && Unlanded(m, h, j)
    ensures i == j
  {
    assert UnlandedIsNewest(m, ws, h, i) && UnlandedIsNewest(m, ws, h, j);
  }

  /** Records whose only changes are new ones and later times vouch for what they vouched for. */
  lemma VisibleStays(m: map<nat, Record>, n: map<nat, Record>, ws: Workspace, landed: set<nat>, id: nat)
    requires id in m && m[id].Prepared? && id in n && n[id] == m[id] && LandedIsVisible(m, ws, landed, id)
    requires forall j :: j in m && m[j].ts > m[id].ts && Evidence(m[j], m[id], landed) ==>
               j in n && n[j].ts >= m[j].ts && Evidence(n[j], m[id], landed)
    ensures LandedIsVisible(n, ws, landed, id)
  {
    if ws.Current(m[id].path) != AfterState(m[id].after) {
      var j :| j in m && m[j].ts > m[id].ts && Evidence(m[j], m[id], landed);
      assert n[j].ts > n[id].ts && Evidence(n[j], n[id], landed);
    }
  }

  lemma PrepareKeepsGood(m: map<nat, Record>, ws: Workspace, h: History, p: Record)
    requires Good(m, ws, h) && SaneMarker(p, ws)
    requires AllSettled(m, h)
    requires p.id !in m && p.id !in h.landed + h.abandoned + h.obscured && NewerThanAll(m, p.ts)
    requires ws.Current(p.path) == p.before
    ensures Good(m[p.id := p], ws, h)
  {
    hide Evidence; hide LandedIsVisible;
    var n := m[p.id := p];
    forall id | Unlanded(n, h, id) ensures UnlandedIsNewest(n, ws, h, id) {
      assert id == p.id;
    }
    forall id | id in n && n[id].Prepared? && id in h.landed && id !in h.obscured
      ensures LandedIsVisible(n, ws, h.landed, id) {
      VisibleStays(m, n, ws, h.landed, id);
    }
  }

  lemma InstallKeepsGood(m: map<nat, Record>, ws: Workspace, h: History, id: nat)
    requires Good(m, ws, h) && Unlanded(m, h, id)
    ensures Good(m, ws.Install(m[id].path, AfterState(m[id].after)), h.(landed := h.landed + {id}))
  {
    hide Evidence; hide LandedIsVisible;
    var p := m[id];
    assert SaneMarker(p, ws) && UnlandedIsNewest(m, ws, h, id);
    var ws' := ws.Install(p.path, AfterState(p.after));
    var h' := h.(landed := h.landed + {id});
    forall i ensures !Unlanded(m, h', i) {
      if Unlanded(m, h, i) {
        OnlyOneUnlanded(m, ws, h, i, id);
      }
    }
    forall i | i in m && m[i].Prepared? && i in h'.landed && i !in h'.obscured
      ensures LandedIsVisible(m, ws', h'.landed, i) {
      if i == id {
        InstalledIsVisible(m, ws, h, id);
      } else {
        OneInstallKeepsVisible(m, ws, h, id, i);
      }
    }
  }

  lemma InstalledIsVisible(m: map<nat, Record>, ws: Workspace, h: History, id: nat)
    requires id in m && SaneMarker(m[id], ws)
    ensures LandedIsVisible(m, ws.Install(m[id].path, AfterState(m[id].after)), h.landed + {id}, id)
  {
  }

  /** An install keeps an earlier landed marker visible: it becomes the evidence the file no longer is. */
  lemma OneInstallKeepsVisible(m: map<nat, Record>, ws: Workspace, h: History, id: nat, i: nat)
    requires Good(m, ws, h) && Unlanded(m, h, id)
    requires i in m && m[i].Prepared? && i in h.landed && i !in h.obscured
    ensures LandedIsVisible(m, ws.Install(m[id].path, AfterState(m[id].after)), h.landed + {id}, i)
  {
    var p := m[id];
    assert SaneMarker(p, ws) && UnlandedIsNewest(m, ws, h, id);
    assert SaneMarker(m[i], ws) && LandedIsVisible(m, ws, h.landed, i);
    var ws' := ws.Install(p.path, AfterState(p.after));
    if ws.Current(m[i].path) == AfterState(m[i].after) {
      if m[i].path == p.path {
        assert id !in h.obscured;
        assert Evidence(p, m[i], h.landed + {id});
      } else {
        assert ws'.Current(m[i].path) == ws.Current(m[i].path);
      }
    } else {
      var j :| j in m && m[j].ts > m[i].ts && Evidence(m[j], m[i], h.landed);
      assert Evidence(m[j], m[i], h.landed + {id});
    }
  }

  /** Committing a marker, late or by synthesis: its own time moves, its evidence stays. */
  lemma CommitKeepsGood(m: map<nat, Record>, ws: Workspace, h: History, id: nat, ts: nat)
    requires Good(m, ws, h) && id in m && m[id].Prepared?
    requires forall i :: Unlanded(m, h, i) ==> i == id
    requires NewerThanAll(m, ts)
    ensures Good(m[id := CommitOf(m[id], ts)], ws, h)
  {
    hide LandedIsVisible;
    var n := m[id := CommitOf(m[id], ts)];
    forall i ensures !Unlanded(n, h, i) {
      assert Unlanded(n, h, i) ==> Unlanded(m, h, i);
    }
    forall i | i in n && n[i].Prepared? && i in h.landed && i !in h.obscured
      ensures LandedIsVisible(n, ws, h.landed, i) {
      VisibleStays(m, n, ws, h.landed, i);
    }
  }

  /** Dropping a marker that did not land, or is obscured, and with it all that could rely on it. */
  lemma AbortKeepsGood(m: map<nat, Record>, ws: Workspace, h: History, id: nat)
    requires Good(m, ws, h) && id in m && m[id].Prepared?
    requires id in h.landed ==> id in h.obscured
    ensures Good(m - {id}, ws, h)
    ensures Unlanded(m, h, id) ==> AllSettled(m - {id}, h)
  {
    hide SaneMarker;
    var n := m - {id};
    forall i | i in n && n[i].Prepared? && Unlanded(m, h, id) ensures i in h.landed || i in h.abandoned {
      if Unlanded(m, h, i) {
        OnlyOneUnlanded(m, ws, h, i, id);
      }
    }
    forall i | Unlanded(n, h, i) ensures UnlandedIsNewest(n, ws, h, i) {
      assert Unlanded(m, h, i) && UnlandedIsNewest(m, ws, h, i);
    }
    forall i | i in n && n[i].Prepared? && i in h.landed && i !in h.obscured
      ensures LandedIsVisible(n, ws, h.landed, i) {
      VisibleStays(m, n, ws, h.landed, i);
    }
  }

  /** A mutation is given up and its withdrawal is not logged: the marker stays, and is exempt from now on. */
  lemma AbandonKeepsGood(m: map<nat, Record>, ws: Workspace, h: History, id: nat)
    requires Good(m, ws, h) && id !in h.landed
    ensures Good(m, ws, h.(abandoned := h.abandoned + {id}))
    ensures Unlanded(m, h, id) ==> AllSettled(m, h.(abandoned := h.abandoned + {id}))
  {
    var h' := h.(abandoned := h.abandoned + {id});
    forall i | i in m && m[i].Prepared? && Unlanded(m, h, id) ensures i in h'.landed || i in h'.abandoned {
      if Unlanded(m, h, i) {
        OnlyOneUnlanded(m, ws, h, i, id);
      }
    }
    forall i | Unlanded(m, h', i) ensures UnlandedIsNewest(m, ws, h', i) {
      assert Unlanded(m, h, i) && UnlandedIsNewest(m, ws, h, i);
    }
    forall i | i in m && m[i].Prepared? && i in h'.landed && i !in h'.obscured
      ensures LandedIsVisible(m, ws, h'.landed, i) {
      assert LandedIsVisible(m, ws, h.landed, i);
    }
  }

  lemma OtherKeepsGood(m: map<nat, Record>, ws: Workspace, h: History, r: Record)
    requires Good(m, ws, h) && (r.Exec? || r.Transfer?)
    requires r.id !in m && NewerThanAll(m, r.ts)
    ensures Good(m[r.id := r], ws, h)
  {
    hide SaneMarker; hide Evidence;
    var n := m[r.id := r];
    forall i | Unlanded(n, h, i) ensures UnlandedIsNewest(n, ws, h, i) {
      assert Unlanded(m, h, i) && UnlandedIsNewest(m, ws, h, i);
    }
    forall i | i in n && n[i].Prepared? && i in h.landed && i !in h.obscured
      ensures LandedIsVisible(n, ws, h.landed, i) {
      VisibleStays(m, n, ws, h.landed, i);
    }
  }

  /** Another writer changes a file: the markers of that file, and no later ones, are exempt from now on. */
  lemma MeddleKeepsGood(m: map<nat, Record>, ws: Workspace, h: History, file: string, state: Option<string>, ids: set<nat>)
    requires Good(m, ws, h) && state != Some(FILE_DELETED_SENTINEL)
    requires forall i :: i in m && m[i].Prepared? ==> (i in ids <==> i in Pending(m, ws, file))
    ensures Good(m, ws.Put(file, state), h.(obscured := h.obscured + ids))
  {
    var ws', h' := ws.Put(file, state), h.(obscured := h.obscured + ids);
    forall i | i in m && m[i].Prepared? ensures SaneMarker(m[i], ws') {
      assert SaneMarker(m[i], ws);
    }
    forall i | i in m && m[i].Prepared? && i !in ids ensures ws'.Current(m[i].path) == ws.Current(m[i].path) {
      assert SaneMarker(m[i], ws);
    }
    forall i | Unlanded(m, h', i) ensures UnlandedIsNewest(m, ws', h', i) {
      assert Unlanded(m, h, i) && UnlandedIsNewest(m, ws, h, i);
    }
    forall i | i in m && m[i].Prepared? && i in h'.landed && i !in h'.obscured
      ensures LandedIsVisible(m, ws', h'.landed, i) {
      assert LandedIsVisible(m, ws, h.landed, i);
    }
  }

  /** Nothing kept, and no file, shows that the marker landed. */
  ghost predicate Orphan(kept: map<nat, Record>, ws: Workspace, h: History, id: nat) {
    && id in kept && kept[id].Prepared? && id in h.landed && id !in h.obscured
    && !LandedIsVisible(kept, ws, h.landed, id)
  }

  /** What a prune obscures: the markers it leaves nothing to vouch for, and the older ones they could vouch for. */
  ghost function Unvouched(kept: map<nat, Record>, ws: Workspace, h: History): set<nat> {
    set id | id in kept && kept[id].Prepared? && Undermined(kept, ws, h, kept[id])
  }

  ghost predicate Undermined(kept: map<nat, Record>, ws: Workspace, h: History, p: Record)
    requires p.Prepared?
  {
    exists o :: Orphan(kept, ws, h, o) && kept[o].path == p.path && p.ts <= kept[o].ts
  }

  /** A prune after which every landed marker is still vouched for obscures none. */
  lemma VouchedIsNotObscured(kept: map<nat, Record>, ws: Workspace, h: History)
    requires AllVisible(kept, ws, h)
    ensures Unvouched(kept, ws, h) == {}
  {
    hide LandedIsVisible;
    assert forall o :: !Orphan(kept, ws, h, o);
  }

  /**
   With no mutation in flight, dropping records and obscuring markers, older ones first, is harmless
   exactly if what is left vouches for the landed markers that are not obscured.
   */
  lemma PruneKeepsGood(m: map<nat, Record>, n: map<nat, Record>, ws: Workspace, h: History, ids: set<nat>)
    requires Good(m, ws, h) && AllSettled(m, h)
    requires forall id :: id in n ==> id in m && n[id] == m[id]
    requires Closed(n, h.obscured + ids)
    ensures var h' := h.(obscured := h.obscured + ids);
            && (Good(n, ws, h') <==> AllVisible(n, ws, h'))
            && AllSettled(n, h')
  {
    hide SaneMarker; hide LandedIsVisible;
  }

  /** Obscuring what is unvouched is enough: no marker relies on an obscured one, and all others are vouched for. */
  lemma OthersAreVisible(kept: map<nat, Record>, ws: Workspace, h: History)
    requires Closed(kept, h.obscured)
    ensures var h' := h.(obscured := h.obscured + Unvouched(kept, ws, h));
            Closed(kept, h'.obscured) && AllVisible(kept, ws, h')
  {
    hide LandedIsVisible;
    forall id | id in kept && kept[id].Prepared? && id in h.landed && id !in h.obscured + Unvouched(kept, ws, h)
      ensures LandedIsVisible(kept, ws, h.landed, id) {
      assert !Undermined(kept, ws, h, kept[id]);
    }
  }

  // ---- over the table, ordered by position ----

  ghost predicate SettledBy(t: seq<Record>, ws: Workspace, h: History, i: nat)
    requires i < |t| && t[i].Prepared?
  {
    if t[i].id in h.landed then
      || t[i].id in h.obscured
      || ws.Current(t[i].path) == AfterState(t[i].after)
      || exists j :: i < j < |t| && Evidence(t[j], t[i], h.landed)
    else
      && (t[i].id !in h.obscured ==> ws.Current(t[i].path) == t[i].before)
      && forall j :: i < j < |t| ==> !t[j].Mutation()
  }

  /** `Closed`, by position. */
  ghost predicate ClosedBelow(t: seq<Record>, obscured: set<nat>) {
    forall i, j :: 0 <= i < j < |t| && t[i].Prepared? && t[j].Prepared? && t[i].path == t[j].path && t[j].id in obscured ==>
                     t[i].id in obscured
  }

  /** The invariant as recovery's loop sees it. */
  ghost predicate Decidable(t: seq<Record>, ws: Workspace, h: History) {
    && SaneWorkspace(ws)
    && h.landed !! h.abandoned
    && IsTable(t)
    && (forall i :: 0 <= i < |t| && t[i].Prepared? ==> SaneMarker(t[i], ws))
    && (forall i {:trigger SettledBy(t, ws, h, i)} ::
          0 <= i < |t| && t[i].Prepared? && t[i].id !in h.abandoned ==> SettledBy(t, ws, h, i))
    && ClosedBelow(t, h.obscured)
  }

  lemma LoadedIsDecidable(log: seq<Record>, ws: Workspace, h: History)
    requires Good(Live(log), ws, h)
    ensures Decidable(Loaded(log), ws, h)
  {
    hide Live; hide Loaded; hide SettledBy; hide SaneWorkspace; hide AllVisible; hide UnlandedIsNewest; hide Unlanded;
    var t, m := Loaded(log), Live(log);
    LoadedIsLive(log);
    forall i | 0 <= i < |t| ensures t[i].id in m && m[t[i].id] == t[i] {
      assert t[i] in t;
    }
    forall i | 0 <= i < |t| && t[i].Prepared? && t[i].id !in h.abandoned ensures SettledBy(t, ws, h, i) {
      LoadedMarkerSettled(log, ws, h, i);
    }
    ClosedByPosition(t, m, h.obscured);
  }

  lemma ClosedByPosition(t: seq<Record>, m: map<nat, Record>, obscured: set<nat>)
    requires IsTable(t) && Sorted(t) && Closed(m, obscured)
    requires forall i :: 0 <= i < |t| ==> t[i].id in m && m[t[i].id] == t[i]
    requires forall i, j :: i in m && j in m && i != j ==> m[i].ts != m[j].ts
    ensures ClosedBelow(t, obscured)
  {
    hide Sorted;
    forall i, j | 0 <= i < j < |t| && t[i].Prepared? && t[j].Prepared? && t[i].path == t[j].path && t[j].id in obscured
      ensures t[i].id in obscured {
      OrderByTime(t, i, j);
      assert m[t[i].id].ts < m[t[j].id].ts;
    }
  }

  lemma LoadedMarkerSettled(log: seq<Record>, ws: Workspace, h: History, i: nat)
    requires Good(Live(log), ws, h)
    requires i < |Loaded(log)| && Loaded(log)[i].Prepared? && Loaded(log)[i].id !in h.abandoned
    ensures SettledBy(Loaded(log), ws, h, i)
  {
    hide Live; hide Loaded; hide Evidence; hide UnlandedIsNewest; hide LandedIsVisible; hide SaneMarker; hide SettledBy;
    hide SaneWorkspace; hide Sorted; hide IsTable;
    LoadedIsLive(log);
    var p := Loaded(log)[i];
    assert p in Loaded(log);
    if p.id in h.landed {
      assert p.id !in h.obscured ==> LandedIsVisible(Live(log), ws, h.landed, p.id);
      VisibleIsSettled(Loaded(log), Live(log), ws, h, i);
    } else {
      assert UnlandedIsNewest(Live(log), ws, h, p.id);
      NewestIsSettled(Loaded(log), Live(log), ws, h, i);
    }
  }

  lemma OrderByTime(t: seq<Record>, i: nat, j: nat)
    requires Sorted(t) && i < |t| && j < |t|
    ensures t[j].ts > t[i].ts ==> i < j
    ensures i < j ==> t[i].ts <= t[j].ts
  {
    assert i < j ==> Before(t[i], t[j]);
    assert j < i ==> Before(t[j], t[i]);
  }

  lemma VisibleIsSettled(t: seq<Record>, m: map<nat, Record>, ws: Workspace, h: History, i: nat)
    requires Sorted(t) && i < |t| && t[i].Prepared? && t[i].id in h.landed
    requires t[i].id in m && m[t[i].id] == t[i]
    requires t[i].id !in h.obscured ==> LandedIsVisible(m, ws, h.landed, t[i].id)
    requires forall id :: id in m ==> m[id] in t
    ensures SettledBy(t, ws, h, i)
  {
    hide Sorted; hide Evidence;
    if t[i].id !in h.obscured && ws.Current(t[i].path) != AfterState(t[i].after) {
      var j :| j in m && m[j].ts > t[i].ts && Evidence(m[j], t[i], h.landed);
      var k :| 0 <= k < |t| && t[k] == m[j];
      OrderByTime(t, i, k);
    }
  }

  lemma NewestIsSettled(t: seq<Record>, m: map<nat, Record>, ws: Workspace, h: History, i: nat)
    requires IsTable(t) && Sorted(t) && i < |t| && t[i].Prepared? && t[i].id !in h.landed
    requires t[i].id in m && m[t[i].id] == t[i] && UnlandedIsNewest(m, ws, h, t[i].id)
    requires forall x :: x in t ==> x.id in m && m[x.id] == x
    ensures SettledBy(t, ws, h, i)
  {
    hide Sorted;
    forall j | i < j < |t| ensures !t[j].Mutation() {
      assert t[j] in t;
      OrderByTime(t, i, j);
    }
  }

  // ---- the decision ----

  function ExactVerdict(p: Record, landed: set<nat>): Verdict {
    if p.id in landed then Landed else NoOp
  }

  /** The newest marker, unless it is exempt, is judged to have landed exactly when it did. */
  lemma NewestIsJudgedExactly(t: seq<Record>, ws: Workspace, h: History, i: nat)
    requires Decidable(t, ws, h) && i < |t| && t[i].Prepared? && !Exempt(t[i], h)
    requires forall j :: i < j < |t| ==> !t[j].Prepared?
    ensures Judge(t, t[i], ws) == ExactVerdict(t[i], h.landed)
  {
    var p := t[i];
    assert SaneMarker(p, ws) && SettledBy(t, ws, h, i);
    assert Position(t, p.id) == i;
    if p.id in h.landed {
      if exists j :: i < j < |t| && Evidence(t[j], p, h.landed) {
        var j :| i < j < |t| && Evidence(t[j], p, h.landed);
        assert Continues(t[j], p);
        assert ContinuedFrom(t, p);
      }
    } else {
      assert !ContinuedFrom(t, p);
    }
  }
}
