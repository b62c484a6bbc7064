/**
 The create, edit and delete protocols: a marker in the log, the last look at the file, the
 install, the commit -- and which of the four failures withdraws the marker.
 */
module FsOps {
  import opened Options
  import opened Records
  import opened Replay
  import opened Recovery
  import opened WriteAhead
  import opened Utf8
  import Store
  import Replace

  /** A failed install says whether it left the workspace changed: that decides the marker's fate. */
  datatype Install = Installed | NotInstalled(changed: bool, error: ProtocolError)

  const FSYNC_FAILED := ProtocolError(IoError, "fsync failed")

  /** The files of a workspace root, with the hash the server takes of their contents. */
  class Files {
    const hash: seq<byte> -> string
    const spelling: map<string, string>
    var content: map<string, seq<byte>>
    /** How many calls of the operating system have failed. */
    ghost var faults: nat

    /** Every hash is well formed, and so none is the sentinel of a deleted file. */
    ghost predicate HashesAreHashes() {
      forall bytes :: Replace.WellFormedHash(hash(bytes))
    }

    constructor (hashing: seq<byte> -> string, paths: map<string, string>, initial: map<string, seq<byte>>)
      ensures hash == hashing && spelling == paths && content == initial && faults == 0
    {
      hash, spelling, content, faults := hashing, paths, initial, 0;
    }

    /** Whether a call of the operating system works; one that does not is counted. */
    method Works() returns (ok: bool)
      modifies this`faults
      ensures faults >= old(faults) && (ok <==> faults == old(faults))
    {
      ok := *;
      faults := if ok then faults else faults + 1;
    }

    /** The workspace as the log and recovery know it: hashes for contents. */
    ghost function Ws(): Workspace
      reads this
    {
      Workspace(spelling, map f | f in content :: hash(content[f]))
    }

    predicate Resolves(path: string) {
      path in spelling
    }

    /** What the file a path names holds, if it is there. */
    function Bytes(path: string): Option<seq<byte>>
      reads this
    {
      if Resolves(path) && spelling[path] in content then Some(content[spelling[path]]) else None
    }

    /** `hash_file`. */
    function Current(path: string): (current: Option<string>)
      reads this
      ensures current == Ws().Current(path)
    {
      match Bytes(path)
      case Some(bytes) => Some(hash(bytes))
      case None => None
    }

    /** Temp file, no-clobber rename, sync: never over an existing file. */
    method AtomicCreate(path: string, bytes: seq<byte>) returns (f: Install)
      requires Resolves(path)
      modifies this
      ensures f.Installed? || f.changed ==>
                && old(Bytes(path)).None? && content == old(content)[spelling[path] := bytes]
                && Ws() == old(Ws()).Install(path, Some(hash(bytes)))
      ensures f.NotInstalled? && !f.changed ==> content == old(content)
      ensures faults >= old(faults) && (f.Installed? <==> faults == old(faults) && old(Bytes(path)).None?)
      ensures f.NotInstalled? ==> f.error.code == if faults > old(faults) then IoError else AlreadyExists
    {
      var staged := Works();
      if !staged {
        return NotInstalled(false, ProtocolError(IoError, "staging failed"));
      }
      if Bytes(path).Some? {
        return NotInstalled(false, ProtocolError(AlreadyExists, "already exists: " + path));
      }
      var linked := Works();
      if !linked {
        return NotInstalled(false, ProtocolError(IoError, "install failed"));
      }
      content := content[spelling[path] := bytes];
      assert Ws().files == old(Ws()).Install(path, Some(hash(bytes))).files;
      var synced := Works();
      f := if synced then Installed else NotInstalled(true, FSYNC_FAILED);
    }

    /** Rename a staged replacement into place, then sync its directory. */
    method Persist(path: string, bytes: seq<byte>) returns (f: Install)
      requires Resolves(path)
      modifies this
      ensures f.Installed? || f.changed ==>
                && content == old(content)[spelling[path] := bytes]
                && Ws() == old(Ws()).Install(path, Some(hash(bytes)))
      ensures f.NotInstalled? && !f.changed ==> content == old(content)
      ensures faults >= old(faults) && (f.Installed? <==> faults == old(faults))
      ensures f.NotInstalled? ==> f.error.code == IoError
    {
      var renamed := Works();
      if !renamed {
        return NotInstalled(false, ProtocolError(IoError, "atomic persist failed"));
      }
      content := content[spelling[path] := bytes];
      assert Ws().files == old(Ws()).Install(path, Some(hash(bytes))).files;
      var synced := Works();
      f := if synced then Installed else NotInstalled(true, FSYNC_FAILED);
    }

    /** Take the last look, and install only over the content the replacement was built from. */
    method InstallOver(path: string, before: string, bytes: seq<byte>) returns (f: Install)
      requires Resolves(path)
      modifies this
      ensures f.Installed? || f.changed ==>
                && old(Current(path)) == Some(before) && content == old(content)[spelling[path] := bytes]
                && Ws() == old(Ws()).Install(path, Some(hash(bytes)))
      ensures f.NotInstalled? && !f.changed ==> content == old(content)
      ensures faults >= old(faults) && (f.Installed? <==> faults == old(faults) && old(Current(path)) == Some(before))
      ensures f.NotInstalled? ==> f.error.code == if old(Current(path)) == Some(before) then IoError else StaleFile
    {
      if Current(path) != Some(before) {
        return NotInstalled(false, ProtocolError(StaleFile, path + " changed while the edit was being prepared"));
      }
      f := Persist(path, bytes);
    }

    /** Remove the file, then sync its directory. */
    method Remove(path: string) returns (f: Install)
      requires Resolves(path)
      modifies this
      ensures f.Installed? || f.changed ==>
                && old(Bytes(path)).Some? && content == old(content) - {spelling[path]}
                && Ws() == old(Ws()).Install(path, None)
      ensures f.NotInstalled? && !f.changed ==> content == old(content)
      ensures faults >= old(faults) && (f.Installed? <==> faults == old(faults) && old(Bytes(path)).Some?)
      ensures f.NotInstalled? ==> f.error.code == IoError
    {
      var removed := Works();
      if !removed || Bytes(path).None? {
        return NotInstalled(false, ProtocolError(IoError, "remove failed"));
      }
      content := content - {spelling[path]};
      assert Ws().files == old(Ws()).Install(path, None).files;
      var synced := Works();
      f := if synced then Installed else NotInstalled(true, FSYNC_FAILED);
    }
  }

  // ---- what one protocol run may leave behind ----

  /** The lines a protocol run for marker `p` may have added, given whether the workspace changed. */
  ghost predicate Trace(before: seq<Record>, after: seq<Record>, p: Record, landed: bool)
    requires p.Prepared?
  {
    if landed then
      || after == before + [p]
      || after == before + [p] + [CommitOf(p, p.ts + 1)]
    else
      || after == before
      || after == before + [p]
      || after == before + [p] + [Aborted(p.id, p.ts + 1)]
  }

  /** The withdrawal of a mutation that did not happen is on record, or there is nothing to withdraw. */
  ghost predicate Accounted(before: seq<Record>, after: seq<Record>, p: Record, landed: bool) {
    landed || after != before + [p]
  }

  /** A landed mutation always has a line that says so, and is never withdrawn. */
  lemma LandedIsOnRecord(before: seq<Record>, after: seq<Record>, p: Record)
    requires p.Prepared? && Trace(before, after, p, true)
    ensures p.id in Live(after) && Live(after)[p.id].Mutation()
    ensures Live(after)[p.id] == p || Live(after)[p.id].Fs?
  {
    LiveAppend(before, p);
    if after != before + [p] {
      LiveAppend(before + [p], CommitOf(p, p.ts + 1));
    }
  }

  /** A mutation that did not happen is never committed. */
  lemma UnlandedIsNeverCommitted(before: seq<Record>, after: seq<Record>, p: Record)
    requires p.Prepared? && p.id !in Live(before) && Trace(before, after, p, false)
    ensures p.id in Live(after) ==> Live(after)[p.id] == p
    ensures Accounted(before, after, p, false) ==> Live(after) == Live(before)
  {
    LiveAppend(before, p);
    if after != before + [p] && after != before {
      LiveAppend(before + [p], Aborted(p.id, p.ts + 1));
      assert Live(after) == Live(before);
    }
  }

  /** What history says once a protocol run for marker `p` has ended. */
  function After(h: History, before: seq<Record>, after: seq<Record>, p: Record, landed: bool): History {
    if landed then h.(landed := h.landed + {p.id})
    else if after == before + [p] then h.(abandoned := h.abandoned + {p.id})
    else h
  }

  /** However a protocol run ends, the log it leaves is one recovery decides exactly. */
  lemma TraceKeepsGood(before: seq<Record>, after: seq<Record>, ws: Workspace, p: Record, landed: bool, h: History)
    requires Good(Live(before), ws, h) && AllSettled(Live(before), h)
    requires p.Prepared? && SaneMarker(p, ws)
    requires p.id !in Live(before) && p.id !in h.landed + h.abandoned + h.obscured
    requires NewerThanAll(Live(before), p.ts) && ws.Current(p.path) == p.before
    requires Trace(before, after, p, landed)
    ensures var ws' := if landed then ws.Install(p.path, AfterState(p.after)) else ws;
            var h' := After(h, before, after, p, landed);
            Good(Live(after), ws', h') && AllSettled(Live(after), h')
  {
    hide Good; hide NewerThanAll; hide Live; hide Trace; hide AllSettled; hide SaneMarker;
    PrepareKeepsGood(Live(before), ws, h, p);
    LiveAppend(before, p);
    if landed {
      LandedKeepsGood(before, after, ws, p, h);
    } else {
      UnlandedIsNeverCommitted(before, after, p);
      UnlandedKeepsGood(before, after, ws, p, h);
    }
  }

  /** A marker whose install is under way is the only one that is not settled. */
  lemma OneInFlight(before: seq<Record>, p: Record, h: History)
    requires p.Prepared? && p.id !in Live(before) && p.id !in h.landed && p.id !in h.abandoned
    requires AllSettled(Live(before), h)
    ensures Unlanded(Live(before + [p]), h, p.id)
    ensures forall id :: Unlanded(Live(before + [p]), h, id) ==> id == p.id
    ensures AllSettled(Live(before + [p]), h.(landed := h.landed + {p.id}))
  {
    hide Live;
    LiveAppend(before, p);
    forall id ensures Unlanded(Live(before + [p]), h, id) ==> id == p.id {
      if id in Live(before) {
        assert Live(before)[id].Prepared? ==> !Unlanded(Live(before), h, id);
      }
    }
  }

  lemma UnlandedKeepsGood(before: seq<Record>, after: seq<Record>, ws: Workspace, p: Record, h: History)
    requires p.Prepared? && p.id !in Live(before) && p.id !in h.landed && p.id !in h.abandoned
    requires Good(Live(before), ws, h) && Good(Live(before + [p]), ws, h) && AllSettled(Live(before), h)
    requires Trace(before, after, p, false) && (Accounted(before, after, p, false) ==> Live(after) == Live(before))
    ensures Good(Live(after), ws, After(h, before, after, p, false))
    ensures AllSettled(Live(after), After(h, before, after, p, false))
  {
    hide Good; hide Live; hide Trace; hide AllSettled;
    if after == before + [p] {
      OneInFlight(before, p, h);
      AbandonKeepsGood(Live(after), ws, h, p.id);
    }
  }

  lemma LandedKeepsGood(before: seq<Record>, after: seq<Record>, ws: Workspace, p: Record, h: History)
    requires p.Prepared? && p.id !in Live(before) && p.id !in h.landed && p.id !in h.abandoned
    requires Good(Live(before + [p]), ws, h) && Live(before + [p]) == Live(before)[p.id := p]
    requires AllSettled(Live(before), h) && NewerThanAll(Live(before), p.ts)
    requires Trace(before, after, p, true)
    ensures Good(Live(after), ws.Install(p.path, AfterState(p.after)), h.(landed := h.landed + {p.id}))
    ensures AllSettled(Live(after), h.(landed := h.landed + {p.id}))
  {
    hide Good; hide Live; hide AllSettled;
    var m, ws', h' := Live(before + [p]), ws.Install(p.path, AfterState(p.after)), h.(landed := h.landed + {p.id});
    OneInFlight(before, p, h);
    InstallKeepsGood(m, ws, h, p.id);
    if after != before + [p] {
      LiveAppend(before + [p], CommitOf(p, p.ts + 1));
      NoneInFlight(m, h');
      CommitKeepsGood(m, ws', h', p.id, p.ts + 1);
      CommittedSettled(m, h', p, p.ts + 1);
    }
  }

  lemma NoneInFlight(m: map<nat, Record>, h: History)
    requires AllSettled(m, h)
    ensures forall id :: !Unlanded(m, h, id)
  {
  }

  lemma CommittedSettled(m: map<nat, Record>, h: History, p: Record, ts: nat)
    requires AllSettled(m, h) && p.Prepared?
    ensures AllSettled(m[p.id := CommitOf(p, ts)], h)
  {
  }

  // ---- the protocols ----

  /** What a protocol run for marker `p` leaves in log and table, given whether it landed and succeeded. */
  ghost predicate Outcome(ops: seq<Record>, records: seq<Record>, ops': seq<Record>, records': seq<Record>,
                          p: Record, landed: bool, ok: bool)
    requires p.Prepared?
  {
    && Trace(ops, ops', p, landed)
    && (ok ==>
          && landed
          && ops' == ops + [p] + [CommitOf(p, p.ts + 1)]
          && records' == Upsert(records + [p], CommitOf(p, p.ts + 1)))
    && (!ok && landed ==> records' == records + [p])
    && (!ok && !landed ==>
          || records' == records
          || (records' == records + [p] && ops' != ops)
          || (records' == DropPrepared(records + [p], p.id) && ops' != ops && ops' != ops + [p]))
  }

  /** The marker is refused: written in vain, at most. */
  lemma RefusedOutcome(ops: seq<Record>, records: seq<Record>, ops': seq<Record>, p: Record)
    requires p.Prepared?
    requires ops' == ops || ops' == ops + [p] || ops' == ops + [p] + [Aborted(p.id, p.ts + 1)]
    ensures Outcome(ops, records, ops', records, p, false, false)
  {
    hide Upsert; hide DropPrepared;
  }

  /** Nothing was installed, and the marker is to be withdrawn. */
  lemma WithdrawnOutcome(ops: seq<Record>, records: seq<Record>, ops': seq<Record>, records': seq<Record>, p: Record, done: bool)
    requires p.Prepared?
    requires ops' == ops + [p] + [Aborted(p.id, p.ts + 1)] || (!done && ops' == ops + [p])
    requires records' == if done then DropPrepared(records + [p], p.id) else records + [p]
    ensures Outcome(ops, records, ops', records', p, false, false)
  {
    hide Upsert; hide DropPrepared;
    assert |ops + [p]| == |ops| + 1;
    assert |ops + [p] + [Aborted(p.id, p.ts + 1)]| == |ops| + 2;
  }

  /** The mutation is in place, and its commit is on record, or not. */
  lemma LandedOutcome(ops: seq<Record>, records: seq<Record>, ops': seq<Record>, records': seq<Record>, p: Record, done: bool)
    requires p.Prepared?
    requires ops' == ops + [p] + [CommitOf(p, p.ts + 1)] || (!done && ops' == ops + [p])
    requires records' == if done then Upsert(records + [p], CommitOf(p, p.ts + 1)) else records + [p]
    ensures Outcome(ops, records, ops', records', p, true, done)
  {
    hide Upsert; hide DropPrepared;
  }

  /** With a log that works the marker is followed by the one line that is due: the commit, the withdrawal, or none for a landed mutation that failed. */
  ghost predicate Settles(ops: seq<Record>, records: seq<Record>, ops': seq<Record>, records': seq<Record>,
                          p: Record, landed: bool, ok: bool)
    requires p.Prepared?
  {
    && ops' == ops + [p] + (if ok then [CommitOf(p, p.ts + 1)] else if landed then [] else [Aborted(p.id, p.ts + 1)])
    && (!landed ==> records' == DropPrepared(records + [p], p.id))
  }

  /** The store after a protocol run. */
  twostate predicate Ran(store: Store.OperationStore, p: Record, landed: bool, ok: bool)
    requires p.Prepared?
    reads store
  {
    && store.nextId == old(store.nextId) + 1
    && Outcome(old(store.ops), old(store.records), store.ops, store.records, p, landed, ok)
    && (!old(store.torn) && store.faults == old(store.faults) ==>
          Settles(old(store.ops), old(store.records), store.ops, store.records, p, landed, ok))
  }

  /** The content a path is left with: new bytes, or none. */
  twostate predicate Left(files: Files, path: string, bytes: Option<seq<byte>>, landed: bool)
    requires files.Resolves(path)
    reads files
  {
    && files.content == (if !landed then old(files.content)
                         else if bytes.Some? then old(files.content)[files.spelling[path] := bytes.value]
                         else old(files.content) - {files.spelling[path]})
    && files.Ws() == if landed then old(files.Ws()).Install(path, if bytes.Some? then Some(files.hash(bytes.value)) else None)
                     else old(files.Ws())
  }

  /** Nothing failed, in the logs or in the workspace, and appends were not stopped before. */
  twostate predicate Smooth(store: Store.OperationStore, files: Files)
    reads store, files
  {
    !old(store.torn) && store.faults == old(store.faults) && files.faults == old(files.faults)
  }

  /** Failures are only ever added, and only one stops the appends. */
  twostate predicate Counted(store: Store.OperationStore, files: Files)
    reads store, files
  {
    && store.faults >= old(store.faults) && files.faults >= old(files.faults)
    && (store.faults == old(store.faults) ==> store.torn == old(store.torn))
  }

  /** Nothing was installed: withdraw the marker, and say why, unless that cannot even be logged. */
  method Withdraw(store: Store.OperationStore, error: ProtocolError, ghost p: Record, id: nat,
                  ghost ops: seq<Record>, ghost records: seq<Record>)
    returns (e: ProtocolError)
    requires p.Prepared? && id == p.id && store.clock == p.ts + 1
    requires store.ops == ops + [p] && store.records == records + [p]
    modifies store`ops, store`records, store`torn, store`faults, store`clock
    ensures Outcome(ops, records, store.ops, store.records, p, false, false)
    ensures store.faults >= old(store.faults) && (store.faults == old(store.faults) ==> store.torn == old(store.torn))
    ensures !old(store.torn) && store.faults == old(store.faults) ==>
              Settles(ops, records, store.ops, store.records, p, false, false)
    ensures e == error || (e.code == IoError && (old(store.torn) || store.faults > old(store.faults)))
  {
    hide Upsert; hide DropPrepared; hide Live; hide Outcome;
    var aborted := store.AbortPrepared(id);
    WithdrawnOutcome(ops, records, store.ops, store.records, p, aborted.Ok?);
    e := if aborted.Err? then aborted.error else error;
  }

  /** Record the intent, install exclusively, record the result. */
  method WriteAheadCreate(store: Store.OperationStore, files: Files, rid: string, path: string, bytes: seq<byte>)
    returns (r: Result<(nat, string), ProtocolError>, ghost landed: bool)
    requires files.Resolves(path)
    modifies files, store`ops, store`records, store`nextId, store`torn, store`faults, store`clock
    ensures Left(files, path, Some(bytes), landed)
    ensures landed ==> old(files.Bytes(path)).None?
    ensures Counted(store, files) && (r.Ok? <==> Smooth(store, files) && old(files.Bytes(path)).None?)
    ensures r.Err? ==> r.error.code == IoError || (r.error.code == AlreadyExists && old(files.Bytes(path)).Some?)
    ensures Ran(store, Prepared(store.nextId, rid, Create, path, None, files.hash(bytes), old(store.clock)), landed, r.Ok?)
    ensures r.Ok? ==> landed && r.value == (store.nextId, files.hash(bytes))
  {
    hide Upsert; hide DropPrepared; hide Live; hide Outcome;
    ghost var ops, records := store.ops, store.records;
    landed := false;
    var hash := files.hash(bytes);
    var id := store.PrepareFsRecord(rid, Create, path, None, hash);
    ghost var p := Prepared(store.nextId, rid, Create, path, None, hash, old(store.clock));
    if id.Err? {
      RefusedOutcome(ops, records, store.ops, p);
      return Err(id.error), false;
    }
    var f := files.AtomicCreate(path, bytes);
    landed := f.Installed? || f.changed;
    if f.NotInstalled? {
      if !f.changed {
        var e := Withdraw(store, f.error, p, id.value, ops, records);
        return Err(e), false;
      }
      LandedOutcome(ops, records, store.ops, store.records, p, false);
      return Err(f.error), true;
    }
    var c := store.CommitFsRecord(id.value, rid, Create, path, None, hash);
    LandedOutcome(ops, records, store.ops, store.records, p, c.Ok?);
    r := if c.Err? then Err(c.error) else Ok((id.value, hash));
  }

  /** Record the intent, remove, sync the directory, record the result. */
  method WriteAheadDelete(store: Store.OperationStore, files: Files, rid: string, path: string, before: Option<string>)
    returns (r: Result<nat, ProtocolError>, ghost landed: bool)
    requires files.Resolves(path)
    modifies files, store`ops, store`records, store`nextId, store`torn, store`faults, store`clock
    ensures Left(files, path, None, landed)
    ensures landed ==> old(files.Bytes(path)).Some?
    ensures Counted(store, files) && (r.Ok? <==> Smooth(store, files) && old(files.Bytes(path)).Some?)
    ensures r.Err? ==> r.error.code == IoError
    ensures Ran(store, Prepared(store.nextId, rid, Delete, path, before, FILE_DELETED_SENTINEL, old(store.clock)), landed, r.Ok?)
    ensures r.Ok? ==> landed && r.value == store.nextId
  {
    hide Upsert; hide DropPrepared; hide Live; hide Outcome;
    ghost var ops, records := store.ops, store.records;
    landed := false;
    var id := store.PrepareFsRecord(rid, Delete, path, before, FILE_DELETED_SENTINEL);
    ghost var p := Prepared(store.nextId, rid, Delete, path, before, FILE_DELETED_SENTINEL, old(store.clock));
    if id.Err? {
      RefusedOutcome(ops, records, store.ops, p);
      return Err(id.error), false;
    }
    var f := files.Remove(path);
    landed := f.Installed? || f.changed;
    if f.NotInstalled? {
      if !f.changed {
        var e := Withdraw(store, f.error, p, id.value, ops, records);
        return Err(e), false;
      }
      LandedOutcome(ops, records, store.ops, store.records, p, false);
      return Err(f.error), true;
    }
    var c := store.CommitFsRecord(id.value, rid, Delete, path, before, FILE_DELETED_SENTINEL);
    LandedOutcome(ops, records, store.ops, store.records, p, c.Ok?);
    r := if c.Err? then Err(c.error) else Ok(id.value);
  }

  /** Record the intent, take the last look, install, record the result. */
  method WriteAheadInstall(
      store: Store.OperationStore, files: Files, rid: string, path: string, before: string, bytes: seq<byte>)
    returns (r: Result<(nat, string), ProtocolError>, ghost landed: bool)
    requires files.Resolves(path)
    modifies files, store`ops, store`records, store`nextId, store`torn, store`faults, store`clock
    ensures Left(files, path, Some(bytes), landed)
    ensures landed ==> old(files.Current(path)) == Some(before)
    ensures Counted(store, files) && (r.Ok? <==> Smooth(store, files) && old(files.Current(path)) == Some(before))
    ensures r.Err? ==> r.error.code == IoError || (r.error.code == StaleFile && old(files.Current(path)) != Some(before))
    ensures Ran(store, Prepared(store.nextId, rid, Edit, path, Some(before), files.hash(bytes), old(store.clock)), landed, r.Ok?)
    ensures r.Ok? ==> landed && r.value == (store.nextId, files.hash(bytes))
  {
    hide Upsert; hide DropPrepared; hide Live; hide Outcome;
    ghost var ops, records := store.ops, store.records;
    landed := false;
    var hash := files.hash(bytes);
    var id := store.PrepareFsRecord(rid, Edit, path, Some(before), hash);
    ghost var p := Prepared(store.nextId, rid, Edit, path, Some(before), hash, old(store.clock));
    if id.Err? {
      RefusedOutcome(ops, records, store.ops, p);
      return Err(id.error), false;
    }
    var f := files.InstallOver(path, before, bytes);
    landed := f.Installed? || f.changed;
    if f.NotInstalled? {
      if !f.changed {
        var e := Withdraw(store, f.error, p, id.value, ops, records);
        return Err(e), false;
      }
      LandedOutcome(ops, records, store.ops, store.records, p, false);
      return Err(f.error), true;
    }
    var c := store.CommitFsRecord(id.value, rid, Edit, path, Some(before), hash);
    LandedOutcome(ops, records, store.ops, store.records, p, c.Ok?);
    r := if c.Err? then Err(c.error) else Ok((id.value, hash));
  }

  // ---- the handlers ----

  /** Nothing was written, to the log, the tables or the workspace. */
  twostate predicate Untouched(store: Store.OperationStore, files: Files)
    reads store, files
  {
    && files.content == old(files.content) && store.ops == old(store.ops)
    && store.records == old(store.records) && store.nextId == old(store.nextId)
  }

  /** What a handler run has to show for itself: which marker it wrote, and what became of it. */
  twostate predicate Handled(store: Store.OperationStore, files: Files, p: Record, bytes: Option<seq<byte>>, landed: bool,
                             new reply: Result<Body, ProtocolError>)
    requires p.Prepared?
    reads store, files
  {
    // nothing was attempted, or one protocol ran for a marker that says what the file held
    && (|| (reply.Err? && !landed && Untouched(store, files))
        || (&& Ran(store, p, landed, reply.Ok?)
            && files.Resolves(p.path) && Left(files, p.path, bytes, landed)
            && AfterState(p.after) == (if bytes.Some? then Some(files.hash(bytes.value)) else None)
            && old(files.Ws()).Current(p.path) == p.before
            && SaneMarker(p, old(files.Ws()))))
    // the reply is the one a replay reconstructs, from the record or from the marker alone
    && (reply.Ok? ==> forall ts: nat {:trigger CommitOf(p, ts)} ::
          ReconstructResult(CommitOf(p, ts)) == Reply(p.rid, reply.value))
  }

  method HandleCreate(store: Store.OperationStore, files: Files, rid: string, path: string, bytes: seq<byte>)
    returns (r: Result<Body, ProtocolError>, ghost p: Record, ghost landed: bool)
    requires files.HashesAreHashes()
    modifies files, store`ops, store`records, store`nextId, store`torn, store`faults, store`clock
    ensures p == Prepared(old(store.nextId) + 1, rid, Create, path, None, files.hash(bytes), old(store.clock))
    ensures Handled(store, files, p, Some(bytes), landed, r)
    ensures |bytes| > Replace.MAX_TEXT_BYTES || !files.Resolves(path) || old(files.Bytes(path)).Some? ==>
              r.Err? && Untouched(store, files)
    // every refusal has its cause, and without one the file is created
    ensures Counted(store, files)
    ensures r.Ok? <==> |bytes| <= 4194304 && files.Resolves(path) && old(files.Bytes(path)).None? && Smooth(store, files)
    ensures r.Err? ==>
              r.error.code == if |bytes| > 4194304 then InvalidRequest
                              else if !files.Resolves(path) then PathOutsideRoot
                              else if old(files.Bytes(path)).Some? then AlreadyExists
                              else IoError
  {
    hide Replace.WellFormedHash; hide Upsert; hide Live; hide DropPrepared;
    p, landed := Prepared(store.nextId + 1, rid, Create, path, None, files.hash(bytes), store.clock), false;
    if |bytes| > Replace.MAX_TEXT_BYTES {
      return Err(ProtocolError(InvalidRequest, "content too large")), p, false;
    }
    if !files.Resolves(path) {
      return Err(ProtocolError(PathOutsideRoot, path)), p, false;
    }
    if files.Bytes(path).Some? {
      return Err(ProtocolError(AlreadyExists, "already exists: " + path)), p, false;
    }
    NoHashIsTheSentinel(files);
    var done;
    done, landed := WriteAheadCreate(store, files, rid, path, bytes);
    r := if done.Err? then Err(done.error) else Ok(Body.Mutation(done.value.0, None, done.value.1));
  }

  lemma NoHashIsTheSentinel(files: Files)
    requires files.HashesAreHashes()
    ensures forall bytes :: files.hash(bytes) != FILE_DELETED_SENTINEL
  {
    forall bytes ensures files.hash(bytes) != FILE_DELETED_SENTINEL {
      assert Replace.WellFormedHash(files.hash(bytes));
    }
  }

  method HandleDelete(store: Store.OperationStore, files: Files, rid: string, path: string)
    returns (r: Result<Body, ProtocolError>, ghost p: Record, ghost landed: bool)
    requires files.HashesAreHashes()
    modifies files, store`ops, store`records, store`nextId, store`torn, store`faults, store`clock
    ensures p == Prepared(old(store.nextId) + 1, rid, Delete, path, old(files.Current(path)),
                          FILE_DELETED_SENTINEL, old(store.clock))
    ensures Handled(store, files, p, None, landed, r)
    ensures old(files.Bytes(path)).None? ==> r.Err? && Untouched(store, files)
    ensures Counted(store, files)
    ensures r.Ok? <==> old(files.Bytes(path)).Some? && Smooth(store, files)
    ensures r.Err? ==>
              r.error.code == if !files.Resolves(path) then PathOutsideRoot
                              else if old(files.Bytes(path)).None? then NotFound
                              else IoError
  {
    hide Replace.WellFormedHash; hide Upsert; hide Live; hide DropPrepared;
    var before := files.Current(path);
    p, landed := Prepared(store.nextId + 1, rid, Delete, path, before, FILE_DELETED_SENTINEL, store.clock), false;
    if !files.Resolves(path) {
      return Err(ProtocolError(PathOutsideRoot, path)), p, false;
    }
    if before.None? {
      return Err(ProtocolError(NotFound, "not found: " + path)), p, false;
    }
    NoHashIsTheSentinel(files);
    var done;
    done, landed := WriteAheadDelete(store, files, rid, path, before);
    r := if done.Err? then Err(done.error) else Ok(Body.Mutation(done.value, before, FILE_DELETED_SENTINEL));
  }

  /** The content an edit is to install, or why it is refused, given what the file holds. */
  function Wanted(held: seq<byte>, base: string, edits: seq<Replace.EditSpec>, hash: seq<byte> -> string)
      : Result<seq<byte>, ProtocolError> {
    match Replace.BadArguments(edits)
    case Some(e) => Err(e)
    case None => Replace.Edited(held, base, edits, hash)
  }

  /** The marker an edit of `held` writes; one that is refused writes none. */
  function EditMarker(id: nat, rid: string, path: string, base: string, wanted: Result<seq<byte>, ProtocolError>,
                      hash: seq<byte> -> string, ts: nat): Record {
    Prepared(id, rid, Edit, path, Some(base), if wanted.Ok? then hash(wanted.value) else base, ts)
  }

  /** Look at the arguments, the path, the file and its text, in that order, and build the new content. */
  method PlanEdit(files: Files, path: string, base: string, edits: seq<Replace.EditSpec>)
    returns (r: Result<seq<byte>, ProtocolError>)
    ensures Replace.BadArguments(edits).Some? ==> r == Err(Replace.BadArguments(edits).value)
    ensures Replace.BadArguments(edits).None? && files.Bytes(path).None? ==>
              r.Err? && r.error.code == if files.Resolves(path) then NotFound else PathOutsideRoot
    ensures files.Bytes(path).Some? ==>
              var held := files.Bytes(path).value;
              && r == Wanted(held, base, edits, files.hash)
              && (Replace.BadArguments(edits).None? ==> Replace.EditedByParts(held, base, edits, files.hash, r))
              && (r.Ok? ==> files.Current(path) == Some(base) && files.hash(r.value) != base)
  {
    hide Replace.WellFormedHash; hide Replace.Edited; hide Replace.BadArguments; hide Replace.EditedByParts;
    var bad := Replace.CheckArguments(edits);
    if bad.Some? {
      return Err(bad.value);
    }
    if !files.Resolves(path) {
      return Err(ProtocolError(PathOutsideRoot, path));
    }
    var original := files.Bytes(path);
    if original.None? {
      return Err(ProtocolError(NotFound, "not found: " + path));
    }
    r := Replace.Edit(original.value, base, edits, files.hash);
  }

  /**
   The arguments, the path, the file, the base it was read from, its text, the replacements one
   after the other: the first thing wrong is the refusal, and writes nothing. Otherwise the whole
   edited content is installed, or nothing is.
   */
  method HandleEdit(store: Store.OperationStore, files: Files, rid: string, path: string, base: string,
                    edits: seq<Replace.EditSpec>)
    returns (r: Result<Body, ProtocolError>, ghost p: Record, ghost landed: bool)
    requires files.HashesAreHashes()
    modifies files, store`ops, store`records, store`nextId, store`torn, store`faults, store`clock
    ensures p.Prepared? && p.id == old(store.nextId) + 1 && p.rid == rid && p.kind == Edit && p.path == path
    ensures Replace.BadArguments(edits).Some? ==> r == Err(Replace.BadArguments(edits).value) && Untouched(store, files)
    ensures old(files.Bytes(path)).None? ==> r.Err? && Untouched(store, files)
    ensures old(files.Bytes(path)).Some? ==>
              var wanted := Wanted(old(files.Bytes(path)).value, base, edits, files.hash);
              && p == EditMarker(old(store.nextId) + 1, rid, path, base, wanted, files.hash, old(store.clock))
              && (wanted.Err? ==> r == Err(wanted.error) && Untouched(store, files))
              && (wanted.Ok? ==> Handled(store, files, p, Some(wanted.value), landed, r))
              && (r.Ok? ==> wanted.Ok? && files.Bytes(path) == Some(wanted.value))
              && (r.Ok? <==> wanted.Ok? && Smooth(store, files))
              && (wanted.Ok? && r.Err? ==> r.error.code == IoError)
              && (Replace.BadArguments(edits).None? ==>
                    Replace.EditedByParts(old(files.Bytes(path)).value, base, edits, files.hash, wanted))
    ensures Replace.BadArguments(edits).None? && old(files.Bytes(path)).None? ==>
              r.error.code == if files.Resolves(path) then NotFound else PathOutsideRoot
    ensures Counted(store, files)
  {
    hide Upsert; hide Live; hide DropPrepared; hide Replace.EditedByParts; hide Wanted; hide Outcome;
    ghost var held := if files.Bytes(path).Some? then files.Bytes(path).value else [];
    ghost var wanted := Wanted(held, base, edits, files.hash);
    p, landed := EditMarker(store.nextId + 1, rid, path, base, wanted, files.hash, store.clock), false;
    var edited := PlanEdit(files, path, base, edits);
    if edited.Err? {
      return Err(edited.error), p, false;
    }
    var staged := files.Works();
    if !staged {
      return Err(ProtocolError(IoError, "staging failed")), p, false;
    }
    NoHashIsTheSentinel(files);
    var done;
    done, landed := WriteAheadInstall(store, files, rid, path, base, edited.value);
    r := if done.Err? then Err(done.error) else Ok(Body.Mutation(done.value.0, Some(base), done.value.1));
  }
}
