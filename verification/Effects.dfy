/**
 What a request may do, kind by kind, told by the logs, the tables and the files before and after it:
 which file changes and to what, which record is added and whose it is, and what is answered.
 */
module Effects {
  import opened Options
  import opened Records
  import opened Replay
  import opened Pruning
  import opened Replies
  import opened Utf8
  import FsOps
  import Replace
  import Store

  /** What a request can change, but for the request table. */
  datatype View = View(content: map<string, seq<byte>>, ops: seq<Record>, records: seq<Record>, nextId: nat)

  ghost function Seen(store: Store.OperationStore, files: FsOps.Files): View
    reads store, files
  {
    View(files.content, store.ops, store.records, store.nextId)
  }

  /** The names of a workspace and the hash taken of its files. */
  datatype Place = Place(spelling: map<string, string>, hash: seq<byte> -> string)

  function PlaceOf(files: FsOps.Files): Place {
    Place(files.spelling, files.hash)
  }

  /** What `path` names, if anything. */
  function Held(place: Place, v: View, path: string): Option<seq<byte>> {
    if path in place.spelling && place.spelling[path] in v.content then Some(v.content[place.spelling[path]]) else None
  }

  // ---- records of one request ----

  /** A line under `id` that either withdraws the mutation or carries the request, its kind and its path. */
  predicate Own(line: Record, id: nat, rid: string, kind: OperationKind, path: string) {
    line.id == id && (line.Aborted? || (line.Mutation() && line.rid == rid && line.kind == kind && line.path == path))
  }

  /** One id is taken at most, and only lines and records of it are new; records under other ids stay. */
  ghost predicate OwnOnly(a: View, b: View, rid: string, kind: OperationKind, path: string) {
    var id := a.nextId + 1;
    && a.nextId <= b.nextId <= id
    && a.ops <= b.ops && (forall i :: |a.ops| <= i < |b.ops| ==> Own(b.ops[i], id, rid, kind, path))
    && (forall r :: r in b.records && r !in a.records ==> Own(r, id, rid, kind, path))
    && (forall r :: r in a.records && r.id != id ==> r in b.records)
  }

  /** The last line of the log is the record of a finished mutation, and it is in the table. */
  ghost predicate OnRecord(b: View, id: nat, rid: string, kind: OperationKind, path: string,
                           before: Option<string>, after: string) {
    && b.ops != []
    && var r := b.ops[|b.ops| - 1];
       r == Fs(id, rid, kind, path, before, after, r.ts) && r in b.records
  }

  lemma {:induction false} UpsertKeeps(t: seq<Record>, r: Record)
    ensures r in Upsert(t, r)
    ensures forall x :: x in Upsert(t, r) ==> x == r || x in t
    ensures forall x :: x in t && x.id != r.id ==> x in Upsert(t, r)
  {
    if t != [] {
      assert t == [t[0]] + t[1..];
      UpsertKeeps(t[1..], r);
    }
  }

  lemma {:induction false} DropKeeps(t: seq<Record>, id: nat)
    ensures forall x :: x in DropPrepared(t, id) ==> x in t
    ensures forall x :: x in t && x.id != id ==> x in DropPrepared(t, id)
  {
    if t != [] {
      assert t == [t[0]] + t[1..];
      DropKeeps(t[1..], id);
    }
  }

  /** However a protocol ends, what it adds is its own. */
  lemma OutcomeIsOwn(a: View, b: View, p: Record, landed: bool, ok: bool)
    requires p.Prepared? && p.id == a.nextId + 1 == b.nextId
    requires FsOps.Outcome(a.ops, a.records, b.ops, b.records, p, landed, ok)
    ensures OwnOnly(a, b, p.rid, p.kind, p.path)
    ensures ok ==> landed && OnRecord(b, p.id, p.rid, p.kind, p.path, p.before, p.after)
  {
    hide Upsert; hide DropPrepared;
    var pushed := a.records + [p];
    UpsertKeeps(pushed, CommitOf(p, p.ts + 1));
    DropKeeps(pushed, p.id);
    assert forall x :: x in pushed <==> x in a.records || x == p;
  }

  /** A handler that attempted nothing added nothing, and one that ran its protocol what the protocol adds. */
  lemma Owned(a: View, b: View, p: Record, landed: bool, result: Result<Body, ProtocolError>)
    requires p.Prepared? && p.id == a.nextId + 1
    requires || (a.ops == b.ops && a.records == b.records && a.nextId == b.nextId && result.Err?)
             || (b.nextId == p.id && FsOps.Outcome(a.ops, a.records, b.ops, b.records, p, landed, result.Ok?))
    ensures OwnOnly(a, b, p.rid, p.kind, p.path)
    ensures result.Ok? ==> landed && OnRecord(b, p.id, p.rid, p.kind, p.path, p.before, p.after)
  {
    hide FsOps.Outcome;
    if b.nextId == p.id {
      OutcomeIsOwn(a, b, p, landed, result.Ok?);
    }
  }

  // ---- create, edit, delete ----

  /** A file is created exactly if it is small enough, its path resolves, nothing is there, and nothing fails. */
  ghost predicate Creates(place: Place, a: View, b: View, rid: string, path: string, bytes: seq<byte>,
                          result: Result<Body, ProtocolError>, smooth: bool) {
    var free := path in place.spelling && Held(place, a, path).None?;
    && OwnOnly(a, b, rid, Create, path)
    && (b.content == a.content || (free && b.content == a.content[place.spelling[path] := bytes]))
    && (result.Ok? <==> |bytes| <= 4194304 && free && smooth)
    && (result.Ok? ==>
          && Held(place, b, path) == Some(bytes)
          && result.value == Body.Mutation(a.nextId + 1, None, place.hash(bytes))
          && OnRecord(b, a.nextId + 1, rid, Create, path, None, place.hash(bytes)))
    && (result.Err? ==>
          result.error.code == if |bytes| > 4194304 then InvalidRequest
                               else if path !in place.spelling then PathOutsideRoot
                               else if !free then AlreadyExists
                               else IoError)
  }

  /** A file is removed exactly if it is there and nothing fails. */
  ghost predicate Deletes(place: Place, a: View, b: View, rid: string, path: string,
                          result: Result<Body, ProtocolError>, smooth: bool) {
    var held := Held(place, a, path);
    && OwnOnly(a, b, rid, Delete, path)
    && (b.content == a.content || (held.Some? && b.content == a.content - {place.spelling[path]}))
    && (result.Ok? <==> held.Some? && smooth)
    && (result.Ok? ==>
          var before := Some(place.hash(held.value));
          && Held(place, b, path).None?
          && result.value == Body.Mutation(a.nextId + 1, before, FILE_DELETED_SENTINEL)
          && OnRecord(b, a.nextId + 1, rid, Delete, path, before, FILE_DELETED_SENTINEL))
    && (result.Err? ==>
          result.error.code == if path !in place.spelling then PathOutsideRoot
                               else if held.None? then NotFound
                               else IoError)
  }

  /** A file is edited exactly if its replacements can all be made and nothing fails; a refusal is theirs. */
  ghost predicate Edits(place: Place, a: View, b: View, rid: string, path: string, base: string,
                        edits: seq<Replace.EditSpec>, result: Result<Body, ProtocolError>, smooth: bool) {
    var held := Held(place, a, path);
    && OwnOnly(a, b, rid, Edit, path)
    && (Replace.BadArguments(edits).Some? ==> result == Err(Replace.BadArguments(edits).value) && b.content == a.content)
    && (Replace.BadArguments(edits).None? && held.None? ==>
          && b.content == a.content
          && result.Err? && result.error.code == if path in place.spelling then NotFound else PathOutsideRoot)
    && (Replace.BadArguments(edits).None? && held.Some? ==>
          exists wanted: Result<seq<byte>, ProtocolError> ::
            && Replace.EditedByParts(held.value, base, edits, place.hash, wanted)
            && (wanted.Err? ==> result == Err(wanted.error) && b.content == a.content)
            && (wanted.Ok? ==> Installs(place, a, b, rid, path, base, wanted.value, result, smooth)))
  }

  ghost predicate Installs(place: Place, a: View, b: View, rid: string, path: string, base: string, bytes: seq<byte>,
                           result: Result<Body, ProtocolError>, smooth: bool)
    requires path in place.spelling
  {
    && (b.content == a.content || b.content == a.content[place.spelling[path] := bytes])
    && (result.Ok? <==> smooth)
    && (result.Ok? ==>
          && Held(place, b, path) == Some(bytes)
          && result.value == Body.Mutation(a.nextId + 1, Some(base), place.hash(bytes))
          && OnRecord(b, a.nextId + 1, rid, Edit, path, Some(base), place.hash(bytes)))
    && (result.Err? ==> result.error.code == IoError)
  }

  // ---- commands, transfers, pruning ----

  /** At most one record is added, under the next id. */
  ghost predicate Adds(a: View, b: View, r: Record) {
    && b.content == a.content && b.nextId == a.nextId + 1
    && (b.ops == a.ops || b.ops == a.ops + [r])
    && (b.records == a.records || (b.records == a.records + [r] && b.ops == a.ops + [r]))
  }

  /** A command leaves no file changed through the store, and its record says what ran and how it ended. */
  ghost predicate Runs(a: View, b: View, rid: string, q: ExecRequest, outcome: Ending,
                       result: Result<Body, ProtocolError>, smooth: bool) {
    exists r: Record ::
      && r.Exec? && r.id == a.nextId + 1 && r.rid == rid
      && r.exec.argv == q.argv && r.exec.cwd == q.cwd && r.exec.profile == q.profile
      && (r.exec.disposition.DispRejected? <==> outcome.Err?)
      && (r.exec.disposition.DispTimedOut? <==> outcome.Ok? && outcome.value.termination.TimedOut?)
      && Adds(a, b, r) && (smooth ==> b.records == a.records + [r])
      && (outcome.Err? ==> result == Err(outcome.error))
      && (outcome.Ok? ==>
            result == Ok(ExecResult(a.nextId + 1, outcome.value.termination, outcome.value.durationMs,
                                    outcome.value.drainTimedOut, outcome.value.stdout, outcome.value.stderr)))
  }

  ghost predicate Transfers(a: View, b: View, rid: string, transfer: TransferDetail, cleaned: bool,
                            result: Result<Body, ProtocolError>, smooth: bool) {
    exists r: Record ::
      && r == Transfer(a.nextId + 1, rid, transfer, r.ts)
      && Adds(a, b, r) && (b.records == a.records + [r] <==> smooth)
      && (result.Ok? <==> smooth && cleaned)
      && (result.Ok? ==> result.value == TransferResult(a.nextId + 1, transfer))
      && (result.Err? ==> result.error.code == IoError)
  }

  /** The newest `keep` finished operations and every marker stay, and what went and what stayed is counted, in that order. */
  ghost predicate Prunes(a: View, b: View, keep: nat, forgotten: int, result: Result<Body, ProtocolError>, smooth: bool) {
    && b.content == a.content && b.nextId == a.nextId
    && b.records == Newest(a.records, keep)
    && (b.ops == a.ops || b.ops == b.records)
    && (result.Ok? ==>
          && b.ops == b.records
          && result.value.GcResult?
          && result.value.removedOperations == |a.records| - |b.records|
          && result.value.removedRequests == forgotten
          && result.value.retainedOperations == |History(b.records)|)
    && (result.Err? ==> result.error.code == IoError)
    && (smooth ==> result.Ok?)
  }
}
