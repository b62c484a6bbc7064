/**
 What the two logs mean: the operations log collapsed by operation id with the last line
 winning, the table a load builds from it, and the request table its counterpart builds.
 */
module Replay {
  import opened Options
  import opened Records

  // ---- operations.jsonl ----

  /** The live record of every id: the last line wins, and an aborted marker leaves nothing. */
  function Live(log: seq<Record>): (live: map<nat, Record>)
    ensures forall id :: id in live ==> live[id].id == id && !live[id].Aborted? && live[id] in log
  {
    if log == [] then map[]
    else
      var r := log[|log| - 1];
      var earlier := Live(log[..|log| - 1]);
      if r.Aborted? then earlier - {r.id} else earlier[r.id := r]
  }

  lemma LiveAppend(log: seq<Record>, r: Record)
    ensures Live(log + [r]) == if r.Aborted? then Live(log) - {r.id} else Live(log)[r.id := r]
  {
    assert (log + [r])[..|log|] == log;
  }

  // ---- the in-memory record table ----

  /** A table never holds an aborted marker, and an id at most once. */
  ghost predicate IsTable(t: seq<Record>) {
    && (forall i :: 0 <= i < |t| ==> !t[i].Aborted?)
    && (forall i, j :: 0 <= i < j < |t| ==> t[i].id != t[j].id)
  }

  /** A table, read as a log, lists exactly its own records. */
  lemma {:induction false} LiveOfTable(t: seq<Record>)
    requires IsTable(t)
    ensures forall i :: 0 <= i < |t| ==> t[i].id in Live(t) && Live(t)[t[i].id] == t[i]
    ensures forall id :: id in Live(t) ==> exists i :: 0 <= i < |t| && t[i] == Live(t)[id]
  {
    if t != [] {
      LiveOfTable(t[..|t| - 1]);
      assert forall i :: 0 <= i < |t| - 1 ==> t[..|t| - 1][i] == t[i];
    }
  }

  /** The members of a table are the values of its live map. */
  lemma MembersOfLive(t: seq<Record>)
    requires IsTable(t)
    ensures forall x :: x in t <==> x.id in Live(t) && Live(t)[x.id] == x
  {
    LiveOfTable(t);
    forall x | x in t ensures x.id in Live(t) && Live(t)[x.id] == x {
      var i :| 0 <= i < |t| && t[i] == x;
    }
  }

  /** A table whose members are exactly the values of `m`, keyed by id, has `m` as its live map. */
  lemma LiveFromMembers(t: seq<Record>, m: map<nat, Record>)
    requires IsTable(t)
    requires forall x :: x in t <==> x.id in m && m[x.id] == x
    requires forall id :: id in m ==> m[id].id == id
    ensures Live(t) == m
  {
    MembersOfLive(t);
    forall id | id in m ensures id in Live(t) && Live(t)[id] == m[id] {
      assert m[id] in t;
    }
    forall id | id in Live(t) ensures id in m {
      assert Live(t)[id] in t;
    }
  }

  lemma TableCons(t: seq<Record>)
    requires IsTable(t) && t != []
    ensures IsTable(t[1..])
    ensures forall x :: x in t[1..] ==> x in t && x.id != t[0].id
  {
    forall x | x in t[1..] ensures x in t && x.id != t[0].id {
      var i :| 0 <= i < |t[1..]| && t[1..][i] == x;
      assert t[i + 1] == x;
    }
  }

  lemma ConsTable(r: Record, t: seq<Record>)
    requires IsTable(t) && !r.Aborted?
    requires forall x :: x in t ==> x.id != r.id
    ensures IsTable([r] + t)
  {
    var u := [r] + t;
    forall j | 0 < j < |u| ensures u[j].id != r.id && !u[j].Aborted? {
      assert u[j] == t[j - 1];
    }
  }

  lemma TableInit(ps: seq<Record>)
    requires IsTable(ps) && ps != []
    ensures IsTable(ps[..|ps| - 1])
    ensures forall x :: x in ps <==> x == ps[|ps| - 1] || x in ps[..|ps| - 1]
    ensures forall x :: x in ps[..|ps| - 1] ==> x.id != ps[|ps| - 1].id
  {
    assert ps == ps[..|ps| - 1] + [ps[|ps| - 1]];
  }

  predicate HasId(t: seq<Record>, id: nat) {
    exists i :: 0 <= i < |t| && t[i].id == id
  }

  /** Overwrite the slot of `r.id`, or append `r` when no slot has that id. */
  function Upsert(t: seq<Record>, r: Record): seq<Record> {
    if t == [] then [r]
    else if t[0].id == r.id then [r] + t[1..]
    else [t[0]] + Upsert(t[1..], r)
  }

  /** Drop the prepared marker of `id`, and nothing else. */
  function DropPrepared(t: seq<Record>, id: nat): seq<Record> {
    if t == [] then []
    else if t[0].id == id && t[0].Prepared? then DropPrepared(t[1..], id)
    else [t[0]] + DropPrepared(t[1..], id)
  }

  lemma {:induction false} UpsertShape(a: seq<Record>, was: Record, b: seq<Record>, r: Record)
    requires was.id == r.id && !HasId(a, r.id)
    ensures Upsert(a + [was] + b, r) == a + [r] + b
  {
    var t := a + [was] + b;
    if a == [] {
      assert t == [was] + b && t[1..] == b;
    } else {
      assert a[0].id != r.id;
      UpsertShape(a[1..], was, b, r);
      assert t[1..] == a[1..] + [was] + b;
      assert [a[0]] + (a[1..] + [r] + b) == a + [r] + b;
    }
  }

  lemma {:induction false} UpsertFresh(t: seq<Record>, r: Record)
    requires !HasId(t, r.id)
    ensures Upsert(t, r) == t + [r]
  {
    if t != [] {
      assert t[0].id != r.id;
      UpsertFresh(t[1..], r);
    }
  }

  lemma {:induction false} DropPreparedAbsent(t: seq<Record>, id: nat)
    requires forall i :: 0 <= i < |t| ==> !(t[i].id == id && t[i].Prepared?)
    ensures DropPrepared(t, id) == t
  {
    if t != [] {
      DropPreparedAbsent(t[1..], id);
    }
  }

  lemma {:induction false} DropPreparedShape(a: seq<Record>, p: Record, b: seq<Record>)
    requires p.Prepared? && !HasId(a, p.id) && !HasId(b, p.id)
    ensures DropPrepared(a + [p] + b, p.id) == a + b
  {
    var t := a + [p] + b;
    if a == [] {
      assert t == [p] + b && t[1..] == b;
      DropPreparedAbsent(b, p.id);
    } else {
      assert a[0].id != p.id;
      DropPreparedShape(a[1..], p, b);
      assert t[1..] == a[1..] + [p] + b;
      assert [a[0]] + (a[1..] + b) == a + b;
    }
  }

  lemma {:induction false} UpsertMembers(t: seq<Record>, r: Record)
    requires IsTable(t) && !r.Aborted?
    ensures IsTable(Upsert(t, r))
    ensures forall x :: x in Upsert(t, r) <==> x == r || (x in t && x.id != r.id)
  {
    if t != [] {
      assert t == [t[0]] + t[1..];
      UpsertMembers(t[1..], r);
      TableCons(t);
      if t[0].id != r.id {
        ConsTable(t[0], Upsert(t[1..], r));
      } else {
        ConsTable(r, t[1..]);
      }
    }
  }

  /** Overwriting or appending updates exactly one id. */
  lemma UpsertLive(t: seq<Record>, r: Record)
    requires IsTable(t) && !r.Aborted?
    ensures IsTable(Upsert(t, r))
    ensures Live(Upsert(t, r)) == Live(t)[r.id := r]
  {
    UpsertMembers(t, r);
    MembersOfLive(t);
    LiveFromMembers(Upsert(t, r), Live(t)[r.id := r]);
  }

  lemma {:induction false} DropPreparedMembers(t: seq<Record>, id: nat)
    requires IsTable(t)
    ensures IsTable(DropPrepared(t, id))
    ensures forall x :: x in DropPrepared(t, id) <==> x in t && !(x.id == id && x.Prepared?)
  {
    if t != [] {
      assert t == [t[0]] + t[1..];
      DropPreparedMembers(t[1..], id);
      TableCons(t);
      if !(t[0].id == id && t[0].Prepared?) {
        ConsTable(t[0], DropPrepared(t[1..], id));
      }
    }
  }

  /** Dropping a pending marker removes exactly that id. */
  lemma DropPreparedLive(t: seq<Record>, id: nat)
    requires IsTable(t) && id in Live(t) && Live(t)[id].Prepared?
    ensures IsTable(DropPrepared(t, id))
    ensures Live(DropPrepared(t, id)) == Live(t) - {id}
  {
    DropPreparedMembers(t, id);
    MembersOfLive(t);
    LiveFromMembers(DropPrepared(t, id), Live(t) - {id});
  }

  // ---- the order a load gives the table ----

  function Digit(d: nat): char
    requires d < 10
  {
    "0123456789"[d]
  }

  /** The decimal text of an operation number, as `format!("op-{n}")` writes it. */
  function Decimal(n: nat): string {
    if n < 10 then [Digit(n)] else Decimal(n / 10) + [Digit(n % 10)]
  }

  /** The number a digit string parses to. */
  function ParseDecimal(s: string): Option<nat> {
    if s == [] then None
    else
      var c := s[|s| - 1];
      if !('0' <= c <= '9') then None
      else if |s| == 1 then Some(c as nat - '0' as nat)
      else match ParseDecimal(s[..|s| - 1])
        case None => None
        case Some(high) => Some(10 * high + (c as nat - '0' as nat))
  }

  /** Loading an id reads back the number it was written from, so distinct ids have distinct texts. */
  lemma {:induction false} DecimalRoundTrip(n: nat)
    ensures ParseDecimal(Decimal(n)) == Some(n)
  {
    assert forall d: nat :: d < 10 ==> '0' <= Digit(d) <= '9' && Digit(d) as nat - '0' as nat == d;
    if n >= 10 {
      DecimalRoundTrip(n / 10);
      var s := Decimal(n);
      assert s[..|s| - 1] == Decimal(n / 10) && s[|s| - 1] == Digit(n % 10);
    }
  }

  /** Lexicographic string order, which is how a `BTreeMap<String, _>` iterates. */
  predicate TextBefore(a: string, b: string) {
    if b == [] then false
    else if a == [] then true
    else a[0] < b[0] || (a[0] == b[0] && TextBefore(a[1..], b[1..]))
  }

  lemma {:induction false} TextBeforeTotal(a: string, b: string)
    ensures a != b ==> TextBefore(a, b) || TextBefore(b, a)
    ensures !(TextBefore(a, b) && TextBefore(b, a))
  {
    if a != [] && b != [] {
      TextBeforeTotal(a[1..], b[1..]);
      assert a == [a[0]] + a[1..] && b == [b[0]] + b[1..];
    }
  }

  lemma {:induction false} TextBeforeTransitive(a: string, b: string, c: string)
    requires TextBefore(a, b) && TextBefore(b, c)
    ensures TextBefore(a, c)
  {
    if a != [] && a[0] == b[0] && b[0] == c[0] {
      TextBeforeTransitive(a[1..], b[1..], c[1..]);
    }
  }

  /** Load order: by timestamp, equal timestamps by the text of the id. */
  predicate Before(a: Record, b: Record) {
    a.ts < b.ts || (a.ts == b.ts && TextBefore(Decimal(a.id), Decimal(b.id)))
  }

  lemma BeforeTotal(a: Record, b: Record)
    ensures a.id != b.id ==> Before(a, b) || Before(b, a)
    ensures !(Before(a, b) && Before(b, a))
  {
    DecimalRoundTrip(a.id);
    DecimalRoundTrip(b.id);
    TextBeforeTotal(Decimal(a.id), Decimal(b.id));
  }

  lemma BeforeTransitive(a: Record, b: Record, c: Record)
    requires Before(a, b) && Before(b, c)
    ensures Before(a, c)
  {
    if a.ts == b.ts == c.ts {
      TextBeforeTransitive(Decimal(a.id), Decimal(b.id), Decimal(c.id));
    }
  }

  ghost predicate Sorted(t: seq<Record>) {
    forall i, j :: 0 <= i < j < |t| ==> Before(t[i], t[j])
  }

  /** Sorted insertion. */
  function Insert(t: seq<Record>, r: Record): (u: seq<Record>)
    ensures |u| == |t| + 1
    ensures forall x :: x in u <==> x in t || x == r
  {
    if t == [] then [r]
    else if Before(r, t[0]) then [r] + t
    else
      assert t == [t[0]] + t[1..];
      [t[0]] + Insert(t[1..], r)
  }

  lemma {:induction false} InsertKeepsTable(t: seq<Record>, r: Record)
    requires IsTable(t) && Sorted(t) && !r.Aborted?
    requires forall x :: x in t ==> x.id != r.id
    ensures IsTable(Insert(t, r)) && Sorted(Insert(t, r))
  {
    if t != [] {
      TableCons(t);
      SortedCons(t);
      if Before(r, t[0]) {
        forall x | x in t ensures Before(r, x) {
          if x != t[0] {
            assert t == [t[0]] + t[1..];
            BeforeTransitive(r, t[0], x);
          }
        }
        ConsTable(r, t);
        ConsSorted(r, t);
      } else {
        BeforeTotal(r, t[0]);
        InsertKeepsTable(t[1..], r);
        ConsTable(t[0], Insert(t[1..], r));
        ConsSorted(t[0], Insert(t[1..], r));
      }
    }
  }

  /** The rest of a table once the record of `id`, if any, is taken out. */
  function Without(t: seq<Record>, id: nat): (u: seq<Record>)
    ensures forall x :: x in u <==> x in t && x.id != id
  {
    if t == [] then []
    else
      assert t == [t[0]] + t[1..];
      if t[0].id == id then Without(t[1..], id) else [t[0]] + Without(t[1..], id)
  }

  lemma ConsSorted(r: Record, t: seq<Record>)
    requires Sorted(t)
    requires forall x :: x in t ==> Before(r, x)
    ensures Sorted([r] + t)
  {
    var u := [r] + t;
    forall j | 0 < j < |u| ensures Before(r, u[j]) {
      assert u[j] == t[j - 1];
    }
  }

  lemma SortedCons(t: seq<Record>)
    requires Sorted(t) && t != []
    ensures Sorted(t[1..])
    ensures forall x :: x in t[1..] ==> Before(t[0], x)
  {
    forall x | x in t[1..] ensures Before(t[0], x) {
      var i :| 0 <= i < |t[1..]| && t[1..][i] == x;
      assert t[i + 1] == x;
    }
  }

  lemma {:induction false} WithoutKeepsTable(t: seq<Record>, id: nat)
    requires IsTable(t) && Sorted(t)
    ensures IsTable(Without(t, id)) && Sorted(Without(t, id))
  {
    if t != [] {
      TableCons(t);
      SortedCons(t);
      WithoutKeepsTable(t[1..], id);
      if t[0].id != id {
        ConsTable(t[0], Without(t[1..], id));
        ConsSorted(t[0], Without(t[1..], id));
      }
    }
  }

  /** The table a load builds: one record an id, no aborted marker, in load order. */
  function Loaded(log: seq<Record>): seq<Record> {
    if log == [] then []
    else
      var r := log[|log| - 1];
      var earlier := Without(Loaded(log[..|log| - 1]), r.id);
      if r.Aborted? then earlier else Insert(earlier, r)
  }

  /** Loading loses no live record and invents none. */
  lemma {:induction false} LoadedIsLive(log: seq<Record>)
    ensures IsTable(Loaded(log)) && Sorted(Loaded(log))
    ensures Live(Loaded(log)) == Live(log)
    ensures forall x :: x in Loaded(log) <==> x.id in Live(log) && Live(log)[x.id] == x
  {
    hide Insert; hide Without; hide IsTable; hide Sorted;
    if log == [] {
      EmptyTable();
    } else {
      var r := log[|log| - 1];
      var prev := Loaded(log[..|log| - 1]);
      LoadedIsLive(log[..|log| - 1]);
      WithoutKeepsTable(prev, r.id);
      if !r.Aborted? {
        InsertKeepsTable(Without(prev, r.id), r);
      }
    }
    LiveFromMembers(Loaded(log), Live(log));
  }

  lemma EmptyTable()
    ensures IsTable([]) && Sorted([])
  {
  }

  lemma FirstIsMember(u: seq<Record>)
    ensures u != [] ==> u[0] in u
  {
  }

  /** Only one ordering of the live records is sorted: the table does not depend on how it is sorted. */
  lemma {:induction false} SortedUnique(t: seq<Record>, u: seq<Record>)
    requires IsTable(t) && Sorted(t) && IsTable(u) && Sorted(u)
    requires forall x :: x in t <==> x in u
    ensures t == u
  {
    if t == [] {
      FirstIsMember(u);
    } else {
      assert t[0] in u;
      assert u != [];
      var i :| 0 <= i < |u| && u[i] == t[0];
      assert u[0] in t;
      var j :| 0 <= j < |t| && t[j] == u[0];
      BeforeTotal(t[0], u[0]);
      assert i == 0;
      forall x ensures x in t[1..] <==> x in u[1..] {
        TailMembers(t, x);
        TailMembers(u, x);
      }
      SortedUnique(t[1..], u[1..]);
    }
  }

  lemma TailMembers(t: seq<Record>, x: Record)
    requires IsTable(t) && t != []
    ensures x in t[1..] <==> x in t && x != t[0]
  {
    assert t == [t[0]] + t[1..];
    if x in t[1..] {
      var i :| 0 <= i < |t[1..]| && t[1..][i] == x;
      assert t[i + 1] == x;
    }
  }

  // ---- requests.jsonl ----

  /** The request table a load builds: the last line for an id wins. */
  function Requests(log: seq<ReqLine>): map<string, Entry> {
    if log == [] then map[]
    else
      var line := log[|log| - 1];
      Requests(log[..|log| - 1])[line.rid := EntryOf(line)]
  }

  lemma RequestsAppend(log: seq<ReqLine>, line: ReqLine)
    ensures Requests(log + [line]) == Requests(log)[line.rid := EntryOf(line)]
  {
    assert (log + [line])[..|log|] == log;
  }
}
