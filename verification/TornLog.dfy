/**
 A log file, byte by byte: appends that can stop anywhere, and the load that repairs the tail they
 leave. The JSON codec is a parameter; the laws assumed of it are stated in `Lawful`.
 */
module TornLog {
  import opened Options
  import opened Records
  import opened Utf8

  datatype Codec<!T(!new)> = Codec(encode: T -> seq<byte>, decode: seq<byte> -> Option<T>)

  /** One line of JSON Lines: an object, in UTF-8, without a raw newline, that no beginning of it parses as. */
  ghost predicate Lawful<T(!new)>(codec: Codec<T>) {
    && (forall v :: codec.decode(codec.encode(v)) == Some(v))
    && (forall v :: JsonLine(codec.encode(v)))
    && (forall v, k :: 0 < k < |codec.encode(v)| ==> codec.decode(codec.encode(v)[..k]).None?)
  }

  lemma TrimKeepsLine(line: seq<byte>)
    requires JsonLine(line)
    ensures Trim(line) == line
  {
    hide Valid;
    TrimKeepsBrace(line);
  }

  /** A beginning of a line trims to a shorter beginning of it, and not to nothing. */
  lemma TrimKeepsBeginning(line: seq<byte>, k: nat)
    requires JsonLine(line) && 0 < k <= |line|
    ensures exists j :: 0 < j <= k && Trim(line[..k]) == line[..j]
  {
    hide Valid;
    TrimKeepsBrace(line[..k]);
    var t := Trim(line[..k]);
    assert line[..|t|] == line[..k][..|t|] == t;
  }

  // ---- lines of a file ----

  datatype Line = Line(raw: seq<byte>, start: nat, hasNewline: bool) {
    predicate Utf8Ok() {
      Valid(raw)
    }

    /** The text, empty when the bytes are not UTF-8. */
    function Text(): seq<byte> {
      if Utf8Ok() then raw else []
    }

    function End(): nat {
      start + |raw| + 1
    }
  }

  /** The first newline at or after `at`, or the end of the file. */
  function FindNewline(file: seq<byte>, at: nat): (nl: nat)
    requires at <= |file|
    ensures at <= nl <= |file|
    ensures nl < |file| ==> file[nl] == NEWLINE
    ensures forall i :: at <= i < nl ==> file[i] != NEWLINE
    decreases |file| - at
  {
    if at == |file| || file[at] == NEWLINE then at else FindNewline(file, at + 1)
  }

  function Lines(file: seq<byte>, start: nat): seq<Line>
    requires start <= |file|
    decreases |file| - start
  {
    if start == |file| then []
    else
      var nl := FindNewline(file, start);
      if nl < |file| then [Line(file[start..nl], start, true)] + Lines(file, nl + 1)
      else [Line(file[start..], start, false)]
  }

  /** `position(|&b| b == b'\n')` from `at` on. */
  method NextNewline(file: seq<byte>, at: nat) returns (nl: nat)
    requires at <= |file|
    ensures nl == FindNewline(file, at)
  {
    nl := at;
    while nl < |file| && file[nl] != NEWLINE
      invariant at <= nl <= |file|
      invariant FindNewline(file, at) == FindNewline(file, nl)
    {
      nl := nl + 1;
    }
  }

  method ReadLines(file: seq<byte>) returns (lines: seq<Line>)
    ensures lines == Lines(file, 0)
  {
    lines := [];
    var start := 0;
    while start < |file|
      invariant start <= |file|
      invariant lines + Lines(file, start) == Lines(file, 0)
    {
      var nl := NextNewline(file, start);
      if nl == |file| {
        assert |file[start..nl]| == |file[start..]|;
        assert Lines(file, start) == [Line(file[start..], start, false)];
        lines := lines + [Line(file[start..], start, false)];
        break;
      }
      lines := lines + [Line(file[start..nl], start, true)];
      start := nl + 1;
    }
  }

  /** The byte just past the last newline-terminated line. */
  function ValidEnd(lines: seq<Line>): nat {
    if lines == [] then 0
    else
      var rest := ValidEnd(lines[..|lines| - 1]);
      var last := lines[|lines| - 1];
      if last.hasNewline && last.End() > rest then last.End() else rest
  }

  method ValidContentEnd(lines: seq<Line>) returns (end: nat)
    ensures end == ValidEnd(lines)
  {
    end := 0;
    for i := 0 to |lines|
      invariant end == ValidEnd(lines[..i])
    {
      assert lines[..i + 1][..i] == lines[..i];
      if lines[i].hasNewline && lines[i].End() > end {
        end := lines[i].End();
      }
    }
    assert lines[..|lines|] == lines;
  }

  // ---- strict parsing ----

  datatype Parse<T> = Parsed(value: T) | CrashTruncated | Blank | Refused(error: ProtocolError)

  const REFUSED := ProtocolError(IoError, "corrupted log; refusing to start")

  function ParseLine<T(!new)>(codec: Codec<T>, line: Line): Parse<T> {
    if !line.Utf8Ok() then if line.hasNewline then Refused(REFUSED) else CrashTruncated
    else
      var trimmed := Trim(line.Text());
      if trimmed == [] then if line.hasNewline then Refused(REFUSED) else Blank
      else
        match codec.decode(trimmed)
        case Some(v) => Parsed(v)
        case None => if line.hasNewline then Refused(REFUSED) else CrashTruncated
  }

  /** All lines: the records in order, and whether the tail has to be cut off. */
  function ParseAll<T(!new)>(codec: Codec<T>, lines: seq<Line>): Result<(seq<T>, bool), ProtocolError> {
    if lines == [] then Ok(([], false))
    else
      match ParseAll(codec, lines[..|lines| - 1])
      case Err(e) => Err(e)
      case Ok(earlier) =>
        match ParseLine(codec, lines[|lines| - 1])
        case Parsed(v) => Ok((earlier.0 + [v], earlier.1))
        case CrashTruncated => Ok((earlier.0, true))
        case Blank => Ok(earlier)
        case Refused(e) => Err(e)
  }

  /** What the repair makes of the file. */
  function Repaired(file: seq<byte>, lines: seq<Line>, truncate: bool): seq<byte> {
    if truncate then file[..if ValidEnd(lines) <= |file| then ValidEnd(lines) else |file|]
    else if lines == [] then file
    else
      var last := lines[|lines| - 1];
      if last.hasNewline || Trim(last.Text()) == [] || !last.Utf8Ok() then file else file + [NEWLINE]
  }

  /** A load: the records, and the file as it is left. */
  function Loaded<T(!new)>(codec: Codec<T>, file: seq<byte>): Result<(seq<T>, seq<byte>), ProtocolError> {
    var lines := Lines(file, 0);
    match ParseAll(codec, lines)
    case Err(e) => Err(e)
    case Ok(parsed) => Ok((parsed.0, Repaired(file, lines, parsed.1)))
  }

  // ---- the same, told by the bytes between the newlines ----

  /** The record a line holds: none unless it is UTF-8, not blank, and decodes. */
  function RecordOf<T(!new)>(codec: Codec<T>, line: seq<byte>): Option<T> {
    if Valid(line) && Trim(line) != [] then codec.decode(Trim(line)) else None
  }

  predicate IsBlank(line: seq<byte>) {
    Valid(line) && Trim(line) == []
  }

  /** Newline-terminated lines, one after the other. */
  function Whole(lines: seq<seq<byte>>): (file: seq<byte>)
    ensures file == [] || file[|file| - 1] == NEWLINE
  {
    if lines == [] then [] else Whole(lines[..|lines| - 1]) + (lines[|lines| - 1] + [NEWLINE])
  }

  /** Cut at its newlines, a file is terminated lines and a tail, which may be empty. */
  ghost predicate IsCut(file: seq<byte>, lines: seq<seq<byte>>, tail: seq<byte>) {
    && file == Whole(lines) + tail
    && NEWLINE !in tail && forall i :: 0 <= i < |lines| ==> NEWLINE !in lines[i]
  }

  /** Every terminated line holds a record. */
  ghost predicate AllHold<T(!new)>(codec: Codec<T>, lines: seq<seq<byte>>) {
    forall i :: 0 <= i < |lines| ==> RecordOf(codec, lines[i]).Some?
  }

  /** `values` are the records of the lines, in their order. */
  ghost predicate AreRecords<T(!new)>(codec: Codec<T>, lines: seq<seq<byte>>, values: seq<T>) {
    |values| == |lines| && forall i :: 0 <= i < |lines| ==> RecordOf(codec, lines[i]) == Some(values[i])
  }

  /**
   What a load is to make of a file: refused exactly if a terminated line holds no record; otherwise
   their records in order, and the tail's if it holds one. Of the tail a record is given its newline,
   blanks are left, and anything else is cut off.
   */
  ghost predicate LoadsAs<T(!new)>(codec: Codec<T>, lines: seq<seq<byte>>, tail: seq<byte>,
                                   r: Result<(seq<T>, seq<byte>), ProtocolError>) {
    var last := RecordOf(codec, tail);
    && (r.Ok? <==> AllHold(codec, lines))
    && (r.Ok? ==>
          && 0 <= |r.value.0| - |lines| <= 1
          && AreRecords(codec, lines, r.value.0[..|lines|])
          && r.value.0[|lines|..] == (if last.Some? then [last.value] else [])
          && r.value.1 == (if last.Some? then Whole(lines + [tail]) else if IsBlank(tail) then Whole(lines) + tail else Whole(lines)))
  }

  lemma WholeOne(lines: seq<seq<byte>>, line: seq<byte>)
    ensures Whole(lines + [line]) == Whole(lines) + (line + [NEWLINE])
  {
    assert (lines + [line])[..|lines|] == lines;
  }

  /** Every file can be cut so. */
  lemma {:induction false} EveryFileIsCut(file: seq<byte>) returns (lines: seq<seq<byte>>, tail: seq<byte>)
    ensures IsCut(file, lines, tail)
    decreases |file|
  {
    if file == [] {
      lines, tail := [], [];
    } else {
      var init, b := file[..|file| - 1], file[|file| - 1];
      lines, tail := EveryFileIsCut(init);
      assert file == Whole(lines) + (tail + [b]);
      if b == NEWLINE {
        WholeOne(lines, tail);
        lines, tail := lines + [tail], [];
      } else {
        tail := tail + [b];
      }
    }
  }

  /** A terminated line is parsed for its record, and refused without one. */
  lemma TerminatedParses<T(!new)>(codec: Codec<T>, line: Line)
    requires line.hasNewline
    ensures var record := RecordOf(codec, line.raw);
            ParseLine(codec, line) == if record.Some? then Parsed(record.value) else Refused(REFUSED)
  {
    hide Valid; hide Trim;
  }

  /** An unterminated one is never refused. */
  lemma TailParses<T(!new)>(codec: Codec<T>, line: Line)
    requires !line.hasNewline
    ensures var record := RecordOf(codec, line.raw);
            ParseLine(codec, line) ==
            if record.Some? then Parsed(record.value) else if IsBlank(line.raw) then Blank else CrashTruncated
  {
    hide Valid; hide Trim;
  }

  /** One terminated line more. */
  lemma LineAfter(head: seq<byte>, line: seq<byte>)
    requires NEWLINE !in line && (head == [] || head[|head| - 1] == NEWLINE)
    ensures Lines(head + (line + [NEWLINE]), 0) == Lines(head, 0) + [Line(line, |head|, true)]
  {
    hide Lines;
    LinesSplit(head, line + [NEWLINE], 0);
    LastOfFile(head, line);
  }

  /** The terminated lines of a file are parsed to their records, or refused. */
  lemma {:induction false} WholeParses<T(!new)>(codec: Codec<T>, lines: seq<seq<byte>>)
    requires forall i :: 0 <= i < |lines| ==> NEWLINE !in lines[i]
    ensures var read := Lines(Whole(lines), 0);
            && ValidEnd(read) == |Whole(lines)|
            && (read != [] ==> read[|read| - 1].hasNewline)
            && (ParseAll(codec, read).Ok? <==> AllHold(codec, lines))
            && (ParseAll(codec, read).Ok? ==>
                  !ParseAll(codec, read).value.1 && AreRecords(codec, lines, ParseAll(codec, read).value.0))
    decreases |lines|
  {
    hide Lines; hide ParseAll; hide ParseLine; hide ValidEnd; hide RecordOf; hide AllHold; hide AreRecords;
    if lines == [] {
      NoLine([]);
      NoRecords(codec);
      NothingParses(codec);
    } else {
      var init, line := lines[..|lines| - 1], lines[|lines| - 1];
      assert lines == init + [line];
      WholeParses(codec, init);
      var head := Whole(init);
      var last := Line(line, |head|, true);
      LineAfter(head, line);
      TerminatedParses(codec, last);
      OneMoreLine(codec, Lines(head, 0), last);
      OneMoreRecord(codec, init, line);
      if ParseAll(codec, Lines(head, 0)).Err? {
        assert (Lines(head, 0) + [last])[..|Lines(head, 0)|] == Lines(head, 0);
        RefusedForGood(codec, Lines(head, 0) + [last], |Lines(head, 0)|);
      }
    }
  }

  lemma NoRecords<T(!new)>(codec: Codec<T>)
    ensures AllHold(codec, []) && AreRecords(codec, [], [])
  {
  }

  lemma OneMoreRecord<T(!new)>(codec: Codec<T>, lines: seq<seq<byte>>, line: seq<byte>)
    ensures AllHold(codec, lines + [line]) <==> AllHold(codec, lines) && RecordOf(codec, line).Some?
    ensures forall values :: AreRecords(codec, lines, values) && RecordOf(codec, line).Some? ==>
              AreRecords(codec, lines + [line], values + [RecordOf(codec, line).value])
  {
    hide RecordOf;
    if AllHold(codec, lines + [line]) {
      assert forall i :: 0 <= i < |lines| ==> (lines + [line])[i] == lines[i];
      assert (lines + [line])[|lines|] == line;
    }
  }

  lemma NothingParses<T(!new)>(codec: Codec<T>)
    ensures ParseAll(codec, []) == Ok(([], false)) && ValidEnd([]) == 0
  {
  }

  /**
   The load of any file, whatever the codec: it succeeds exactly if every newline-terminated line is
   UTF-8, not blank, and decodes, and the records are then theirs in order and at most the tail's.
   */
  lemma LoadIsByLines<T(!new)>(codec: Codec<T>, file: seq<byte>, lines: seq<seq<byte>>, tail: seq<byte>)
    requires IsCut(file, lines, tail)
    ensures LoadsAs(codec, lines, tail, Loaded(codec, file))
  {
    hide Lines; hide ParseAll; hide ParseLine; hide ValidEnd; hide Whole; hide AllHold; hide AreRecords; hide Valid; hide Trim;
    WholeParses(codec, lines);
    WholeOne(lines, tail);
    var head := Whole(lines);
    if tail == [] {
      assert file == head;
      assert head + tail == head;
      EmptyHoldsNothing(codec);
      if ParseAll(codec, Lines(head, 0)).Ok? {
        LoadsSo(codec, lines, tail, ParseAll(codec, Lines(head, 0)).value.0, Loaded(codec, file));
      }
    } else {
      WithTail(codec, lines, tail);
    }
  }

  lemma EmptyHoldsNothing<T(!new)>(codec: Codec<T>)
    ensures RecordOf(codec, []) == None && IsBlank([])
  {
  }

  lemma WithTail<T(!new)>(codec: Codec<T>, lines: seq<seq<byte>>, tail: seq<byte>)
    requires tail != [] && IsCut(Whole(lines) + tail, lines, tail)
    ensures LoadsAs(codec, lines, tail, Loaded(codec, Whole(lines) + tail))
  {
    hide Lines; hide ParseAll; hide ParseLine; hide ValidEnd; hide Whole; hide AllHold; hide AreRecords; hide Valid; hide Trim;
    WholeParses(codec, lines);
    WholeOne(lines, tail);
    var head := Whole(lines);
    var read, last := Lines(head, 0), Line(tail, |head|, false);
    WholeEnds(lines);
    LinesSplit(head, tail, 0);
    TailOfFile(head, tail);
    TailParses(codec, last);
    OneMoreLine(codec, read, last);
    assert (head + tail)[..|head|] == head;
    assert (head + tail) + [NEWLINE] == head + (tail + [NEWLINE]);
    if ParseAll(codec, read).Err? {
      assert (read + [last])[..|read|] == read;
      RefusedForGood(codec, read + [last], |read|);
    } else {
      LoadsSo(codec, lines, tail, ParseAll(codec, read).value.0, Loaded(codec, head + tail));
    }
  }

  lemma LoadsSo<T(!new)>(codec: Codec<T>, lines: seq<seq<byte>>, tail: seq<byte>, values: seq<T>,
                         r: Result<(seq<T>, seq<byte>), ProtocolError>)
    requires AllHold(codec, lines) && AreRecords(codec, lines, values) && r.Ok?
    requires var last := RecordOf(codec, tail);
             && r.value.0 == (if last.Some? then values + [last.value] else values)
             && r.value.1 == (if last.Some? then Whole(lines + [tail]) else if IsBlank(tail) then Whole(lines) + tail else Whole(lines))
    ensures LoadsAs(codec, lines, tail, r)
  {
    hide RecordOf; hide IsBlank; hide Whole; hide AllHold;
    assert r.value.0[..|lines|] == values;
  }

  lemma LoadOfAnyFile<T(!new)>(codec: Codec<T>, file: seq<byte>)
    ensures forall lines, tail :: IsCut(file, lines, tail) ==> LoadsAs(codec, lines, tail, Loaded(codec, file))
    ensures Loaded(codec, file).Err? ==> Loaded(codec, file).error == REFUSED
  {
    hide IsCut; hide LoadsAs; hide Loaded;
    forall lines, tail | IsCut(file, lines, tail) ensures LoadsAs(codec, lines, tail, Loaded(codec, file)) {
      LoadIsByLines(codec, file, lines, tail);
    }
    RefusalIsAFault(codec, file);
  }

  lemma RefusalIsAFault<T(!new)>(codec: Codec<T>, file: seq<byte>)
    ensures Loaded(codec, file).Err? ==> Loaded(codec, file).error == REFUSED
  {
    hide Lines; hide ParsedAs; hide Repaired; hide ParseAll;
    ParsesByLine(codec, Lines(file, 0));
  }

  /** The records of the lines that hold one. */
  function Found<T(!new)>(codec: Codec<T>, lines: seq<Line>): seq<T> {
    if lines == [] then []
    else
      var record := RecordOf(codec, lines[|lines| - 1].raw);
      Found(codec, lines[..|lines| - 1]) + if record.Some? then [record.value] else []
  }

  predicate Damaged<T(!new)>(codec: Codec<T>, line: Line) {
    RecordOf(codec, line.raw).None? && (line.hasNewline || !IsBlank(line.raw))
  }

  /** Refused exactly for a damaged line with a newline; a damaged one without is to be cut off. */
  ghost predicate ParsedAs<T(!new)>(codec: Codec<T>, lines: seq<Line>, r: Result<(seq<T>, bool), ProtocolError>) {
    && (r.Err? <==> exists i :: 0 <= i < |lines| && lines[i].hasNewline && Damaged(codec, lines[i]))
    && (r.Ok? ==> r.value.0 == Found(codec, lines))
    && (r.Ok? ==> (r.value.1 <==> exists i :: 0 <= i < |lines| && Damaged(codec, lines[i])))
  }

  lemma {:induction false} ParsesByLine<T(!new)>(codec: Codec<T>, lines: seq<Line>)
    ensures ParsedAs(codec, lines, ParseAll(codec, lines))
    ensures ParseAll(codec, lines).Err? ==> ParseAll(codec, lines).error == REFUSED
    decreases |lines|
  {
    hide ParseLine; hide RecordOf; hide IsBlank;
    if lines != [] {
      var init, last := lines[..|lines| - 1], lines[|lines| - 1];
      ParsesByLine(codec, init);
      if last.hasNewline {
        TerminatedParses(codec, last);
      } else {
        TailParses(codec, last);
      }
      assert lines == init + [last];
      assert forall i :: 0 <= i < |init| ==> lines[i] == init[i];
    }
  }

  lemma WholeEnds(lines: seq<seq<byte>>)
    ensures Whole(lines) == [] || Whole(lines)[|Whole(lines)| - 1] == NEWLINE
  {
  }

  // ---- files of whole lines ----

  /** `values`, one newline-terminated line each. */
  function File<T(!new)>(codec: Codec<T>, values: seq<T>): seq<byte> {
    if values == [] then [] else File(codec, values[..|values| - 1]) + LineBytes(codec, values[|values| - 1])
  }

  function LineBytes<T(!new)>(codec: Codec<T>, v: T): seq<byte> {
    codec.encode(v) + [NEWLINE]
  }

  lemma FileAppend<T(!new)>(codec: Codec<T>, values: seq<T>, v: T)
    ensures File(codec, values + [v]) == File(codec, values) + LineBytes(codec, v)
  {
    assert (values + [v])[..|values|] == values;
  }

  /** One line further. */
  lemma FirstLine(file: seq<byte>, start: nat)
    requires start < |file| && FindNewline(file, start) < |file|
    ensures var nl := FindNewline(file, start); Lines(file, start) == [Line(file[start..nl], start, true)] + Lines(file, nl + 1)
  {
  }

  lemma NoLine(file: seq<byte>)
    ensures Lines(file, |file|) == []
  {
  }

  lemma Regroup(first: Line, a: seq<Line>, b: seq<Line>)
    ensures [first] + (a + b) == [first] + a + b
  {
  }

  /** Lines before a newline are read the same whatever follows it. */
  lemma {:induction false} LinesSplit(head: seq<byte>, tail: seq<byte>, start: nat)
    requires start <= |head| && (head == [] || head[|head| - 1] == NEWLINE)
    ensures Lines(head + tail, start) == Lines(head, start) + Lines(head + tail, |head|)
    decreases |head| - start
  {
    hide FindNewline; hide Lines;
    var file := head + tail;
    if start == |head| {
      NoLine(head);
    } else {
      var nl := FindNewline(head, start);
      FindInHead(head, tail, start);
      FirstLine(head, start);
      FirstLine(file, start);
      assert file[start..nl] == head[start..nl];
      LinesSplit(head, tail, nl + 1);
      Regroup(Line(head[start..nl], start, true), Lines(head, nl + 1), Lines(file, |head|));
    }
  }

  lemma {:induction false} FindInHead(head: seq<byte>, tail: seq<byte>, at: nat)
    requires at < |head| && head[|head| - 1] == NEWLINE
    ensures FindNewline(head + tail, at) == FindNewline(head, at) < |head|
    decreases |head| - at
  {
    if head[at] != NEWLINE {
      FindInHead(head, tail, at + 1);
    }
  }

  /** What is left after whole lines, without a newline in it, is one line. */
  lemma {:induction false} LastLine(file: seq<byte>, at: nat, nl: nat)
    requires at <= nl <= |file| && at < |file| && forall i :: at <= i < nl ==> file[i] != NEWLINE
    requires nl == |file| || (nl == |file| - 1 && file[nl] == NEWLINE)
    ensures Lines(file, at) == [Line(file[at..nl], at, nl < |file|)]
  {
    FindIs(file, at, nl);
    if nl == |file| {
      assert file[at..] == file[at..nl];
    } else {
      assert Lines(file, nl + 1) == [];
    }
  }

  lemma {:induction false} FindIs(file: seq<byte>, at: nat, nl: nat)
    requires at <= nl <= |file| && forall i :: at <= i < nl ==> file[i] != NEWLINE
    requires nl == |file| || file[nl] == NEWLINE
    ensures FindNewline(file, at) == nl
    decreases nl - at
  {
    if at < nl {
      FindIs(file, at + 1, nl);
    }
  }

  lemma EncodedFacts<T(!new)>(codec: Codec<T>, v: T)
    requires Lawful(codec)
    ensures JsonLine(codec.encode(v)) && codec.decode(codec.encode(v)) == Some(v)
  {
  }

  lemma LineWithin(head: seq<byte>, line: seq<byte>, rest: seq<byte>)
    requires NEWLINE !in line
    ensures var file := head + line + rest;
            && (forall i :: |head| <= i < |head| + |line| ==> file[i] != NEWLINE)
            && file[|head|..|head| + |line|] == line
  {
    var file := head + line + rest;
    forall i | |head| <= i < |head| + |line| ensures file[i] != NEWLINE {
      assert file[i] == line[i - |head|];
    }
  }

  /** The last line of a file, whole. */
  lemma LastOfFile(head: seq<byte>, enc: seq<byte>)
    requires NEWLINE !in enc
    ensures Lines(head + (enc + [NEWLINE]), |head|) == [Line(enc, |head|, true)]
  {
    hide Lines;
    var file, nl := head + (enc + [NEWLINE]), |head| + |enc|;
    LineWithin(head, enc, [NEWLINE]);
    assert head + (enc + [NEWLINE]) == head + enc + [NEWLINE];
    LastLine(file, |head|, nl);
  }

  /** The last line of a file, without its newline. */
  lemma TailOfFile(head: seq<byte>, tail: seq<byte>)
    requires NEWLINE !in tail && tail != []
    ensures Lines(head + tail, |head|) == [Line(tail, |head|, false)]
  {
    hide Lines;
    LineWithin(head, tail, []);
    assert head + tail + [] == head + tail;
    LastLine(head + tail, |head|, |head| + |tail|);
  }

  /** Reading one line further. */
  lemma OneMoreLine<T(!new)>(codec: Codec<T>, lines: seq<Line>, line: Line)
    ensures ParseAll(codec, lines).Ok? ==>
              ParseAll(codec, lines + [line]) ==
              (var earlier := ParseAll(codec, lines).value;
               match ParseLine(codec, line)
               case Parsed(v) => Ok((earlier.0 + [v], earlier.1))
               case CrashTruncated => Ok((earlier.0, true))
               case Blank => Ok(earlier)
               case Refused(e) => Err(e))
    ensures ValidEnd(lines + [line]) ==
            if line.hasNewline && line.End() > ValidEnd(lines) then line.End() else ValidEnd(lines)
  {
    hide ParseLine;
    assert (lines + [line])[..|lines|] == lines;
  }

  /** `file` is whole lines, and they parse to `values`. */
  ghost predicate Reads<T(!new)>(codec: Codec<T>, file: seq<byte>, values: seq<T>) {
    var lines := Lines(file, 0);
    && (file == [] || file[|file| - 1] == NEWLINE)
    && ParseAll(codec, lines) == Ok((values, false))
    && ValidEnd(lines) == |file|
    && (lines != [] ==> lines[|lines| - 1].hasNewline)
  }

  lemma ReadsOneMore<T(!new)>(codec: Codec<T>, head: seq<byte>, values: seq<T>, v: T)
    requires Lawful(codec) && Reads(codec, head, values)
    ensures Reads(codec, head + LineBytes(codec, v), values + [v])
  {
    hide Lawful; hide ParseLine; hide Lines; hide ParseAll; hide ValidEnd; hide Valid;
    var enc := codec.encode(v);
    WholeLineParses(codec, v, |head|);
    EncodedFacts(codec, v);
    LinesSplit(head, enc + [NEWLINE], 0);
    LastOfFile(head, enc);
    OneMoreLine(codec, Lines(head, 0), Line(enc, |head|, true));
  }

  /** A file of whole lines reads back as its values, and its last line ends it. */
  lemma {:induction false} WholeLinesRead<T(!new)>(codec: Codec<T>, values: seq<T>)
    requires Lawful(codec)
    ensures Reads(codec, File(codec, values), values)
    decreases |values|
  {
    hide Lawful;
    if values != [] {
      var init, v := values[..|values| - 1], values[|values| - 1];
      WholeLinesRead(codec, init);
      ReadsOneMore(codec, File(codec, init), init, v);
      assert values == init + [v];
    }
  }

  lemma WholeLineParses<T(!new)>(codec: Codec<T>, v: T, at: nat)
    requires Lawful(codec)
    ensures forall nl :: ParseLine(codec, Line(codec.encode(v), at, nl)) == Parsed(v)
  {
    hide Valid;
    var enc := codec.encode(v);
    assert JsonLine(enc);
    TrimKeepsLine(enc);
  }

  /** A beginning of a line, cut anywhere, is recognized as cut. */
  lemma BeginningIsTruncated<T(!new)>(codec: Codec<T>, v: T, k: nat, at: nat)
    requires Lawful(codec) && 0 < k < |codec.encode(v)|
    ensures ParseLine(codec, Line(codec.encode(v)[..k], at, false)) == CrashTruncated
  {
    hide Valid;
    var enc := codec.encode(v);
    assert JsonLine(enc);
    TrimKeepsBeginning(enc, k);
    var j :| 0 < j <= k && Trim(enc[..k]) == enc[..j];
    assert codec.decode(enc[..j]).None?;
  }

  // ---- a file that was cut ----

  /** The records a load finds after whole lines and `cut` bytes of one more. */
  function Kept<T(!new)>(codec: Codec<T>, values: seq<T>, v: T, cut: nat): seq<T> {
    if cut >= |codec.encode(v)| then values + [v] else values
  }

  /**
   A file of whole lines with any beginning of one more line after them loads: to its values, and
   to the last one too when all of its text made it. It is left a file of whole lines.
   */
  lemma CutFileLoads<T(!new)>(codec: Codec<T>, values: seq<T>, v: T, cut: nat)
    requires Lawful(codec) && cut <= |LineBytes(codec, v)|
    ensures var kept := Kept(codec, values, v, cut);
            Loaded(codec, File(codec, values) + LineBytes(codec, v)[..cut]) == Ok((kept, File(codec, kept)))
  {
    hide Lawful; hide Lines; hide ParseAll; hide ValidEnd; hide ParseLine; hide File; hide Trim;
    var head, enc, line := File(codec, values), codec.encode(v), LineBytes(codec, v);
    WholeLinesRead(codec, values);
    EncodedFacts(codec, v);
    FileAppend(codec, values, v);
    if cut == 0 {
      assert head + line[..cut] == head;
    } else if cut == |line| {
      assert line[..cut] == line;
      ReadsOneMore(codec, head, values, v);
    } else {
      assert line[..cut] == enc[..cut];
      CutTailLoads(codec, values, v, cut);
    }
  }

  /** What the tail of a cut file parses as. */
  lemma CutTailLoads<T(!new)>(codec: Codec<T>, values: seq<T>, v: T, cut: nat)
    requires Lawful(codec) && 0 < cut <= |codec.encode(v)|
    requires Reads(codec, File(codec, values), values)
    ensures var kept := Kept(codec, values, v, cut);
            Loaded(codec, File(codec, values) + codec.encode(v)[..cut]) == Ok((kept, File(codec, kept)))
  {
    hide Lawful; hide Lines; hide ParseAll; hide ValidEnd; hide ParseLine; hide File; hide Valid; hide Trim;
    var head, enc := File(codec, values), codec.encode(v);
    var tail := enc[..cut];
    var file := head + tail;
    var last := Line(tail, |head|, false);
    EncodedFacts(codec, v);
    assert NEWLINE !in tail by {
      assert forall i :: 0 <= i < cut ==> tail[i] == enc[i];
    }
    LinesSplit(head, tail, 0);
    TailOfFile(head, tail);
    OneMoreLine(codec, Lines(head, 0), last);
    assert file[..|head|] == head;
    if cut < |enc| {
      BeginningIsTruncated(codec, v, cut, |head|);
    } else {
      assert tail == enc;
      WholeLineParses(codec, v, |head|);
      TrimKeepsLine(enc);
      FileAppend(codec, values, v);
      assert file + [NEWLINE] == head + (enc + [NEWLINE]);
    }
  }

  // ---- one process ----

  datatype Append = Written | Incomplete | Unsynced

  /** The lines of `values` and a beginning of one more. */
  ghost predicate EndsCut<T(!new)>(codec: Codec<T>, file: seq<byte>, values: seq<T>) {
    exists v: T, cut: nat :: cut <= |LineBytes(codec, v)| && file == File(codec, values) + LineBytes(codec, v)[..cut]
  }

  /**
   What an append does to a log of records: it is there whole or not at all, and never after a
   fragment that could not be undone.
   */
  ghost predicate Appended<T(!new)>(log: seq<T>, torn: bool, v: T, f: Append, log': seq<T>, torn': bool) {
    && (torn ==> f.Incomplete? && torn')
    && (f.Incomplete? ==> log' == log)
    && (!f.Incomplete? ==> log' == log + [v] && !torn')
  }

  /** A log file as the process that appends to it holds it. `acknowledged` is history. */
  class LogFile<T(!new)> {
    const codec: Codec<T>
    var bytes: seq<byte>
    var torn: bool
    ghost var acknowledged: seq<T>
    /** How many calls of the operating system have failed. */
    ghost var faults: nat

    /** Whole lines; a beginning of one more only where nothing will be appended again. */
    ghost predicate Valid()
      reads this
    {
      if torn then EndsCut(codec, bytes, acknowledged) else bytes == File(codec, acknowledged)
    }

    /** A file a load has repaired. */
    constructor (codec: Codec<T>, repaired: seq<byte>, ghost values: seq<T>)
      requires repaired == File(codec, values)
      ensures Valid() && !torn && this.codec == codec && acknowledged == values && bytes == repaired
    {
      this.codec := codec;
      bytes, torn := repaired, false;
      acknowledged, faults := values, 0;
    }

    /** Append one line, undoing a write that cannot be completed. */
    method AppendLine(v: T) returns (f: Append)
      requires Valid()
      modifies this
      ensures Valid()
      ensures Appended(old(acknowledged), old(torn), v, f, acknowledged, torn)
      ensures (f.Incomplete? && !torn) || old(torn) ==> bytes == old(bytes)
      ensures faults >= old(faults) && (f.Written? <==> !old(torn) && faults == old(faults))
    {
      hide File; hide LineBytes;
      if torn {
        return Incomplete;
      }
      var line := LineBytes(codec, v);
      var before := bytes;
      var written: nat :| written <= |line|;
      var complete: bool := *;
      bytes := bytes + line[..written];
      if !complete || written < |line| {
        faults := faults + 1;
        var undone: bool := *;
        if undone {
          bytes := before;
        } else {
          torn := true;
        }
        return Incomplete;
      }
      assert line[..written] == line;
      FileAppend(codec, acknowledged, v);
      acknowledged := acknowledged + [v];
      var synced: bool := *;
      faults := if synced then faults else faults + 1;
      f := if synced then Written else Unsynced;
    }
  }

  /**
   The records of a log file are what the next load finds in its bytes, and at most one more: the
   one of a fragment that is whole but for its newline.
   */
  lemma FileHoldsItsLog<T(!new)>(f: LogFile<T>) returns (log: seq<T>)
    requires f.Valid() && Lawful(f.codec)
    ensures Loaded(f.codec, f.bytes) == Ok((log, File(f.codec, log)))
    ensures log == f.acknowledged || (f.torn && exists v :: log == f.acknowledged + [v])
  {
    hide Lawful; hide Loaded; hide File; hide LineBytes;
    if f.torn {
      var v: T, cut: nat :| cut <= |LineBytes(f.codec, v)| && f.bytes == File(f.codec, f.acknowledged) + LineBytes(f.codec, v)[..cut];
      CutFileLoads(f.codec, f.acknowledged, v, cut);
      log := Kept(f.codec, f.acknowledged, v, cut);
    } else {
      log := f.acknowledged;
      WholeFileLoads(f.codec, log);
    }
  }

  lemma WholeFileLoads<T(!new)>(codec: Codec<T>, values: seq<T>)
    requires Lawful(codec)
    ensures Loaded(codec, File(codec, values)) == Ok((values, File(codec, values)))
  {
    hide Lawful; hide Lines; hide ParseAll; hide ValidEnd; hide File;
    WholeLinesRead(codec, values);
  }

  /** Load a file and repair it. */
  method Load<T(!new)>(codec: Codec<T>, file: seq<byte>) returns (r: Result<(seq<T>, seq<byte>), ProtocolError>)
    ensures r == Loaded(codec, file)
    ensures forall lines, tail :: IsCut(file, lines, tail) ==> LoadsAs(codec, lines, tail, r)
    ensures r.Err? ==> r.error.code == IoError
  {
    LoadOfAnyFile(codec, file);
    hide IsCut; hide LoadsAs;
    var lines := ReadLines(file);
    var parsed := ParseLines(codec, lines);
    if parsed.Err? {
      return Err(parsed.error);
    }
    var repaired := file;
    if parsed.value.1 {
      var end := ValidContentEnd(lines);
      repaired := file[..if end <= |file| then end else |file|];
    } else if lines != [] {
      var last := lines[|lines| - 1];
      if !last.hasNewline && Trim(last.Text()) != [] && last.Utf8Ok() {
        repaired := file + [NEWLINE];
      }
    }
    r := Ok((parsed.value.0, repaired));
  }

  method ParseLines<T(!new)>(codec: Codec<T>, lines: seq<Line>) returns (r: Result<(seq<T>, bool), ProtocolError>)
    ensures r == ParseAll(codec, lines)
    ensures ParsedAs(codec, lines, r)
    ensures r.Err? ==> r.error.code == IoError
  {
    ParsesByLine(codec, lines);
    hide ParsedAs; hide ParseLine;
    var values: seq<T>, truncate := [], false;
    for i := 0 to |lines|
      invariant ParseAll(codec, lines[..i]) == Ok((values, truncate))
    {
      var parsed := ParseLine(codec, lines[i]);
      assert lines[..i + 1] == lines[..i] + [lines[i]];
      OneMoreLine(codec, lines[..i], lines[i]);
      match parsed {
        case Parsed(v) => values := values + [v];
        case CrashTruncated => truncate := true;
        case Blank =>
        case Refused(e) =>
          RefusedForGood(codec, lines, i + 1);
          return Err(e);
      }
    }
    assert lines[..|lines|] == lines;
    r := Ok((values, truncate));
  }

  lemma {:induction false} RefusedForGood<T(!new)>(codec: Codec<T>, lines: seq<Line>, i: nat)
    requires i <= |lines| && ParseAll(codec, lines[..i]).Err?
    ensures ParseAll(codec, lines) == ParseAll(codec, lines[..i])
    decreases |lines|
  {
    if i == |lines| {
      assert lines[..i] == lines;
    } else {
      var init := lines[..|lines| - 1];
      assert init[..i] == lines[..i];
      RefusedForGood(codec, init, i);
    }
  }

  // ---- any number of processes ----

  /**
   One life of the server: it loads, repairs, appends lines it acknowledges, and stops with a line
   under way after any of its bytes -- or stops before its repair took effect.
   */
  datatype Round<T> = Ran(acknowledged: seq<T>, underWay: T, cut: nat) | Unrepaired

  /** The file after some rounds, from no file at all. */
  function Play<T(!new)>(codec: Codec<T>, rounds: seq<Round<T>>): Result<seq<byte>, ProtocolError> {
    if rounds == [] then Ok([])
    else
      match Play(codec, rounds[..|rounds| - 1])
      case Err(e) => Err(e)
      case Ok(file) =>
        match Loaded(codec, file)
        case Err(e) => Err(e)
        case Ok(loaded) => Ok(AfterRound(codec, file, loaded.1, rounds[|rounds| - 1]))
  }

  function AfterRound<T(!new)>(codec: Codec<T>, file: seq<byte>, repaired: seq<byte>, round: Round<T>): seq<byte> {
    match round
    case Ran(acknowledged, underWay, cut) =>
      repaired + File(codec, acknowledged) + Cut(LineBytes(codec, underWay), cut)
    case Unrepaired => file
  }

  function Cut(line: seq<byte>, cut: nat): seq<byte> {
    if cut < |line| then line[..cut] else line
  }

  /** What is to survive: every acknowledged record in order, and a line under way whose text was whole. */
  function Survivors<T(!new)>(codec: Codec<T>, rounds: seq<Round<T>>): seq<T> {
    if rounds == [] then []
    else
      var earlier := Survivors(codec, rounds[..|rounds| - 1]);
      match rounds[|rounds| - 1]
      case Ran(acknowledged, underWay, cut) => Kept(codec, earlier + acknowledged, underWay, cut)
      case Unrepaired => earlier
  }

  lemma {:induction false} FileConcat<T(!new)>(codec: Codec<T>, a: seq<T>, b: seq<T>)
    ensures File(codec, a + b) == File(codec, a) + File(codec, b)
    decreases |b|
  {
    if b == [] {
      assert a + b == a;
    } else {
      var init := b[..|b| - 1];
      FileConcat(codec, a, init);
      assert (a + b)[..|a + b| - 1] == a + init;
    }
  }

  /**
   The torn-log theorem: after any number of rounds the log loads, to every acknowledged record in
   order and at most the one under way at each cut, and is left a file of whole lines.
   */
  lemma {:induction false} TornLogLoads<T(!new)>(codec: Codec<T>, rounds: seq<Round<T>>)
    requires Lawful(codec)
    ensures Play(codec, rounds).Ok?
    ensures Loaded(codec, Play(codec, rounds).value)
            == Ok((Survivors(codec, rounds), File(codec, Survivors(codec, rounds))))
    decreases |rounds|
  {
    hide Lawful; hide Loaded; hide Kept; hide File; hide LineBytes;
    if rounds == [] {
      EmptyLoads(codec);
    } else {
      TornLogLoads(codec, rounds[..|rounds| - 1]);
      if rounds[|rounds| - 1].Ran? {
        RoundLoads(codec, Survivors(codec, rounds[..|rounds| - 1]), rounds[|rounds| - 1]);
      }
    }
  }

  lemma EmptyLoads<T(!new)>(codec: Codec<T>)
    ensures Loaded(codec, []) == Ok(([], File(codec, [])))
  {
  }

  lemma RoundLoads<T(!new)>(codec: Codec<T>, earlier: seq<T>, round: Round<T>)
    requires Lawful(codec) && round.Ran?
    ensures var kept := Kept(codec, earlier + round.acknowledged, round.underWay, round.cut);
            forall file :: Loaded(codec, AfterRound(codec, file, File(codec, earlier), round)) == Ok((kept, File(codec, kept)))
  {
    var line := LineBytes(codec, round.underWay);
    var cut := if round.cut < |line| then round.cut else |line|;
    FileConcat(codec, earlier, round.acknowledged);
    CutFileLoads(codec, earlier + round.acknowledged, round.underWay, cut);
    assert line[..|line|] == line;
  }

  // ---- the laws can be met ----

  const BYTE_ZERO: byte := 0x30

  /** A codec of numbers: an object holding that many zeros. */
  function Unary(n: nat): (line: seq<byte>)
    ensures |line| == n + 2
  {
    [OPEN_BRACE] + seq(n, i => BYTE_ZERO) + [CLOSE_BRACE]
  }

  function OfUnary(line: seq<byte>): Option<nat> {
    if |line| >= 2 && line == Unary(|line| - 2) then Some(|line| - 2) else None
  }

  lemma LawsAreConsistent()
    ensures Lawful(Codec(Unary, OfUnary))
  {
    var codec := Codec(Unary, OfUnary);
    forall n ensures JsonLine(Unary(n)) {
      AsciiIsValid(Unary(n));
    }
    forall v, k | 0 < k < |codec.encode(v)| ensures codec.decode(codec.encode(v)[..k]).None? {
      var line := Unary(v)[..k];
      assert line[k - 1] == Unary(v)[k - 1] != CLOSE_BRACE;
      if k >= 2 {
        assert Unary(k - 2)[k - 1] == CLOSE_BRACE;
      }
    }
  }
}
