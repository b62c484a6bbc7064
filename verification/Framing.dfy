/**
 The framing of a file between the two halves of a transfer: raw bytes or Base64 lines, a header
 and a trailer around them one way, a size agreed beforehand and a report back the other way.

 JSON, Base64 and SHA-256 are parameters; the laws assumed of them are stated in `Lawful`.
 */
module Framing {
  import opened Arithmetic
  import opened Options
  import opened Utf8

  const RETURN: byte := 13
  const TRANSFER_BUF_SIZE: nat := 64 * 1024
  const BASE64_TRANSFER_BUF_SIZE: nat := 3 * 1024

  datatype Codec = Codec(
    header: nat -> seq<byte>, readHeader: seq<byte> -> Option<nat>,
    trailer: string -> seq<byte>, readTrailer: seq<byte> -> Option<string>,
    report: (nat, string) -> seq<byte>, readReport: seq<byte> -> Option<(nat, string)>,
    base64: seq<byte> -> seq<byte>, unbase64: seq<byte> -> Option<seq<byte>>,
    hash: seq<byte> -> string)

  ghost predicate Lawful(c: Codec) {
    && (forall n: nat :: JsonLine(c.header(n)) && c.readHeader(c.header(n)) == Some(n))
    && (forall n: nat, k :: 0 < k < |c.header(n)| ==> c.readHeader(c.header(n)[..k]).None?)
    && (forall h :: JsonLine(c.trailer(h)) && c.readTrailer(c.trailer(h)) == Some(h))
    && (forall n: nat, h :: JsonLine(c.report(n, h)) && c.readReport(c.report(n, h)) == Some((n, h)))
    && (forall b :: LawfulBase64(c, b))
  }

  /** Section 4 of RFC 4648: ASCII without line ends; a beginning decodes to less than the whole, if at all. */
  ghost predicate LawfulBase64(c: Codec, b: seq<byte>) {
    && c.unbase64(c.base64(b)) == Some(b)
    && (b != [] ==> c.base64(b) != [])
    && (forall i :: 0 <= i < |c.base64(b)| ==> c.base64(b)[i] <= 0x7F && c.base64(b)[i] != NEWLINE && c.base64(b)[i] != RETURN)
    && (forall k :: 0 <= k < |c.base64(b)| && c.unbase64(c.base64(b)[..k]).Some? ==>
          |c.unbase64(c.base64(b)[..k]).value| < |b|)
  }

  // ---- lines ----

  /** The length of the first line of `s`, its newline included. */
  function LineEnd(s: seq<byte>): (e: nat)
    ensures e <= |s| && (s != [] ==> e > 0)
    decreases |s|
  {
    if s == [] then 0 else if s[0] == NEWLINE then 1 else 1 + LineEnd(s[1..])
  }

  lemma {:induction false} LineEndIs(line: seq<byte>, rest: seq<byte>)
    requires NEWLINE !in line
    ensures LineEnd(line + [NEWLINE] + rest) == |line| + 1
    ensures LineEnd(line) == |line|
    decreases |line|
  {
    var s := line + [NEWLINE] + rest;
    if line != [] {
      assert s[1..] == line[1..] + [NEWLINE] + rest;
      LineEndIs(line[1..], rest);
    }
  }

  /** `trim_end_matches(['\r', '\n'])`. */
  function StripEol(s: seq<byte>): (t: seq<byte>)
    ensures t <= s
    decreases |s|
  {
    if s != [] && (s[|s| - 1] == NEWLINE || s[|s| - 1] == RETURN) then StripEol(s[..|s| - 1]) else s
  }

  lemma StripIs(line: seq<byte>)
    requires NEWLINE !in line && RETURN !in line
    ensures StripEol(line) == line && StripEol(line + [NEWLINE]) == line
  {
    assert (line + [NEWLINE])[..|line|] == line;
    assert line != [] ==> line[|line| - 1] in line;
  }

  // ---- the body ----

  const CUT := "stream ended early"
  const BAD_CHUNK := "invalid Base64 chunk"
  const NOT_UTF8 := "stream is not valid UTF-8"

  function Flatten(chunks: seq<seq<byte>>): seq<byte> {
    if chunks == [] then [] else chunks[0] + Flatten(chunks[1..])
  }

  function Encoded(c: Codec, chunk: seq<byte>, base64: bool): seq<byte> {
    if base64 then c.base64(chunk) + [NEWLINE] else chunk
  }

  /** The body a sender writes when it reads its file in these pieces. */
  function Body(c: Codec, chunks: seq<seq<byte>>, base64: bool): seq<byte> {
    if chunks == [] then [] else Encoded(c, chunks[0], base64) + Body(c, chunks[1..], base64)
  }

  /** Pieces a sender may read: none empty, none over the limit. */
  ghost predicate Pieces(chunks: seq<seq<byte>>, limit: nat) {
    forall i :: 0 <= i < |chunks| ==> 0 < |chunks[i]| <= limit
  }

  /** Base64 lines until `remaining` bytes are there: the bytes, and what follows. */
  function Lines64(c: Codec, s: seq<byte>, remaining: nat, limit: nat): Result<(seq<byte>, seq<byte>), string>
    decreases remaining
  {
    if remaining == 0 then Ok(([], s))
    else if s == [] then Err(CUT)
    else
      var line := s[..LineEnd(s)];
      if !Valid(line) then Err(NOT_UTF8)
      else
        match c.unbase64(StripEol(line))
        case None => Err(BAD_CHUNK)
        case Some(d) =>
          if d == [] || |d| > Min(remaining, limit) then Err(BAD_CHUNK)
          else
            Extended(d, Lines64(c, s[LineEnd(s)..], remaining - |d|, limit))
  }

  /** The body of `size` bytes at the start of `s`, and what follows it. */
  function Received(c: Codec, s: seq<byte>, size: nat, limit: nat, base64: bool): Result<(seq<byte>, seq<byte>), string> {
    if base64 then Lines64(c, s, size, limit)
    else if |s| < size then Err(CUT)
    else Ok((s[..size], s[size..]))
  }

  /**
   Read the declared number of bytes in pieces of any size up to the buffer's and write each as it
   comes. A file that has fewer by now ends it.
   */
  method SendBody(c: Codec, file: seq<byte>, size: nat, limit: nat, base64: bool)
    returns (complete: bool, out: seq<byte>, ghost chunks: seq<seq<byte>>)
    requires limit > 0
    ensures complete <==> size <= |file|
    ensures out == Body(c, chunks, base64) && Pieces(chunks, limit)
    ensures Flatten(chunks) == if complete then file[..size] else file
  {
    out, chunks := [], [];
    var at: nat := 0;
    while at < size
      invariant at <= size && at <= |file|
      invariant out == Body(c, chunks, base64) && Flatten(chunks) == file[..at] && Pieces(chunks, limit)
    {
      if at == |file| {
        assert file[..at] == file;
        return false, out, chunks;
      }
      var want := Min(limit, Min(size - at, |file| - at));
      var n: nat :| 0 < n <= want;
      var chunk := file[at..at + n];
      out := out + Encoded(c, chunk, base64);
      BodyAppend(c, chunks, chunk, base64);
      chunks := chunks + [chunk];
      assert file[..at] + chunk == file[..at + n];
      at := at + n;
    }
    complete := true;
  }

  lemma {:induction false} BodyAppend(c: Codec, chunks: seq<seq<byte>>, chunk: seq<byte>, base64: bool)
    ensures Body(c, chunks + [chunk], base64) == Body(c, chunks, base64) + Encoded(c, chunk, base64)
    ensures Flatten(chunks + [chunk]) == Flatten(chunks) + chunk
    decreases |chunks|
  {
    var all := chunks + [chunk];
    if chunks == [] {
      assert all[1..] == [];
    } else {
      assert all[1..] == chunks[1..] + [chunk];
      BodyAppend(c, chunks[1..], chunk, base64);
    }
  }

  /** The bytes already written, and what the rest of the stream gives. */
  function Extended(written: seq<byte>, more: Result<(seq<byte>, seq<byte>), string>): Result<(seq<byte>, seq<byte>), string> {
    match more
    case Err(e) => Err(e)
    case Ok(m) => Ok((written + m.0, m.1))
  }

  lemma ExtendedTwice(written: seq<byte>, d: seq<byte>, more: Result<(seq<byte>, seq<byte>), string>)
    ensures Extended(written, Extended(d, more)) == Extended(written + d, more)
    ensures Extended([], more) == more
  {
    if more.Ok? {
      assert written + (d + more.value.0) == written + d + more.value.0;
      assert [] + more.value.0 == more.value.0;
    }
  }

  /** One line of a Base64 body. */
  lemma OneLine64(c: Codec, s: seq<byte>, remaining: nat, limit: nat)
    requires s != [] && remaining > 0
    ensures var line, more := s[..LineEnd(s)], s[LineEnd(s)..];
            var decoded := c.unbase64(StripEol(line));
            Lines64(c, s, remaining, limit) ==
            if !Valid(line) then Err(NOT_UTF8)
            else if decoded.None? || decoded.value == [] || |decoded.value| > Min(remaining, limit) then Err(BAD_CHUNK)
            else Extended(decoded.value, Lines64(c, more, remaining - |decoded.value|, limit))
  {
    hide Valid;
  }

  lemma NoLine64(c: Codec, s: seq<byte>, limit: nat)
    ensures Lines64(c, s, 0, limit) == Ok(([], s))
    ensures forall remaining: nat :: remaining > 0 ==> Lines64(c, [], remaining, limit) == Err(CUT)
  {
  }

  /** Read the body, raw bytes in pieces of any size, and write them out as they come. */
  method ReceiveBody(c: Codec, input: seq<byte>, size: nat, limit: nat, base64: bool)
    returns (r: Result<(seq<byte>, seq<byte>), string>)
    ensures r == Received(c, input, size, limit, base64)
  {
    hide Valid; hide Lines64; hide LineEnd; hide StripEol;
    var written: seq<byte>, rest: seq<byte>, remaining: nat := [], input, size;
    if base64 {
      NoLine64(c, [], limit);
      ExtendedTwice([], [], Lines64(c, input, size, limit));
      while remaining > 0
        invariant remaining <= size
        invariant Lines64(c, input, size, limit) == Extended(written, Lines64(c, rest, remaining, limit))
      {
        if rest == [] {
          return Err(CUT);
        }
        var end := LineEnd(rest);
        OneLine64(c, rest, remaining, limit);
        if !Valid(rest[..end]) {
          return Err(NOT_UTF8);
        }
        var decoded := c.unbase64(StripEol(rest[..end]));
        if decoded.None? || decoded.value == [] || |decoded.value| > Min(remaining, limit) {
          return Err(BAD_CHUNK);
        }
        ghost var more := Lines64(c, rest[end..], remaining - |decoded.value|, limit);
        ExtendedTwice(written, decoded.value, more);
        written := written + decoded.value;
        remaining := remaining - |decoded.value|;
        rest := rest[end..];
      }
      NoLine64(c, rest, limit);
      assert written + [] == written;
      return Ok((written, rest));
    }
    while remaining > 0
      invariant remaining <= size && size - remaining <= |input|
      invariant written == input[..size - remaining] && rest == input[size - remaining..]
    {
      if rest == [] {
        return Err(CUT);
      }
      var want := Min(Min(remaining, TRANSFER_BUF_SIZE), |rest|);
      var n: nat :| 0 < n <= want;
      written := written + rest[..n];
      rest := rest[n..];
      remaining := remaining - n;
    }
    r := Ok((written, rest));
  }

  // ---- the body, there and back ----

  lemma Base64Line(c: Codec, chunk: seq<byte>, rest: seq<byte>)
    requires Lawful(c) && chunk != []
    ensures var s := Encoded(c, chunk, true) + rest;
            && LineEnd(s) == |Encoded(c, chunk, true)|
            && Valid(s[..LineEnd(s)])
            && c.unbase64(StripEol(s[..LineEnd(s)])) == Some(chunk)
            && s[LineEnd(s)..] == rest
  {
    assert LawfulBase64(c, chunk);
    var b := c.base64(chunk);
    assert NEWLINE !in b && RETURN !in b;
    LineEndIs(b, rest);
    StripIs(b);
    AsciiIsValid(b + [NEWLINE]);
    var s := b + [NEWLINE] + rest;
    assert s[..|b| + 1] == b + [NEWLINE];
  }

  /** A body is received as the file it was made from, however either side split it. */
  lemma {:induction false} BodyRoundTrip(c: Codec, chunks: seq<seq<byte>>, limit: nat, base64: bool, rest: seq<byte>)
    requires Lawful(c) && Pieces(chunks, limit)
    ensures Received(c, Body(c, chunks, base64) + rest, |Flatten(chunks)|, limit, base64) == Ok((Flatten(chunks), rest))
    decreases |chunks|
  {
    hide Lawful; hide Valid;
    if chunks == [] {
      assert Body(c, chunks, base64) + rest == rest;
    } else {
      var chunk, more := chunks[0], chunks[1..];
      BodyRoundTrip(c, more, limit, base64, rest);
      var tail := Body(c, more, base64) + rest;
      assert Body(c, chunks, base64) + rest == Encoded(c, chunk, base64) + tail;
      if base64 {
        Base64Line(c, chunk, tail);
      } else {
        RawBody(c, chunks);
      }
    }
  }

  /** Unencoded, the body is the file. */
  lemma {:induction false} RawBody(c: Codec, chunks: seq<seq<byte>>)
    ensures Body(c, chunks, false) == Flatten(chunks)
    decreases |chunks|
  {
    if chunks != [] {
      RawBody(c, chunks[1..]);
    }
  }

  /** Cut anywhere, a body is refused, or all of the file is there. */
  ghost predicate RefusedOrWhole(r: Result<(seq<byte>, seq<byte>), string>, file: seq<byte>) {
    r.Err? || r.value.0 == file
  }

  lemma {:induction false} CutBody(c: Codec, chunks: seq<seq<byte>>, limit: nat, base64: bool, k: nat)
    requires Lawful(c) && Pieces(chunks, limit) && k <= |Body(c, chunks, base64)|
    ensures RefusedOrWhole(Received(c, Body(c, chunks, base64)[..k], |Flatten(chunks)|, limit, base64), Flatten(chunks))
    decreases |chunks|
  {
    hide Lawful; hide Valid;
    if !base64 {
      RawBody(c, chunks);
    } else if chunks != [] {
      var chunk, more := chunks[0], chunks[1..];
      var line, tail := Encoded(c, chunk, true), Body(c, more, true);
      var s := Body(c, chunks, true)[..k];
      if k >= |line| {
        assert s == line + tail[..k - |line|];
        Base64Line(c, chunk, tail[..k - |line|]);
        CutBody(c, more, limit, true, k - |line|);
      } else if k > 0 {
        assert s == c.base64(chunk)[..k];
        CutLine(c, chunk, k, |Flatten(chunks)|, limit);
        assert |Flatten(chunks)| == |chunk| ==> Flatten(more) == [];
      }
    }
  }

  /** The first line of a Base64 body, cut: less than its chunk comes of it, unless only the newline is gone. */
  lemma CutLine(c: Codec, chunk: seq<byte>, k: nat, remaining: nat, limit: nat)
    requires Lawful(c) && 0 < |chunk| <= remaining && 0 < k <= |c.base64(chunk)|
    ensures var r := Lines64(c, c.base64(chunk)[..k], remaining, limit);
            r.Ok? ==> remaining == |chunk| && r.value.0 == chunk
  {
    assert LawfulBase64(c, chunk);
    var b := c.base64(chunk);
    var s := b[..k];
    assert NEWLINE !in s && RETURN !in s by {
      assert forall i :: 0 <= i < k ==> s[i] == b[i];
    }
    LineEndIs(s, []);
    StripIs(s);
    assert s[..k] == s && s[k..] == [];
    if k == |b| {
      assert s == b;
    }
    hide Valid;
  }

  // ---- download: header, body, trailer ----

  const NO_HEADER := "sender produced no header"
  const BAD_HEADER := "invalid sender header"
  const BAD_TRAILER := "invalid sender trailer"
  const HASH_MISMATCH := "download verification failed"

  /** A line that starts a JSON object; others come from the remote shell's startup files. */
  predicate IsObject(line: seq<byte>) {
    var t := TrimStart(line);
    t != [] && t[0] == OPEN_BRACE
  }

  /** What the sender writes. */
  function Sent(c: Codec, file: seq<byte>, chunks: seq<seq<byte>>, base64: bool): seq<byte> {
    (c.header(|file|) + [NEWLINE]) + (Body(c, chunks, base64) + (c.trailer(c.hash(file)) + [NEWLINE]))
  }

  /** What it has written by the time it finds the file shorter than declared. */
  function Begun(c: Codec, size: nat, chunks: seq<seq<byte>>, base64: bool): seq<byte> {
    c.header(size) + [NEWLINE] + Body(c, chunks, base64)
  }

  /** Header, body and trailer of a file that had `size` bytes when it was looked at. */
  method RunTransferSend(c: Codec, file: seq<byte>, size: nat, base64: bool)
    returns (complete: bool, out: seq<byte>, ghost chunks: seq<seq<byte>>)
    ensures complete <==> size <= |file|
    ensures Pieces(chunks, if base64 then BASE64_TRANSFER_BUF_SIZE else TRANSFER_BUF_SIZE)
    ensures complete ==> Flatten(chunks) == file[..size] && out == Sent(c, file[..size], chunks, base64)
    ensures !complete ==> Flatten(chunks) == file && out == Begun(c, size, chunks, base64)
  {
    var body: seq<byte>;
    complete, body, chunks := SendBody(c, file, size, if base64 then BASE64_TRANSFER_BUF_SIZE else TRANSFER_BUF_SIZE, base64);
    if !complete {
      return false, c.header(size) + [NEWLINE] + body, chunks;
    }
    out := (c.header(size) + [NEWLINE]) + (body + (c.trailer(c.hash(file[..size])) + [NEWLINE]));
  }

  /** The declared size, and what follows the header line. */
  function Header(c: Codec, s: seq<byte>): Result<(nat, seq<byte>), string>
    decreases |s|
  {
    if s == [] then Err(NO_HEADER)
    else
      var line := s[..LineEnd(s)];
      if !Valid(line) then Err(NOT_UTF8)
      else if !IsObject(line) then Header(c, s[LineEnd(s)..])
      else
        match c.readHeader(Trim(line))
        case None => Err(BAD_HEADER)
        case Some(size) => Ok((size, s[LineEnd(s)..]))
  }

  /** The trailer line vouches for the body. */
  function Checked(c: Codec, body: seq<byte>, s: seq<byte>): Result<(seq<byte>, string), string> {
    var line := s[..LineEnd(s)];
    if !Valid(line) then Err(NOT_UTF8)
    else
      match c.readTrailer(Trim(line))
      case None => Err(BAD_TRAILER)
      case Some(h) => if h == c.hash(body) then Ok((body, h)) else Err(HASH_MISMATCH)
  }

  /** The file a receiver accepts, and its hash. */
  function Download(c: Codec, s: seq<byte>, base64: bool): Result<(seq<byte>, string), string> {
    match Header(c, s)
    case Err(e) => Err(e)
    case Ok(header) =>
      match Received(c, header.1, header.0, header.0, base64)
      case Err(e) => Err(e)
      case Ok(body) => Checked(c, body.0, body.1)
  }

  method ReceiveStream(c: Codec, input: seq<byte>, base64: bool) returns (r: Result<(seq<byte>, string), string>)
    ensures r == Download(c, input, base64)
  {
    hide Valid; hide IsObject; hide Trim; hide Received;
    var rest := input;
    var line: seq<byte> := [];
    while true
      invariant Header(c, input) == Header(c, rest)
      decreases |rest|
    {
      if rest == [] {
        return Err(NO_HEADER);
      }
      line := rest[..LineEnd(rest)];
      if !Valid(line) {
        return Err(NOT_UTF8);
      }
      if IsObject(line) {
        break;
      }
      rest := rest[LineEnd(rest)..];
    }
    var size := c.readHeader(Trim(line));
    if size.None? {
      return Err(BAD_HEADER);
    }
    var body := ReceiveBody(c, rest[LineEnd(rest)..], size.value, size.value, base64);
    if body.Err? {
      return Err(body.error);
    }
    var last := body.value.1[..LineEnd(body.value.1)];
    if !Valid(last) {
      return Err(NOT_UTF8);
    }
    var hash := c.readTrailer(Trim(last));
    if hash.None? {
      return Err(BAD_TRAILER);
    }
    r := if hash.value == c.hash(body.value.0) then Ok((body.value.0, hash.value)) else Err(HASH_MISMATCH);
  }

  // ---- JSON lines ----

  /** A JSON line trims to itself, with its newline or without. */
  lemma JsonLineTrims(line: seq<byte>)
    requires JsonLine(line)
    ensures Trim(line + [NEWLINE]) == line && IsObject(line + [NEWLINE])
    ensures Trim(line) == line && IsObject(line)
  {
    hide Valid;
    var whole := line + [NEWLINE];
    assert whole[..|line|] == line;
    assert WhiteTail(line) == 0 && TrimEnd(line) == line;
    assert WhiteTail(whole) == 1 && TrimEnd(whole) == line;
    TrimKeepsBrace(line);
    TrimKeepsBrace(whole);
  }

  /** A JSON line is an object line, with its newline or without, and trims to itself. */
  lemma JsonLineReads(line: seq<byte>, rest: seq<byte>)
    requires JsonLine(line)
    ensures var s := line + [NEWLINE] + rest;
            && LineEnd(s) == |line| + 1
            && s[..LineEnd(s)] == line + [NEWLINE] && s[LineEnd(s)..] == rest
            && Valid(line + [NEWLINE]) && IsObject(line + [NEWLINE]) && Trim(line + [NEWLINE]) == line
    ensures Trim(line) == line && IsObject(line) && LineEnd(line) == |line|
  {
    hide Valid; hide Trim; hide IsObject;
    LineEndIs(line, rest);
    AsciiIsValid([NEWLINE]);
    ValidConcat(line, [NEWLINE]);
    JsonLineTrims(line);
    var s := line + [NEWLINE] + rest;
    assert s[..|line| + 1] == line + [NEWLINE];
  }

  /** A beginning of a JSON line is an object line that trims to a beginning of it. */
  lemma JsonBeginning(line: seq<byte>, k: nat)
    requires JsonLine(line) && 0 < k <= |line|
    ensures IsObject(line[..k]) && LineEnd(line[..k]) == k
    ensures exists j :: 0 < j <= k && Trim(line[..k]) == line[..j]
  {
    hide Valid;
    var s := line[..k];
    TrimKeepsBrace(s);
    assert NEWLINE !in s by {
      assert forall i :: 0 <= i < k ==> s[i] == line[i];
    }
    LineEndIs(s, []);
    var t := Trim(s);
    assert line[..|t|] == s[..|t|] == t;
  }

  // ---- banners ----

  /** A line of startup output: text that starts no JSON object. */
  ghost predicate BannerLine(line: seq<byte>) {
    NEWLINE !in line && Valid(line + [NEWLINE]) && !IsObject(line + [NEWLINE])
  }

  function Banner(lines: seq<seq<byte>>): seq<byte> {
    if lines == [] then [] else lines[0] + [NEWLINE] + Banner(lines[1..])
  }

  ghost predicate BannerLines(lines: seq<seq<byte>>) {
    forall i :: 0 <= i < |lines| ==> BannerLine(lines[i])
  }

  lemma OneBanner(line: seq<byte>, rest: seq<byte>)
    requires BannerLine(line)
    ensures var s := line + [NEWLINE] + rest;
            LineEnd(s) == |line| + 1 && s[..LineEnd(s)] == line + [NEWLINE] && s[LineEnd(s)..] == rest
  {
    LineEndIs(line, rest);
    var s := line + [NEWLINE] + rest;
    assert s[..|line| + 1] == line + [NEWLINE];
  }

  /** Startup output is passed over. */
  lemma {:induction false} BannerIsSkipped(c: Codec, lines: seq<seq<byte>>, rest: seq<byte>)
    requires BannerLines(lines)
    ensures Header(c, Banner(lines) + rest) == Header(c, rest)
    decreases |lines|
  {
    hide Valid; hide IsObject;
    if lines == [] {
      assert Banner(lines) + rest == rest;
    } else {
      var more := Banner(lines[1..]) + rest;
      assert BannerLine(lines[0]);
      assert Banner(lines) + rest == lines[0] + [NEWLINE] + more;
      OneBanner(lines[0], more);
      BannerIsSkipped(c, lines[1..], rest);
    }
  }

  lemma TakeDrop(line: seq<byte>, n: nat, k: nat)
    requires n <= k <= |line|
    ensures line[n..][..k - n] == line[..k][n..]
  {
  }

  /** A beginning of a line that starts no object starts none. */
  lemma {:induction false} BeginningIsNoObject(line: seq<byte>, k: nat)
    requires k <= |line| && !IsObject(line)
    ensures !IsObject(line[..k])
    decreases |line|
  {
    var p := line[..k];
    var n := WhiteLead(p);
    if n > 0 {
      assert WhiteLead(line) == n;
      TakeDrop(line, n, k);
      BeginningIsNoObject(line[n..], k - n);
    }
  }

  /** Cut within the startup output, there is no header. */
  lemma {:induction false} CutBanner(c: Codec, lines: seq<seq<byte>>, k: nat)
    requires BannerLines(lines) && k <= |Banner(lines)|
    ensures Header(c, Banner(lines)[..k]).Err?
    decreases |lines|
  {
    hide Valid; hide IsObject;
    if lines != [] {
      var line := lines[0];
      assert BannerLine(line);
      var s := Banner(lines)[..k];
      if k > |line| {
        assert s == line + [NEWLINE] + Banner(lines[1..])[..k - |line| - 1];
        OneBanner(line, Banner(lines[1..])[..k - |line| - 1]);
        CutBanner(c, lines[1..], k - |line| - 1);
      } else if k > 0 {
        assert s == line[..k] == (line + [NEWLINE])[..k];
        BeginningIsNoObject(line + [NEWLINE], k);
        assert NEWLINE !in s by {
          assert forall i :: 0 <= i < k ==> s[i] == line[i];
        }
        LineEndIs(s, []);
        assert s[..k] == s && s[k..] == [];
      }
    }
  }

  // ---- downloads, whole and cut ----

  lemma {:induction false} PiecesFit(chunks: seq<seq<byte>>, limit: nat)
    requires Pieces(chunks, limit)
    ensures Pieces(chunks, |Flatten(chunks)|)
    decreases |chunks|
  {
    if chunks != [] {
      PiecesFit(chunks[1..], limit);
      forall i | 0 <= i < |chunks| ensures 0 < |chunks[i]| <= |Flatten(chunks)| {
        assert i > 0 ==> chunks[i] == chunks[1..][i - 1];
      }
    }
  }

  lemma HeaderReads(c: Codec, size: nat, rest: seq<byte>)
    requires Lawful(c)
    ensures Header(c, c.header(size) + [NEWLINE] + rest) == Ok((size, rest))
  {
    assert JsonLine(c.header(size)) && c.readHeader(c.header(size)) == Some(size);
    JsonLineReads(c.header(size), rest);
    hide Valid; hide Trim; hide IsObject;
  }

  lemma TrailerReads(c: Codec, body: seq<byte>)
    requires Lawful(c)
    ensures Checked(c, body, c.trailer(c.hash(body)) + [NEWLINE]) == Ok((body, c.hash(body)))
  {
    var t := c.trailer(c.hash(body));
    assert JsonLine(t) && c.readTrailer(t) == Some(c.hash(body));
    JsonLineReads(t, []);
    assert t + [NEWLINE] + [] == t + [NEWLINE];
    hide Valid; hide Trim;
  }

  /**
   A download round-trips: for every file, raw or in Base64 lines, whatever the sender's reads
   returned and whatever startup output came first, the receiver writes exactly the file.
   */
  lemma DownloadRoundTrip(c: Codec, file: seq<byte>, chunks: seq<seq<byte>>, limit: nat, base64: bool, banner: seq<seq<byte>>)
    requires Lawful(c) && Flatten(chunks) == file && Pieces(chunks, limit) && BannerLines(banner)
    ensures Download(c, Banner(banner) + Sent(c, file, chunks, base64), base64) == Ok((file, c.hash(file)))
  {
    hide Lawful; hide Valid; hide Received; hide Checked; hide BannerLines; hide Header;
    var last := c.trailer(c.hash(file)) + [NEWLINE];
    var rest := Body(c, chunks, base64) + last;
    BannerIsSkipped(c, banner, Sent(c, file, chunks, base64));
    HeaderReads(c, |file|, rest);
    PiecesFit(chunks, limit);
    BodyRoundTrip(c, chunks, |file|, base64, last);
    TrailerReads(c, file);
  }

  /** A body shorter than declared is refused. */
  lemma {:induction false} ShortBody(c: Codec, chunks: seq<seq<byte>>, size: nat, limit: nat, base64: bool)
    requires Lawful(c) && |Flatten(chunks)| < size && forall i :: 0 <= i < |chunks| ==> chunks[i] != []
    ensures Received(c, Body(c, chunks, base64), size, limit, base64).Err?
    decreases |chunks|
  {
    hide Lawful; hide Valid;
    if !base64 {
      RawBody(c, chunks);
    } else if chunks != [] {
      var chunk, more := chunks[0], chunks[1..];
      Base64Line(c, chunk, Body(c, more, true));
      ShortBody(c, more, size - |chunk|, limit, true);
    }
  }

  /** A file that shrinks while it is sent is refused, however much of it was sent. */
  lemma ShrunkFileIsRefused(c: Codec, size: nat, chunks: seq<seq<byte>>, limit: nat, base64: bool, banner: seq<seq<byte>>)
    requires Lawful(c) && |Flatten(chunks)| < size && Pieces(chunks, limit) && BannerLines(banner)
    ensures Download(c, Banner(banner) + Begun(c, size, chunks, base64), base64).Err?
  {
    hide Lawful; hide Valid; hide Received; hide Checked; hide BannerLines; hide Header;
    BannerIsSkipped(c, banner, Begun(c, size, chunks, base64));
    HeaderReads(c, size, Body(c, chunks, base64));
    ShortBody(c, chunks, size, size, base64);
  }

  /** Accepted, or not: if accepted, it is the file. */
  ghost predicate FailsOrIsWhole(r: Result<(seq<byte>, string), string>, file: seq<byte>) {
    r.Ok? ==> r.value.0 == file
  }

  /** Cut after the header line. */
  lemma CutAfterHeader(c: Codec, file: seq<byte>, chunks: seq<seq<byte>>, limit: nat, base64: bool, k: nat)
    requires Lawful(c) && Flatten(chunks) == file && Pieces(chunks, limit)
    requires k <= |Body(c, chunks, base64) + (c.trailer(c.hash(file)) + [NEWLINE])|
    ensures var s := (Body(c, chunks, base64) + (c.trailer(c.hash(file)) + [NEWLINE]))[..k];
            RefusedOrWhole(Received(c, s, |file|, |file|, base64), file)
  {
    hide Lawful; hide Valid; hide Received;
    var body, last := Body(c, chunks, base64), c.trailer(c.hash(file)) + [NEWLINE];
    PiecesFit(chunks, limit);
    if k >= |body| {
      assert (body + last)[..k] == body + last[..k - |body|];
      BodyRoundTrip(c, chunks, |file|, base64, last[..k - |body|]);
    } else {
      assert (body + last)[..k] == body[..k];
      CutBody(c, chunks, |file|, base64, k);
    }
  }

  /** Cut within the header line: no header, or a whole one with nothing after it. */
  lemma CutHeader(c: Codec, size: nat, k: nat)
    requires Lawful(c) && 0 < k <= |c.header(size)|
    ensures var h := Header(c, c.header(size)[..k]); h.Ok? ==> h == Ok((size, []))
  {
    var line := c.header(size);
    assert JsonLine(line) && c.readHeader(line) == Some(size);
    JsonBeginning(line, k);
    var s := line[..k];
    var j :| 0 < j <= k && Trim(s) == line[..j];
    assert j < |line| ==> c.readHeader(line[..j]).None?;
    assert s[..k] == s && s[k..] == [];
    if j == |line| {
      assert line[..j] == line;
    }
    hide Valid; hide Trim; hide IsObject;
  }

  lemma DownloadFrom(c: Codec, s: seq<byte>, size: nat, rest: seq<byte>, base64: bool, file: seq<byte>)
    requires Header(c, s) == Ok((size, rest)) && RefusedOrWhole(Received(c, rest, size, size, base64), file)
    ensures FailsOrIsWhole(Download(c, s, base64), file)
  {
    hide Valid; hide Trim; hide Received; hide Header;
  }

  /** On a download stream cut anywhere the receiver fails or has the whole file. */
  lemma CutDownload(c: Codec, file: seq<byte>, chunks: seq<seq<byte>>, limit: nat, base64: bool, banner: seq<seq<byte>>, k: nat)
    requires Lawful(c) && Flatten(chunks) == file && Pieces(chunks, limit) && BannerLines(banner)
    requires k <= |Banner(banner) + Sent(c, file, chunks, base64)|
    ensures FailsOrIsWhole(Download(c, (Banner(banner) + Sent(c, file, chunks, base64))[..k], base64), file)
  {
    hide Lawful; hide Valid; hide Received; hide Checked; hide BannerLines; hide Header; hide Pieces;
    var intro, line := Banner(banner), c.header(|file|);
    var stream := Sent(c, file, chunks, base64);
    var rest := Body(c, chunks, base64) + (c.trailer(c.hash(file)) + [NEWLINE]);
    if k <= |intro| {
      assert (intro + stream)[..k] == intro[..k];
      CutBanner(c, banner, k);
    } else {
      var k1 := k - |intro|;
      assert (intro + stream)[..k] == intro + stream[..k1];
      BannerIsSkipped(c, banner, stream[..k1]);
      if k1 <= |line| {
        assert stream[..k1] == line[..k1];
        CutHeader(c, |file|, k1);
        CutAfterHeader(c, file, chunks, limit, base64, 0);
        assert rest[..0] == [];
        if Header(c, line[..k1]).Ok? {
          DownloadFrom(c, intro + stream[..k1], |file|, [], base64, file);
        }
      } else {
        var k2 := k1 - |line| - 1;
        assert stream[..k1] == line + [NEWLINE] + rest[..k2];
        HeaderReads(c, |file|, rest[..k2]);
        CutAfterHeader(c, file, chunks, limit, base64, k2);
        DownloadFrom(c, intro + stream[..k1], |file|, rest[..k2], base64, file);
      }
    }
  }

  // ---- what is accepted, of any stream ----

  /** A Base64 body that is accepted came in lines of at least one and at most `limit` bytes, and is as long as was agreed. */
  lemma {:induction false} AcceptedInPieces(c: Codec, s: seq<byte>, size: nat, limit: nat) returns (chunks: seq<seq<byte>>)
    requires Lines64(c, s, size, limit).Ok?
    ensures Pieces(chunks, limit) && Flatten(chunks) == Lines64(c, s, size, limit).value.0
    ensures |Flatten(chunks)| == size
    decreases size
  {
    hide Valid;
    if size == 0 {
      chunks := [];
    } else {
      OneLine64(c, s, size, limit);
      var d := c.unbase64(StripEol(s[..LineEnd(s)])).value;
      var more := AcceptedInPieces(c, s[LineEnd(s)..], size - |d|, limit);
      chunks := [d] + more;
      assert chunks[1..] == more;
    }
  }

  lemma ReceivedHasItsSize(c: Codec, s: seq<byte>, size: nat, limit: nat, base64: bool)
    ensures var r := Received(c, s, size, limit, base64); r.Ok? ==> |r.value.0| == size
  {
    if base64 && Received(c, s, size, limit, base64).Ok? {
      var chunks := AcceptedInPieces(c, s, size, limit);
    }
  }

  /** The first line that starts an object is the header, or the download is refused for it. */
  lemma HeaderIsTheFirstObject(c: Codec, banner: seq<seq<byte>>, line: seq<byte>, rest: seq<byte>)
    requires BannerLines(banner) && NEWLINE !in line && Valid(line + [NEWLINE]) && IsObject(line + [NEWLINE])
    ensures var size := c.readHeader(Trim(line + [NEWLINE]));
            Header(c, Banner(banner) + (line + [NEWLINE] + rest)) ==
            if size.Some? then Ok((size.value, rest)) else Err(BAD_HEADER)
  {
    hide Valid; hide IsObject; hide Trim;
    var s := line + [NEWLINE] + rest;
    BannerIsSkipped(c, banner, s);
    LineEndIs(line, rest);
    assert s[..|line| + 1] == line + [NEWLINE];
  }

  /**
   Whatever the stream, a download that is accepted has the size its header declares and the hash
   that the line after its body names.
   */
  lemma AcceptedIsVouchedFor(c: Codec, s: seq<byte>, base64: bool)
    requires Download(c, s, base64).Ok?
    ensures Header(c, s).Ok?
    ensures var file, hash := Download(c, s, base64).value.0, Download(c, s, base64).value.1;
            var (size, rest) := Header(c, s).value;
            && |file| == size && hash == c.hash(file)
            && exists more :: Received(c, rest, size, size, base64) == Ok((file, more))
                              && c.readTrailer(Trim(more[..LineEnd(more)])) == Some(c.hash(file))
  {
    hide Valid; hide Trim; hide Received; hide Header;
    var (size, rest) := Header(c, s).value;
    ReceivedHasItsSize(c, rest, size, size, base64);
    var more := Received(c, rest, size, size, base64).value.1;
  }

  // ---- upload: body, report ----

  /** What a receiver writes to the staging file, and its report. */
  function Upload(c: Codec, s: seq<byte>, declared: nat, base64: bool): Result<(seq<byte>, seq<byte>), string> {
    match Received(c, s, declared, BASE64_TRANSFER_BUF_SIZE, base64)
    case Err(e) => Err(e)
    case Ok(body) => Ok((body.0, c.report(declared, c.hash(body.0)) + [NEWLINE]))
  }

  method RunTransferReceive(c: Codec, input: seq<byte>, declared: nat, base64: bool)
    returns (r: Result<(seq<byte>, seq<byte>), string>)
    ensures r == Upload(c, input, declared, base64)
  {
    hide Received;
    var body := ReceiveBody(c, input, declared, BASE64_TRANSFER_BUF_SIZE, base64);
    if body.Err? {
      return Err(body.error);
    }
    r := Ok((body.value.0, c.report(declared, c.hash(body.value.0)) + [NEWLINE]));
  }

  /** The last line of the output that starts a JSON object. */
  function LastObject(out: seq<byte>): Option<seq<byte>>
    decreases |out|
  {
    if out == [] then None
    else
      var later := LastObject(out[LineEnd(out)..]);
      if later.Some? then later
      else if IsObject(out[..LineEnd(out)]) then Some(out[..LineEnd(out)])
      else None
  }

  /** The sender takes the upload for good: the report names the size and the hash it sent. */
  predicate Confirmed(c: Codec, out: seq<byte>, file: seq<byte>) {
    && Valid(out)
    && LastObject(out).Some?
    && c.readReport(Trim(LastObject(out).value)) == Some((|file|, c.hash(file)))
  }

  lemma {:induction false} BannerBeforeReport(lines: seq<seq<byte>>, rest: seq<byte>)
    requires BannerLines(lines) && LastObject(rest).Some? && Valid(rest)
    ensures LastObject(Banner(lines) + rest) == LastObject(rest)
    ensures Valid(Banner(lines) + rest)
    decreases |lines|
  {
    hide Valid; hide IsObject;
    if lines == [] {
      assert Banner(lines) + rest == rest;
    } else {
      var more := Banner(lines[1..]) + rest;
      assert BannerLine(lines[0]);
      assert Banner(lines) + rest == lines[0] + [NEWLINE] + more;
      OneBanner(lines[0], more);
      BannerBeforeReport(lines[1..], rest);
      ValidConcat(lines[0] + [NEWLINE], more);
    }
  }

  lemma ReportReads(c: Codec, size: nat, hash: string)
    requires Lawful(c)
    ensures var out := c.report(size, hash) + [NEWLINE];
            && Valid(out) && LastObject(out) == Some(out)
            && c.readReport(Trim(out)) == Some((size, hash))
  {
    var line := c.report(size, hash);
    assert JsonLine(line) && c.readReport(line) == Some((size, hash));
    JsonLineReads(line, []);
    assert line + [NEWLINE] + [] == line + [NEWLINE];
    hide Valid; hide Trim; hide IsObject;
    assert LastObject([]) == None;
  }

  /**
   An upload round-trips: whatever either side's reads return and whatever startup output precedes
   the report, the staging file is exactly the file and the sender is told so.
   */
  lemma UploadRoundTrip(c: Codec, file: seq<byte>, chunks: seq<seq<byte>>, base64: bool, banner: seq<seq<byte>>)
    requires Lawful(c) && Flatten(chunks) == file && BannerLines(banner)
    requires Pieces(chunks, if base64 then BASE64_TRANSFER_BUF_SIZE else TRANSFER_BUF_SIZE)
    ensures var r := Upload(c, Body(c, chunks, base64), |file|, base64);
            && r.Ok? && r.value.0 == file
            && Confirmed(c, Banner(banner) + r.value.1, file)
  {
    hide Lawful; hide Valid; hide Received; hide IsObject; hide Trim; hide LastObject; hide BannerLines;
    if base64 {
      BodyRoundTrip(c, chunks, BASE64_TRANSFER_BUF_SIZE, base64, []);
    } else {
      BodyRoundTrip(c, chunks, TRANSFER_BUF_SIZE, base64, []);
      RawIgnoresLimit(c, Body(c, chunks, base64), |file|, TRANSFER_BUF_SIZE);
    }
    assert Body(c, chunks, base64) + [] == Body(c, chunks, base64);
    ReportReads(c, |file|, c.hash(file));
    BannerBeforeReport(banner, c.report(|file|, c.hash(file)) + [NEWLINE]);
  }

  lemma RawIgnoresLimit(c: Codec, s: seq<byte>, size: nat, limit: nat)
    ensures Received(c, s, size, limit, false) == Received(c, s, size, BASE64_TRANSFER_BUF_SIZE, false)
  {
  }

  /** A report confirms an upload exactly if it names both the size and the hash that were sent. */
  lemma ConfirmedExactly(c: Codec, size: nat, hash: string, file: seq<byte>, banner: seq<seq<byte>>)
    requires Lawful(c) && BannerLines(banner)
    ensures Confirmed(c, Banner(banner) + (c.report(size, hash) + [NEWLINE]), file) <==> size == |file| && hash == c.hash(file)
  {
    hide Lawful; hide Valid; hide IsObject; hide Trim; hide LastObject; hide BannerLines;
    ReportReads(c, size, hash);
    BannerBeforeReport(banner, c.report(size, hash) + [NEWLINE]);
  }

  /** A confirmed upload is the file, if the hash tells files apart. */
  lemma ConfirmedIsTheFile(c: Codec, input: seq<byte>, file: seq<byte>, base64: bool, banner: seq<seq<byte>>)
    requires Lawful(c) && BannerLines(banner)
    requires forall a: seq<byte>, b: seq<byte> :: c.hash(a) == c.hash(b) ==> a == b
    requires Upload(c, input, |file|, base64).Ok?
    requires Confirmed(c, Banner(banner) + Upload(c, input, |file|, base64).value.1, file)
    ensures Upload(c, input, |file|, base64).value.0 == file
  {
    hide Valid; hide Received; hide IsObject; hide Trim; hide LastObject; hide BannerLines;
    var r := Upload(c, input, |file|, base64).value;
    ReportReads(c, |file|, c.hash(r.0));
    BannerBeforeReport(banner, r.1);
    assert c.hash(r.0) == c.hash(file);
  }

  // ---- the laws can be met ----

  const ZERO: byte := 0x30
  const ONE: byte := 0x31

  function Zeros(n: nat): (s: seq<byte>)
    ensures |s| == n && forall i :: 0 <= i < n ==> s[i] == ZERO
  {
    seq(n, i => ZERO)
  }

  /** A text, character by character, in zeros and ones. */
  function Tally(h: string): (s: seq<byte>)
    ensures forall i :: 0 <= i < |s| ==> s[i] == ZERO || s[i] == ONE
  {
    if h == "" then [] else Zeros(h[0] as int) + [ONE] + Tally(h[1..])
  }

  function LeadingZeros(s: seq<byte>): (n: nat)
    ensures n <= |s|
  {
    if s != [] && s[0] == ZERO then 1 + LeadingZeros(s[1..]) else 0
  }

  lemma {:induction false} LeadingZerosOf(n: nat, a: seq<byte>)
    ensures LeadingZeros(Zeros(n) + [ONE] + a) == n
  {
    var s := Zeros(n) + [ONE] + a;
    if n > 0 {
      assert s[1..] == Zeros(n - 1) + [ONE] + a;
      LeadingZerosOf(n - 1, a);
    }
  }

  lemma ZerosAreCounted(n: nat, m: nat, a: seq<byte>, b: seq<byte>)
    requires Zeros(n) + [ONE] + a == Zeros(m) + [ONE] + b
    ensures n == m && a == b
  {
    LeadingZerosOf(n, a);
    LeadingZerosOf(m, b);
    assert (Zeros(n) + [ONE] + a)[n + 1..] == a && (Zeros(m) + [ONE] + b)[m + 1..] == b;
  }

  lemma {:induction false} TallyIsInjective(h: string, g: string)
    requires Tally(h) == Tally(g)
    ensures h == g
    decreases |h|
  {
    if h != "" && g != "" {
      ZerosAreCounted(h[0] as int, g[0] as int, Tally(h[1..]), Tally(g[1..]));
      TallyIsInjective(h[1..], g[1..]);
      assert h == [h[0]] + h[1..] && g == [g[0]] + g[1..];
    }
  }

  function Enclosed(s: seq<byte>): seq<byte> {
    [OPEN_BRACE] + s + [CLOSE_BRACE]
  }

  lemma EnclosedIsJson(s: seq<byte>)
    requires forall i :: 0 <= i < |s| ==> s[i] == ZERO || s[i] == ONE
    ensures JsonLine(Enclosed(s))
  {
    AsciiIsValid(Enclosed(s));
    hide Valid;
  }

  lemma EnclosedIsInjective(s: seq<byte>, t: seq<byte>)
    requires Enclosed(s) == Enclosed(t)
    ensures s == t
  {
    assert Enclosed(s)[1..|s| + 1] == s && Enclosed(t)[1..|t| + 1] == t;
  }

  function Nibbles(b: seq<byte>): (s: seq<byte>)
    ensures |s| == 2 * |b| && forall i :: 0 <= i < |s| ==> 0x40 <= s[i] <= 0x4F
  {
    if b == [] then [] else [0x40 + b[0] / 16, 0x40 + b[0] % 16] + Nibbles(b[1..])
  }

  function OfNibbles(s: seq<byte>): (b: Option<seq<byte>>)
    ensures b.Some? ==> |s| == 2 * |b.value|
    decreases |s|
  {
    if s == [] then Some([])
    else if |s| < 2 || !Between(s[0], 0x40, 0x4F) || !Between(s[1], 0x40, 0x4F) then None
    else
      match OfNibbles(s[2..])
      case None => None
      case Some(rest) => Some([(s[0] - 0x40) * 16 + (s[1] - 0x40)] + rest)
  }

  lemma NoPair()
    ensures OfNibbles([]) == Some([])
  {
  }

  lemma OnePair(high: byte, low: byte, rest: seq<byte>)
    requires high <= 15 && low <= 15
    ensures OfNibbles([0x40 + high, 0x40 + low] + rest) ==
            match OfNibbles(rest) case None => None case Some(b) => Some([high * 16 + low] + b)
  {
    hide OfNibbles;
    var s := [0x40 + high, 0x40 + low] + rest;
    assert s[2..] == rest;
    NextPair(s);
    assert s[0] - 0x40 == high && s[1] - 0x40 == low;
  }

  lemma NextPair(s: seq<byte>)
    requires |s| >= 2 && Between(s[0], 0x40, 0x4F) && Between(s[1], 0x40, 0x4F)
    ensures OfNibbles(s) == match OfNibbles(s[2..]) case None => None
                            case Some(b) => Some([(s[0] - 0x40) * 16 + (s[1] - 0x40)] + b)
  {
  }

  lemma HighAndLow(x: byte)
    ensures x / 16 <= 15 && x % 16 <= 15 && (x / 16) * 16 + x % 16 == x
  {
  }

  lemma {:induction false} NibblesReadBack(b: seq<byte>)
    ensures OfNibbles(Nibbles(b)) == Some(b)
  {
    hide OfNibbles;
    if b == [] {
      NoPair();
    } else {
      var rest := Nibbles(b[1..]);
      NibblesReadBack(b[1..]);
      assert Nibbles(b) == [0x40 + b[0] / 16, 0x40 + b[0] % 16] + rest;
      HighAndLow(b[0]);
      OnePair(b[0] / 16, b[0] % 16, rest);
      assert [b[0]] + b[1..] == b;
    }
  }

  function Header0(n: nat): seq<byte> {
    Enclosed(Zeros(n))
  }

  function ReadHeader0(s: seq<byte>): Option<nat> {
    if |s| >= 2 && s == Header0(|s| - 2) then Some(|s| - 2) else None
  }

  function Trailer0(h: string): seq<byte> {
    Enclosed(Tally(h))
  }

  function Report0(n: nat, h: string): seq<byte> {
    Enclosed(Zeros(n) + [ONE] + Tally(h))
  }

  ghost function ReadTrailer0(s: seq<byte>): Option<string> {
    if exists h :: s == Trailer0(h) then
      var h :| s == Trailer0(h);
      Some(h)
    else None
  }

  ghost function ReadReport0(s: seq<byte>): Option<(nat, string)> {
    if exists n, h :: s == Report0(n, h) then
      var n, h :| s == Report0(n, h);
      Some((n, h))
    else None
  }

  lemma Header0IsLawful(n: nat, k: nat)
    ensures JsonLine(Header0(n)) && ReadHeader0(Header0(n)) == Some(n)
    ensures 0 < k < |Header0(n)| ==> ReadHeader0(Header0(n)[..k]).None?
  {
    EnclosedIsJson(Zeros(n));
    hide Valid;
    if 2 <= k < |Header0(n)| {
      assert Header0(n)[..k][k - 1] == Header0(n)[k - 1] == ZERO;
      assert Header0(k - 2)[k - 1] == CLOSE_BRACE;
    }
  }

  lemma Trailer0IsLawful(h: string)
    ensures JsonLine(Trailer0(h)) && ReadTrailer0(Trailer0(h)) == Some(h)
  {
    EnclosedIsJson(Tally(h));
    hide Valid;
    forall g | Trailer0(g) == Trailer0(h) ensures g == h {
      EnclosedIsInjective(Tally(g), Tally(h));
      TallyIsInjective(g, h);
    }
  }

  lemma Report0IsLawful(n: nat, h: string)
    ensures JsonLine(Report0(n, h)) && ReadReport0(Report0(n, h)) == Some((n, h))
  {
    EnclosedIsJson(Zeros(n) + [ONE] + Tally(h));
    hide Valid;
    forall m: nat, g | Report0(m, g) == Report0(n, h) ensures m == n && g == h {
      EnclosedIsInjective(Zeros(m) + [ONE] + Tally(g), Zeros(n) + [ONE] + Tally(h));
      ZerosAreCounted(m, n, Tally(g), Tally(h));
      TallyIsInjective(g, h);
    }
  }

  ghost function Example(): Codec {
    Codec(Header0, ReadHeader0, Trailer0, s => ReadTrailer0(s), Report0, s => ReadReport0(s), Nibbles, OfNibbles, s => "")
  }

  lemma NibblesAreLawful(b: seq<byte>)
    ensures LawfulBase64(Example(), b)
  {
    NibblesReadBack(b);
  }

  /** Some codec meets every law assumed here. */
  lemma LawsAreConsistent()
    ensures Lawful(Example())
  {
    hide JsonLine; hide Header0; hide ReadHeader0; hide Trailer0; hide ReadTrailer0; hide Report0; hide ReadReport0;
    hide LawfulBase64;
    var c := Example();
    forall n: nat ensures JsonLine(c.header(n)) && c.readHeader(c.header(n)) == Some(n) {
      Header0IsLawful(n, 0);
      assert c.header(n) == Header0(n);
    }
    forall n: nat, k | 0 < k < |c.header(n)| ensures c.readHeader(c.header(n)[..k]).None? {
      Header0IsLawful(n, k);
      assert c.header(n) == Header0(n);
    }
    forall h ensures JsonLine(c.trailer(h)) && c.readTrailer(c.trailer(h)) == Some(h) {
      Trailer0IsLawful(h);
      assert c.trailer(h) == Trailer0(h);
    }
    forall n: nat, h ensures JsonLine(c.report(n, h)) && c.readReport(c.report(n, h)) == Some((n, h)) {
      Report0IsLawful(n, h);
      assert c.report(n, h) == Report0(n, h);
    }
    forall b ensures LawfulBase64(c, b) {
      NibblesAreLawful(b);
    }
  }
}
