/**
 `read`: a page of a text file from a byte offset, cut at a character boundary, through either of
 its two branches -- the file read whole, or a window of it.
 */
module Paging {
  import opened Arithmetic
  import opened Options
  import opened Records
  import opened Utf8
  import Replace

  const READ_DEFAULT_LIMIT: nat := 65536
  const READ_MAX_LIMIT: nat := 64 * 1024
  const UTF8_TAIL_SLACK: nat := 3

  datatype Page = Page(content: seq<byte>, truncated: bool, nextOffset: Option<nat>)

  const BAD_LIMIT := ProtocolError(InvalidRequest, "read limit must be between 1 and 65536 bytes")
  const PAST_END := ProtocolError(InvalidRequest, "offset is past end of file")
  const NOT_A_BOUNDARY := ProtocolError(InvalidRequest, "offset is not on a UTF-8 character boundary")
  const NOT_TEXT := ProtocolError(InvalidRequest, "file is not valid UTF-8; binary reads are not supported")

  /** The first character boundary of `window` at or after `at`, or its end. */
  function Boundary(window: seq<byte>, at: nat): (end: nat)
    requires at <= |window|
    ensures at <= end <= |window|
    ensures forall i :: at <= i < end ==> IsContinuation(window[i])
    ensures end < |window| ==> !IsContinuation(window[end])
    decreases |window| - at
  {
    if at < |window| && IsContinuation(window[at]) then Boundary(window, at + 1) else at
  }

  /** The bytes a page is made from: the limit and enough slack to finish a character. */
  function Window(file: seq<byte>, start: nat, limit: nat): seq<byte>
    requires start <= |file|
  {
    file[start..Min(|file|, start + limit + UTF8_TAIL_SLACK)]
  }

  /** What a request for a page is answered with. */
  function PageOf(file: seq<byte>, start: nat, limit: nat): Result<Page, ProtocolError> {
    if limit == 0 || limit > READ_MAX_LIMIT then Err(BAD_LIMIT)
    else if start > |file| then Err(PAST_END)
    else
      var window := Window(file, start, limit);
      if window != [] && IsContinuation(window[0]) then Err(NOT_A_BOUNDARY)
      else
        var end := Boundary(window, Min(|window|, limit));
        if !Valid(window[..end]) then Err(NOT_TEXT)
        else
          var truncated := start + end < |file|;
          Ok(Page(window[..end], truncated, if truncated then Some(start + end) else None))
  }

  /** A page and, with a file small enough to be edited, the hash an edit of it is to name. */
  datatype Reading = Reading(page: Page, hash: Option<string>)

  function HashFor(file: seq<byte>, hash: seq<byte> -> string): Option<string> {
    if |file| <= Replace.MAX_TEXT_BYTES then Some(hash(file)) else None
  }

  /**
   A small file is read whole, hashed and cut; a large one has only the window read. Both give the
   same bytes.
   */
  method Fetch(file: seq<byte>, start: nat, limit: nat, hash: seq<byte> -> string)
    returns (r: Result<(seq<byte>, Option<string>), ProtocolError>)
    ensures r == if start > |file| then Err(PAST_END) else Ok((Window(file, start, limit), HashFor(file, hash)))
  {
    if |file| <= Replace.MAX_TEXT_BYTES {
      var whole := file;
      if start > |whole| {
        return Err(PAST_END);
      }
      r := Ok((whole[start..Min(|whole|, start + limit + UTF8_TAIL_SLACK)], Some(hash(whole))));
    } else {
      if start > |file| {
        return Err(PAST_END);
      }
      var rest := file[start..];
      assert rest[..Min(|rest|, limit + UTF8_TAIL_SLACK)] == Window(file, start, limit);
      r := Ok((rest[..Min(|rest|, limit + UTF8_TAIL_SLACK)], None));
    }
  }

  /** Cut at the limit, then walk forward to the next boundary. */
  method Cut(window: seq<byte>, limit: nat) returns (end: nat)
    ensures end == Boundary(window, Min(|window|, limit))
  {
    end := Min(|window|, limit);
    while end < |window| && IsContinuation(window[end])
      invariant Min(|window|, limit) <= end <= |window|
      invariant Boundary(window, Min(|window|, limit)) == Boundary(window, end)
    {
      end := end + 1;
    }
  }

  method Read(file: seq<byte>, offset: Option<nat>, limit: Option<nat>, hash: seq<byte> -> string)
    returns (r: Result<Reading, ProtocolError>)
    ensures var page := PageOf(file, if offset.Some? then offset.value else 0,
                               if limit.Some? then limit.value else READ_DEFAULT_LIMIT);
            && (page.Err? ==> r == Err(page.error))
            && (page.Ok? ==> r == Ok(Reading(page.value, HashFor(file, hash))))
    ensures limit.None? ==>
              var page := PageOf(file, if offset.Some? then offset.value else 0, 65536);
              r == if page.Err? then Err(page.error) else Ok(Reading(page.value, HashFor(file, hash)))
    ensures r.Ok? ==> r.value.hash == if |file| <= 4194304 then Some(hash(file)) else None
    ensures r == Err(BAD_LIMIT) <==> limit.Some? && !(1 <= limit.value <= 65536)
    // the hash that comes with a page is one an edit of the file as it was read accepts
    ensures r.Ok? && r.value.hash.Some? && Replace.WellFormedHash(hash(file)) ==> Replace.Accepts(file, r.value.hash.value, hash)
  {
    hide Valid; hide IsContinuation; hide Boundary; hide Replace.WellFormedHash;
    var size := if limit.Some? then limit.value else READ_DEFAULT_LIMIT;
    if size == 0 || size > READ_MAX_LIMIT {
      return Err(BAD_LIMIT);
    }
    var start := if offset.Some? then offset.value else 0;
    var fetched := Fetch(file, start, size, hash);
    if fetched.Err? {
      return Err(fetched.error);
    }
    var window := fetched.value.0;
    if window != [] && IsContinuation(window[0]) {
      return Err(NOT_A_BOUNDARY);
    }
    var end := Cut(window, size);
    if !Valid(window[..end]) {
      return Err(NOT_TEXT);
    }
    var next := start + end;
    var truncated := next < |file|;
    r := Ok(Reading(Page(window[..end], truncated, if truncated then Some(next) else None), fetched.value.1));
  }

  // ---- one page ----

  /** A page is part of the file, at most `limit + 3` bytes of it, and never empty before the end. */
  lemma PageIsPartOfTheFile(file: seq<byte>, start: nat, limit: nat)
    requires PageOf(file, start, limit).Ok?
    ensures var page := PageOf(file, start, limit).value;
            && |page.content| <= limit + UTF8_TAIL_SLACK
            && start + |page.content| <= |file|
            && page.content == file[start..start + |page.content|]
            && Valid(page.content)
            && (start < |file| ==> |page.content| > 0)
            && (page.truncated <==> start + |page.content| < |file|)
            && (page.nextOffset == if page.truncated then Some(start + |page.content|) else None)
  {
  }

  /** Exactly when what is left of a file whose pages so far were text is text, its pages are too. */
  lemma PageOfText(file: seq<byte>, start: nat, limit: nat)
    requires 0 < limit <= READ_MAX_LIMIT && start <= |file| && Valid(file[start..])
    ensures PageOf(file, start, limit).Ok?
    ensures Valid(file[start + |PageOf(file, start, limit).value.content|..])
  {
    hide Valid; hide IsContinuation;
    var rest := file[start..];
    var window := Window(file, start, limit);
    assert forall i :: 0 <= i < |window| ==> window[i] == rest[i];
    if window != [] {
      ValidStarts(rest);
    }
    var end := Boundary(window, Min(|window|, limit));
    if end == |window| && |window| < |rest| {
      SlackReachesBoundary(rest, limit, window);
    }
    assert end < |rest| ==> !IsContinuation(rest[end]);
    ValidCut(rest, end);
    assert rest[..end] == window[..end];
    assert rest[end..] == file[start + end..];
  }

  /** Slack is enough: the window ends inside no character of valid text. */
  lemma SlackReachesBoundary(rest: seq<byte>, limit: nat, window: seq<byte>)
    requires Valid(rest) && |window| == limit + UTF8_TAIL_SLACK < |rest| && window == rest[..|window|]
    requires Boundary(window, limit) == |window|
    ensures !IsContinuation(rest[|window|])
  {
    hide Valid; hide IsContinuation;
    BoundaryIsNear(rest, limit);
    forall j | limit <= j < |window| ensures IsContinuation(rest[j]) {
      assert window[j] == rest[j];
    }
    var j :| limit <= j <= limit + 3 && !IsContinuation(rest[j]);
  }

  /** Where a page of `limit` bytes ends: no character begins between there and the limit. */
  ghost predicate EndsAt(file: seq<byte>, start: nat, limit: nat, end: nat)
    requires start <= |file|
  {
    && Min(|file|, start + limit) <= end <= Min(|file|, start + limit + 3)
    && (forall i :: start + limit <= i < end ==> IsContinuation(file[i]))
    && (end == Min(|file|, start + limit + 3) || !IsContinuation(file[end]))
  }

  /** Why a page is refused, and in which order: each refusal has its own cause, and there is no other. */
  lemma RefusedExactlyWhen(file: seq<byte>, start: nat, limit: nat)
    ensures var r := PageOf(file, start, limit);
            var asked := 1 <= limit <= 65536;
            && (r == Err(BAD_LIMIT) <==> !asked)
            && (r == Err(PAST_END) <==> asked && start > |file|)
            && (r == Err(NOT_A_BOUNDARY) <==> asked && start < |file| && IsContinuation(file[start]))
            && (asked && start <= |file| && (start < |file| ==> !IsContinuation(file[start])) ==>
                  exists end: nat :: EndsAt(file, start, limit, end)
                                && (r == Err(NOT_TEXT) <==> !Valid(file[start..end]))
                                && (r.Ok? <==> Valid(file[start..end]))
                                && (r.Ok? ==> r.value.content == file[start..end]))
  {
    hide Valid; hide IsContinuation;
    if 1 <= limit <= 65536 && start <= |file| {
      var window := Window(file, start, limit);
      assert forall i :: 0 <= i < |window| ==> window[i] == file[start + i];
      var end := Boundary(window, Min(|window|, limit));
      assert window[..end] == file[start..start + end];
      EndOfPage(file, start, limit, window);
    }
  }

  lemma EndOfPage(file: seq<byte>, start: nat, limit: nat, window: seq<byte>)
    requires start <= |file| && window == Window(file, start, limit)
    ensures EndsAt(file, start, limit, start + Boundary(window, Min(|window|, limit)))
  {
    hide IsContinuation;
    var end := Boundary(window, Min(|window|, limit));
    assert forall i :: 0 <= i < |window| ==> window[i] == file[start + i];
    forall i | start + limit <= i < start + end ensures IsContinuation(file[i]) {
      assert window[i - start] == file[i];
    }
  }

  /** A text of at most 64 KiB is one page. */
  lemma SmallTextIsOnePage(file: seq<byte>)
    requires |file| <= 65536 && Valid(file)
    ensures PageOf(file, 0, READ_DEFAULT_LIMIT) == Ok(Page(file, false, None))
  {
    hide Valid; hide IsContinuation;
    if file != [] {
      ValidStarts(file);
    }
    assert Window(file, 0, READ_DEFAULT_LIMIT) == file;
    assert file[..|file|] == file;
  }

  // ---- all pages ----

  /** Follow `next_offset` from `start`, page `i` asked for with `limits[i]`. */
  function Follow(file: seq<byte>, start: nat, limits: seq<nat>): (r: Result<seq<Page>, ProtocolError>)
    ensures r.Ok? ==> |r.value| <= |limits|
    decreases |limits|
  {
    if limits == [] then Ok([])
    else
      match PageOf(file, start, limits[0])
      case Err(e) => Err(e)
      case Ok(page) =>
        if page.nextOffset.None? then Ok([page])
        else
          match Follow(file, page.nextOffset.value, limits[1..])
          case Err(e) => Err(e)
          case Ok(rest) => Ok([page] + rest)
  }

  function Concat(pages: seq<Page>): seq<byte> {
    if pages == [] then [] else pages[0].content + Concat(pages[1..])
  }

  predicate ReachesTheEnd(pages: seq<Page>) {
    pages != [] && pages[|pages| - 1].nextOffset.None?
  }

  ghost predicate InRange(limits: seq<nat>) {
    forall i :: 0 <= i < |limits| ==> 0 < limits[i] <= READ_MAX_LIMIT
  }

  /** Pages that reach the end are the rest of the file, and it is text. */
  lemma {:induction false} PagesAreTheFile(file: seq<byte>, start: nat, limits: seq<nat>)
    requires start <= |file| && Follow(file, start, limits).Ok? && ReachesTheEnd(Follow(file, start, limits).value)
    ensures Concat(Follow(file, start, limits).value) == file[start..]
    ensures Valid(file[start..])
    decreases |limits|
  {
    hide Valid; hide PageOf;
    var page := PageOf(file, start, limits[0]).value;
    PageIsPartOfTheFile(file, start, limits[0]);
    if page.nextOffset.None? {
      assert [page][1..] == [];
      assert page.content == file[start..];
    } else {
      var next := page.nextOffset.value;
      var rest := Follow(file, next, limits[1..]).value;
      assert ([page] + rest)[1..] == rest;
      assert ReachesTheEnd(rest);
      PagesAreTheFile(file, next, limits[1..]);
      ValidConcat(page.content, file[next..]);
      assert page.content + file[next..] == file[start..];
    }
  }

  /** Of a text every page is served, and enough of them reach the end. */
  lemma {:induction false} PagesOfText(file: seq<byte>, start: nat, limits: seq<nat>)
    requires start <= |file| && Valid(file[start..]) && InRange(limits) && |limits| > |file| - start
    ensures Follow(file, start, limits).Ok? && ReachesTheEnd(Follow(file, start, limits).value)
    decreases |limits|
  {
    hide Valid; hide PageOf;
    PageOfText(file, start, limits[0]);
    PageIsPartOfTheFile(file, start, limits[0]);
    var page := PageOf(file, start, limits[0]).value;
    if page.nextOffset.Some? {
      PagesOfText(file, page.nextOffset.value, limits[1..]);
    }
  }

  /**
   Reading page by page is lossless: with limits in range, and one page more than there are bytes
   left to spend, following `next_offset` from 0 reaches the end exactly if the file is valid
   UTF-8, and the pages are then the file.
   */
  lemma PagingIsLossless(file: seq<byte>, limits: seq<nat>)
    requires InRange(limits) && |limits| > |file|
    ensures var r := Follow(file, 0, limits);
            && (r.Ok? && ReachesTheEnd(r.value) <==> Valid(file))
            && (Valid(file) ==> Concat(r.value) == file)
  {
    assert file[0..] == file;
    if Valid(file) {
      PagesOfText(file, 0, limits);
    }
    if Follow(file, 0, limits).Ok? && ReachesTheEnd(Follow(file, 0, limits).value) {
      PagesAreTheFile(file, 0, limits);
    }
  }
}
