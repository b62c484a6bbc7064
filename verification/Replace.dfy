/** `edit`: exact replacements applied one after the other, with the size checked before each. */
module Replace {
  import opened Arithmetic
  import opened Options
  import opened Records
  import opened Replay
  import opened Utf8

  const MAX_TEXT_BYTES: nat := 4194304
  const MAX_EDITS: nat := 100
  const USIZE_MAX: nat := 0xFFFF_FFFF_FFFF_FFFF

  datatype EditSpec = EditSpec(oldText: seq<byte>, newText: seq<byte>, replaceAll: bool)

  // ---- matching and replacing ----

  predicate StartsWith(text: seq<byte>, pat: seq<byte>) {
    |pat| <= |text| && text[..|pat|] == pat
  }

  /** `text.matches(pat).count()`: leftmost first, not overlapping. */
  function Count(text: seq<byte>, pat: seq<byte>): nat
    requires pat != []
    decreases |text|
  {
    if text == [] then 0
    else if StartsWith(text, pat) then 1 + Count(text[|pat|..], pat)
    else Count(text[1..], pat)
  }

  /** `text.replacen(pat, sub, n)`. */
  function ReplaceN(text: seq<byte>, pat: seq<byte>, sub: seq<byte>, n: nat): seq<byte>
    requires pat != []
    decreases |text|
  {
    if text == [] || n == 0 then text
    else if StartsWith(text, pat) then sub + ReplaceN(text[|pat|..], pat, sub, n - 1)
    else [text[0]] + ReplaceN(text[1..], pat, sub, n)
  }

  function Replaced(text: seq<byte>, e: EditSpec): seq<byte>
    requires e.oldText != []
  {
    ReplaceN(text, e.oldText, e.newText, if e.replaceAll then Count(text, e.oldText) else 1)
  }

  // ---- the same by cutting the text at its matches ----

  /** The text between the matches. */
  function Split(text: seq<byte>, pat: seq<byte>): (parts: seq<seq<byte>>)
    requires pat != []
    ensures parts != []
    decreases |text|
  {
    if text == [] then [[]]
    else if StartsWith(text, pat) then [[]] + Split(text[|pat|..], pat)
    else
      var rest := Split(text[1..], pat);
      [[text[0]] + rest[0]] + rest[1..]
  }

  function Join(parts: seq<seq<byte>>, sub: seq<byte>): seq<byte>
    requires parts != []
  {
    if |parts| == 1 then parts[0] else parts[0] + sub + Join(parts[1..], sub)
  }

  lemma JoinCons(head: seq<byte>, part: seq<byte>, rest: seq<seq<byte>>, sub: seq<byte>)
    ensures Join([head + part] + rest, sub) == head + Join([part] + rest, sub)
  {
    assert ([head + part] + rest)[1..] == rest && ([part] + rest)[1..] == rest;
    if rest != [] {
      assert head + part + sub + Join(rest, sub) == head + (part + sub + Join(rest, sub));
    }
  }

  /** Cutting loses nothing, and replacing every match is joining the parts with the new text. */
  lemma {:induction false} ReplaceIsSplitAndJoin(text: seq<byte>, pat: seq<byte>, sub: seq<byte>)
    requires pat != []
    ensures Join(Split(text, pat), pat) == text
    ensures ReplaceN(text, pat, sub, Count(text, pat)) == Join(Split(text, pat), sub)
    ensures |Split(text, pat)| == Count(text, pat) + 1
    decreases |text|
  {
    if text == [] {
    } else if StartsWith(text, pat) {
      var tail := text[|pat|..];
      ReplaceIsSplitAndJoin(tail, pat, sub);
      assert ([[]] + Split(tail, pat))[1..] == Split(tail, pat);
      assert text == pat + tail;
    } else {
      var tail := text[1..];
      ReplaceIsSplitAndJoin(tail, pat, sub);
      var rest := Split(tail, pat);
      assert [rest[0]] + rest[1..] == rest;
      JoinCons([text[0]], rest[0], rest[1..], pat);
      JoinCons([text[0]], rest[0], rest[1..], sub);
      assert text == [text[0]] + tail;
      NothingToReplace(text, pat, sub);
    }
  }

  lemma {:induction false} NothingToReplace(text: seq<byte>, pat: seq<byte>, sub: seq<byte>)
    requires pat != []
    ensures Count(text, pat) == 0 ==> forall n :: ReplaceN(text, pat, sub, n) == text
    decreases |text|
  {
    if text != [] && !StartsWith(text, pat) {
      NothingToReplace(text[1..], pat, sub);
      assert text == [text[0]] + text[1..];
    }
  }

  predicate Occurs(pat: seq<byte>, text: seq<byte>, at: nat) {
    at + |pat| <= |text| && text[at..at + |pat|] == pat
  }

  /** The first part ends where the first match begins. */
  lemma {:induction false} FirstMatchIsLeftmost(text: seq<byte>, pat: seq<byte>)
    requires pat != []
    ensures var first := Split(text, pat)[0];
            && first <= text
            && (forall at: nat :: at < |first| ==> !Occurs(pat, text, at))
            && (|Split(text, pat)| > 1 ==> Occurs(pat, text, |first|))
    decreases |text|
  {
    var first := Split(text, pat)[0];
    if text != [] && !StartsWith(text, pat) {
      var tail := text[1..];
      FirstMatchIsLeftmost(tail, pat);
      forall at: nat | 0 < at && at + |pat| <= |text| ensures Occurs(pat, text, at) <==> Occurs(pat, tail, at - 1) {
        assert tail[at - 1..at - 1 + |pat|] == text[at..at + |pat|];
      }
      forall at: nat | at < |first| ensures !Occurs(pat, text, at) {
        if at == 0 && |pat| <= |text| {
          assert text[..|pat|] == text[0..0 + |pat|];
        }
      }
    }
  }

  lemma OccursInPrefix(pat: seq<byte>, prefix: seq<byte>, text: seq<byte>, at: nat)
    requires prefix <= text
    ensures Occurs(pat, prefix, at) ==> Occurs(pat, text, at)
  {
    assert at + |pat| <= |prefix| ==> text[at..at + |pat|] == prefix[at..at + |pat|];
  }

  /** Between matches there is no other: every part is free of the text that was replaced. */
  lemma {:induction false} PartsHoldNoMatch(text: seq<byte>, pat: seq<byte>, i: nat, at: nat)
    requires pat != [] && i < |Split(text, pat)|
    ensures !Occurs(pat, Split(text, pat)[i], at)
    decreases |text|
  {
    var parts := Split(text, pat);
    if i == 0 {
      FirstMatchIsLeftmost(text, pat);
      OccursInPrefix(pat, parts[0], text, at);
    } else if StartsWith(text, pat) {
      PartsHoldNoMatch(text[|pat|..], pat, i - 1, at);
    } else {
      PartsHoldNoMatch(text[1..], pat, i, at);
    }
  }

  // ---- sizes ----

  lemma Distribute(k: nat, a: nat)
    ensures (k + 1) * a == k * a + a
  {
  }

  /** Every replacement takes the old length out and puts the new one in. */
  lemma {:induction false} ReplacedSize(text: seq<byte>, pat: seq<byte>, sub: seq<byte>, n: nat)
    requires pat != []
    ensures var k := Min(n, Count(text, pat));
            && k * |pat| <= |text|
            && |ReplaceN(text, pat, sub, n)| == |text| - k * |pat| + k * |sub|
    decreases |text|
  {
    if text == [] || n == 0 {
    } else if StartsWith(text, pat) {
      ReplacedSize(text[|pat|..], pat, sub, n - 1);
      var k := Min(n - 1, Count(text[|pat|..], pat));
      Distribute(k, |pat|);
      Distribute(k, |sub|);
    } else {
      ReplacedSize(text[1..], pat, sub, n);
    }
  }

  /** The size a replacement is refused for, computed before it is made. */
  function Projected(size: nat, replaced: nat, oldSize: nat, newSize: nat): nat {
    SaturatingAdd(SaturatingSub(size, SaturatingMul(replaced, oldSize, USIZE_MAX)), SaturatingMul(replaced, newSize, USIZE_MAX),
                  USIZE_MAX)
  }

  lemma ProductBound(a: nat, b: nat, m: nat)
    requires a <= m && b <= m
    ensures a * b <= m * m
  {
    assert a * b <= a * m <= m * m;
  }

  lemma AtLeastOnce(a: nat, b: nat)
    requires b > 0
    ensures a <= a * b
  {
  }

  /** The projection is exact and nothing in it saturates. */
  lemma ProjectionIsExact(text: seq<byte>, e: EditSpec)
    requires e.oldText != [] && |text| <= MAX_TEXT_BYTES && |e.newText| <= MAX_TEXT_BYTES
    requires Count(text, e.oldText) > 0
    ensures var replaced := if e.replaceAll then Count(text, e.oldText) else 1;
            && replaced * |e.oldText| <= |text|
            && replaced * |e.newText| + |text| < USIZE_MAX
            && Projected(|text|, replaced, |e.oldText|, |e.newText|) == |Replaced(text, e)|
  {
    var replaced := if e.replaceAll then Count(text, e.oldText) else 1;
    ReplacedSize(text, e.oldText, e.newText, replaced);
    AtLeastOnce(replaced, |e.oldText|);
    ProductBound(replaced, |e.newText|, MAX_TEXT_BYTES);
  }

  // ---- the whole list ----

  /** Position of a replacement in the list; a lone one needs none. */
  function EditPrefix(i: nat, total: nat): string {
    if total == 1 then "" else "edit " + Decimal(i + 1) + " of " + Decimal(total) + ": "
  }

  /** What is wrong with a replacement whatever the file holds. */
  function BadArgument(e: EditSpec): Option<string> {
    if e.oldText == [] then Some("old_text must not be empty")
    else if e.oldText == e.newText then Some("old_text and new_text are identical; nothing to change")
    else if |e.oldText| > MAX_TEXT_BYTES || |e.newText| > MAX_TEXT_BYTES then Some("old_text/new_text too large")
    else None
  }

  function BadArguments(edits: seq<EditSpec>): Option<ProtocolError> {
    if edits == [] then Some(ProtocolError(InvalidRequest, "edits must not be empty"))
    else if |edits| > MAX_EDITS then Some(ProtocolError(InvalidRequest, "too many edits"))
    else FirstBad(edits, 0)
  }

  function FirstBad(edits: seq<EditSpec>, i: nat): (bad: Option<ProtocolError>)
    requires i <= |edits|
    ensures bad.None? <==> forall j :: i <= j < |edits| ==> BadArgument(edits[j]).None?
    decreases |edits| - i
  {
    if i == |edits| then None
    else
      match BadArgument(edits[i])
      case Some(text) => Some(ProtocolError(InvalidRequest, EditPrefix(i, |edits|) + text))
      case None => FirstBad(edits, i + 1)
  }

  /** One replacement on the text the earlier ones produced. */
  function Step(text: seq<byte>, e: EditSpec, prefix: string): Result<seq<byte>, ProtocolError>
    requires e.oldText != []
  {
    var matches := Count(text, e.oldText);
    if matches == 0 then Err(ProtocolError(NoMatch, prefix + "old_text not found"))
    else if matches > 1 && !e.replaceAll then Err(ProtocolError(AmbiguousMatch, prefix + "old_text is not unique"))
    else if |Replaced(text, e)| > MAX_TEXT_BYTES then Err(ProtocolError(InvalidRequest, prefix + "resulting file too large"))
    else Ok(Replaced(text, e))
  }

  /** The left fold of the first `i` replacements. */
  function Fold(text: seq<byte>, edits: seq<EditSpec>, i: nat): Result<seq<byte>, ProtocolError>
    requires i <= |edits| && forall j :: 0 <= j < |edits| ==> edits[j].oldText != []
  {
    if i == 0 then Ok(text)
    else
      match Fold(text, edits, i - 1)
      case Err(e) => Err(e)
      case Ok(so_far) => Step(so_far, edits[i - 1], EditPrefix(i - 1, |edits|))
  }

  // ---- the edit of one file ----

  /** A hash in the form the server issues; anything else is a placeholder, not a stale hash. */
  predicate WellFormedHash(hash: string) {
    && |hash| == 71 && hash[..7] == "sha256:"
    && forall i :: 7 <= i < 71 ==> '0' <= hash[i] <= '9' || 'a' <= hash[i] <= 'f' || 'A' <= hash[i] <= 'F'
  }

  /** A hash is the name of its algorithm and 64 hexadecimal digits. */
  lemma HashForm(hash: string)
    ensures WellFormedHash(hash) <==>
              exists digits :: && |digits| == 64 && hash == "sha256:" + digits
                               && forall c :: c in digits ==> '0' <= c <= '9' || 'a' <= c <= 'f' || 'A' <= c <= 'F'
  {
    if WellFormedHash(hash) {
      var digits := hash[7..];
      assert hash == "sha256:" + digits;
      assert forall i :: 0 <= i < 64 ==> digits[i] == hash[i + 7];
    }
    if digits :| |digits| == 64 && hash == "sha256:" + digits
                 && forall c :: c in digits ==> '0' <= c <= '9' || 'a' <= c <= 'f' || 'A' <= c <= 'F' {
      assert hash[..7] == "sha256:";
      forall i | 7 <= i < 71 ensures hash[i] in digits {
        assert hash[i] == digits[i - 7];
      }
    }
  }

  const TOO_LARGE := ProtocolError(InvalidRequest, "file too large")
  const NO_HASH := ProtocolError(InvalidRequest, "base_hash is not a hash")
  const STALE := ProtocolError(StaleFile, "file changed since base_hash")
  const NOT_TEXT := ProtocolError(InvalidRequest, "file is not valid UTF-8; editing binary files is unsupported")
  const UNCHANGED := ProtocolError(InvalidRequest, "the replacements leave the file unchanged; nothing to do")

  /** A file that is small enough, and still is what `base` was taken of. */
  predicate Accepts(original: seq<byte>, base: string, hash: seq<byte> -> string) {
    |original| <= MAX_TEXT_BYTES && WellFormedHash(base) && hash(original) == base
  }

  /** What becomes of a file's content, or the first thing wrong, in the order things are looked at. */
  function Edited(original: seq<byte>, base: string, edits: seq<EditSpec>, hash: seq<byte> -> string): Result<seq<byte>, ProtocolError>
    requires BadArguments(edits).None?
  {
    if |original| > MAX_TEXT_BYTES then Err(TOO_LARGE)
    else if !WellFormedHash(base) then Err(NO_HASH)
    else if hash(original) != base then Err(STALE)
    else if !Valid(original) then Err(NOT_TEXT)
    else
      ArgumentsHaveText(edits);
      match Fold(original, edits, |edits|)
      case Err(e) => Err(e)
      case Ok(text) => if hash(text) == base then Err(UNCHANGED) else Ok(text)
  }

  lemma ArgumentsHaveText(edits: seq<EditSpec>)
    requires BadArguments(edits).None?
    ensures forall j :: 0 <= j < |edits| ==> edits[j].oldText != [] && |edits[j].newText| <= MAX_TEXT_BYTES
  {
    forall j | 0 <= j < |edits| ensures edits[j].oldText != [] && |edits[j].newText| <= MAX_TEXT_BYTES {
      assert BadArgument(edits[j]).None?;
    }
  }

  lemma {:induction false} FoldStaysErr(text: seq<byte>, edits: seq<EditSpec>, i: nat, n: nat)
    requires i <= n <= |edits| && forall j :: 0 <= j < |edits| ==> edits[j].oldText != []
    requires Fold(text, edits, i).Err?
    ensures Fold(text, edits, n) == Fold(text, edits, i)
  {
    if i < n {
      FoldStaysErr(text, edits, i, n - 1);
    }
  }

  /** No intermediate content outgrows the limit. */
  lemma {:induction false} IntermediatesFit(text: seq<byte>, edits: seq<EditSpec>, i: nat, n: nat)
    requires i <= n <= |edits| && forall j :: 0 <= j < |edits| ==> edits[j].oldText != []
    requires |text| <= MAX_TEXT_BYTES && Fold(text, edits, n).Ok?
    ensures Fold(text, edits, i).Ok? && |Fold(text, edits, i).value| <= MAX_TEXT_BYTES
    decreases n
  {
    hide Replaced; hide Count;
    if i < n {
      IntermediatesFit(text, edits, i, n - 1);
    }
  }

  // ---- the same, told by the parts the old texts cut the content into ----

  /** `after` is `text` with its only match replaced, or with all of them where that was asked for. */
  ghost predicate Replaces(text: seq<byte>, e: EditSpec, after: seq<byte>)
    requires e.oldText != []
  {
    var parts := Split(text, e.oldText);
    && |parts| > 1 && (|parts| == 2 || e.replaceAll)
    && after == Join(parts, e.newText) && |after| <= MAX_TEXT_BYTES
  }

  /** Why a replacement cannot be made: no match, too many, or too large a text. */
  ghost predicate RefusedWith(text: seq<byte>, e: EditSpec, code: ErrorCode)
    requires e.oldText != []
  {
    var parts := Split(text, e.oldText);
    code == if |parts| == 1 then NoMatch
            else if |parts| > 2 && !e.replaceAll then AmbiguousMatch
            else InvalidRequest
  }

  /** A message about one replacement of several says which one, counting from 1, and of how many. */
  ghost predicate Names(message: string, at: nat, total: nat) {
    total == 1 || exists d, n :: ParseDecimal(d) == Some(at) && ParseDecimal(n) == Some(total) && "edit " + d + " of " + n + ": " <= message
  }

  lemma PrefixNames(i: nat, total: nat, message: string)
    requires EditPrefix(i, total) <= message
    ensures Names(message, i + 1, total)
  {
    DecimalRoundTrip(i + 1);
    DecimalRoundTrip(total);
  }

  /** A lone match replaced is the text joined by the new one; so are all of them. */
  lemma ReplacedIsJoined(text: seq<byte>, e: EditSpec)
    requires e.oldText != [] && (e.replaceAll || Count(text, e.oldText) == 1)
    ensures Replaced(text, e) == Join(Split(text, e.oldText), e.newText)
    ensures |Split(text, e.oldText)| == Count(text, e.oldText) + 1
  {
    ReplaceIsSplitAndJoin(text, e.oldText, e.newText);
  }

  /** One replacement is made exactly if its old text has one match, or several that are all meant, and the result fits. */
  lemma StepByParts(text: seq<byte>, e: EditSpec, prefix: string)
    requires e.oldText != []
    ensures var r := Step(text, e, prefix);
            && (r.Ok? ==> Replaces(text, e, r.value))
            && (r.Err? ==> RefusedWith(text, e, r.error.code) && forall after :: !Replaces(text, e, after))
            && (r.Err? ==> prefix <= r.error.message)
  {
    hide Count; hide ReplaceN; hide Split; hide Join;
    ReplaceIsSplitAndJoin(text, e.oldText, e.newText);
    if e.replaceAll || Count(text, e.oldText) == 1 {
      ReplacedIsJoined(text, e);
    }
  }

  /** `contents` are what the replacements leave one after the other. */
  ghost predicate Leads(contents: seq<seq<byte>>, edits: seq<EditSpec>)
    requires forall j :: 0 <= j < |edits| ==> edits[j].oldText != []
  {
    && 0 < |contents| <= |edits| + 1
    && forall i {:trigger contents[i + 1]} :: 0 <= i < |contents| - 1 ==> Replaces(contents[i], edits[i], contents[i + 1])
  }

  /** The first replacement that cannot be made, at the content those before it left. */
  ghost predicate StopsAt(contents: seq<seq<byte>>, edits: seq<EditSpec>, error: ProtocolError)
    requires forall j :: 0 <= j < |edits| ==> edits[j].oldText != []
  {
    && Leads(contents, edits) && |contents| <= |edits|
    && var i := |contents| - 1;
       && RefusedWith(contents[i], edits[i], error.code) && Names(error.message, i + 1, |edits|)
       && forall after :: !Replaces(contents[i], edits[i], after)
  }

  /** The fold is the contents one after the other, to the last one or to the first refusal. */
  lemma {:induction false} FoldByParts(text: seq<byte>, edits: seq<EditSpec>, i: nat) returns (contents: seq<seq<byte>>)
    requires i <= |edits| && forall j :: 0 <= j < |edits| ==> edits[j].oldText != []
    ensures var r := Fold(text, edits, i);
            && Leads(contents, edits) && contents[0] == text
            && (r.Ok? ==> |contents| == i + 1 && contents[i] == r.value)
            && (r.Err? ==> StopsAt(contents, edits, r.error))
  {
    hide Replaces; hide RefusedWith; hide Step;
    if i == 0 {
      contents := [text];
    } else {
      contents := FoldByParts(text, edits, i - 1);
      if Fold(text, edits, i - 1).Ok? {
        var before, prefix := contents[i - 1], EditPrefix(i - 1, |edits|);
        StepByParts(before, edits[i - 1], prefix);
        var step := Step(before, edits[i - 1], prefix);
        if step.Ok? {
          contents := contents + [step.value];
        } else {
          PrefixNames(i - 1, |edits|, step.error.message);
        }
      }
    }
  }

  /**
   What an edit is answered with. A file that is too large, not named by its hash, changed or no text
   is refused before anything else; otherwise the contents lead from the original to the result, or
   to the replacement that cannot be made, or back to a content with the hash it started from.
   */
  ghost predicate EditedByParts(original: seq<byte>, base: string, edits: seq<EditSpec>, hash: seq<byte> -> string,
                                r: Result<seq<byte>, ProtocolError>)
    requires forall j :: 0 <= j < |edits| ==> edits[j].oldText != []
  {
    if !Accepts(original, base, hash) || !Valid(original) then
      && r.Err?
      && r.error.code == if |original| <= MAX_TEXT_BYTES && WellFormedHash(base) && hash(original) != base then StaleFile
                         else InvalidRequest
    else
      exists contents ::
        && Leads(contents, edits) && contents[0] == original
        && (r.Ok? ==> |contents| == |edits| + 1 && r.value == contents[|edits|] && hash(r.value) != base)
        && (r.Err? ==>
              || StopsAt(contents, edits, r.error)
              || (|contents| == |edits| + 1 && hash(contents[|edits|]) == base && r.error.code == InvalidRequest))
  }

  lemma EditMeans(original: seq<byte>, base: string, edits: seq<EditSpec>, hash: seq<byte> -> string)
    requires BadArguments(edits).None?
    ensures forall j :: 0 <= j < |edits| ==> edits[j].oldText != []
    ensures EditedByParts(original, base, edits, hash, Edited(original, base, edits, hash))
  {
    hide Valid; hide BadArguments; hide WellFormedHash; hide Fold; hide Leads; hide StopsAt;
    ArgumentsHaveText(edits);
    if Accepts(original, base, hash) && Valid(original) {
      var contents := FoldByParts(original, edits, |edits|);
      LeadsIsNotEmpty(contents, edits);
    }
  }

  lemma LeadsIsNotEmpty(contents: seq<seq<byte>>, edits: seq<EditSpec>)
    requires (forall j :: 0 <= j < |edits| ==> edits[j].oldText != []) && Leads(contents, edits)
    ensures 0 < |contents| <= |edits| + 1
  {
  }

  /** The size is checked on the projection, before the replacement is made. */
  method Edit(original: seq<byte>, base: string, edits: seq<EditSpec>, hash: seq<byte> -> string)
    returns (r: Result<seq<byte>, ProtocolError>)
    requires BadArguments(edits).None?
    ensures r == Edited(original, base, edits, hash)
    ensures r.Ok? ==> |r.value| <= MAX_TEXT_BYTES && Accepts(original, base, hash) && hash(r.value) != base
    ensures EditedByParts(original, base, edits, hash, r)
  {
    EditMeans(original, base, edits, hash);
    hide EditedByParts;
    hide Valid; hide Count; hide ReplaceN; hide BadArguments; hide EditPrefix; hide Projected; hide WellFormedHash;
    if |original| > MAX_TEXT_BYTES {
      return Err(TOO_LARGE);
    }
    if !WellFormedHash(base) {
      return Err(NO_HASH);
    }
    if hash(original) != base {
      return Err(STALE);
    }
    if !Valid(original) {
      return Err(NOT_TEXT);
    }
    ArgumentsHaveText(edits);
    var content := original;
    for i := 0 to |edits|
      invariant |content| <= MAX_TEXT_BYTES
      invariant Fold(original, edits, i) == Ok(content)
    {
      var next := Apply(content, edits[i], EditPrefix(i, |edits|));
      if next.Err? {
        FoldStaysErr(original, edits, i + 1, |edits|);
        return Err(next.error);
      }
      content := next.value;
    }
    r := if hash(content) == base then Err(UNCHANGED) else Ok(content);
  }

  /** Some text of at most 4 MiB is to become another. */
  ghost predicate Sensible(e: EditSpec) {
    e.oldText != [] && e.oldText != e.newText && |e.oldText| <= 4194304 && |e.newText| <= 4194304
  }

  method CheckArguments(edits: seq<EditSpec>) returns (bad: Option<ProtocolError>)
    ensures bad == BadArguments(edits)
    ensures bad.None? ==> forall j :: 0 <= j < |edits| ==> edits[j].oldText != []
    ensures bad.None? <==> 0 < |edits| <= 100 && forall j :: 0 <= j < |edits| ==> Sensible(edits[j])
    ensures bad.Some? ==> bad.value.code == InvalidRequest
    ensures bad.Some? && 0 < |edits| <= 100 ==>
              exists j :: 0 <= j < |edits| && !Sensible(edits[j]) && (forall i :: 0 <= i < j ==> Sensible(edits[i]))
                          && Names(bad.value.message, j + 1, |edits|)
  {
    if edits == [] {
      return Some(ProtocolError(InvalidRequest, "edits must not be empty"));
    }
    if |edits| > MAX_EDITS {
      return Some(ProtocolError(InvalidRequest, "too many edits"));
    }
    for i := 0 to |edits|
      invariant FirstBad(edits, 0) == FirstBad(edits, i)
      invariant forall j :: 0 <= j < i ==> Sensible(edits[j])
    {
      var text := BadArgument(edits[i]);
      if text.Some? {
        PrefixNames(i, |edits|, EditPrefix(i, |edits|) + text.value);
        assert !Sensible(edits[i]);
        return Some(ProtocolError(InvalidRequest, EditPrefix(i, |edits|) + text.value));
      }
    }
    bad := None;
    forall j | 0 <= j < |edits| ensures edits[j].oldText != [] {
      assert BadArgument(edits[j]).None?;
    }
  }

  method Apply(content: seq<byte>, e: EditSpec, prefix: string) returns (r: Result<seq<byte>, ProtocolError>)
    requires e.oldText != [] && |content| <= MAX_TEXT_BYTES && |e.newText| <= MAX_TEXT_BYTES
    ensures r == Step(content, e, prefix)
    ensures r.Ok? ==> |r.value| <= MAX_TEXT_BYTES
    ensures r.Ok? ==> Replaces(content, e, r.value)
    ensures r.Err? ==> RefusedWith(content, e, r.error.code) && forall after :: !Replaces(content, e, after)
  {
    StepByParts(content, e, prefix);
    hide Replaces; hide RefusedWith;
    var matches := Count(content, e.oldText);
    if matches == 0 {
      return Err(ProtocolError(NoMatch, prefix + "old_text not found"));
    }
    if matches > 1 && !e.replaceAll {
      return Err(ProtocolError(AmbiguousMatch, prefix + "old_text is not unique"));
    }
    var replaced := if e.replaceAll then matches else 1;
    ProjectionIsExact(content, e);
    if Projected(|content|, replaced, |e.oldText|, |e.newText|) > MAX_TEXT_BYTES {
      return Err(ProtocolError(InvalidRequest, prefix + "resulting file too large"));
    }
    r := Ok(ReplaceN(content, e.oldText, e.newText, replaced));
  }
}
