/** The bounded capture of a command's output: its first bytes, its last bytes, and how many are missing. */
module Capture {
  import opened Arithmetic
  import opened Utf8

  const OUTPUT_PREFIX_LIMIT: nat := 4 * 1024
  const OUTPUT_SUFFIX_LIMIT: nat := 12 * 1024
  const U64_MAX: nat := 0xFFFF_FFFF_FFFF_FFFF

  // ---- what a stream is captured as ----

  function PrefixOf(stream: seq<byte>): seq<byte> {
    stream[..Min(|stream|, OUTPUT_PREFIX_LIMIT)]
  }

  /** The last bytes of what the prefix does not hold. */
  function SuffixOf(stream: seq<byte>): seq<byte> {
    var rest := stream[Min(|stream|, OUTPUT_PREFIX_LIMIT)..];
    rest[|rest| - Min(|rest|, OUTPUT_SUFFIX_LIMIT)..]
  }

  lemma PrefixWithin(stream: seq<byte>)
    ensures |PrefixOf(stream)| <= OUTPUT_PREFIX_LIMIT
  {
  }

  /** While the prefix has room, bytes go there and nothing else changes. */
  lemma PrefixTakes(stream: seq<byte>, bytes: seq<byte>, n: nat)
    requires n == Min(OUTPUT_PREFIX_LIMIT - |PrefixOf(stream)|, |bytes|)
    ensures PrefixOf(stream + bytes[..n]) == PrefixOf(stream) + bytes[..n]
    ensures SuffixOf(stream + bytes[..n]) == SuffixOf(stream)
    ensures n < |bytes| ==> |stream + bytes[..n]| >= OUTPUT_PREFIX_LIMIT
  {
    if n == 0 {
      assert stream + bytes[..n] == stream;
    } else {
      assert PrefixOf(stream) == stream;
    }
  }

  /** Once it is full, a byte goes to the end of the suffix and may push out its first. */
  lemma SuffixTakes(stream: seq<byte>, b: byte)
    requires |stream| >= OUTPUT_PREFIX_LIMIT
    ensures PrefixOf(stream + [b]) == PrefixOf(stream)
    ensures var suffix := SuffixOf(stream);
            SuffixOf(stream + [b]) == (if |suffix| == OUTPUT_SUFFIX_LIMIT then suffix[1..] else suffix) + [b]
  {
    var rest := stream[OUTPUT_PREFIX_LIMIT..];
    assert (stream + [b])[OUTPUT_PREFIX_LIMIT..] == rest + [b];
  }

  lemma TakeOfTake(stream: seq<byte>, n: nat, p: nat)
    requires p <= n <= |stream|
    ensures stream[..n][..p] == stream[..p]
  {
  }

  lemma DropOfDrop(stream: seq<byte>, n: nat, m: nat)
    requires n + m <= |stream|
    ensures stream[n..][m..] == stream[n + m..]
  {
  }

  /** Both ends lie in the stream and do not overlap. */
  lemma EndsOfStream(stream: seq<byte>, p: nat, s: nat)
    requires p <= |PrefixOf(stream)| && s <= |SuffixOf(stream)|
    ensures p + s <= |stream|
    ensures PrefixOf(stream)[..p] == stream[..p]
    ensures SuffixOf(stream)[|SuffixOf(stream)| - s..] == stream[|stream| - s..]
  {
    var n := Min(|stream|, OUTPUT_PREFIX_LIMIT);
    TakeOfTake(stream, n, p);
    var rest := stream[n..];
    var m := |rest| - Min(|rest|, OUTPUT_SUFFIX_LIMIT);
    DropOfDrop(rest, m, |SuffixOf(stream)| - s);
    DropOfDrop(stream, n, |rest| - s);
  }

  // ---- decoding, lossily ----

  const REPLACEMENT: seq<byte> := [0xEF, 0xBF, 0xBD]

  /** `s[i]`, or 0 past the end. */
  function Get(s: seq<byte>, i: nat): byte {
    if i < |s| then s[i] else 0
  }

  /** How many bytes one replacement character stands for: the longest beginning of a character. */
  function IllFormed(s: seq<byte>): (n: nat)
    requires s != [] && Lead(s) == 0
    ensures 1 <= n <= |s| && n <= 3
  {
    if Between(s[0], 0xE0, 0xEF) then
      if !SecondOfThree(s[0], Get(s, 1)) then 1 else 2
    else if Between(s[0], 0xF0, 0xF4) then
      if !SecondOfFour(s[0], Get(s, 1)) then 1
      else if !IsContinuation(Get(s, 2)) then 2
      else 3
    else 1
  }

  /** `String::from_utf8_lossy`. */
  function Decode(s: seq<byte>): (text: seq<byte>)
    ensures |text| <= 3 * |s|
    decreases |s|
  {
    if s == [] then []
    else if Lead(s) > 0 then s[..Lead(s)] + Decode(s[Lead(s)..])
    else REPLACEMENT + Decode(s[IllFormed(s)..])
  }

  /** `s` is a proper beginning of some character. */
  ghost predicate BeginsCharacter(s: seq<byte>) {
    exists c :: Lead(c) == |c| && s < c
  }

  /** What one replacement stands for is one byte, or the longest beginning of a character there is. */
  lemma IllFormedIsMaximal(s: seq<byte>)
    requires s != [] && Lead(s) == 0
    ensures IllFormed(s) == 1 || BeginsCharacter(s[..IllFormed(s)])
    ensures forall m :: IllFormed(s) < m <= |s| ==> !BeginsCharacter(s[..m])
  {
    var n := IllFormed(s);
    if n > 1 {
      var c := s[..n] + if n == 2 && Between(s[0], 0xF0, 0xF4) then [0x80, 0x80] else [0x80];
      assert c[0] == s[0] && c[1] == s[1];
      assert Lead(c) == |c|;
    }
    forall m | n < m <= |s| ensures !BeginsCharacter(s[..m]) {
      forall c | Lead(c) == |c| ensures !(s[..m] < c) {
        if s[..m] < c {
          NoLongerBeginning(s, c, m);
        }
      }
    }
  }

  lemma NoLongerBeginning(s: seq<byte>, c: seq<byte>, m: nat)
    requires s != [] && Lead(s) == 0 && IllFormed(s) < m <= |s|
    requires Lead(c) == |c| && m < |c|
    ensures !(s[..m] < c)
  {
    if s[..m] < c {
      assert forall i :: 0 <= i < m ==> s[i] == s[..m][i] == c[i];
      assert false;
    }
  }

  /** A character cut short, with no more of it to come, is one replacement character. */
  lemma CutCharacter(c: seq<byte>, k: nat, rest: seq<byte>)
    requires Lead(c) == |c| && 0 < k < |c| && (rest == [] || !IsContinuation(rest[0]))
    ensures Decode(c[..k] + rest) == REPLACEMENT + Decode(rest)
  {
    var s := c[..k] + rest;
    assert forall i :: 0 <= i < k ==> s[i] == c[i];
    CutIsIllFormed(c, k, s);
    OneStep(s);
    assert s[k..] == rest;
  }

  lemma CutIsIllFormed(c: seq<byte>, k: nat, s: seq<byte>)
    requires Lead(c) == |c| && 0 < k < |c| && k <= |s|
    requires (forall i :: 0 <= i < k ==> s[i] == c[i]) && (|s| > k ==> !IsContinuation(s[k]))
    ensures Lead(s) == 0 && IllFormed(s) == k
  {
  }

  lemma ReplacementIsText()
    ensures Valid(REPLACEMENT)
  {
    assert REPLACEMENT[3..] == [];
  }

  /** What is decoded is text, and text decodes to itself. */
  lemma {:induction false} DecodedIsText(s: seq<byte>)
    ensures Valid(Decode(s))
    ensures Valid(s) ==> Decode(s) == s
    decreases |s|
  {
    hide Lead; hide IllFormed; hide Decode; hide Valid;
    if s == [] {
      NothingDecodes();
    } else {
      var n := Lead(s);
      OneStep(s);
      if n > 0 {
        DecodedIsText(s[n..]);
        OneCharacter(s, n);
        ValidConcat(s[..n], Decode(s[n..]));
        assert s == s[..n] + s[n..];
      } else {
        DecodedIsText(s[IllFormed(s)..]);
        ReplacementIsText();
        ValidConcat(REPLACEMENT, Decode(s[IllFormed(s)..]));
      }
    }
  }

  lemma NothingDecodes()
    ensures Decode([]) == [] && Valid([])
  {
  }

  lemma OneStep(s: seq<byte>)
    requires s != []
    ensures Lead(s) > 0 ==> Decode(s) == s[..Lead(s)] + Decode(s[Lead(s)..])
    ensures Lead(s) == 0 ==> Decode(s) == REPLACEMENT + Decode(s[IllFormed(s)..])
    ensures Valid(s) ==> Lead(s) > 0 && Valid(s[Lead(s)..])
  {
    hide Lead; hide IllFormed;
  }

  lemma OneCharacter(s: seq<byte>, n: nat)
    requires n == Lead(s) > 0
    ensures Valid(s[..n])
  {
    LeadIsLocal(s, s[..n]);
    assert s[..n][n..] == [];
  }

  /** Dropping a byte from the front can make the text longer: a cut character is two replacements. */
  lemma TrimmingCanLengthen()
    ensures var s: seq<byte> := [0xF0, 0x9F, 0x98, 0x80]; |Decode(s)| == 4 && |Decode(s[1..])| == 9
  {
    var s: seq<byte> := [0xF0, 0x9F, 0x98, 0x80];
    assert Lead(s) == 4 && s[4..] == [];
    var t := s[1..];
    assert Lead(t) == 0 && IllFormed(t) == 1;
    var u := t[1..];
    assert Lead(u) == 0 && IllFormed(u) == 1;
    var v := u[1..];
    assert Lead(v) == 0 && IllFormed(v) == 1;
    assert v[1..] == [];
    assert Decode(v) == REPLACEMENT + [];
    assert |Decode(u)| == 6;
  }

  // ---- fitting ----

  datatype Keep = Start | End

  /** The part of `bytes` that is kept when `n` of them are. */
  function Part(bytes: seq<byte>, n: nat, keep: Keep): seq<byte>
    requires n <= |bytes|
  {
    if keep.Start? then bytes[..n] else bytes[|bytes| - n..]
  }

  /** One more byte at the end makes the text at most three bytes longer. */
  lemma {:induction false} LastByte(s: seq<byte>, b: byte)
    ensures |Decode(s + [b])| <= |Decode(s)| + 3
    decreases |s|
  {
    hide Lead; hide IllFormed; hide Decode;
    var t := s + [b];
    OneStep(t);
    NothingDecodes();
    var n := if Lead(t) > 0 then Lead(t) else IllFormed(t);
    assert t[|t|..] == [];
    if n < |t| {
      SameBeginning(s, b);
      OneStep(s);
      assert t[n..] == s[n..] + [b];
      assert t[..n] == s[..n];
      LastByte(s[n..], b);
    } else if Lead(t) == |t| > 1 {
      CutCharacter(t, |s|, []);
      assert t[..|s|] + [] == s;
    }
  }

  /** A character, or the beginning of one, that ends before the last byte does not need it. */
  lemma SameBeginning(s: seq<byte>, b: byte)
    requires var t := s + [b]; (if Lead(t) > 0 then Lead(t) else IllFormed(t)) < |t|
    ensures s != [] && Lead(s) == Lead(s + [b])
    ensures Lead(s) == 0 ==> IllFormed(s) == IllFormed(s + [b])
  {
    var t := s + [b];
    assert forall i :: 0 <= i < |s| ==> t[i] == s[i];
    if Lead(t) > 0 {
      LeadIsLocal(t, s);
    } else if Lead(s) > 0 {
      LeadIsLocal(s, t);
    }
  }

  /** One more byte at the front as well. */
  lemma FirstByte(s: seq<byte>)
    requires s != []
    ensures |Decode(s)| <= |Decode(s[1..])| + 3
  {
    hide Lead; hide IllFormed; hide Decode;
    OneStep(s);
    var n := if Lead(s) > 0 then Lead(s) else IllFormed(s);
    HeadContinues(s, n);
    Continuations(s[1..], n - 1);
    assert s[1..][n - 1..] == s[n..];
  }

  lemma HeadContinues(s: seq<byte>, n: nat)
    requires s != [] && n == if Lead(s) > 0 then Lead(s) else IllFormed(s)
    ensures forall i :: 1 <= i < n ==> IsContinuation(s[i])
  {
  }

  /** Continuation bytes without their character are a replacement each. */
  lemma {:induction false} Continuations(s: seq<byte>, n: nat)
    requires n <= |s| && forall i :: 0 <= i < n ==> IsContinuation(s[i])
    ensures |Decode(s)| == 3 * n + |Decode(s[n..])|
    decreases n
  {
    if n == 0 {
      assert s[0..] == s;
    } else {
      Continuations(s[1..], n - 1);
      assert s[1..][n - 1..] == s[n..];
    }
  }

  /** Giving up `k` bytes on either side makes the text at most `3 * k` bytes shorter. */
  lemma {:induction false} GivingUp(bytes: seq<byte>, k: nat, keep: Keep)
    requires k <= |bytes|
    ensures |Decode(bytes)| <= |Decode(Part(bytes, |bytes| - k, keep))| + 3 * k
    decreases k
  {
    hide Decode;
    if k == 0 {
      assert Part(bytes, |bytes|, keep) == bytes;
    } else {
      var less := Part(bytes, |bytes| - 1, keep);
      if keep.Start? {
        assert bytes == less + [bytes[|bytes| - 1]];
        LastByte(less, bytes[|bytes| - 1]);
      } else {
        FirstByte(bytes);
      }
      GivingUp(less, k - 1, keep);
      assert Part(less, |less| - (k - 1), keep) == Part(bytes, |bytes| - k, keep);
    }
  }

  /** Give up bytes on the side away from `keep` until the text fits, and no more than two bytes too many. */
  method Fit(bytes: seq<byte>, limit: nat, keep: Keep) returns (text: seq<byte>, covered: nat)
    ensures covered <= |bytes|
    ensures text == Decode(Part(bytes, covered, keep)) && Valid(text)
    ensures |text| <= limit
    ensures |Decode(bytes)| <= limit ==> covered == |bytes|
    ensures covered == |bytes| || |text| + 2 >= limit
  {
    hide Decode; hide Valid;
    var rest := bytes;
    while true
      invariant |rest| <= |bytes| && rest == Part(bytes, |rest|, keep)
      invariant |Decode(bytes)| <= limit ==> rest == bytes
      invariant rest == bytes || |Decode(rest)| + 2 >= limit
      decreases |rest|
    {
      text := Decode(rest);
      if |text| <= limit {
        DecodedIsText(rest);
        return text, |rest|;
      }
      var excess := if (|text| - limit) / 3 > 1 then (|text| - limit) / 3 else 1;
      GivingUp(rest, excess, keep);
      rest := if keep.Start? then rest[..|rest| - excess] else rest[excess..];
    }
  }

  /** A short text is all prefix. */
  lemma ShortStream(stream: seq<byte>)
    requires |stream| <= OUTPUT_PREFIX_LIMIT
    ensures PrefixOf(stream) == stream && SuffixOf(stream) == []
  {
  }

  datatype ExecOutput = ExecOutput(prefix: seq<byte>, suffix: seq<byte>, totalBytes: nat, omittedBytes: nat)

  lemma NothingPushed()
    ensures PrefixOf([]) == [] && SuffixOf([]) == []
  {
  }

  /** `stream` is history: everything pushed so far, however it was split. */
  class OutputCapture {
    var prefix: seq<byte>
    var suffix: seq<byte>
    var totalBytes: nat
    ghost var stream: seq<byte>

    ghost predicate Valid()
      reads this
    {
      && prefix == PrefixOf(stream)
      && suffix == SuffixOf(stream)
      && totalBytes == Min(|stream|, U64_MAX)
    }

    constructor ()
      ensures Valid() && stream == []
    {
      hide PrefixOf; hide SuffixOf;
      NothingPushed();
      prefix, suffix, totalBytes := [], [], 0;
      stream := [];
    }

    method Push(bytes: seq<byte>)
      requires Valid()
      modifies this
      ensures Valid() && stream == old(stream) + bytes
    {
      hide PrefixOf; hide SuffixOf;
      PrefixWithin(stream);
      totalBytes := SaturatingAdd(totalBytes, |bytes|, U64_MAX);
      var prefixRemaining := OUTPUT_PREFIX_LIMIT - |prefix|;
      var prefixLen := Min(prefixRemaining, |bytes|);
      PrefixTakes(stream, bytes, prefixLen);
      prefix := prefix + bytes[..prefixLen];
      stream := stream + bytes[..prefixLen];
      var rest := bytes[prefixLen..];
      for i := 0 to |rest|
        invariant stream == old(stream) + bytes[..prefixLen] + rest[..i]
        invariant prefix == PrefixOf(stream) && suffix == SuffixOf(stream)
        invariant totalBytes == Min(|old(stream)| + |bytes|, U64_MAX)
        invariant |rest| > 0 ==> |stream| >= OUTPUT_PREFIX_LIMIT
      {
        SuffixTakes(stream, rest[i]);
        if |suffix| == OUTPUT_SUFFIX_LIMIT {
          suffix := suffix[1..];
        }
        suffix := suffix + [rest[i]];
        stream := stream + [rest[i]];
        assert rest[..i + 1] == rest[..i] + [rest[i]];
      }
      assert rest[..|rest|] == rest;
      assert bytes[..prefixLen] + rest == bytes;
      assert stream == old(stream) + bytes;
    }

    /** Both texts fit, each covers the end of the stream it is to keep, and nothing is uncounted. */
    method Finish() returns (o: ExecOutput, ghost kept: (nat, nat))
      requires Valid()
      ensures kept.0 <= |PrefixOf(stream)| && kept.1 <= |SuffixOf(stream)| && kept.0 + kept.1 <= |stream|
      ensures o.prefix == Decode(stream[..kept.0]) && o.suffix == Decode(stream[|stream| - kept.1..])
      ensures |o.prefix| <= 4096 && |o.suffix| <= 12288
      ensures |stream| <= 4096 && Utf8.Valid(stream) ==> o == ExecOutput(stream, [], |stream|, 0)
      ensures kept.0 == |PrefixOf(stream)| || |o.prefix| >= 4094
      ensures kept.1 == |SuffixOf(stream)| || |o.suffix| >= 12286
      ensures o.totalBytes == Min(|stream|, U64_MAX)
      ensures |stream| <= U64_MAX ==> kept.0 + kept.1 + o.omittedBytes == |stream|
    {
      hide PrefixOf; hide SuffixOf; hide Decode; hide Utf8.Valid;
      var prefixText, prefixBytes := Fit(prefix, OUTPUT_PREFIX_LIMIT, Start);
      var suffixText, suffixBytes := Fit(suffix, OUTPUT_SUFFIX_LIMIT, End);
      EndsOfStream(stream, prefixBytes, suffixBytes);
      if |stream| <= OUTPUT_PREFIX_LIMIT && Utf8.Valid(stream) {
        ShortStream(stream);
        DecodedIsText(stream);
        NothingDecodes();
        assert prefixText == Decode(stream) by {
          assert stream[..|stream|] == stream;
        }
        assert suffixText == [] by {
          assert suffix[0..] == [];
        }
      }
      kept := (prefixBytes, suffixBytes);
      o := ExecOutput(prefixText, suffixText, totalBytes, SaturatingSub(totalBytes, prefixBytes + suffixBytes));
    }
  }
}
