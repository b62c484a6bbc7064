/** Well-formed UTF-8, as section 4 of RFC 3629 defines it, and where it can be cut. */
module Utf8 {
  newtype byte = x: int | 0 <= x < 256

  predicate Between(b: byte, low: byte, high: byte) {
    low <= b <= high
  }

  /** `byte & 0xC0 == 0x80`. */
  predicate IsContinuation(b: byte) {
    Between(b, 0x80, 0xBF)
  }

  /** The length of the well-formed character `s` starts with; 0 if it starts with none. */
  function Lead(s: seq<byte>): (n: nat)
    ensures n <= |s| && n <= 4
    ensures n > 0 ==> !IsContinuation(s[0]) && forall i :: 0 < i < n ==> IsContinuation(s[i])
  {
    if s == [] then 0
    else if s[0] <= 0x7F then 1
    else if |s| < 2 then 0
    else if Between(s[0], 0xC2, 0xDF) then if IsContinuation(s[1]) then 2 else 0
    else if |s| < 3 then 0
    else if Between(s[0], 0xE0, 0xEF) then
      if SecondOfThree(s[0], s[1]) && IsContinuation(s[2]) then 3 else 0
    else if |s| < 4 then 0
    else if Between(s[0], 0xF0, 0xF4) then
      if SecondOfFour(s[0], s[1]) && IsContinuation(s[2]) && IsContinuation(s[3]) then 4 else 0
    else 0
  }

  /** No overlong form, no surrogate. */
  predicate SecondOfThree(first: byte, second: byte) {
    if first == 0xE0 then Between(second, 0xA0, 0xBF)
    else if first == 0xED then Between(second, 0x80, 0x9F)
    else IsContinuation(second)
  }

  /** No overlong form, nothing beyond the last code point. */
  predicate SecondOfFour(first: byte, second: byte) {
    if first == 0xF0 then Between(second, 0x90, 0xBF)
    else if first == 0xF4 then Between(second, 0x80, 0x8F)
    else IsContinuation(second)
  }

  /** What `str::from_utf8` accepts. */
  predicate Valid(s: seq<byte>)
    decreases |s|
  {
    s == [] || (Lead(s) > 0 && Valid(s[Lead(s)..]))
  }

  /** A character is decided by its own bytes. */
  lemma LeadIsLocal(s: seq<byte>, t: seq<byte>)
    requires Lead(s) > 0 && Lead(s) <= |t| && t[..Lead(s)] == s[..Lead(s)]
    ensures Lead(t) == Lead(s)
  {
    assert forall i :: 0 <= i < Lead(s) ==> t[i] == t[..Lead(s)][i] && s[i] == s[..Lead(s)][i];
  }

  lemma {:induction false} ValidConcat(a: seq<byte>, b: seq<byte>)
    requires Valid(a) && Valid(b)
    ensures Valid(a + b)
    decreases |a|
  {
    hide Lead;
    if a == [] {
      assert a + b == b;
    } else {
      var n := Lead(a);
      assert (a + b)[..n] == a[..n];
      LeadIsLocal(a, a + b);
      ValidConcat(a[n..], b);
      assert (a + b)[n..] == a[n..] + b;
    }
  }

  /** Valid text is cut into valid text exactly where no character is cut. */
  lemma {:induction false} ValidCut(s: seq<byte>, i: nat)
    requires Valid(s) && i <= |s|
    ensures Valid(s[..i]) && Valid(s[i..]) <==> i == |s| || !IsContinuation(s[i])
    decreases |s|
  {
    if i == 0 {
      assert s[0..] == s;
    } else if i == |s| {
      assert s[..i] == s;
    } else if IsContinuation(s[i]) {
      assert s[i..][0] == s[i];
    } else {
      var n := Lead(s);
      assert i >= n;
      ValidCut(s[n..], i - n);
      assert s[n..][i - n..] == s[i..];
      assert s[n..][..i - n] == s[n..i];
      LeadIsLocal(s, s[..i]);
      assert s[..i][n..] == s[n..i];
    }
  }

  lemma {:induction false} ValidTail(a: seq<byte>, b: seq<byte>)
    requires Valid(a) && Valid(a + b)
    ensures Valid(b)
    decreases |a|
  {
    hide Lead;
    if a == [] {
      assert a + b == b;
    } else {
      var n := Lead(a);
      assert (a + b)[..n] == a[..n];
      LeadIsLocal(a, a + b);
      assert (a + b)[n..] == a[n..] + b;
      ValidTail(a[n..], b);
    }
  }

  /** Valid text starts a character, and a character has at most three continuation bytes. */
  lemma ValidStarts(s: seq<byte>)
    requires Valid(s) && s != []
    ensures !IsContinuation(s[0])
  {
  }

  /** In valid text a boundary comes within three bytes of any place. */
  lemma {:induction false} BoundaryIsNear(s: seq<byte>, i: nat)
    requires Valid(s) && i + 3 < |s|
    ensures exists j :: i <= j <= i + 3 && !IsContinuation(s[j])
    decreases |s|
  {
    var n := Lead(s);
    if i == 0 {
      assert !IsContinuation(s[0]);
    } else if i < n {
      if n < |s| {
        ValidStarts(s[n..]);
        assert s[n..][0] == s[n];
      }
    } else {
      BoundaryIsNear(s[n..], i - n);
      var j :| i - n <= j <= i - n + 3 && !IsContinuation(s[n..][j]);
      assert s[n + j] == s[n..][j];
    }
  }

  lemma {:induction false} AsciiIsValid(s: seq<byte>)
    requires forall i :: 0 <= i < |s| ==> s[i] <= 0x7F
    ensures Valid(s)
    decreases |s|
  {
    if s != [] {
      AsciiIsValid(s[1..]);
    }
  }

  // ---- the code points it stands for ----

  /** A Unicode scalar value: section 3 of RFC 3629. */
  predicate Scalar(c: int) {
    0 <= c < 0xD800 || 0xE000 <= c < 0x11_0000
  }

  /** The octets of one scalar value, in the fewest bytes. */
  function Encode(c: int): (s: seq<byte>)
    requires Scalar(c)
    ensures 1 <= |s| <= 4
  {
    if c < 0x80 then [c as byte]
    else if c < 0x800 then [(0xC0 + c / 64) as byte, (0x80 + c % 64) as byte]
    else if c < 0x1_0000 then [(0xE0 + c / 4096) as byte, (0x80 + c / 64 % 64) as byte, (0x80 + c % 64) as byte]
    else [(0xF0 + c / 262144) as byte, (0x80 + c / 4096 % 64) as byte, (0x80 + c / 64 % 64) as byte, (0x80 + c % 64) as byte]
  }

  ghost predicate AllScalar(cs: seq<int>) {
    forall i :: 0 <= i < |cs| ==> Scalar(cs[i])
  }

  function EncodeAll(cs: seq<int>): seq<byte>
    requires AllScalar(cs)
  {
    if cs == [] then [] else Encode(cs[0]) + EncodeAll(cs[1..])
  }

  /** What a scalar value is encoded as is read as one character. */
  lemma EncodedLeads(c: int)
    requires Scalar(c)
    ensures Lead(Encode(c)) == |Encode(c)|
  {
  }

  /** Six bits are put behind others and taken off again. */
  lemma SixBits(high: nat, low: nat)
    requires low < 64
    ensures (high * 64 + low) / 64 == high && (high * 64 + low) % 64 == low
  {
  }

  lemma TwoBytes(a: byte, b: byte) returns (c: int)
    requires Between(a, 0xC2, 0xDF) && IsContinuation(b)
    ensures Scalar(c) && Encode(c) == [a, b]
  {
    c := (a as int - 0xC0) * 64 + (b as int - 0x80);
    SixBits(a as int - 0xC0, b as int - 0x80);
  }

  lemma ThreeBytes(a: byte, b: byte, d: byte) returns (c: int)
    requires Between(a, 0xE0, 0xEF) && SecondOfThree(a, b) && IsContinuation(d)
    ensures Scalar(c) && Encode(c) == [a, b, d]
  {
    var high := (a as int - 0xE0) * 64 + (b as int - 0x80);
    SixBits(a as int - 0xE0, b as int - 0x80);
    SixBits(high, d as int - 0x80);
    c := high * 64 + (d as int - 0x80);
    assert c / 4096 == a as int - 0xE0;
  }

  lemma FourBytes(a: byte, b: byte, d: byte, e: byte) returns (c: int)
    requires Between(a, 0xF0, 0xF4) && SecondOfFour(a, b) && IsContinuation(d) && IsContinuation(e)
    ensures Scalar(c) && Encode(c) == [a, b, d, e]
  {
    var high := (a as int - 0xF0) * 64 + (b as int - 0x80);
    var middle := high * 64 + (d as int - 0x80);
    SixBits(a as int - 0xF0, b as int - 0x80);
    SixBits(high, d as int - 0x80);
    SixBits(middle, e as int - 0x80);
    c := middle * 64 + (e as int - 0x80);
    assert c / 4096 == high;
    assert c / 262144 == a as int - 0xF0;
  }

  /** What is read as one character encodes a scalar value. */
  lemma LeadEncodes(s: seq<byte>) returns (c: int)
    requires Lead(s) > 0
    ensures Scalar(c) && s[..Lead(s)] == Encode(c)
  {
    var n := Lead(s);
    if n == 1 {
      c := s[0] as int;
      OneByte(s[0]);
    } else if n == 2 {
      hide Encode;
      c := TwoBytes(s[0], s[1]);
    } else if n == 3 {
      hide Encode;
      c := ThreeBytes(s[0], s[1], s[2]);
    } else {
      hide Encode;
      c := FourBytes(s[0], s[1], s[2], s[3]);
    }
  }

  lemma OneByte(a: byte)
    requires a <= 0x7F
    ensures Scalar(a as int) && Encode(a as int) == [a]
  {
  }

  /** Text is valid exactly if it is the encoding of some sequence of scalar values. */
  lemma {:induction false} ValidIsEncoded(s: seq<byte>)
    ensures Valid(s) <==> exists cs :: AllScalar(cs) && EncodeAll(cs) == s
  {
    hide Valid; hide EncodeAll; hide Encode; hide Lead; hide Scalar;
    if Valid(s) {
      var cs := Scalars(s);
    }
    if cs :| AllScalar(cs) && EncodeAll(cs) == s {
      EncodedIsValid(cs);
    }
  }

  lemma {:induction false} Scalars(s: seq<byte>) returns (cs: seq<int>)
    requires Valid(s)
    ensures AllScalar(cs) && EncodeAll(cs) == s
    decreases |s|
  {
    hide Lead; hide Scalar; hide Encode;
    if s == [] {
      cs := [];
    } else {
      var c := LeadEncodes(s);
      var rest := Scalars(s[Lead(s)..]);
      cs := [c] + rest;
      assert cs[1..] == rest;
      assert s == s[..Lead(s)] + s[Lead(s)..];
    }
  }

  lemma {:induction false} EncodedIsValid(cs: seq<int>)
    requires AllScalar(cs)
    ensures Valid(EncodeAll(cs))
    decreases |cs|
  {
    hide Lead; hide Scalar; hide Encode;
    if cs != [] {
      var first, rest := Encode(cs[0]), EncodeAll(cs[1..]);
      EncodedLeads(cs[0]);
      EncodedIsValid(cs[1..]);
      assert (first + rest)[..|first|] == first[..|first|];
      LeadIsLocal(first, first + rest);
      assert (first + rest)[|first|..] == rest;
    }
  }

  // ---- lines and trimming ----

  const NEWLINE: byte := 10
  const OPEN_BRACE: byte := 0x7B
  const CLOSE_BRACE: byte := 0x7D

  /** A JSON object on one line: section 7 of RFC 8259 leaves no raw newline in it. */
  ghost predicate JsonLine(line: seq<byte>) {
    && Valid(line)
    && NEWLINE !in line
    && |line| >= 2 && line[0] == OPEN_BRACE && line[|line| - 1] == CLOSE_BRACE
  }

  /** The length of the white-space character `s` starts with, or 0. */
  function WhiteLead(s: seq<byte>): (n: nat)
    ensures n <= |s|
  {
    if |s| >= 1 && (Between(s[0], 0x09, 0x0D) || s[0] == 0x20) then 1
    else if |s| >= 2 && s[0] == 0xC2 && (s[1] == 0x85 || s[1] == 0xA0) then 2
    else if |s| >= 3 && IsWideSpace(s[0], s[1], s[2]) then 3
    else 0
  }

  /** The three-byte white-space characters of Unicode. */
  predicate IsWideSpace(a: byte, b: byte, c: byte) {
    || (a == 0xE1 && b == 0x9A && c == 0x80)
    || (a == 0xE2 && b == 0x80 && (Between(c, 0x80, 0x8A) || c == 0xA8 || c == 0xA9 || c == 0xAF))
    || (a == 0xE2 && b == 0x81 && c == 0x9F)
    || (a == 0xE3 && b == 0x80 && c == 0x80)
  }

  function WhiteTail(s: seq<byte>): (n: nat)
    ensures n <= |s|
  {
    var k := |s|;
    if k >= 1 && (Between(s[k - 1], 0x09, 0x0D) || s[k - 1] == 0x20) then 1
    else if k >= 2 && s[k - 2] == 0xC2 && (s[k - 1] == 0x85 || s[k - 1] == 0xA0) then 2
    else if k >= 3 && IsWideSpace(s[k - 3], s[k - 2], s[k - 1]) then 3
    else 0
  }

  function TrimStart(s: seq<byte>): seq<byte>
    decreases |s|
  {
    if WhiteLead(s) == 0 then s else TrimStart(s[WhiteLead(s)..])
  }

  function TrimEnd(s: seq<byte>): (t: seq<byte>)
    ensures t <= s
    decreases |s|
  {
    if WhiteTail(s) == 0 then s else TrimEnd(s[..|s| - WhiteTail(s)])
  }

  function Trim(s: seq<byte>): seq<byte> {
    TrimEnd(TrimStart(s))
  }

  /** White-space characters and nothing else, read from the front or from the back. */
  predicate AllWhite(s: seq<byte>)
    decreases |s|
  {
    s == [] || (WhiteLead(s) > 0 && AllWhite(s[WhiteLead(s)..]))
  }

  predicate AllWhiteBack(s: seq<byte>)
    decreases |s|
  {
    s == [] || (WhiteTail(s) > 0 && AllWhiteBack(s[..|s| - WhiteTail(s)]))
  }

  /** Trimming takes white space from both ends, and leaves none at either. */
  lemma TrimTakesAllWhite(s: seq<byte>)
    ensures WhiteLead(Trim(s)) == 0 && WhiteTail(Trim(s)) == 0
    ensures exists front, back :: AllWhite(front) && AllWhiteBack(back) && s == front + Trim(s) + back
  {
    hide AllWhite; hide AllWhiteBack; hide TrimStart; hide TrimEnd;
    var front := FrontIsWhite(s);
    var back := BackIsWhite(TrimStart(s));
    LeadOfPrefix(TrimEnd(TrimStart(s)), back);
    assert s == front + Trim(s) + back;
  }

  lemma LeadOfPrefix(s: seq<byte>, t: seq<byte>)
    requires WhiteLead(s + t) == 0
    ensures WhiteLead(s) == 0
  {
    assert forall i :: 0 <= i < |s| ==> (s + t)[i] == s[i];
  }

  lemma {:induction false} FrontIsWhite(s: seq<byte>) returns (front: seq<byte>)
    ensures s == front + TrimStart(s) && AllWhite(front) && WhiteLead(TrimStart(s)) == 0
    decreases |s|
  {
    hide WhiteLead;
    if WhiteLead(s) == 0 {
      front := [];
    } else {
      var n := WhiteLead(s);
      var more := FrontIsWhite(s[n..]);
      front := s[..n] + more;
      WhiteLeadIsLocal(s, front);
      assert front[n..] == more;
    }
  }

  lemma WhiteLeadIsLocal(s: seq<byte>, t: seq<byte>)
    requires WhiteLead(s) > 0 && WhiteLead(s) <= |t| && t[..WhiteLead(s)] == s[..WhiteLead(s)]
    ensures WhiteLead(t) == WhiteLead(s)
  {
    assert forall i :: 0 <= i < WhiteLead(s) ==> t[i] == t[..WhiteLead(s)][i] && s[i] == s[..WhiteLead(s)][i];
  }

  lemma {:induction false} BackIsWhite(s: seq<byte>) returns (back: seq<byte>)
    ensures s == TrimEnd(s) + back && AllWhiteBack(back) && WhiteTail(TrimEnd(s)) == 0
    decreases |s|
  {
    hide WhiteTail;
    if WhiteTail(s) == 0 {
      back := [];
    } else {
      var n := WhiteTail(s);
      var init, last := s[..|s| - n], s[|s| - n..];
      var more := BackIsWhite(init);
      back := more + last;
      WhiteTailIsLocal(s, back, n);
      assert back[..|back| - n] == more;
    }
  }

  lemma WhiteTailIsLocal(s: seq<byte>, t: seq<byte>, n: nat)
    requires 0 < n == WhiteTail(s) <= |t| && t[|t| - n..] == s[|s| - n..]
    ensures WhiteTail(t) == n
  {
    var last := s[|s| - n..];
    assert forall i :: 0 <= i < n ==> last[i] == s[|s| - n + i] && last[i] == t[|t| - n + i];
  }

  /** An opening brace is not white space and not part of any. */
  lemma {:induction false} TrimKeepsBrace(s: seq<byte>)
    requires s != [] && s[0] == OPEN_BRACE
    ensures TrimEnd(s) != [] && TrimEnd(s) <= s
    ensures TrimStart(s) == s
    decreases |s|
  {
    if WhiteTail(s) > 0 {
      TrimKeepsBrace(s[..|s| - WhiteTail(s)]);
    }
  }
}
