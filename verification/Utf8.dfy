/** UTF-8 as RFC 3629 section 4 defines it, and the clean-up that replaces ill-formed bytes by U+FFFD. */
module Utf8 {
  import opened Basics

  predicate Tail(b: Byte) {
    0x80 <= b <= 0xBF
  }

  /** Length of the well-formed character that s starts with; 0 when it starts with none. */
  function CharLength(s: seq<Byte>): (n: nat)
    ensures n <= 4 && n <= |s|
  {
    if |s| >= 1 && s[0] <= 0x7F then 1
    else if |s| >= 2 && 0xC2 <= s[0] <= 0xDF && Tail(s[1]) then 2
    else if |s| >= 3 && Tail(s[2]) && ThreeByteLead(s[0], s[1]) then 3
    else if |s| >= 4 && Tail(s[2]) && Tail(s[3]) && FourByteLead(s[0], s[1]) then 4
    else 0
  }

  predicate ThreeByteLead(a: Byte, b: Byte) {
    || (a == 0xE0 && 0xA0 <= b <= 0xBF)
    || (0xE1 <= a <= 0xEC && Tail(b))
    || (a == 0xED && 0x80 <= b <= 0x9F)
    || (0xEE <= a <= 0xEF && Tail(b))
  }

  predicate FourByteLead(a: Byte, b: Byte) {
    || (a == 0xF0 && 0x90 <= b <= 0xBF)
    || (0xF1 <= a <= 0xF3 && Tail(b))
    || (a == 0xF4 && 0x80 <= b <= 0x8F)
  }

  predicate Valid(s: seq<Byte>) {
    s == [] || (CharLength(s) > 0 && Valid(s[CharLength(s)..]))
  }

  const REPLACEMENT: seq<Byte> := [0xEF, 0xBF, 0xBD]

  /** strings.ToValidUTF8 with U+FFFD: one replacement for each maximal run of bytes that start no character. */
  function Sanitize(s: seq<Byte>, inRun: bool): seq<Byte> {
    if s == [] then []
    else
      var n := CharLength(s);
      if n > 0 then s[..n] + Sanitize(s[n..], false)
      else (if inRun then [] else REPLACEMENT) + Sanitize(s[1..], true)
  }

  /** A character ends where it ends, whatever follows it. */
  lemma {:induction false} CharLengthIgnoresRest(s: seq<Byte>, t: seq<Byte>)
    requires CharLength(s) > 0
    ensures CharLength(s + t) == CharLength(s)
  {
    assert forall i | 0 <= i < |s| :: (s + t)[i] == s[i];
  }

  lemma {:induction false} CharThenValid(c: seq<Byte>, rest: seq<Byte>)
    requires c != [] && CharLength(c) == |c| && Valid(rest)
    ensures Valid(c + rest)
  {
    CharLengthIgnoresRest(c, rest);
    assert (c + rest)[|c|..] == rest;
  }

  lemma {:induction false} FirstCharIsChar(s: seq<Byte>)
    requires CharLength(s) > 0
    ensures CharLength(s[..CharLength(s)]) == CharLength(s)
  {
  }

  /** Cleaning yields well-formed text from any bytes at all. */
  lemma {:induction false} SanitizeIsValid(s: seq<Byte>, inRun: bool)
    ensures Valid(Sanitize(s, inRun))
    decreases |s|
  {
    if s != [] {
      var n := CharLength(s);
      if n > 0 {
        SanitizeIsValid(s[n..], false);
        FirstCharIsChar(s);
        CharThenValid(s[..n], Sanitize(s[n..], false));
      } else {
        SanitizeIsValid(s[1..], true);
        var rest := Sanitize(s[1..], true);
        if inRun {
          assert Sanitize(s, inRun) == [] + rest == rest;
        } else {
          CharThenValid(REPLACEMENT, rest);
        }
      }
    }
  }

  /** Cleaning leaves well-formed text alone. */
  lemma {:induction false} SanitizeKeepsValid(s: seq<Byte>, inRun: bool)
    requires Valid(s)
    ensures Sanitize(s, inRun) == s
    decreases |s|
  {
    if s != [] {
      SanitizeKeepsValid(s[CharLength(s)..], false);
    }
  }

  /** Unicode scalar values, and the bytes of one. */
  predicate Scalar(v: int) {
    0 <= v < 0xD800 || 0xE000 <= v < 0x11_0000
  }

  function BytesFor(v: int): seq<Byte>
    requires Scalar(v)
  {
    if v < 0x80 then [v]
    else if v < 0x800 then [0xC0 + v / 0x40, 0x80 + v % 0x40]
    else if v < 0x1_0000 then [0xE0 + v / 0x1000, 0x80 + v / 0x40 % 0x40, 0x80 + v % 0x40]
    else [0xF0 + v / 0x4_0000, 0x80 + v / 0x1000 % 0x40, 0x80 + v / 0x40 % 0x40, 0x80 + v % 0x40]
  }

  /** The well-formed characters are exactly the encodings of scalar values: no surrogates, no overlong forms. */
  lemma {:induction false} ScalarIsChar(v: int, rest: seq<Byte>)
    requires Scalar(v)
    ensures CharLength(BytesFor(v) + rest) == |BytesFor(v)|
  {
  }

  lemma {:induction false} CharIsScalar(s: seq<Byte>) returns (v: int)
    requires CharLength(s) > 0
    ensures Scalar(v) && s[..CharLength(s)] == BytesFor(v)
  {
    match CharLength(s)
    case 1 =>
      v := s[0];
    case 2 =>
      v := (s[0] as int - 0xC0) * 0x40 + (s[1] as int - 0x80);
    case 3 =>
      v := ThreeBytes(s[0], s[1], s[2]);
    case _ =>
      v := FourBytes(s[0], s[1], s[2], s[3]);
  }

  lemma {:induction false} ThreeBytes(a: Byte, b: Byte, c: Byte) returns (v: int)
    requires ThreeByteLead(a, b) && Tail(c)
    ensures Scalar(v) && BytesFor(v) == [a, b, c]
  {
    v := (a as int - 0xE0) * 0x1000 + (b as int - 0x80) * 0x40 + (c as int - 0x80);
    assert v / 0x40 == (a as int - 0xE0) * 0x40 + (b as int - 0x80);
  }

  lemma {:induction false} FourBytes(a: Byte, b: Byte, c: Byte, d: Byte) returns (v: int)
    requires FourByteLead(a, b) && Tail(c) && Tail(d)
    ensures Scalar(v) && BytesFor(v) == [a, b, c, d]
  {
    v := (a as int - 0xF0) * 0x4_0000 + (b as int - 0x80) * 0x1000 + (c as int - 0x80) * 0x40 + (d as int - 0x80);
    assert v / 0x40 == (a as int - 0xF0) * 0x1000 + (b as int - 0x80) * 0x40 + (c as int - 0x80);
    assert v / 0x1000 == (a as int - 0xF0) * 0x40 + (b as int - 0x80);
  }

  /** A run of bytes that start no character becomes one U+FFFD, however long it is; what follows is cleaned on its
      own. */
  lemma {:induction false} RunBecomesOne(s: seq<Byte>, n: nat)
    requires 0 < n <= |s| && forall i | 0 <= i < n :: CharLength(s[i..]) == 0
    requires n < |s| ==> CharLength(s[n..]) > 0
    ensures Sanitize(s, false) == [0xEF, 0xBF, 0xBD] + Sanitize(s[n..], false)
  {
    RunShifts(s, n);
    RestOfRun(s[1..], n - 1);
  }

  /** A run loses its first byte. */
  lemma {:induction false} RunShifts(s: seq<Byte>, n: nat)
    requires 0 < n <= |s| && forall i | 0 <= i < n :: CharLength(s[i..]) == 0
    ensures CharLength(s) == 0 && s[1..][n - 1..] == s[n..]
    ensures forall i | 0 <= i < n - 1 :: CharLength(s[1..][i..]) == 0
  {
    assert s[0..] == s;
    forall i | 0 <= i < n - 1 ensures CharLength(s[1..][i..]) == 0 {
      assert s[1..][i..] == s[i + 1..];
    }
  }

  lemma {:induction false} RestOfRun(s: seq<Byte>, n: nat)
    requires n <= |s| && forall i | 0 <= i < n :: CharLength(s[i..]) == 0
    requires n < |s| ==> CharLength(s[n..]) > 0
    ensures Sanitize(s, true) == Sanitize(s[n..], false)
    decreases n
  {
    if n > 0 {
      RunShifts(s, n);
      RestOfRun(s[1..], n - 1);
    } else {
      assert s[0..] == s;
    }
  }

  /** Dropping a final NUL keeps text well formed: NUL is never the tail of a longer character. */
  lemma {:induction false} DropNulKeepsValid(s: seq<Byte>)
    requires Valid(s + [0])
    ensures Valid(s)
    decreases |s|
  {
    if s != [] {
      var whole := s + [0 as Byte];
      var n := CharLength(whole);
      if n == |whole| {
        assert false;
      }
      assert whole[..n] == s[..n];
      FirstCharIsChar(whole);
      CharLengthIgnoresRest(s[..n], s[n..]);
      assert s == s[..n] + s[n..];
      assert whole[n..] == s[n..] + [0];
      DropNulKeepsValid(s[n..]);
    }
  }

  lemma {:induction false} SanitizeNonempty(s: seq<Byte>)
    requires s != []
    ensures Sanitize(s, false) != []
  {
  }

  /** Cleaned text ends in NUL only where the bytes it came from did. */
  lemma {:induction false} SanitizeKeepsLast(s: seq<Byte>, inRun: bool)
    requires s != [] && s[|s| - 1] != 0
    ensures Sanitize(s, inRun) != [] ==> Sanitize(s, inRun)[|Sanitize(s, inRun)| - 1] != 0
    decreases |s|
  {
    var n := CharLength(s);
    var step := if n > 0 then n else 1;
    if step < |s| {
      SanitizeKeepsLast(s[step..], n == 0);
      var rest := Sanitize(s[step..], n == 0);
      var head := if n > 0 then s[..n] else if inRun then [] else REPLACEMENT;
      assert Sanitize(s, inRun) == head + rest;
      if rest == [] && n > 0 {
        SanitizeNonempty(s[step..]);
      }
    } else {
      assert s[step..] == [];
    }
  }
}
