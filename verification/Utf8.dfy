/** Byte strings and the UTF-8 grammar of section 4 of RFC 3629. */
module Utf8 {

  type Byte = b: int | 0 <= b < 256

  predicate Ascii(b: Byte) { b < 0x80 }

  predicate Tail(b: Byte) { 0x80 <= b <= 0xBF }

  /** Length of the UTF-8 character that `s` starts with, or 0 when `s` starts with none. */
  function CharLen(s: seq<Byte>): (n: nat)
    ensures n <= |s| && n <= 4
    ensures n == 1 <==> |s| > 0 && Ascii(s[0])
    ensures forall k :: 0 <= k < n && n > 1 ==> !Ascii(s[k])
  {
    if |s| == 0 then 0
    else if Ascii(s[0]) then 1
    else if 0xC2 <= s[0] <= 0xDF then
      if |s| >= 2 && Tail(s[1]) then 2 else 0
    else if 0xE0 <= s[0] <= 0xEF then
      if |s| >= 3 && Tail(s[1]) && Tail(s[2])
         && (s[0] == 0xE0 ==> s[1] >= 0xA0) && (s[0] == 0xED ==> s[1] <= 0x9F) then 3 else 0
    else if 0xF0 <= s[0] <= 0xF4 then
      if |s| >= 4 && Tail(s[1]) && Tail(s[2]) && Tail(s[3])
         && (s[0] == 0xF0 ==> s[1] >= 0x90) && (s[0] == 0xF4 ==> s[1] <= 0x8F) then 4 else 0
    else 0
  }

  predicate Valid(s: seq<Byte>)
    decreases |s|
  {
    s == [] || (var n := CharLen(s); n > 0 && Valid(s[n..]))
  }

  /** A character is recognised by its own bytes: what follows it is irrelevant. */
  lemma CharLenLocal(s: seq<Byte>, t: seq<Byte>)
    requires CharLen(s) > 0 && CharLen(s) <= |t| && t[..CharLen(s)] == s[..CharLen(s)]
    ensures CharLen(t) == CharLen(s)
  {
    var n := CharLen(s);
    forall k | 0 <= k < n ensures s[k] == t[k] {
      assert s[k] == s[..n][k] && t[k] == t[..n][k];
    }
  }

  /** Valid text may be followed by valid text, and by nothing else. */
  lemma {:induction false} ValidConcat(a: seq<Byte>, b: seq<Byte>)
    requires Valid(a)
    ensures Valid(a + b) <==> Valid(b)
    decreases |a|
  {
    if a == [] {
      assert a + b == b;
    } else {
      var n := CharLen(a);
      assert (a + b)[..n] == a[..n];
      CharLenLocal(a, a + b);
      assert (a + b)[n..] == a[n..] + b;
      ValidConcat(a[n..], b);
    }
  }

  lemma {:induction false} AsciiIsValid(s: seq<Byte>)
    requires forall k :: 0 <= k < |s| ==> Ascii(s[k])
    ensures Valid(s)
    decreases |s|
  {
    if s != [] {
      AsciiIsValid(s[1..]);
    }
  }

  lemma {:induction false} CharIsValid(s: seq<Byte>)
    requires CharLen(s) > 0
    ensures Valid(s[..CharLen(s)])
  {
    var n := CharLen(s);
    CharLenLocal(s, s[..n]);
    assert s[..n][n..] == [];
  }

  lemma {:induction false} TextBeforeAscii(s: seq<Byte>, i: nat)
    requires Valid(s) && i < |s| && Ascii(s[i])
    ensures Valid(s[..i])
    decreases |s|
  {
    if i > 0 {
      var n := CharLen(s);
      assert n <= i;
      var rest := s[n..];
      assert rest[i - n] == s[i];
      TextBeforeAscii(rest, i - n);
      CharIsValid(s);
      assert s[..i] == s[..n] + rest[..i - n];
      ValidConcat(s[..n], rest[..i - n]);
    }
  }

  lemma SplitValid(a: seq<Byte>, b: seq<Byte>, s: seq<Byte>)
    requires Valid(s) && Valid(a) && s == a + b
    ensures Valid(b)
  {
    ValidConcat(a, b);
  }

  lemma AfterAscii(s: seq<Byte>)
    requires Valid(s) && s != [] && Ascii(s[0])
    ensures Valid(s[1..])
  {
  }

  /** An ASCII byte of valid text never lies inside a multi-byte character. */
  lemma AsciiIsBoundary(s: seq<Byte>, i: nat)
    requires Valid(s) && i < |s| && Ascii(s[i])
    ensures Valid(s[..i]) && Valid(s[i..]) && Valid(s[i + 1..])
  {
    TextBeforeAscii(s, i);
    SplitValid(s[..i], s[i..], s);
    AfterAscii(s[i..]);
    assert s[i..][1..] == s[i + 1..];
  }

  // ---------------------------------------------------------------- the encoder

  /** A Unicode scalar value: a code point that is no surrogate. */
  type Scalar = c: int | 0 <= c < 0xD800 || 0xE000 <= c < 0x11_0000

  /** The octets of a character number, section 3 of RFC 3629. */
  function Encode(c: Scalar): seq<Byte>
  {
    if c < 0x80 then [c]
    else if c < 0x800 then [0xC0 + c / 0x40, 0x80 + c % 0x40]
    else if c < 0x1_0000 then [0xE0 + c / 0x1000, 0x80 + c / 0x40 % 0x40, 0x80 + c % 0x40]
    else [0xF0 + c / 0x4_0000, 0x80 + c / 0x1000 % 0x40, 0x80 + c / 0x40 % 0x40, 0x80 + c % 0x40]
  }

  function EncodeAll(cs: seq<Scalar>): seq<Byte>
  {
    if cs == [] then [] else Encode(cs[0]) + EncodeAll(cs[1..])
  }

  lemma EncodeIsChar(c: Scalar)
    ensures CharLen(Encode(c)) == |Encode(c)|
  {
  }

  lemma CharIsEncoded(s: seq<Byte>) returns (c: Scalar)
    requires CharLen(s) > 0
    ensures Encode(c) == s[..CharLen(s)]
  {
    var n := CharLen(s);
    if n == 1 {
      c := s[0];
    } else if n == 2 {
      c := TwoOctets(s[0] - 0xC0, s[1] - 0x80);
    } else if n == 3 {
      c := ThreeOctets(s[0] - 0xE0, s[1] - 0x80, s[2] - 0x80);
    } else {
      c := FourOctets(s[0] - 0xF0, s[1] - 0x80, s[2] - 0x80, s[3] - 0x80);
    }
  }

  lemma TwoOctets(x: int, y: int) returns (c: Scalar)
    requires 2 <= x < 32 && 0 <= y < 64
    ensures Encode(c) == [0xC0 + x, 0x80 + y]
  {
    c := x * 0x40 + y;
  }

  lemma ThreeOctets(x: int, y: int, z: int) returns (c: Scalar)
    requires 0 <= x < 16 && 0 <= y < 64 && 0 <= z < 64
    requires (x == 0 ==> y >= 32) && (x == 13 ==> y < 32)
    ensures Encode(c) == [0xE0 + x, 0x80 + y, 0x80 + z]
  {
    var high := x * 0x40 + y;
    c := high * 0x40 + z;
    assert c / 0x40 == high && c / 0x1000 == x;
  }

  lemma FourOctets(w: int, x: int, y: int, z: int) returns (c: Scalar)
    requires 0 <= w <= 4 && 0 <= x < 64 && 0 <= y < 64 && 0 <= z < 64
    requires (w == 0 ==> x >= 16) && (w == 4 ==> x < 16)
    ensures Encode(c) == [0xF0 + w, 0x80 + x, 0x80 + y, 0x80 + z]
  {
    var top := w * 0x40 + x;
    var high := top * 0x40 + y;
    c := high * 0x40 + z;
    assert c / 0x40 == high && c / 0x1000 == top && c / 0x4_0000 == w;
  }

  lemma {:induction false} EncodedIsValid(cs: seq<Scalar>)
    ensures Valid(EncodeAll(cs))
  {
    if cs != [] {
      var e, rest := Encode(cs[0]), EncodeAll(cs[1..]);
      EncodedIsValid(cs[1..]);
      EncodeIsChar(cs[0]);
      CharIsValid(e);
      assert e[..|e|] == e;
      ValidConcat(e, rest);
    }
  }

  lemma EncodedCons(c: Scalar, cs: seq<Scalar>, e: seq<Byte>, rest: seq<Byte>)
    requires Encode(c) == e && EncodeAll(cs) == rest
    ensures EncodeAll([c] + cs) == e + rest
  {
    assert ([c] + cs)[1..] == cs;
  }

  lemma {:induction false} ValidIsEncoded(s: seq<Byte>) returns (cs: seq<Scalar>)
    requires Valid(s)
    ensures EncodeAll(cs) == s
    decreases |s|
  {
    if s == [] {
      cs := [];
    } else {
      var n := CharLen(s);
      var c := CharIsEncoded(s);
      var head, tail := s[..n], s[n..];
      assert s == head + tail;
      var rest := ValidIsEncoded(tail);
      cs := [c] + rest;
      EncodedCons(c, rest, head, tail);
    }
  }

  /** The grammar's byte strings are exactly the encodings of strings of scalar values. */
  lemma ValidIffEncoded(s: seq<Byte>)
    ensures Valid(s) <==> exists cs :: EncodeAll(cs) == s
  {
    if Valid(s) {
      var cs := ValidIsEncoded(s);
    }
    if cs :| EncodeAll(cs) == s {
      EncodedIsValid(cs);
    }
  }
}
