/** Byte loops of `RawStr`: HTML escaping, form decoding and splitting. */
module RawStr {
  import opened Options
  import opened Utf8

  /** `Cow<str>`: whether the input was handed back or a copy was made. */
  datatype Cow = Borrowed(bytes: seq<Byte>) | Owned(bytes: seq<Byte>)

  datatype Decoded = Ok(text: Cow) | Utf8Error

  // ---------------------------------------------------------------- HTML escaping

  predicate Special(c: Byte) { c in {38, 60, 62, 34, 39, 47, 96} }

  /** What one byte becomes: `&amp;` `&lt;` `&gt;` `&quot;` `&#x27;` `&#x2F;` `&#96;` or itself. */
  function EscapeByte(c: Byte): seq<Byte>
  {
    if c == 38 then [38, 97, 109, 112, 59]
    else if c == 60 then [38, 108, 116, 59]
    else if c == 62 then [38, 103, 116, 59]
    else if c == 34 then [38, 113, 117, 111, 116, 59]
    else if c == 39 then [38, 35, 120, 50, 55, 59]
    else if c == 47 then [38, 35, 120, 50, 70, 59]
    else if c == 96 then [38, 35, 57, 54, 59]
    else [c]
  }

  /** The simple form: every byte on its own. */
  function Escape(s: seq<Byte>): seq<Byte>
  {
    if s == [] then [] else EscapeByte(s[0]) + Escape(s[1..])
  }

  lemma {:induction false} EscapeConcat(a: seq<Byte>, b: seq<Byte>)
    ensures Escape(a + b) == Escape(a) + Escape(b)
  {
    if a == [] {
      assert a + b == b;
    } else {
      assert (a + b)[1..] == a[1..] + b;
      EscapeConcat(a[1..], b);
    }
  }

  lemma {:induction false} EscapeNothing(s: seq<Byte>)
    requires forall k :: 0 <= k < |s| ==> !Special(s[k])
    ensures Escape(s) == s
  {
    if s != [] {
      EscapeNothing(s[1..]);
    }
  }

  /** One step of the loop: the escape of a prefix grows by the escape of the next byte. */
  lemma EscapeSnoc(s: seq<Byte>, i: nat)
    requires i < |s|
    ensures Escape(s[..i + 1]) == Escape(s[..i]) + EscapeByte(s[i])
  {
    assert s[..i + 1] == s[..i] + [s[i]];
    EscapeConcat(s[..i], [s[i]]);
    assert [s[i]][1..] == [];
    assert Escape([s[i]]) == EscapeByte(s[i]) + Escape([]);
  }

  /** What is written for each, in letters. */
  lemma EntitySpelling()
    ensures EscapeByte('&' as int) == Letters("&amp;") && EscapeByte('<' as int) == Letters("&lt;")
    ensures EscapeByte('>' as int) == Letters("&gt;") && EscapeByte('"' as int) == Letters("&quot;")
    ensures EscapeByte('\'' as int) == Letters("&#x27;") && EscapeByte('/' as int) == Letters("&#x2F;")
    ensures EscapeByte('`' as int) == Letters("&#96;")
  {
  }

  /** The bytes escaped, in letters. */
  lemma SpecialLetters()
    ensures forall c: Byte :: Special(c) <==> c in Letters("&<>\"'/`")
  {
    var l := Letters("&<>\"'/`");
    assert l == [38, 60, 62, 34, 39, 47, 96];
    assert l[0] == 38 && l[1] == 60 && l[2] == 62 && l[3] == 34 && l[4] == 39 && l[5] == 47 && l[6] == 96;
  }

  /** The inner `match`. */
  method WithEntity(buffer: seq<Byte>, c: Byte) returns (r: seq<Byte>)
    requires Special(c)
    ensures r == buffer + EscapeByte(c)
  {
    if c == 38 { r := buffer + [38, 97, 109, 112, 59]; }
    else if c == 60 { r := buffer + [38, 108, 116, 59]; }
    else if c == 62 { r := buffer + [38, 103, 116, 59]; }
    else if c == 34 { r := buffer + [38, 113, 117, 111, 116, 59]; }
    else if c == 39 { r := buffer + [38, 35, 120, 50, 55, 59]; }
    else if c == 47 { r := buffer + [38, 35, 120, 50, 70, 59]; }
    else { r := buffer + [38, 35, 57, 54, 59]; }
  }

  /** The lazily allocating loop equals the simple form and copies only when it must. */
  method HtmlEscape(s: seq<Byte>) returns (r: Cow)
    ensures r.bytes == Escape(s)
    ensures r.Borrowed? <==> forall k :: 0 <= k < |s| ==> s[k] !in Letters("&<>\"'/`")
    ensures r.Borrowed? ==> r.bytes == s
    ensures Valid(s) ==> Valid(r.bytes)
  {
    SpecialLetters();
    var escaped := false;
    var buffer: seq<Byte> := [];
    for i := 0 to |s|
      invariant escaped <==> exists k :: 0 <= k < i && Special(s[k])
      invariant buffer == if escaped then Escape(s[..i]) else []
    {
      var c := s[i];
      EscapeSnoc(s, i);
      if Special(c) {
        if !escaped {
          EscapeNothing(s[..i]);
          buffer := s[..i];
        }
        buffer := WithEntity(buffer, c);
        escaped := true;
      } else if escaped {
        buffer := buffer + [c];
      }
    }
    assert s[..|s|] == s;
    if escaped {
      r := Owned(buffer);
    } else {
      EscapeNothing(s);
      r := Borrowed(s);
    }
    if Valid(s) {
      EscapeKeepsUtf8(s);
    }
  }

  /** Escaping turns text into text, and only text into text. */
  lemma EscapeKeepsUtf8(s: seq<Byte>)
    ensures Valid(Escape(s)) <==> Valid(s)
  {
    if Valid(s) {
      EscapeValid(s);
    }
    if Valid(Escape(s)) {
      EscapeReflectsValid(s);
    }
  }

  lemma {:induction false} EscapeValid(s: seq<Byte>)
    requires Valid(s)
    ensures Valid(Escape(s))
    decreases |s|
  {
    if s != [] {
      var n := CharLen(s);
      EscapeValid(s[n..]);
      if n == 1 {
        AsciiIsValid(EscapeByte(s[0]));
        ValidConcat(EscapeByte(s[0]), Escape(s[1..]));
      } else {
        CharIsCopied(s);
        CharLenLocal(s, Escape(s));
      }
    }
  }

  /** A multi-byte character holds nothing to escape. */
  lemma CharIsCopied(s: seq<Byte>)
    requires CharLen(s) > 1
    ensures var n := CharLen(s); Escape(s) == s[..n] + Escape(s[n..])
    ensures var n := CharLen(s);
            n <= |Escape(s)| && Escape(s)[..n] == s[..n] && Escape(s)[n..] == Escape(s[n..])
  {
    var n := CharLen(s);
    assert s == s[..n] + s[n..];
    EscapeConcat(s[..n], s[n..]);
    EscapeNothing(s[..n]);
  }

  lemma ConsSlices(b: Byte, s: seq<Byte>, n: nat)
    requires n <= |s|
    ensures ([b] + s)[..n + 1] == [b] + s[..n] && ([b] + s)[n + 1..] == s[n..]
  {
  }

  predicate NonAscii(s: seq<Byte>, n: nat)
    requires n <= |s|
  {
    forall k :: 0 <= k < n ==> !Ascii(s[k])
  }

  lemma NonAsciiTail(b: Byte, s: seq<Byte>, n: nat)
    requires n <= |s| && NonAscii([b] + s, n + 1)
    ensures !Ascii(b) && NonAscii(s, n)
  {
    assert ([b] + s)[0] == b;
    forall k | 0 <= k < n ensures !Ascii(s[k]) {
      assert s[k] == ([b] + s)[k + 1];
    }
  }

  /** A run of non-ASCII output bytes was copied from the input. */
  lemma {:induction false} EscapedRun(s: seq<Byte>, n: nat)
    requires n <= |Escape(s)| && NonAscii(Escape(s), n)
    ensures n <= |s| && s[..n] == Escape(s)[..n] && Escape(s)[n..] == Escape(s[n..])
  {
    if n == 0 {
      assert s[0..] == s;
    } else {
      var e, tail := Escape(s), Escape(s[1..]);
      PlainHead(s);
      assert e == [s[0]] + tail && s == [s[0]] + s[1..];
      NonAsciiTail(s[0], tail, n - 1);
      EscapedRun(s[1..], n - 1);
      ConsSlices(s[0], tail, n - 1);
      ConsSlices(s[0], s[1..], n - 1);
    }
  }

  lemma PlainByte(c: Byte)
    ensures EscapeByte(c) != [] && (Ascii(EscapeByte(c)[0]) || EscapeByte(c) == [c])
  {
  }

  lemma HeadOfConcat(a: seq<Byte>, b: seq<Byte>)
    requires a != []
    ensures (a + b)[0] == a[0]
  {
  }

  lemma PlainHead(s: seq<Byte>)
    requires s != [] && !Ascii((EscapeByte(s[0]) + Escape(s[1..]))[0])
    ensures Escape(s) == [s[0]] + Escape(s[1..])
  {
    PlainByte(s[0]);
    HeadOfConcat(EscapeByte(s[0]), Escape(s[1..]));
  }

  lemma {:induction false} EscapeReflectsValid(s: seq<Byte>)
    requires Valid(Escape(s))
    ensures Valid(s)
    decreases |s|
  {
    if s != [] {
      var e := Escape(s);
      if Ascii(s[0]) {
        AsciiIsValid(EscapeByte(s[0]));
        ValidConcat(EscapeByte(s[0]), Escape(s[1..]));
        EscapeReflectsValid(s[1..]);
      } else {
        assert e[0] == s[0];
        var n := CharLen(e);
        assert NonAscii(e, n);
        EscapedRun(s, n);
        CharLenLocal(e, s);
        EscapeReflectsValid(s[n..]);
      }
    }
  }

  /** The bytes of an ASCII text. */
  function Letters(s: string): (r: seq<Byte>)
    requires forall i :: 0 <= i < |s| ==> s[i] < 128 as char
    ensures |r| == |s| && forall i :: 0 <= i < |s| ==> r[i] == s[i] as int
  {
    seq(|s|, i requires 0 <= i < |s| => s[i] as int)
  }

  /** The number that some digits of this base write, if they are all digits. */
  function Number(s: seq<Byte>, base: nat): Option<nat>
  {
    if s == [] then Some(0)
    else
      var high, last := Number(s[..|s| - 1], base), s[|s| - 1];
      if high.Some? && Hex(last) && HexValue(last) < base then Some(high.value * base + HexValue(last)) else None
  }

  /** What a character reference stands for: four named ones, and numeric ones in base 10 and 16. */
  function Reference(name: seq<Byte>): Option<nat>
  {
    if name == Letters("amp") then Some('&' as int)
    else if name == Letters("lt") then Some('<' as int)
    else if name == Letters("gt") then Some('>' as int)
    else if name == Letters("quot") then Some('"' as int)
    else if |name| > 2 && name[0] == '#' as int && name[1] == 'x' as int then Number(name[2..], 16)
    else if |name| > 1 && name[0] == '#' as int then Number(name[1..], 10)
    else None
  }

  /** The name between a leading `&` and the first `;`, if `e` starts with a reference to a byte. */
  function LeadingName(e: seq<Byte>): Option<seq<Byte>>
  {
    var j := FirstIndex(e, ';' as int);
    if e == [] || e[0] != '&' as int || j == |e| then None
    else
      match Reference(e[1..j])
      case Some(v) => if v < 256 then Some(e[1..j]) else None
      case None => None
  }

  lemma NameFits(e: seq<Byte>)
    requires LeadingName(e).Some?
    ensures |LeadingName(e).value| + 2 <= |e|
    ensures Reference(LeadingName(e).value).Some? && Reference(LeadingName(e).value).value < 256
  {
  }

  /** Reads character references, one pass from the left. */
  function Unescape(e: seq<Byte>): seq<Byte>
  {
    if e == [] then []
    else
      match LeadingName(e)
      case None => [e[0]] + Unescape(e[1..])
      case Some(name) =>
        NameFits(e);
        var value: Byte := Reference(name).value;
        [value] + Unescape(e[|name| + 2..])
  }

  lemma FirstIndexIs(s: seq<Byte>, b: Byte, i: nat)
    requires i < |s| && s[i] == b && forall k :: 0 <= k < i ==> s[k] != b
    ensures FirstIndex(s, b) == i
  {
    var k := FirstIndex(s, b);
    assert forall m :: 0 <= m < k ==> s[m] == s[..k][m];
  }

  /** A reference in full. */
  function Referring(name: seq<Byte>): seq<Byte> { ['&' as int] + name + [';' as int] }

  lemma NameLeads(name: seq<Byte>, c: Byte, rest: seq<Byte>)
    requires Reference(name) == Some(c) && ';' as int !in name
    ensures LeadingName(Referring(name) + rest) == Some(name)
  {
    var e, j := Referring(name) + rest, |name| + 1;
    assert forall k :: 0 < k < j ==> e[k] == name[k - 1];
    FirstIndexIs(e, ';' as int, j);
    assert e[1..j] == name;
  }

  /** A reference to `c` followed by anything is read as `c`. */
  lemma ReadsName(name: seq<Byte>, c: Byte, rest: seq<Byte>)
    requires Reference(name) == Some(c) && ';' as int !in name
    ensures Unescape(Referring(name) + rest) == [c] + Unescape(rest)
  {
    NameLeads(name, c, rest);
    assert (Referring(name) + rest)[|name| + 2..] == rest;
  }

  lemma NamedReferences()
    ensures Reference(Letters("amp")) == Some(38) && Reference(Letters("lt")) == Some(60)
    ensures Reference(Letters("gt")) == Some(62) && Reference(Letters("quot")) == Some(34)
  {
    assert |Letters("amp")| == 3 && |Letters("lt")| == 2 && |Letters("gt")| == 2 && |Letters("quot")| == 4;
    assert Letters("lt")[0] == 108 && Letters("gt")[0] == 103;
  }

  /** A name that is none of the four. */
  lemma NumericReference(name: seq<Byte>)
    requires |name| > 2 && name[0] == '#' as int
    ensures Reference(name) == if name[1] == 'x' as int then Number(name[2..], 16) else Number(name[1..], 10)
  {
    assert Letters("amp")[0] == 97 && Letters("lt")[0] == 108 && Letters("gt")[0] == 103 && Letters("quot")[0] == 113;
  }

  lemma NumericReferences()
    ensures Reference([35, 120, 50, 55]) == Some(39) && Reference([35, 120, 50, 70]) == Some(47)
    ensures Reference([35, 57, 54]) == Some(96)
  {
    NumericReference([35, 120, 50, 55]);
    NumericReference([35, 120, 50, 70]);
    NumericReference([35, 57, 54]);
    TwoDigits(50, 55, 16);
    TwoDigits(50, 70, 16);
    TwoDigits(57, 54, 10);
    assert [35, 120, 50, 55][2..] == [50, 55] && [35, 120, 50, 70][2..] == [50, 70] && [35, 57, 54][1..] == [57, 54];
  }

  lemma TwoDigits(a: Byte, b: Byte, base: nat)
    requires Hex(a) && Hex(b) && HexValue(a) < base && HexValue(b) < base
    ensures Number([a, b], base) == Some(HexValue(a) * base + HexValue(b))
  {
    assert [a, b][..1] == [a] && [a][..0] == [];
    assert Number([a], base) == Some(0 * base + HexValue(a));
  }

  lemma NamedEntity(c: Byte) returns (name: seq<Byte>)
    requires c in {38, 60, 62, 34}
    ensures EscapeByte(c) == Referring(name)
    ensures Reference(name) == Some(c) && ';' as int !in name
  {
    NamedReferences();
    name := Letters(if c == 38 then "amp" else if c == 60 then "lt" else if c == 62 then "gt" else "quot");
  }

  lemma NumericEntity(c: Byte) returns (name: seq<Byte>)
    requires c in {39, 47, 96}
    ensures EscapeByte(c) == Referring(name)
    ensures Reference(name) == Some(c) && ';' as int !in name
  {
    NumericReferences();
    name := if c == 39 then [35, 120, 50, 55] else if c == 47 then [35, 120, 50, 70] else [35, 57, 54];
  }

  /** A special byte becomes a reference to it. */
  lemma EntityNames(c: Byte) returns (name: seq<Byte>)
    requires Special(c)
    ensures EscapeByte(c) == Referring(name)
    ensures Reference(name) == Some(c) && ';' as int !in name
  {
    if c in {38, 60, 62, 34} {
      name := NamedEntity(c);
    } else {
      name := NumericEntity(c);
    }
  }

  lemma UnescapeStep(c: Byte, rest: seq<Byte>)
    ensures Unescape(EscapeByte(c) + rest) == [c] + Unescape(rest)
  {
    if Special(c) {
      var name := EntityNames(c);
      ReadsName(name, c, rest);
    } else {
      assert ([c] + rest)[1..] == rest;
      assert LeadingName([c] + rest).None?;
    }
  }

  /** Escaping is uniquely decodable: reading character references undoes it on every byte string... */
  lemma {:induction false} EscapeRoundTrip(s: seq<Byte>)
    ensures Unescape(Escape(s)) == s
  {
    if s != [] {
      UnescapeStep(s[0], Escape(s[1..]));
      EscapeRoundTrip(s[1..]);
    }
  }

  /** ...so no two inputs share an escaped form. */
  lemma EscapeInjective(a: seq<Byte>, b: seq<Byte>)
    requires Escape(a) == Escape(b)
    ensures a == b
  {
    EscapeRoundTrip(a);
    EscapeRoundTrip(b);
  }

  lemma {:induction false} SpecialOpensEntity(s: seq<Byte>, k: nat) returns (c: Byte)
    requires k < |Escape(s)| && Special(Escape(s)[k])
    ensures Escape(s)[k] == 38
    ensures Special(c) && EscapeByte(c) <= Escape(s)[k..]
  {
    var x := EscapeByte(s[0]);
    if k < |x| {
      assert Escape(s)[k] == x[k];
      assert k == 0;
      assert Escape(s)[0..] == Escape(s) && x <= Escape(s);
      c := s[0];
    } else {
      assert Escape(s)[k] == Escape(s[1..])[k - |x|];
      c := SpecialOpensEntity(s[1..], k - |x|);
      assert Escape(s)[k..] == Escape(s[1..])[k - |x|..];
    }
  }

  lemma EntityLeads(c: Byte, e: seq<Byte>)
    requires Special(c) && EscapeByte(c) <= e
    ensures LeadingName(e).Some?
  {
    var name := EntityNames(c);
    var rest := e[|name| + 2..];
    assert e == Referring(name) + rest;
    NameLeads(name, c, rest);
  }

  /** No byte that HTML treats as markup survives, other than the `&` that opens a character reference. */
  lemma EscapedIsInert(s: seq<Byte>, k: nat)
    requires k < |Escape(s)| && Escape(s)[k] in Letters("&<>\"'/`")
    ensures Escape(s)[k] == '&' as int && LeadingName(Escape(s)[k..]).Some?
  {
    SpecialLetters();
    var c := SpecialOpensEntity(s, k);
    EntityLeads(c, Escape(s)[k..]);
  }

  // ---------------------------------------------------------------- form decoding

  function PlusToSpace(b: Byte): Byte { if b == 43 then 32 else b }

  function ReplacePlus(s: seq<Byte>): (r: seq<Byte>)
  {
    seq(|s|, i requires 0 <= i < |s| => PlusToSpace(s[i]))
  }

  /** The positions `memchr_iter` yields. */
  function PlusesFrom(s: seq<Byte>, i: nat): (r: seq<nat>)
    requires i <= |s|
    ensures forall k :: 0 <= k < |r| ==> i <= r[k] < |s| && s[r[k]] == 43
    ensures forall j :: i <= j < |s| && s[j] == 43 ==> j in r
    decreases |s| - i
  {
    if i == |s| then []
    else if s[i] == 43 then [i] + PlusesFrom(s, i + 1) else PlusesFrom(s, i + 1)
  }

  /** `_replace_plus`: copy on the first `+`, then overwrite bytes of the copy in place. */
  method ReplacePlusInPlace(s: seq<Byte>) returns (r: Cow)
    ensures r.bytes == ReplacePlus(s)
    ensures r.Borrowed? <==> 43 !in s
    ensures Valid(r.bytes) <==> Valid(s)
  {
    var buffer := new Byte[0];
    var hits := PlusesFrom(s, 0);
    ghost var content := s;
    for n := 0 to |hits|
      invariant buffer.Length == (if n == 0 then 0 else |s|)
      invariant fresh(buffer)
      invariant Overwritten(s, hits[..n], content) && (n > 0 ==> buffer[..] == content)
    {
      var i := hits[n];
      if buffer.Length == 0 {
        buffer := new Byte[|s|](k requires 0 <= k < |s| => s[k]);
        assert buffer[..] == s;
      }
      OverwriteOne(s, hits[..n], content, i);
      assert hits[..n + 1] == hits[..n] + [i];
      buffer[i] := 32;
      content := content[i := 32];
      assert buffer[..] == content;
    }
    assert hits[..|hits|] == hits;
    AllOverwritten(s, hits, content);
    ReplacePlusKeepsUtf8(s);
    if buffer.Length == 0 {
      r := Borrowed(s);
    } else {
      r := Owned(buffer[..]);
    }
  }

  /** `b` is `s` with spaces at these positions. */
  ghost predicate Overwritten(s: seq<Byte>, at: seq<nat>, b: seq<Byte>)
  {
    |b| == |s| && forall k :: 0 <= k < |s| ==> b[k] == if k in at then 32 else s[k]
  }

  lemma OverwriteOne(s: seq<Byte>, at: seq<nat>, b: seq<Byte>, i: nat)
    requires Overwritten(s, at, b) && i < |s|
    ensures Overwritten(s, at + [i], b[i := 32])
  {
  }

  lemma AllOverwritten(s: seq<Byte>, hits: seq<nat>, b: seq<Byte>)
    requires Overwritten(s, hits, b)
    requires (forall k :: 0 <= k < |hits| ==> hits[k] < |s| && s[hits[k]] == 43)
    requires (forall j :: 0 <= j < |s| && s[j] == 43 ==> j in hits)
    ensures b == ReplacePlus(s)
    ensures hits == [] <==> 43 !in s
  {
    forall k | 0 <= k < |s| ensures b[k] == PlusToSpace(s[k]) {
    }
    if hits != [] {
      assert s[hits[0]] == 43;
    }
  }

  lemma {:induction false} ReplacePlusKeepsUtf8(s: seq<Byte>)
    ensures Valid(ReplacePlus(s)) <==> Valid(s)
    decreases |s|
  {
    var r := ReplacePlus(s);
    if s != [] {
      assert CharLen(r) == CharLen(s);
      var n := CharLen(s);
      if n > 0 {
        assert ReplacePlus(s[n..]) == r[n..];
        ReplacePlusKeepsUtf8(s[n..]);
      }
    }
  }

  predicate Hex(b: Byte) { 48 <= b <= 57 || 65 <= b <= 70 || 97 <= b <= 102 }

  function HexValue(b: Byte): (v: nat)
    requires Hex(b)
    ensures v < 16
  {
    if b <= 57 then b - 48 else if b <= 70 then b - 55 else b - 87
  }

  /** The hexadecimal digits, in either case, and what they are worth. */
  lemma HexDigitsMean(b: Byte)
    ensures Hex(b) <==> b in Letters("0123456789ABCDEF") || b in Letters("0123456789abcdef")
    ensures Hex(b) ==> Letters("0123456789ABCDEF")[HexValue(b)] == b || Letters("0123456789abcdef")[HexValue(b)] == b
  {
    var upper, lower := Letters("0123456789ABCDEF"), Letters("0123456789abcdef");
    assert forall i :: 0 <= i < 16 ==> upper[i] == if i < 10 then 48 + i else 55 + i;
    assert forall i :: 0 <= i < 16 ==> lower[i] == if i < 10 then 48 + i else 87 + i;
    if Hex(b) {
      assert upper[HexValue(b)] == b || lower[HexValue(b)] == b;
    }
  }

  /** Does `s` start with a percent-encoded byte? */
  predicate Triplet(s: seq<Byte>) { |s| >= 3 && s[0] == 37 && Hex(s[1]) && Hex(s[2]) }

  function TripletByte(s: seq<Byte>): Byte
    requires Triplet(s)
  {
    16 * HexValue(s[1]) + HexValue(s[2])
  }

  /** Percent-decoding, section 1.3 of the URL Standard. */
  function PercentDecode(s: seq<Byte>): seq<Byte>
  {
    if s == [] then []
    else if Triplet(s) then [TripletByte(s)] + PercentDecode(s[3..])
    else [s[0]] + PercentDecode(s[1..])
  }

  /** The one-pass reading of a form value: `+` is a space, a triplet its byte, the rest itself. */
  function FormDecode(s: seq<Byte>): seq<Byte>
  {
    if s == [] then []
    else if s[0] == 43 then [32] + FormDecode(s[1..])
    else if Triplet(s) then [TripletByte(s)] + FormDecode(s[3..])
    else [s[0]] + FormDecode(s[1..])
  }

  predicate HasTriplet(s: seq<Byte>) { exists i :: 0 <= i < |s| && Triplet(s[i..]) }

  /** `percent_decode(..).decode_utf8()`: borrows exactly when there was nothing to decode. */
  function DecodeUtf8(s: seq<Byte>): Decoded
  {
    if !Valid(PercentDecode(s)) then Utf8Error
    else if HasTriplet(s) then Ok(Owned(PercentDecode(s))) else Ok(Borrowed(s))
  }

  /** Two passes in the order `url_decode` takes them are the one-pass decoder. */
  lemma {:induction false} DecodeIsOnePass(s: seq<Byte>)
    ensures PercentDecode(ReplacePlus(s)) == FormDecode(s)
    decreases |s|
  {
    var r := ReplacePlus(s);
    if s != [] {
      assert Triplet(r) <==> Triplet(s);
      assert r[1..] == ReplacePlus(s[1..]);
      if Triplet(s) {
        assert r[3..] == ReplacePlus(s[3..]);
        DecodeIsOnePass(s[3..]);
      } else {
        DecodeIsOnePass(s[1..]);
      }
    }
  }

  lemma {:induction false} NoTripletNoChange(s: seq<Byte>)
    requires !HasTriplet(s)
    ensures PercentDecode(s) == s
  {
    if s != [] {
      assert s[0..] == s;
      forall i | 0 <= i < |s[1..]| ensures !Triplet(s[1..][i..]) {
        assert s[1..][i..] == s[i + 1..];
      }
      NoTripletNoChange(s[1..]);
    }
  }

  lemma {:induction false} DecodeShrinks(s: seq<Byte>)
    ensures |FormDecode(s)| <= |s|
    ensures HasTriplet(s) ==> |FormDecode(s)| < |s|
    decreases |s|
  {
    if s != [] {
      assert s[0..] == s;
      if Triplet(s) {
        DecodeShrinks(s[3..]);
      } else {
        DecodeShrinks(s[1..]);
        if HasTriplet(s) {
          var i :| 0 <= i < |s| && Triplet(s[i..]);
          assert i > 0 && s[1..][i - 1..] == s[i..];
        }
      }
    }
  }

  /** Decoding changes what holds a triplet or a `+`, and percent-decoding changes nothing else. */
  lemma DecodeChanges(s: seq<Byte>)
    ensures HasTriplet(ReplacePlus(s)) <==> HasTriplet(s)
    ensures HasTriplet(s) ==> FormDecode(s) != s
    ensures !HasTriplet(s) ==> FormDecode(s) == ReplacePlus(s) && (FormDecode(s) == s <==> 43 !in s)
  {
    var r := ReplacePlus(s);
    forall i | 0 <= i < |s| ensures Triplet(r[i..]) <==> Triplet(s[i..]) {
      assert forall k :: 0 <= k < |s| - i ==> r[i..][k] == PlusToSpace(s[i..][k]);
    }
    DecodeShrinks(s);
    if !HasTriplet(s) {
      DecodeIsOnePass(s);
      NoTripletNoChange(r);
      if i :| 0 <= i < |s| && s[i] == 43 {
        assert r[i] != s[i];
      } else {
        assert r == s;
      }
    }
  }

  /** `url_decode`: fails exactly on non-UTF-8 results, and borrows exactly when decoding is the identity. */
  method UrlDecode(s: seq<Byte>) returns (r: Decoded)
    ensures r.Ok? <==> Valid(FormDecode(s))
    ensures r.Ok? ==> r.text.bytes == FormDecode(s)
    ensures r.Ok? ==> (r.text.Borrowed? <==> FormDecode(s) == s)
  {
    DecodeIsOnePass(s);
    DecodeChanges(s);
    var str := ReplacePlusInPlace(s);
    var text := DecodeUtf8(str.bytes);
    match text
    case Utf8Error => r := Utf8Error;
    case Ok(Owned(b)) => r := Ok(Owned(b));
    case Ok(Borrowed(_)) => r := Ok(str);
  }

  /** Form encoding with any set of bytes kept as they are, `%` and `+` excepted. */
  function FormEncode(s: seq<Byte>, keep: Byte -> bool): seq<Byte>
  {
    if s == [] then []
    else (if s[0] == 32 then [43]
          else if keep(s[0]) then [s[0]]
          else [37, HexDigit(s[0] / 16), HexDigit(s[0] % 16)]) + FormEncode(s[1..], keep)
  }

  function HexDigit(v: nat): (b: Byte)
    requires v < 16
    ensures Hex(b) && HexValue(b) == v
  {
    if v < 10 then 48 + v else 55 + v
  }

  /** Decoding undoes form encoding on every byte string: an encoded `+` stays a `+`. */
  lemma {:induction false} FormRoundTrip(s: seq<Byte>, keep: Byte -> bool)
    requires !keep(37) && !keep(43)
    ensures FormDecode(FormEncode(s, keep)) == s
  {
    if s != [] {
      FormRoundTrip(s[1..], keep);
      var tail := FormEncode(s[1..], keep);
      var e := FormEncode(s, keep);
      if s[0] == 32 || keep(s[0]) {
        assert e[1..] == tail;
      } else {
        assert e[3..] == tail;
        assert Triplet(e) && TripletByte(e) == s[0];
      }
    }
  }

  /** Does an encoded `+` start at `i`? */
  predicate EncodedPlus(s: seq<Byte>, i: nat) { i < |s| && Triplet(s[i..]) && TripletByte(s[i..]) == 43 }

  /** The positions from `from` on at which an encoded `+` starts. */
  ghost function EncodedPluses(s: seq<Byte>, from: nat): set<nat>
  {
    set i | from <= i < |s| && EncodedPlus(s, i)
  }

  /** None starts at the digits of a triplet. */
  lemma NoPlusInside(s: seq<Byte>, from: nat, i: nat)
    requires from < |s| && Triplet(s[from..]) && from < i < from + 3
    ensures from + 3 <= |s| && !EncodedPlus(s, i)
  {
    assert s[i] == s[from..][i - from];
    assert s[i..][0] == s[i];
  }

  /** The bytes that decoding reads at once are passed over: only at the first can an encoded `+` start. */
  lemma PlusesPassed(s: seq<Byte>, from: nat)
    requires from < |s|
    ensures var n := if Triplet(s[from..]) then 3 else 1;
            from + n <= |s| &&
            |EncodedPluses(s, from)| == |EncodedPluses(s, from + n)| + if EncodedPlus(s, from) then 1 else 0
  {
    var n := if Triplet(s[from..]) then 3 else 1;
    var here := if EncodedPlus(s, from) then {from} else {};
    forall i | from < i < from + n ensures from + 3 <= |s| && !EncodedPlus(s, i) {
      NoPlusInside(s, from, i);
    }
    assert n == 3 ==> from < from + 1 < from + n;
    assert EncodedPluses(s, from) == EncodedPluses(s, from + n) + here;
  }

  lemma {:induction false} PlusesAreCountedFrom(s: seq<Byte>, from: nat)
    requires from <= |s|
    ensures multiset(FormDecode(s[from..]))[43] == |EncodedPluses(s, from)|
    decreases |s| - from
  {
    var rest := s[from..];
    if rest != [] {
      var n := if Triplet(rest) then 3 else 1;
      PlusesPassed(s, from);
      PlusesAreCountedFrom(s, from + n);
      assert rest[n..] == s[from + n..];
      assert FormDecode(rest) == [FormDecode(rest)[0]] + FormDecode(rest[n..]);
    } else {
      assert EncodedPluses(s, from) == {};
    }
  }

  /** The decoded text has as many `+` as the input has encoded ones: none is lost to a space, none is new. */
  lemma PlusesAreEncodedOnes(s: seq<Byte>)
    ensures multiset(FormDecode(s))[43] == |EncodedPluses(s, 0)|
  {
    PlusesAreCountedFrom(s, 0);
    assert s[0..] == s;
  }

  lemma ReplacePlusCons(b: Byte, s: seq<Byte>)
    ensures ReplacePlus([b] + s) == [PlusToSpace(b)] + ReplacePlus(s)
  {
  }

  lemma {:induction false} ReplaceAfterDecode(s: seq<Byte>)
    ensures ReplacePlus(PercentDecode(s)) == ReplacePlus(FormDecode(s))
    decreases |s|
  {
    if s != [] {
      var n := if Triplet(s) then 3 else 1;
      ReplaceAfterDecode(s[n..]);
      ReplacePlusCons(PercentDecode(s)[0], PercentDecode(s[n..]));
      ReplacePlusCons(FormDecode(s)[0], FormDecode(s[n..]));
    }
  }

  /** The order of the two passes matters exactly when the input holds an encoded `+`. */
  lemma PassOrderMatters(s: seq<Byte>)
    ensures ReplacePlus(PercentDecode(s)) == FormDecode(s) <==>
            forall i :: 0 <= i < |s| ==> !EncodedPlus(s, i)
  {
    ReplaceAfterDecode(s);
    var f := FormDecode(s);
    PlusesAreEncodedOnes(s);
    assert 43 in f <==> multiset(f)[43] > 0;
    assert (exists i :: EncodedPlus(s, i)) <==> EncodedPluses(s, 0) != {} by {
      if at :| EncodedPlus(s, at) {
        assert at in EncodedPluses(s, 0);
      }
    }
    if 43 in f {
      var i :| 0 <= i < |f| && f[i] == 43;
      assert ReplacePlus(f)[i] == 32;
    } else {
      assert ReplacePlus(f) == f;
    }
  }

  // ---------------------------------------------------------------- splitting

  /** `memchr`: the first position of `b`, or `|s|`. */
  function FirstIndex(s: seq<Byte>, b: Byte): (i: nat)
    ensures i <= |s| && b !in s[..i]
    ensures i < |s| ==> s[i] == b
  {
    if s == [] || s[0] == b then 0
    else
      var i := 1 + FirstIndex(s[1..], b);
      assert s[..i] == [s[0]] + s[1..][..i - 1];
      i
  }

  /** `split_at_byte`: the text before and after the first `b`; all of it and nothing if there is none. */
  function SplitAtByte(s: seq<Byte>, b: Byte): (r: (seq<Byte>, seq<Byte>))
    ensures Ascii(b) && b in s ==> s == r.0 + [b] + r.1 && b !in r.0
    ensures !Ascii(b) || b !in s ==> r == (s, [])
    ensures Valid(s) ==> Valid(r.0) && Valid(r.1)
  {
    if !Ascii(b) then (s, [])
    else
      var i := FirstIndex(s, b);
      if i == |s| then assert s[..i] == s; (s, [])
      else
        assert Valid(s) ==> Valid(s[..i]) && Valid(s[i + 1..]) by {
          if Valid(s) { AsciiIsBoundary(s, i); }
        }
        (s[..i], s[i + 1..])
  }
}
