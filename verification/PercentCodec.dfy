/**
 * `encodeURIComponent` and `decodeURIComponent` (sections 19.2.6.2 to 19.2.6.6 of ECMA-262), the printer and the parser
 * that db/database-url.ts and apps/api/src/bootstrap/service-version.ts rely on. Strings are UTF-16 code units, so that a
 * lone surrogate can be written down; octets are UTF-8.
 */
module PercentCodec {
  import opened Wrappers

  type CodeUnit = n: int | 0 <= n < 0x1_0000
  type Octet = n: int | 0 <= n < 0x100
  type JsString = seq<CodeUnit>

  datatype UriError = UriError

  /** A literal of the source, all of it ASCII. */
  function Ascii(s: string): (r: JsString)
    requires forall i :: 0 <= i < |s| ==> s[i] < '\U{80}'
    ensures |r| == |s| && forall i :: 0 <= i < |s| ==> r[i] == s[i] as int
  {
    seq(|s|, i requires 0 <= i < |s| => s[i] as int)
  }

  predicate IsHigh(u: CodeUnit) {
    0xD800 <= u < 0xDC00
  }

  predicate IsLow(u: CodeUnit) {
    0xDC00 <= u < 0xE000
  }

  predicate IsPaired(s: JsString, i: nat)
    requires i < |s|
  {
    && (IsHigh(s[i]) ==> i + 1 < |s| && IsLow(s[i + 1]))
    && (IsLow(s[i]) ==> i > 0 && IsHigh(s[i - 1]))
  }

  /** Every surrogate is half of a pair. */
  predicate WellFormed(s: JsString) {
    forall i :: 0 <= i < |s| ==> IsPaired(s, i)
  }

  /** Letters, digits, and `-_.!~*'()`. */
  predicate IsUnescaped(u: CodeUnit) {
    || 0x30 <= u <= 0x39 || 0x41 <= u <= 0x5A || 0x61 <= u <= 0x7A
    || u == 0x2D || u == 0x5F || u == 0x2E || u == 0x21 || u == 0x7E || u == 0x2A || u == 0x27 || u == 0x28 || u == 0x29
  }

  const Percent: CodeUnit := 0x25

  // ── UTF-8 ──────────────────────────────────────────────────────────────────

  type CodePoint = n: int | 0 <= n < 0x11_0000

  predicate IsScalar(c: CodePoint) {
    !(0xD800 <= c < 0xE000)
  }

  function Octets(c: CodePoint): seq<Octet> {
    if c < 0x80 then [c]
    else if c < 0x800 then [0xC0 + c / 0x40, 0x80 + c % 0x40]
    else if c < 0x1_0000 then [0xE0 + c / 0x1000, 0x80 + c / 0x40 % 0x40, 0x80 + c % 0x40]
    else [0xF0 + c / 0x4_0000, 0x80 + c / 0x1000 % 0x40, 0x80 + c / 0x40 % 0x40, 0x80 + c % 0x40]
  }

  predicate IsTrail(b: Octet) {
    0x80 <= b < 0xC0
  }

  /** How many octets the first one announces; 0 for a trailing or impossible one. */
  function Announced(b: Octet): nat {
    if b < 0x80 then 1 else if b < 0xC0 then 0 else if b < 0xE0 then 2 else if b < 0xF0 then 3 else if b < 0xF8 then 4 else 0
  }

  /** The code point of a valid UTF-8 sequence: complete, shortest, in range, and no surrogate. */
  function CodePointOf(o: seq<Octet>): Option<CodePoint> {
    if |o| == 0 || Announced(o[0]) != |o| || exists i :: 1 <= i < |o| && !IsTrail(o[i]) then None
    else if |o| == 1 then Some(o[0])
    else if |o| == 2 then InRange(Less(o[0], 0xC0) * 0x40 + Less(o[1], 0x80), 0x80)
    else if |o| == 3 then InRange(Less(o[0], 0xE0) * 0x1000 + Less(o[1], 0x80) * 0x40 + Less(o[2], 0x80), 0x800)
    else if |o| == 4 then
      InRange(Less(o[0], 0xF0) * 0x4_0000 + Less(o[1], 0x80) * 0x1000 + Less(o[2], 0x80) * 0x40 + Less(o[3], 0x80), 0x1_0000)
    else None
  }

  function Less(n: int, mark: int): int {
    n - mark
  }

  function InRange(c: int, least: nat): Option<CodePoint> {
    if least <= c < 0x11_0000 && !(0xD800 <= c < 0xE000) then
      var point: CodePoint := c;
      Some(point)
    else None
  }

  lemma ThreeOctets(c: CodePoint)
    requires 0x800 <= c < 0x1_0000 && IsScalar(c)
    ensures CodePointOf(Octets(c)) == Some(c)
  {
    assert c / 0x1000 * 0x40 + c / 0x40 % 0x40 == c / 0x40;
  }

  lemma FourOctets(c: CodePoint)
    requires 0x1_0000 <= c
    ensures CodePointOf(Octets(c)) == Some(c)
  {
    assert c / 0x4_0000 * 0x40 + c / 0x1000 % 0x40 == c / 0x1000;
    assert c / 0x1000 * 0x40 + c / 0x40 % 0x40 == c / 0x40;
  }

  lemma OctetsRoundTrip(c: CodePoint)
    requires IsScalar(c)
    ensures CodePointOf(Octets(c)) == Some(c)
    ensures 1 <= |Octets(c)| <= 4 && Announced(Octets(c)[0]) == |Octets(c)|
  {
    if 0x800 <= c < 0x1_0000 {
      ThreeOctets(c);
    } else if 0x1_0000 <= c {
      FourOctets(c);
    }
  }

  // ── UTF-16 ─────────────────────────────────────────────────────────────────

  function Units(c: CodePoint): JsString {
    if c < 0x1_0000 then [c] else [0xD800 + (c - 0x1_0000) / 0x400, 0xDC00 + (c - 0x1_0000) % 0x400]
  }

  /** The code point a string starts with; `None` at a lone surrogate. */
  function FirstPoint(s: JsString): (c: Option<CodePoint>)
    requires s != []
    ensures c.Some? ==> IsScalar(c.value) && |Units(c.value)| <= |s| && Units(c.value) <= s
  {
    if IsLow(s[0]) then None
    else if !IsHigh(s[0]) then Some(s[0])
    else if |s| < 2 || !IsLow(s[1]) then None
    else Some(0x1_0000 + Less(s[0], 0xD800) * 0x400 + Less(s[1], 0xDC00))
  }

  // ── encodeURIComponent ─────────────────────────────────────────────────────

  function HexDigit(n: int): CodeUnit
    requires 0 <= n < 16
  {
    if n < 10 then 0x30 + n else 0x41 + n - 10
  }

  function PercentOctets(o: seq<Octet>): (r: JsString)
    ensures |r| == 3 * |o|
  {
    if o == [] then [] else [Percent, HexDigit(o[0] / 16), HexDigit(o[0] % 16)] + PercentOctets(o[1..])
  }

  function Encode(s: JsString): Result<JsString, UriError>
    decreases |s|
  {
    if s == [] then Ok([])
    else if IsUnescaped(s[0]) then
      match Encode(s[1..]) case Ok(rest) => Ok([s[0]] + rest) case Err(e) => Err(e)
    else
      match FirstPoint(s)
      case None => Err(UriError)
      case Some(c) =>
        match Encode(s[|Units(c)|..]) case Ok(rest) => Ok(PercentOctets(Octets(c)) + rest) case Err(e) => Err(e)
  }

  // ── decodeURIComponent ─────────────────────────────────────────────────────

  function HexValue(u: CodeUnit): Option<int> {
    if 0x30 <= u <= 0x39 then Some(u - 0x30)
    else if 0x41 <= u <= 0x46 then Some(u - 0x41 + 10)
    else if 0x61 <= u <= 0x66 then Some(u - 0x61 + 10)
    else None
  }

  /** One `%XX` at the front. */
  function ReadOctet(s: JsString): (o: Option<Octet>)
    ensures o.Some? ==> |s| >= 3
  {
    if |s| < 3 || s[0] != Percent || HexValue(s[1]).None? || HexValue(s[2]).None? then None
    else Some(16 * HexValue(s[1]).value + HexValue(s[2]).value)
  }

  function ReadOctets(s: JsString, n: nat): (o: Option<seq<Octet>>)
    ensures o.Some? ==> |o.value| == n && |s| >= 3 * n
    decreases n
  {
    if n == 0 then Some([])
    else
      match ReadOctet(s)
      case None => None
      case Some(b) => match ReadOctets(s[3..], n - 1) case None => None case Some(rest) => Some([b] + rest)
  }

  /** The code point of the escapes at the front, and how many octets it took. */
  function ReadPoint(s: JsString): (r: Option<(CodePoint, nat)>)
    ensures r.Some? ==> 1 <= r.value.1 <= 4 && |s| >= 3 * r.value.1
  {
    match ReadOctet(s)
    case None => None
    case Some(b) =>
      if Announced(b) == 0 then None
      else
        match ReadOctets(s, Announced(b))
        case None => None
        case Some(o) => match CodePointOf(o) case None => None case Some(c) => Some((c, |o|))
  }

  function Decode(s: JsString): Result<JsString, UriError>
    decreases |s|
  {
    if s == [] then Ok([])
    else if s[0] != Percent then
      match Decode(s[1..]) case Ok(rest) => Ok([s[0]] + rest) case Err(e) => Err(e)
    else
      match ReadPoint(s)
      case None => Err(UriError)
      case Some(p) => match Decode(s[3 * p.1..]) case Ok(rest) => Ok(Units(p.0) + rest) case Err(e) => Err(e)
  }

  // ── What can be encoded ────────────────────────────────────────────────────

  lemma TailIsPaired(s: JsString, n: nat, i: nat)
    requires s != [] && FirstPoint(s).Some? && n == |Units(FirstPoint(s).value)| && i < |s|
    ensures i < n ==> IsPaired(s, i)
    ensures i >= n ==> (IsPaired(s, i) <==> IsPaired(s[n..], i - n))
  {
    var t := s[n..];
    if i >= n {
      assert t[i - n] == s[i];
      assert i + 1 < |s| ==> t[i + 1 - n] == s[i + 1];
      assert i == n ==> !IsHigh(s[i - 1]) && s[i - 1] == s[n - 1];
      assert i > n ==> t[i - n - 1] == s[i - 1];
    }
  }

  lemma WellFormedTail(s: JsString)
    requires s != []
    ensures WellFormed(s) <==>
              FirstPoint(s).Some? && WellFormed(s[|Units(FirstPoint(s).value)|..])
  {
    if FirstPoint(s).Some? {
      var n := |Units(FirstPoint(s).value)|;
      var t := s[n..];
      forall i: nat | i < |s| ensures i < n ==> IsPaired(s, i)
                              ensures i >= n ==> (IsPaired(s, i) <==> IsPaired(t, i - n))
      {
        TailIsPaired(s, n, i);
      }
      if WellFormed(s) {
        forall j | 0 <= j < |t| ensures IsPaired(t, j) { assert IsPaired(s, j + n); }
      }
    } else {
      assert !IsPaired(s, 0);
    }
  }

  /** encodeURIComponent throws exactly on a lone surrogate. */
  lemma {:induction false} EncodeIffWellFormed(s: JsString)
    ensures Encode(s).Ok? <==> WellFormed(s)
    decreases |s|
  {
    if s != [] {
      WellFormedTail(s);
      if FirstPoint(s).Some? { EncodeIffWellFormed(s[|Units(FirstPoint(s).value)|..]); }
    }
  }

  // ── The round trip ─────────────────────────────────────────────────────────

  lemma ReadOneOctet(b: Octet, rest: JsString)
    ensures ReadOctet([Percent, HexDigit(b / 16), HexDigit(b % 16)] + rest) == Some(b)
  {
    assert HexValue(HexDigit(b / 16)) == Some(b / 16) && HexValue(HexDigit(b % 16)) == Some(b % 16);
  }

  lemma {:induction false} ReadPercentOctets(o: seq<Octet>, rest: JsString)
    ensures ReadOctets(PercentOctets(o) + rest, |o|) == Some(o)
    decreases |o|
  {
    if o != [] {
      var head := [Percent, HexDigit(o[0] / 16), HexDigit(o[0] % 16)];
      var tail := PercentOctets(o[1..]) + rest;
      assert PercentOctets(o) + rest == head + tail;
      ReadOneOctet(o[0], tail);
      assert (head + tail)[3..] == tail;
      ReadPercentOctets(o[1..], rest);
      assert [o[0]] + o[1..] == o;
    }
  }

  lemma ReadEncodedPoint(c: CodePoint, rest: JsString)
    requires IsScalar(c)
    ensures ReadPoint(PercentOctets(Octets(c)) + rest) == Some((c, |Octets(c)|))
  {
    var o := Octets(c);
    OctetsRoundTrip(c);
    ReadPercentOctets(o, rest);
    var tail := PercentOctets(o[1..]) + rest;
    assert PercentOctets(o) + rest == [Percent, HexDigit(o[0] / 16), HexDigit(o[0] % 16)] + tail;
    ReadOneOctet(o[0], tail);
  }

  /** decodeURIComponent undoes encodeURIComponent on everything that can be encoded. */
  lemma {:induction false} DecodeEncode(s: JsString)
    requires WellFormed(s)
    ensures Encode(s).Ok? && Decode(Encode(s).value) == Ok(s)
    decreases |s|
  {
    EncodeIffWellFormed(s);
    if s != [] {
      WellFormedTail(s);
      var c := FirstPoint(s).value;
      var n := |Units(c)|;
      DecodeEncode(s[n..]);
      var rest := Encode(s[n..]).value;
      if IsUnescaped(s[0]) {
        assert n == 1;
        assert ([s[0]] + rest)[1..] == rest;
        assert s == [s[0]] + s[1..];
      } else {
        ReadEncodedPoint(c, rest);
        var printed := PercentOctets(Octets(c));
        assert (printed + rest)[|printed|..] == rest;
        UnitsOfFirst(s, c);
      }
    }
  }

  lemma UnitsOfFirst(s: JsString, c: CodePoint)
    requires s != [] && FirstPoint(s) == Some(c)
    ensures s == Units(c) + s[|Units(c)|..]
  {}

  /** What an encoder prints: letters, digits, `-_.!~*'()` and percent signs. */
  predicate IsPlain(s: JsString) {
    forall i :: 0 <= i < |s| ==> IsUnescaped(s[i]) || s[i] == Percent
  }

  lemma {:induction false} PercentOctetsArePlain(o: seq<Octet>)
    ensures IsPlain(PercentOctets(o))
  {
    if o != [] { PercentOctetsArePlain(o[1..]); }
  }

  /** Nothing structural in a URL or an attribute list survives encoding, and nothing becomes empty. */
  lemma {:induction false} EncodedIsPlain(s: JsString)
    requires Encode(s).Ok?
    ensures IsPlain(Encode(s).value)
    ensures s != [] ==> Encode(s).value != []
    decreases |s|
  {
    if s != [] {
      if IsUnescaped(s[0]) {
        EncodedIsPlain(s[1..]);
      } else {
        var c := FirstPoint(s).value;
        EncodedIsPlain(s[|Units(c)|..]);
        PercentOctetsArePlain(Octets(c));
      }
    }
  }

  // ── The alphabets, written out ─────────────────────────────────────────────

  predicate IsLetterOrDigit(c: char) {
    'A' <= c <= 'Z' || 'a' <= c <= 'z' || '0' <= c <= '9'
  }

  /** The characters that stay as they are: letters, digits and nine marks. */
  lemma UnescapedAre(u: CodeUnit)
    ensures IsUnescaped(u) <==>
              u < 0x80 && (IsLetterOrDigit(u as char) || (u as char) in {'-', '_', '.', '!', '~', '*', '\'', '(', ')'})
  {}

  /** Escapes are printed in capitals and read in either case; nothing else is a hexadecimal digit. */
  lemma HexIs(n: int, u: CodeUnit)
    requires 0 <= n < 16
    ensures HexDigit(n) == if n < 10 then '0' as int + n else 'A' as int + (n - 10)
    ensures HexValue(u) == Some(n) <==>
              if n < 10 then u == '0' as int + n else u == 'A' as int + (n - 10) || u == 'a' as int + (n - 10)
    ensures HexValue(u).Some? ==> 0 <= HexValue(u).value < 16
  {}

  // ── What a decoder must refuse ─────────────────────────────────────────────

  /** UTF-8 is decoded exactly: octets stand for a code point if and only if they are the ones it is encoded as. */
  lemma DecodesOnlyUtf8(o: seq<Octet>, c: CodePoint)
    ensures CodePointOf(o) == Some(c) <==> IsScalar(c) && o == Octets(c)
  {
    if IsScalar(c) { OctetsRoundTrip(c); }
    if CodePointOf(o) == Some(c) { PointsAreScalar(o, c); }
  }

  lemma PointsAreScalar(o: seq<Octet>, c: CodePoint)
    requires CodePointOf(o) == Some(c)
    ensures IsScalar(c) && o == Octets(c)
  {
    assert forall i :: 1 <= i < |o| ==> IsTrail(o[i]);
    if |o| == 2 {
      assert IsTrail(o[1]);
    } else if |o| == 3 {
      assert IsTrail(o[1]) && IsTrail(o[2]);
      ThreeBack(o, c);
    } else if |o| == 4 {
      assert IsTrail(o[1]) && IsTrail(o[2]) && IsTrail(o[3]);
      FourBack(o, c);
    }
  }

  lemma ThreeBack(o: seq<Octet>, c: CodePoint)
    requires |o| == 3 && 0xE0 <= o[0] < 0xF0 && IsTrail(o[1]) && IsTrail(o[2]) && 0x800 <= c
    requires c == Less(o[0], 0xE0) * 0x1000 + Less(o[1], 0x80) * 0x40 + Less(o[2], 0x80)
    ensures o == Octets(c)
  {
    assert c / 0x40 == Less(o[0], 0xE0) * 0x40 + Less(o[1], 0x80);
  }

  lemma FourBack(o: seq<Octet>, c: CodePoint)
    requires |o| == 4 && 0xF0 <= o[0] < 0xF8 && IsTrail(o[1]) && IsTrail(o[2]) && IsTrail(o[3]) && 0x1_0000 <= c
    requires c == Less(o[0], 0xF0) * 0x4_0000 + Less(o[1], 0x80) * 0x1000 + Less(o[2], 0x80) * 0x40 + Less(o[3], 0x80)
    ensures o == Octets(c)
  {
    assert c / 0x40 == Less(o[0], 0xF0) * 0x1000 + Less(o[1], 0x80) * 0x40 + Less(o[2], 0x80);
    assert c / 0x1000 == Less(o[0], 0xF0) * 0x40 + Less(o[1], 0x80);
  }

  /** What is not an escape stands for itself; a percent sign that starts no complete escape is an error. */
  lemma DecodeSteps(s: JsString)
    requires s != []
    ensures s[0] != 0x25 ==>
              (Decode(s).Ok? <==> Decode(s[1..]).Ok?) && (Decode(s).Ok? ==> Decode(s).value == [s[0]] + Decode(s[1..]).value)
    ensures s[0] == 0x25 && (|s| < 3 || HexValue(s[1]).None? || HexValue(s[2]).None?) ==> Decode(s).Err?
  {}
}
