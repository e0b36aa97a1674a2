/**
 * Reading the release out of the OTel resource attributes (apps/api/src/bootstrap/service-version.ts), against a printer
 * of attribute lists that percent-encodes the version.
 */
module ServiceVersion {
  import opened Wrappers
  import opened Text
  import opened PercentCodec

  const Comma: CodeUnit := 0x2C
  const Equals: CodeUnit := 0x3D

  function VersionKey(): JsString {
    Ascii("service.version")
  }

  predicate IsSpaceUnit(u: CodeUnit) {
    !(0xD800 <= u < 0xE000) && IsSpace(u as char)
  }

  function TrimUnits(s: JsString): JsString {
    TrimBy(s, IsSpaceUnit)
  }

  // ── Splitting ──────────────────────────────────────────────────────────────

  function Split(s: JsString, separator: CodeUnit): (parts: seq<JsString>)
    ensures |parts| >= 1
  {
    if s == [] then [[]]
    else
      var rest := Split(s[1..], separator);
      if s[0] == separator then [[]] + rest else [[s[0]] + rest[0]] + rest[1..]
  }

  function Join(parts: seq<JsString>, separator: CodeUnit): JsString
    requires |parts| >= 1
  {
    if |parts| == 1 then parts[0] else parts[0] + [separator] + Join(parts[1..], separator)
  }

  function IndexOf(s: JsString, u: CodeUnit): (i: int)
    ensures -1 <= i < |s|
    ensures if i >= 0 then s[i] == u && u !in s[..i] else u !in s
  {
    if s == [] then -1
    else if s[0] == u then 0
    else
      var i := IndexOf(s[1..], u);
      assert s == [s[0]] + s[1..];
      if i < 0 then -1 else
        assert s[..i + 1] == [s[0]] + s[1..][..i];
        i + 1
  }

  // ── serviceVersionFromOtel ─────────────────────────────────────────────────

  /** The pair's key, trimmed; a pair without one, or with nothing before its `=`, has none. */
  function KeyOf(pair: JsString): Option<JsString> {
    var separator := IndexOf(pair, Equals);
    if separator <= 0 then None else Some(TrimUnits(pair[..separator]))
  }

  function RawValue(pair: JsString): JsString
    requires IndexOf(pair, Equals) >= 0
  {
    TrimUnits(pair[IndexOf(pair, Equals) + 1..])
  }

  /** Decoded if it can be, and the literal text if not. */
  function Reading(raw: JsString): Option<JsString> {
    if raw == [] then None else if Decode(raw).Ok? then Some(Decode(raw).value) else Some(raw)
  }

  /** The first pair with the key; past the end if there is none. */
  function FirstVersionPair(pairs: seq<JsString>): (i: nat)
    ensures i <= |pairs|
    ensures i < |pairs| ==> KeyOf(pairs[i]) == Some(VersionKey())
  {
    if pairs == [] then 0 else if KeyOf(pairs[0]) == Some(VersionKey()) then 0 else 1 + FirstVersionPair(pairs[1..])
  }

  function VersionAmong(pairs: seq<JsString>): Option<JsString> {
    var i := FirstVersionPair(pairs);
    if i < |pairs| then Reading(RawValue(pairs[i])) else None
  }

  function VersionFromOtel(attributes: Option<JsString>): Option<JsString> {
    if attributes.None? || attributes.value == [] then None else VersionAmong(Split(attributes.value, Comma))
  }

  /** The value as it is reported: a malformed escape is not worth failing the boot over. */
  method ReadVersion(raw: JsString) returns (version: Option<JsString>)
    ensures version == Reading(raw)
  {
    if raw == [] { return None; }
    var decoded := Decode(raw);
    return Some(if decoded.Ok? then decoded.value else raw);
  }

  lemma SkipPair(pairs: seq<JsString>, i: nat)
    requires i < |pairs|
    ensures FirstVersionPair(pairs[i..]) ==
            if KeyOf(pairs[i]) == Some(VersionKey()) then 0 else 1 + FirstVersionPair(pairs[i + 1..])
  {
    assert pairs[i..][0] == pairs[i] && pairs[i..][1..] == pairs[i + 1..];
  }

  /** What one pair contributes: nothing, if its key is another, or the value that ends the scan. */
  method ReadPair(pair: JsString) returns (matches: bool, version: Option<JsString>)
    ensures matches <==> KeyOf(pair) == Some(VersionKey())
    ensures matches ==> version == Reading(RawValue(pair))
  {
    version := None;
    var separator := IndexOf(pair, Equals);
    if separator <= 0 { return false, None; }
    matches := TrimUnits(pair[..separator]) == VersionKey();
    if matches { version := ReadVersion(TrimUnits(pair[separator + 1..])); }
  }

  method ServiceVersionFromOtel(attributes: Option<JsString>) returns (version: Option<JsString>)
    ensures version == VersionFromOtel(attributes)
  {
    if attributes.None? || attributes.value == [] { return None; }
    var pairs := Split(attributes.value, Comma);
    assert pairs[0..] == pairs;
    for i := 0 to |pairs|
      invariant FirstVersionPair(pairs) == i + FirstVersionPair(pairs[i..])
    {
      SkipPair(pairs, i);
      var matches, reading := ReadPair(pairs[i]);
      if matches {
        assert FirstVersionPair(pairs) == i;
        return reading;
      }
    }
    return None;
  }

  class Environment {
    var serviceVersion: Option<JsString>
    const resourceAttributes: Option<JsString>

    constructor (serviceVersion: Option<JsString>, resourceAttributes: Option<JsString>)
      ensures this.serviceVersion == serviceVersion && this.resourceAttributes == resourceAttributes
    {
      this.serviceVersion, this.resourceAttributes := serviceVersion, resourceAttributes;
    }

    predicate IsExplicit()
      reads this
    {
      serviceVersion.Some? && TrimUnits(serviceVersion.value) != []
    }

    /** applyServiceVersionFromOtel: an explicit version wins, and a missing attribute changes nothing. */
    method Apply()
      modifies this
      ensures serviceVersion == if old(IsExplicit()) || VersionFromOtel(resourceAttributes).None?
                                   || VersionFromOtel(resourceAttributes).value == [] then old(serviceVersion)
                                else VersionFromOtel(resourceAttributes)
    {
      if serviceVersion.Some? && TrimUnits(serviceVersion.value) != [] { return; }
      var version := ServiceVersionFromOtel(resourceAttributes);
      if version.Some? && version.value != [] { serviceVersion := version; }
    }
  }

  // ── The round trip ─────────────────────────────────────────────────────────

  lemma {:induction false} SplitJoin(parts: seq<JsString>, separator: CodeUnit)
    requires |parts| >= 1 && forall p <- parts :: separator !in p
    ensures Split(Join(parts, separator), separator) == parts
    decreases |parts|
  {
    if |parts| == 1 {
      assert parts[0] in parts;
      SplitFree(parts[0], separator);
      assert parts == [parts[0]];
    } else {
      assert parts[0] in parts && forall p <- parts[1..] :: p in parts;
      SplitJoin(parts[1..], separator);
      SplitFirst(parts[0], Join(parts[1..], separator), separator);
      assert parts[0] + [separator] + Join(parts[1..], separator) == parts[0] + ([separator] + Join(parts[1..], separator));
    }
  }

  lemma {:induction false} SplitFree(s: JsString, separator: CodeUnit)
    requires separator !in s
    ensures Split(s, separator) == [s]
  {
    if s != [] {
      SplitFree(s[1..], separator);
      assert [s[0]] + s[1..] == s;
    }
  }

  lemma {:induction false} SplitFirst(s: JsString, rest: JsString, separator: CodeUnit)
    requires separator !in s
    ensures Split(s + ([separator] + rest), separator) == [s] + Split(rest, separator)
  {
    var whole := s + ([separator] + rest);
    if s == [] {
      assert whole == [separator] + rest && whole[1..] == rest;
    } else {
      assert whole[1..] == s[1..] + ([separator] + rest) && whole[0] == s[0];
      SplitFirst(s[1..], rest, separator);
      assert [s[0]] + s[1..] == s;
    }
  }

  /** What never needs trimming: text with no space in it. */
  lemma TrimKeeps(s: JsString)
    requires forall u <- s :: !IsSpaceUnit(u)
    ensures TrimUnits(s) == s
  {
    if s != [] { assert s[0] in s && s[|s| - 1] in s; }
  }

  lemma PlainHasNoSpace(s: JsString)
    requires IsPlain(s)
    ensures forall u <- s :: !IsSpaceUnit(u) && u != Comma && u != Equals
  {
    forall u <- s ensures !IsSpaceUnit(u) && u != Comma && u != Equals {
      assert IsUnescaped(u) || u == Percent;
      assert 0x21 <= u <= 0x7E;
    }
  }

  datatype Attribute = Attribute(key: JsString, value: JsString)

  function Print(a: Attribute): JsString {
    a.key + [Equals] + a.value
  }

  function PrintAll(attributes: seq<Attribute>): (r: seq<JsString>)
    ensures |r| == |attributes| && forall i :: 0 <= i < |r| ==> r[i] == Print(attributes[i])
  {
    seq(|attributes|, i requires 0 <= i < |attributes| => Print(attributes[i]))
  }

  /** Keys and values hold no comma, and keys no equals sign. */
  ghost predicate Printable(attributes: seq<Attribute>) {
    forall a <- attributes :: Comma !in a.key && Equals !in a.key && Comma !in a.value
  }

  lemma {:induction false} FirstIndex(front: JsString, u: CodeUnit, rest: JsString)
    requires u !in front
    ensures IndexOf(front + ([u] + rest), u) == |front|
  {
    var s := front + ([u] + rest);
    if front != [] {
      assert s[0] == front[0] && front[0] in front;
      assert s[1..] == front[1..] + ([u] + rest);
      FirstIndex(front[1..], u, rest);
    }
  }

  lemma ReadPrinted(a: Attribute)
    requires Equals !in a.key
    ensures KeyOf(Print(a)) == if a.key == [] then None else Some(TrimUnits(a.key))
    ensures IndexOf(Print(a), Equals) >= 0 && RawValue(Print(a)) == TrimUnits(a.value)
  {
    var s := Print(a);
    assert s == a.key + ([Equals] + a.value);
    FirstIndex(a.key, Equals, a.value);
    assert s[..|a.key|] == a.key && s[|a.key| + 1..] == a.value;
  }

  lemma {:induction false} FirstKeyDecides(pairs: seq<JsString>, k: nat)
    requires k < |pairs| && KeyOf(pairs[k]) == Some(VersionKey())
    requires forall i :: 0 <= i < k ==> KeyOf(pairs[i]) != Some(VersionKey())
    ensures FirstVersionPair(pairs) == k
    decreases k
  {
    if k > 0 {
      assert KeyOf(pairs[0]) != Some(VersionKey());
      FirstKeyDecides(pairs[1..], k - 1);
    }
  }

  lemma EmptyIsNoVersion()
    ensures TrimUnits([]) != VersionKey()
  {}

  lemma KeyOfPrinted(a: Attribute)
    requires Equals !in a.key
    ensures KeyOf(Print(a)) == Some(VersionKey()) <==> TrimUnits(a.key) == VersionKey()
  {
    ReadPrinted(a);
    EmptyIsNoVersion();
  }

  lemma NonEmptyList(attributes: seq<Attribute>)
    requires |attributes| > 0
    ensures Join(PrintAll(attributes), Comma) != []
  {
    assert Print(attributes[0])[|attributes[0].key|] == Equals;
  }

  lemma ReadsFirst(attributes: seq<Attribute>, k: nat)
    requires Printable(attributes) && k < |attributes|
    requires TrimUnits(attributes[k].key) == VersionKey()
    requires forall i :: 0 <= i < k ==> TrimUnits(attributes[i].key) != VersionKey()
    ensures VersionFromOtel(Some(Join(PrintAll(attributes), Comma))) == Reading(TrimUnits(attributes[k].value))
  {
    var pairs := PrintAll(attributes);
    forall p <- pairs ensures Comma !in p {
      var i :| 0 <= i < |pairs| && pairs[i] == p;
      assert attributes[i] in attributes;
    }
    SplitJoin(pairs, Comma);
    NonEmptyList(attributes);
    forall i | 0 <= i <= k ensures KeyOf(pairs[i]) == Some(VersionKey()) <==> i == k {
      assert attributes[i] in attributes;
      KeyOfPrinted(attributes[i]);
    }
    FirstKeyDecides(pairs, k);
    assert attributes[k] in attributes;
    ReadPrinted(attributes[k]);
  }

  ghost predicate KeysDiffer(attributes: seq<Attribute>) {
    forall i, j :: 0 <= i < j < |attributes| ==> TrimUnits(attributes[i].key) != TrimUnits(attributes[j].key)
  }

  ghost predicate IsVersion(a: Attribute, version: JsString) {
    TrimUnits(a.key) == Ascii("service.version") && Encode(version) == Ok(a.value)
  }

  /**
   * The round trip: from a list of attributes whose trimmed keys differ, wherever in it the version stands and whatever
   * the others say, the release that was percent-encoded is the release that is read.
   */
  lemma VersionSurvives(attributes: seq<Attribute>, k: nat, version: JsString)
    requires Printable(attributes) && k < |attributes|
    requires KeysDiffer(attributes) && IsVersion(attributes[k], version) && version != [] && WellFormed(version)
    ensures VersionFromOtel(Some(Join(PrintAll(attributes), Comma))) == Some(version)
  {
    DecodeEncode(version);
    EncodedIsPlain(version);
    PlainHasNoSpace(attributes[k].value);
    TrimKeeps(attributes[k].value);
    ReadsFirst(attributes, k);
  }

  /** A version no decoder accepts is reported as it stands, and never as nothing. */
  lemma MalformedIsKept(attributes: seq<Attribute>, k: nat)
    requires Printable(attributes) && k < |attributes|
    requires TrimUnits(attributes[k].key) == Ascii("service.version")
    requires forall i :: 0 <= i < k ==> TrimUnits(attributes[i].key) != Ascii("service.version")
    requires Decode(TrimUnits(attributes[k].value)).Err?
    ensures VersionFromOtel(Some(Join(PrintAll(attributes), Comma))) == Some(TrimUnits(attributes[k].value))
  {
    ReadsFirst(attributes, k);
  }

  /** An empty version is no version. */
  lemma EmptyIsNone(attributes: seq<Attribute>, k: nat)
    requires Printable(attributes) && k < |attributes|
    requires TrimUnits(attributes[k].key) == Ascii("service.version") && TrimUnits(attributes[k].value) == []
    requires forall i :: 0 <= i < k ==> TrimUnits(attributes[i].key) != Ascii("service.version")
    ensures VersionFromOtel(Some(Join(PrintAll(attributes), Comma))) == None
  {
    ReadsFirst(attributes, k);
  }

  lemma {:induction false} NoKeyNoPair(pairs: seq<JsString>)
    requires forall p <- pairs :: KeyOf(p) != Some(VersionKey())
    ensures FirstVersionPair(pairs) == |pairs|
  {
    if pairs != [] {
      assert pairs[0] in pairs && forall p <- pairs[1..] :: p in pairs;
      NoKeyNoPair(pairs[1..]);
    }
  }

  /** Nothing is read from attributes that are not there, or among which no key is the version's. */
  lemma AbsentIsNone(attributes: seq<Attribute>)
    requires Printable(attributes)
    requires forall a <- attributes :: TrimUnits(a.key) != Ascii("service.version")
    ensures VersionFromOtel(None) == None && VersionFromOtel(Some([])) == None
    ensures |attributes| > 0 ==> VersionFromOtel(Some(Join(PrintAll(attributes), Comma))) == None
  {
    if |attributes| > 0 {
      var pairs := PrintAll(attributes);
      forall p <- pairs ensures Comma !in p && KeyOf(p) != Some(VersionKey()) {
        var i :| 0 <= i < |pairs| && pairs[i] == p;
        assert attributes[i] in attributes;
        KeyOfPrinted(attributes[i]);
      }
      SplitJoin(pairs, Comma);
      NoKeyNoPair(pairs);
    }
  }

  /** A pair is its key, an equals sign and its value, and a comma stands between two pairs. */
  lemma PrintedIs(a: Attribute, b: Attribute)
    ensures Print(a) == a.key + Ascii("=") + a.value
    ensures Join(PrintAll([a, b]), Comma) == Print(a) + Ascii(",") + Print(b)
  {
    assert PrintAll([a, b])[1..] == [Print(b)];
  }
}
