/** The string operations the sources use, on ASCII letters and the white space `String.prototype.trim` removes. */
module Text {
  function LowerChar(c: char): char {
    if 'A' <= c <= 'Z' then c - 'A' + 'a' else c
  }

  function UpperChar(c: char): char {
    if 'a' <= c <= 'z' then c - 'a' + 'A' else c
  }

  function Lower(s: string): (t: string)
    ensures |t| == |s| && forall i :: 0 <= i < |s| ==> t[i] == LowerChar(s[i])
  {
    seq(|s|, i requires 0 <= i < |s| => LowerChar(s[i]))
  }

  function Upper(s: string): (t: string)
    ensures |t| == |s| && forall i :: 0 <= i < |s| ==> t[i] == UpperChar(s[i])
  {
    seq(|s|, i requires 0 <= i < |s| => UpperChar(s[i]))
  }

  predicate IsSpace(c: char) {
    c in " \t\n\r\U{B}\U{C}\U{A0}\U{1680}\U{2028}\U{2029}\U{202F}\U{205F}\U{3000}\U{FEFF}"
    || '\U{2000}' <= c <= '\U{200A}'
  }

  function TrimStartBy<T>(s: seq<T>, space: T -> bool): seq<T> {
    if s != [] && space(s[0]) then TrimStartBy(s[1..], space) else s
  }

  function TrimEndBy<T>(s: seq<T>, space: T -> bool): seq<T> {
    if s != [] && space(s[|s| - 1]) then TrimEndBy(s[..|s| - 1], space) else s
  }

  function TrimBy<T>(s: seq<T>, space: T -> bool): seq<T> {
    TrimEndBy(TrimStartBy(s, space), space)
  }

  function TrimStart(s: string): string {
    TrimStartBy(s, IsSpace)
  }

  function Trim(s: string): string {
    TrimBy(s, IsSpace)
  }

  // ── What they do, in code points ───────────────────────────────────────────

  /** The 26 capitals and their small letters, 32 apart; every other character is left alone. */
  lemma CasesAre(c: char)
    ensures LowerChar(c) as int == if 65 <= c as int <= 90 then c as int + 32 else c as int
    ensures UpperChar(c) as int == if 97 <= c as int <= 122 then c as int - 32 else c as int
  {}

  /** The white space and line terminators of sections 12.2 and 12.3 of ECMA-262. */
  lemma SpacesAre(c: char)
    ensures IsSpace(c) <==>
              || 9 <= c as int <= 13 || c as int == 32 || c as int == 0xA0 || c as int == 0x1680 || 0x2000 <= c as int <= 0x200A
              || c as int == 0x2028 || c as int == 0x2029 || c as int == 0x202F || c as int == 0x205F || c as int == 0x3000
              || c as int == 0xFEFF
  {}

  ghost predicate AllBy<T>(s: seq<T>, space: T -> bool) {
    forall u <- s :: space(u)
  }

  /** Trimming takes spaces away at both ends, all of them, and nothing else. */
  ghost predicate IsTrimmed<T>(s: seq<T>, t: seq<T>, space: T -> bool, i: nat, j: nat) {
    && i <= j <= |s| && t == s[i..j] && AllBy(s[..i], space) && AllBy(s[j..], space)
    && (t != [] ==> !space(t[0]) && !space(t[|t| - 1]))
  }

  lemma {:induction false} TrimStartIs<T>(s: seq<T>, space: T -> bool) returns (i: nat)
    ensures i <= |s| && TrimStartBy(s, space) == s[i..] && AllBy(s[..i], space) && (i < |s| ==> !space(s[i]))
  {
    i := 0;
    if s != [] && space(s[0]) {
      var rest := TrimStartIs(s[1..], space);
      i := rest + 1;
      assert s[..i] == [s[0]] + s[1..][..rest];
    }
  }

  lemma {:induction false} TrimEndIs<T>(s: seq<T>, space: T -> bool) returns (j: nat)
    ensures j <= |s| && TrimEndBy(s, space) == s[..j] && AllBy(s[j..], space) && (j > 0 ==> !space(s[j - 1]))
  {
    j := |s|;
    if s != [] && space(s[|s| - 1]) {
      j := TrimEndIs(s[..|s| - 1], space);
      assert s[j..] == s[..|s| - 1][j..] + [s[|s| - 1]];
    }
  }

  lemma TrimIs<T>(s: seq<T>, space: T -> bool) returns (i: nat, j: nat)
    ensures IsTrimmed(s, TrimBy(s, space), space, i, j)
  {
    i := TrimStartIs(s, space);
    var middle := s[i..];
    var k := TrimEndIs(middle, space);
    j := i + k;
    assert s[j..] == middle[k..] && s[i..j] == middle[..k];
  }
}
