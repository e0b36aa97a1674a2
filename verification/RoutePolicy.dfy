/**
 * The route policy for bridged MCP requests (apps/api/src/mcp/write-policy.ts): templates are compared with their
 * parameter names erased, so that the router's spelling and the catalogue's can never widen or narrow the gate.
 */
module RoutePolicy {
  import opened Wrappers
  import opened Text

  predicate IsWord(c: char) {
    'A' <= c <= 'Z' || 'a' <= c <= 'z' || '0' <= c <= '9' || c == '_'
  }

  /** The digits, the two cases of the letters, and the underscore. */
  lemma WordsAre(c: char)
    ensures IsWord(c) <==>
              48 <= c as int <= 57 || 65 <= c as int <= 90 || c as int == 95 || 97 <= c as int <= 122
  {}

  predicate AllWord(s: string) {
    forall i :: 0 <= i < |s| ==> IsWord(s[i])
  }

  /** What is left after the longest run of word characters. */
  function SkipWord(s: string): (t: string)
    ensures |t| <= |s|
  {
    if s != "" && IsWord(s[0]) then SkipWord(s[1..]) else s
  }

  predicate IsParameter(segment: string) {
    |segment| >= 2 && segment[0] == ':' && IsWord(segment[1])
  }

  /** `url.replace(/\/:[A-Za-z0-9_]+/g, '/:param')`: leftmost matches, each as long as it can be. */
  function Normalize(url: string): string
    decreases |url|
  {
    if url == "" then ""
    else if url[0] == '/' && IsParameter(url[1..]) then "/:param" + Normalize(SkipWord(url[2..]))
    else [url[0]] + Normalize(url[1..])
  }

  function WriteKey(verb: string, url: string): string {
    Upper(verb) + " " + Normalize(url)
  }

  function ReadKey(url: string): string {
    "GET " + Normalize(url)
  }

  datatype Policy = Policy(writesEnabled: bool, readable: set<string>, writable: set<string>)

  function RequestAllowed(verb: string, route: Option<string>, policy: Policy): bool {
    if route.None? then false
    else if Upper(verb) == "GET" || Upper(verb) == "HEAD" then ReadKey(route.value) in policy.readable
    else policy.writesEnabled && WriteKey(Upper(verb), route.value) in policy.writable
  }

  // ── What erasing names means, segment by segment ───────────────────────────

  /** What precedes the first slash, and the pieces after each slash. */
  datatype Template = Template(head: string, tail: seq<string>)

  function Parse(s: string): Template {
    if s == "" then Template("", [])
    else
      var rest := Parse(s[1..]);
      if s[0] == '/' then Template("", [rest.head] + rest.tail) else Template([s[0]] + rest.head, rest.tail)
  }

  function JoinTail(tail: seq<string>): string {
    if tail == [] then "" else "/" + tail[0] + JoinTail(tail[1..])
  }

  function Join(t: Template): string {
    t.head + JoinTail(t.tail)
  }

  /** Two segments spell the same place: the same text, or a parameter each with the same text after its name. */
  predicate SameSegment(x: string, y: string) {
    x == y || (IsParameter(x) && IsParameter(y) && SkipWord(x[1..]) == SkipWord(y[1..]))
  }

  /** The same template up to the names of its parameters. What precedes the first slash is never a parameter. */
  predicate SameUpToNames(a: string, b: string) {
    var x, y := Parse(a), Parse(b);
    x.head == y.head && |x.tail| == |y.tail| && forall i :: 0 <= i < |x.tail| ==> SameSegment(x.tail[i], y.tail[i])
  }

  function EraseName(s: string): string {
    if IsParameter(s) then ":param" + SkipWord(s[1..]) else s
  }

  function EraseNames(tail: seq<string>): (r: seq<string>)
    ensures |r| == |tail| && forall i :: 0 <= i < |tail| ==> r[i] == EraseName(tail[i])
  {
    seq(|tail|, i requires 0 <= i < |tail| => EraseName(tail[i]))
  }

  lemma {:induction false} JoinParse(s: string)
    ensures Join(Parse(s)) == s
  {
    if s != "" {
      JoinParse(s[1..]);
      var rest := Parse(s[1..]);
      assert s == [s[0]] + s[1..];
      if s[0] == '/' {
        assert ([rest.head] + rest.tail)[1..] == rest.tail;
        assert "" + JoinTail([rest.head] + rest.tail) == "/" + (rest.head + JoinTail(rest.tail));
      } else {
        assert ([s[0]] + rest.head) + JoinTail(rest.tail) == [s[0]] + (rest.head + JoinTail(rest.tail));
      }
    }
  }

  lemma {:induction false} ParsePrepend(p: string, s: string)
    requires '/' !in p
    ensures Parse(p + s) == Template(p + Parse(s).head, Parse(s).tail)
  {
    if p == "" {
      assert p + s == s;
      assert "" + Parse(s).head == Parse(s).head;
    } else {
      assert (p + s)[1..] == p[1..] + s;
      ParsePrepend(p[1..], s);
      assert [p[0]] + (p[1..] + Parse(s).head) == p + Parse(s).head;
    }
  }

  lemma ParseSlash(s: string)
    ensures Parse("/" + s) == Template("", [Parse(s).head] + Parse(s).tail)
  {
    assert ("/" + s)[1..] == s;
  }

  lemma {:induction false} SkipWordSplits(s: string) returns (word: string)
    ensures s == word + SkipWord(s) && AllWord(word)
    ensures SkipWord(s) != "" ==> !IsWord(SkipWord(s)[0])
    ensures s != "" && IsWord(s[0]) ==> word != ""
  {
    word := "";
    if s != "" && IsWord(s[0]) {
      var more := SkipWordSplits(s[1..]);
      word := [s[0]] + more;
      assert s == [s[0]] + s[1..];
    }
  }

  lemma {:induction false} SkipWordPrefix(w: string, t: string)
    requires AllWord(w)
    requires t != "" ==> !IsWord(t[0])
    ensures SkipWord(w + t) == t
  {
    if w == "" {
      assert w + t == t;
    } else {
      assert (w + t)[1..] == w[1..] + t;
      SkipWordPrefix(w[1..], t);
    }
  }

  /** The head keeps the first characters, up to the first slash. */
  lemma HeadStarts(s: string)
    ensures s == "" || s[0] == '/' <==> Parse(s).head == ""
    ensures s != "" && s[0] != '/' ==> Parse(s).head[0] == s[0]
    ensures IsParameter(Parse(s).head) <==> IsParameter(s)
  {
    if |s| >= 2 && s[0] != '/' {
      assert Parse(s).head[1..] == Parse(s[1..]).head;
    }
  }

  lemma EraseParameter(name: string, rest: string)
    requires |name| >= 1 && AllWord(name)
    requires rest != "" ==> !IsWord(rest[0])
    ensures EraseName(":" + name + rest) == ":param" + rest
  {
    var s := ":" + name + rest;
    assert s[1..] == name + rest && s[1] == name[0];
    SkipWordPrefix(name, rest);
  }

  lemma EraseCons(x: string, tail: seq<string>)
    ensures EraseNames([x] + tail) == [EraseName(x)] + EraseNames(tail)
  {}

  /** Scanning the whole template erases exactly what erasing each segment after a slash does. */
  lemma {:induction false} NormalizeBySegments(url: string)
    ensures Parse(Normalize(url)) == Template(Parse(url).head, EraseNames(Parse(url).tail))
    decreases |url|
  {
    if url == "" {
    } else if url[0] == '/' && IsParameter(url[1..]) {
      NormalizeBySegments(SkipWord(url[2..]));
      NormalizeAtParameter(url, SkipWord(url[2..]));
    } else if url[0] == '/' {
      NormalizeBySegments(url[1..]);
      NormalizeSlash(url, url[1..]);
    } else {
      NormalizeBySegments(url[1..]);
      NormalizeOther(url, url[0], url[1..]);
    }
  }

  lemma NormalizeAtParameter(url: string, rest: string)
    requires url != "" && url[0] == '/' && IsParameter(url[1..]) && rest == SkipWord(url[2..])
    requires Parse(Normalize(rest)) == Template(Parse(rest).head, EraseNames(Parse(rest).tail))
    ensures Parse(Normalize(url)) == Template(Parse(url).head, EraseNames(Parse(url).tail))
  {
    var name := SkipWordSplits(url[2..]);
    assert url == "/:" + url[2..];
    assert url == "/:" + name + rest;
    NormalizeParameter(url, name, rest);
  }

  lemma NormalizeSlash(url: string, rest: string)
    requires url == "/" + rest && !IsParameter(rest) && Normalize(url) == "/" + Normalize(rest)
    requires Parse(Normalize(rest)) == Template(Parse(rest).head, EraseNames(Parse(rest).tail))
    ensures Parse(Normalize(url)) == Template(Parse(url).head, EraseNames(Parse(url).tail))
  {
    ParseSlash(rest);
    ParseSlash(Normalize(rest));
    HeadStarts(rest);
    EraseCons(Parse(rest).head, Parse(rest).tail);
  }

  lemma NormalizeOther(url: string, c: char, rest: string)
    requires c != '/' && url == [c] + rest && Normalize(url) == [c] + Normalize(rest)
    requires Parse(Normalize(rest)) == Template(Parse(rest).head, EraseNames(Parse(rest).tail))
    ensures Parse(Normalize(url)) == Template(Parse(url).head, EraseNames(Parse(url).tail))
  {
    ParsePrepend([c], rest);
    ParsePrepend([c], Normalize(rest));
  }

  lemma ParseParameter(name: string, rest: string)
    requires '/' !in name
    ensures Parse("/:" + name + rest) == Template("", [":" + name + Parse(rest).head] + Parse(rest).tail)
  {
    assert "/:" + name + rest == "/" + ((":" + name) + rest);
    ParseSlash((":" + name) + rest);
    ParsePrepend(":" + name, rest);
  }

  lemma ParseErased(rest: string)
    ensures Parse("/:param" + rest) == Template("", [":param" + Parse(rest).head] + Parse(rest).tail)
  {
    ParseParameter("param", rest);
    assert "/:" + "param" + rest == "/:param" + rest;
    assert ":" + "param" + Parse(rest).head == ":param" + Parse(rest).head;
  }

  lemma ErasePiece(name: string, rest: string, tail: seq<string>)
    requires |name| >= 1 && AllWord(name)
    requires rest != "" ==> !IsWord(rest[0])
    ensures EraseNames([":" + name + rest] + tail) == [":param" + rest] + EraseNames(tail)
  {
    EraseParameter(name, rest);
    EraseCons(":" + name + rest, tail);
  }

  lemma NormalizeParameter(url: string, name: string, rest: string)
    requires url == "/:" + name + rest && Normalize(url) == "/:param" + Normalize(rest)
    requires |name| >= 1 && AllWord(name)
    requires rest != "" ==> !IsWord(rest[0])
    requires Parse(Normalize(rest)) == Template(Parse(rest).head, EraseNames(Parse(rest).tail))
    ensures Parse(Normalize(url)) == Template(Parse(url).head, EraseNames(Parse(url).tail))
  {
    var x := Parse(rest);
    assert Parse(url) == Template("", [":" + name + x.head] + x.tail) by { ParseParameter(name, rest); }
    assert Parse(Normalize(url)) == Template("", [":param" + x.head] + EraseNames(x.tail)) by { ParseErased(Normalize(rest)); }
    assert x.head != "" ==> !IsWord(x.head[0]) by { HeadStarts(rest); }
    ErasePiece(name, x.head, x.tail);
  }

  lemma EraseOnce(x: string)
    ensures EraseName(EraseName(x)) == EraseName(x)
  {
    if IsParameter(x) {
      var _ := SkipWordSplits(x[1..]);
      EraseParameter("param", SkipWord(x[1..]));
      assert ":" + "param" + SkipWord(x[1..]) == EraseName(x);
    }
  }

  lemma EraseAgrees(x: string, y: string)
    ensures EraseName(x) == EraseName(y) <==> SameSegment(x, y)
  {
    if IsParameter(x) && IsParameter(y) {
      assert EraseName(x)[6..] == SkipWord(x[1..]) && EraseName(y)[6..] == SkipWord(y[1..]);
    } else if IsParameter(x) {
      assert IsParameter(EraseName(x));
    } else if IsParameter(y) {
      assert IsParameter(EraseName(y));
    }
  }

  lemma ErasedAlike(x: seq<string>, y: seq<string>)
    ensures EraseNames(x) == EraseNames(y) <==>
              |x| == |y| && forall i :: 0 <= i < |x| ==> SameSegment(x[i], y[i])
  {
    if |x| == |y| {
      forall i | 0 <= i < |x| ensures EraseNames(x)[i] == EraseNames(y)[i] <==> SameSegment(x[i], y[i]) {
        EraseAgrees(x[i], y[i]);
      }
    }
  }

  /** Two templates have one key exactly when they differ in nothing but the names of their parameters. */
  lemma SameKeyIffSameUpToNames(a: string, b: string)
    ensures Normalize(a) == Normalize(b) <==> SameUpToNames(a, b)
  {
    NormalizeBySegments(a);
    NormalizeBySegments(b);
    ErasedAlike(Parse(a).tail, Parse(b).tail);
    JoinParse(Normalize(a));
    JoinParse(Normalize(b));
  }

  lemma NormalizeTwiceIsOnce(url: string)
    ensures Normalize(Normalize(url)) == Normalize(url)
  {
    var once, twice := Normalize(url), Normalize(Normalize(url));
    NormalizeBySegments(url);
    NormalizeBySegments(once);
    var tail := Parse(url).tail;
    forall i | 0 <= i < |tail| ensures EraseName(EraseName(tail[i])) == EraseName(tail[i]) { EraseOnce(tail[i]); }
    assert EraseNames(EraseNames(tail)) == EraseNames(tail);
    JoinParse(once);
    JoinParse(twice);
  }

  // ── The decision ───────────────────────────────────────────────────────────

  datatype Route = Route(verb: string, url: string)

  function ReadSet(urls: set<string>): set<string> {
    set u <- urls :: ReadKey(u)
  }

  function WriteSet(routes: set<Route>): set<string> {
    set r <- routes :: WriteKey(r.verb, r.url)
  }

  predicate IsRead(verb: string) {
    Upper(verb) in {"GET", "HEAD"}
  }

  lemma {:induction false} KeyInjective(m: string, u: string, n: string, v: string)
    requires ' ' !in m && ' ' !in n
    ensures m + " " + u == n + " " + v <==> m == n && u == v
  {
    var k, l := m + " " + u, n + " " + v;
    assert k[|m|] == ' ' && l[|n|] == ' ';
    assert |m| < |n| ==> l[|m|] == n[|m|] && n[|m|] in n;
    assert |n| < |m| ==> k[|n|] == m[|n|] && m[|n|] in m;
    if k == l {
      assert m == k[..|m|] && n == l[..|n|];
      assert u == k[|m| + 1..] && v == l[|n| + 1..];
    }
  }

  lemma UpperTwice(s: string)
    ensures Upper(Upper(s)) == Upper(s)
    ensures ' ' !in s ==> ' ' !in Upper(s)
  {
    if ' ' !in s {
      forall i | 0 <= i < |s| ensures Upper(s)[i] != ' ' { assert s[i] in s; }
    }
  }

  /**
   * The whole decision in the catalogue's terms: a read passes exactly when some listed template is the same up to
   * parameter names; anything else exactly when writes are on and some listed write route has its method and the same
   * template up to parameter names. A method is a token (section 5.6.2 of RFC 9110), so it holds no space.
   */
  lemma AllowedIffListed(verb: string, url: string, enabled: bool, readable: set<string>, writable: set<Route>)
    requires ' ' !in verb && forall r <- writable :: ' ' !in r.verb
    ensures RequestAllowed(verb, Some(url), Policy(enabled, ReadSet(readable), WriteSet(writable))) <==>
              if IsRead(verb) then exists u <- readable :: SameUpToNames(u, url)
              else enabled && exists r <- writable :: Upper(r.verb) == Upper(verb) && SameUpToNames(r.url, url)
  {
    if IsRead(verb) {
      forall u <- readable ensures ReadKey(u) == ReadKey(url) <==> SameUpToNames(u, url) {
        SameKeyIffSameUpToNames(u, url);
        assert ReadKey(u)[4..] == Normalize(u) && ReadKey(url)[4..] == Normalize(url);
      }
    } else {
      forall r <- writable
        ensures WriteKey(r.verb, r.url) == WriteKey(Upper(verb), url)
                <==> Upper(r.verb) == Upper(verb) && SameUpToNames(r.url, url)
      {
        SameKeyIffSameUpToNames(r.url, url);
        UpperTwice(verb);
        UpperTwice(r.verb);
        KeyInjective(Upper(r.verb), Normalize(r.url), Upper(verb), Normalize(url));
      }
    }
  }

  /** Renaming the parameters of the matched template, or changing the case of the method, changes no decision. */
  lemma RenamingChangesNothing(verb: string, other: string, a: string, b: string, policy: Policy)
    requires SameUpToNames(a, b) && Upper(verb) == Upper(other)
    ensures RequestAllowed(verb, Some(a), policy) == RequestAllowed(other, Some(b), policy)
  {
    SameKeyIffSameUpToNames(a, b);
  }
}
