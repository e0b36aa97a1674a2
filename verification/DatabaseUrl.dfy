/**
 * Composing the database URL from arbitrary credentials (db/database-url.ts), against a reader of URLs that follows the
 * generic syntax of RFC 3986 (sections 3 to 3.4, with the user and password of section 3.2.1 told apart by a colon).
 */
module DatabaseUrl {
  import opened Wrappers
  import opened PercentCodec

  datatype Env = Env(
    url: Option<JsString>, host: Option<JsString>, port: Option<JsString>, name: Option<JsString>, user: Option<JsString>,
    password: Option<JsString>, sslmode: Option<JsString>)

  datatype Name = Host | Port | Database | User | Password

  datatype Failure = Required(name: Name) | Malformed

  /** Unset and empty are the same: neither will do. */
  predicate IsSet(v: Option<JsString>) {
    v.Some? && v.value != []
  }

  const Colon: CodeUnit := 0x3A
  const Slash: CodeUnit := 0x2F
  const At: CodeUnit := 0x40
  const Question: CodeUnit := 0x3F
  const Hash: CodeUnit := 0x23
  const Equals: CodeUnit := 0x3D

  function Compose(user: JsString, password: JsString, host: JsString, port: JsString, name: JsString, sslmode: JsString): JsString {
    Ascii("postgresql") + [Colon, Slash, Slash] + user + [Colon] + password + [At] + host + [Colon] + port
    + [Slash] + name + [Question] + Ascii("sslmode") + [Equals] + sslmode
  }

  function ResolveDatabaseUrl(env: Env): Result<JsString, Failure> {
    if IsSet(env.url) then Ok(env.url.value)
    else if !IsSet(env.host) then Err(Required(Host))
    else if !IsSet(env.port) then Err(Required(Port))
    else if !IsSet(env.name) then Err(Required(Database))
    else if !IsSet(env.user) then Err(Required(User))
    else if !IsSet(env.password) then Err(Required(Password))
    else
      var user, password := Encode(env.user.value), Encode(env.password.value);
      if user.Err? || password.Err? then Err(Malformed)
      else
        var sslmode := if env.sslmode.Some? then env.sslmode.value else Ascii("require");
        Ok(Compose(user.value, password.value, env.host.value, env.port.value, env.name.value, sslmode))
  }

  /** A name is set when it has a value that is not empty. */
  lemma SetMeans(v: Option<JsString>)
    ensures IsSet(v) <==> exists value :: v == Some(value) && |value| > 0
  {
    if IsSet(v) { assert v == Some(v.value) && |v.value| > 0; }
  }

  /** The composed URL, written out. */
  lemma ComposeSpells(user: JsString, password: JsString, host: JsString, port: JsString, name: JsString, sslmode: JsString)
    ensures Compose(user, password, host, port, name, sslmode) ==
            Ascii("postgresql://") + user + Ascii(":") + password + Ascii("@") + host + Ascii(":") + port
            + Ascii("/") + name + Ascii("?sslmode=") + sslmode
  {
    assert Ascii("postgresql") + [Colon, Slash, Slash] == Ascii("postgresql://");
    assert [Colon] == Ascii(":") && [At] == Ascii("@") && [Slash] == Ascii("/");
    var front := Ascii("postgresql://") + user + Ascii(":") + password + Ascii("@") + host + Ascii(":") + port + Ascii("/") + name;
    assert [Question] + Ascii("sslmode") + [Equals] == Ascii("?sslmode=");
    assert front + [Question] + Ascii("sslmode") + [Equals] == front + Ascii("?sslmode=");
  }

  // ── Reading a URL ──────────────────────────────────────────────────────────

  predicate FreeOf(s: JsString, stops: set<CodeUnit>) {
    forall u <- s :: u !in stops
  }

  /** The longest front without any of the stops, and the rest. */
  function Until(s: JsString, stops: set<CodeUnit>): (JsString, JsString) {
    if s == [] || s[0] in stops then ([], s)
    else
      var (front, rest) := Until(s[1..], stops);
      ([s[0]] + front, rest)
  }

  function After(s: JsString): JsString {
    if s == [] then [] else s[1..]
  }

  datatype Url = Url(
    scheme: JsString, user: JsString, password: JsString, host: JsString, port: JsString, path: JsString, query: JsString)

  /** A reader that takes each delimiter at its first occurrence. Its credentials are still percent-encoded. */
  function ParseUrl(s: JsString): Option<Url> {
    var (scheme, rest) := Until(s, {Colon});
    if !([Colon, Slash, Slash] <= rest) then None
    else
      var (authority, tail) := Until(rest[3..], {Slash, Question, Hash});
      var (path, more) := Until(tail, {Question, Hash});
      var (query, _) := Until(After(more), {Hash});
      var (userinfo, at) := Until(authority, {At});
      if at == [] then None
      else
        var (user, password) := Until(userinfo, {Colon});
        var (host, port) := Until(After(at), {Colon});
        Some(Url(scheme, user, After(password), host, After(port), path, query))
  }

  lemma {:induction false} UntilStops(front: JsString, rest: JsString, stops: set<CodeUnit>)
    requires FreeOf(front, stops) && (rest == [] || rest[0] in stops)
    ensures Until(front + rest, stops) == (front, rest)
  {
    if front == [] {
      assert front + rest == rest;
    } else {
      assert front[0] in front && front == [front[0]] + front[1..];
      assert forall u <- front[1..] :: u in front;
      assert (front + rest)[1..] == front[1..] + rest;
      UntilStops(front[1..], rest, stops);
    }
  }

  lemma PlainIsFree(s: JsString, stops: set<CodeUnit>)
    requires IsPlain(s) && stops <= {Colon, Slash, At, Question, Hash}
    ensures FreeOf(s, stops)
  {}

  lemma FreeConcat(a: JsString, b: JsString, stops: set<CodeUnit>)
    requires FreeOf(a, stops) && FreeOf(b, stops)
    ensures FreeOf(a + b, stops)
  {}

  lemma SplitAuthority(user: JsString, password: JsString, host: JsString, port: JsString)
    requires FreeOf(user, {Colon, At}) && FreeOf(password, {At}) && FreeOf(host, {Colon})
    ensures var userinfo, hostport := user + ([Colon] + password), host + ([Colon] + port);
            && Until(userinfo + ([At] + hostport), {At}) == (userinfo, [At] + hostport)
            && Until(userinfo, {Colon}) == (user, [Colon] + password)
            && Until(hostport, {Colon}) == (host, [Colon] + port)
  {
    var userinfo, hostport := user + ([Colon] + password), host + ([Colon] + port);
    FreeConcat([Colon], password, {At});
    FreeConcat(user, [Colon] + password, {At});
    UntilStops(userinfo, [At] + hostport, {At});
    UntilStops(user, [Colon] + password, {Colon});
    UntilStops(host, [Colon] + port, {Colon});
  }

  lemma SchemeIsFree()
    ensures FreeOf(Ascii("postgresql"), {Colon})
  {
    var s := "postgresql";
    forall u <- Ascii(s) ensures u != Colon {
      var i :| 0 <= i < |s| && Ascii(s)[i] == u;
      assert ':' !in s;
    }
  }

  /** The composed URL, cut where its reader cuts it. */
  lemma ComposedInParts(authority: JsString, tail: JsString)
    requires FreeOf(authority, {Slash, Question, Hash}) && tail != [] && tail[0] == Slash
    ensures var url := Ascii("postgresql") + ([Colon, Slash, Slash] + (authority + tail));
            && Until(url, {Colon}) == (Ascii("postgresql"), [Colon, Slash, Slash] + (authority + tail))
            && ([Colon, Slash, Slash] + (authority + tail))[3..] == authority + tail
            && Until(authority + tail, {Slash, Question, Hash}) == (authority, tail)
  {
    SchemeIsFree();
    UntilStops(Ascii("postgresql"), [Colon, Slash, Slash] + (authority + tail), {Colon});
    UntilStops(authority, tail, {Slash, Question, Hash});
  }

  lemma SplitTail(name: JsString, query: JsString)
    requires FreeOf(name, {Question, Hash}) && FreeOf(query, {Hash})
    ensures Until([Slash] + name + ([Question] + query), {Question, Hash}) == ([Slash] + name, [Question] + query)
    ensures Until(query, {Hash}) == (query, [])
  {
    FreeConcat([Slash], name, {Question, Hash});
    UntilStops([Slash] + name, [Question] + query, {Question, Hash});
    assert query + [] == query;
    UntilStops(query, [], {Hash});
  }

  lemma ComposeIs(user: JsString, password: JsString, host: JsString, port: JsString, name: JsString, sslmode: JsString)
    ensures Compose(user, password, host, port, name, sslmode) ==
            Ascii("postgresql") + ([Colon, Slash, Slash] + (((user + ([Colon] + password)) + ([At] + (host + ([Colon] + port))))
            + ([Slash] + name + ([Question] + (Ascii("sslmode") + [Equals] + sslmode)))))
  {}

  const Authority: set<CodeUnit> := {Slash, Question, Hash}

  lemma AuthorityIsFree(user: JsString, password: JsString, host: JsString, port: JsString)
    requires FreeOf(user, Authority) && FreeOf(password, Authority) && FreeOf(host, Authority) && FreeOf(port, Authority)
    ensures FreeOf((user + ([Colon] + password)) + ([At] + (host + ([Colon] + port))), {Slash, Question, Hash})
  {}

  /** Reading back a composed URL gives every part, exactly as it was put in. */
  lemma ParseCompose(user: JsString, password: JsString, host: JsString, port: JsString, name: JsString, sslmode: JsString)
    requires IsPlain(user) && IsPlain(password)
    requires FreeOf(host, {Colon, Slash, Question, Hash}) && FreeOf(port, {Slash, Question, Hash})
    requires FreeOf(name, {Question, Hash}) && FreeOf(sslmode, {Hash})
    ensures ParseUrl(Compose(user, password, host, port, name, sslmode)) ==
            Some(Url(Ascii("postgresql"), user, password, host, port, [Slash] + name, Ascii("sslmode") + [Equals] + sslmode))
  {
    PlainIsFree(user, {Colon, At});
    PlainIsFree(user, Authority);
    PlainIsFree(password, {At});
    PlainIsFree(password, Authority);
    var userinfo, hostport := user + ([Colon] + password), host + ([Colon] + port);
    var query := Ascii("sslmode") + [Equals] + sslmode;
    var authority, tail := userinfo + ([At] + hostport), [Slash] + name + ([Question] + query);
    ComposeIs(user, password, host, port, name, sslmode);
    AuthorityIsFree(user, password, host, port);
    ComposedInParts(authority, tail);
    QueryIsFree(sslmode);
    SplitTail(name, query);
    SplitAuthority(user, password, host, port);
    assert After([At] + hostport) == hostport;
    assert After([Colon] + password) == password && After([Colon] + port) == port && After([Question] + query) == query;
  }

  lemma QueryIsFree(sslmode: JsString)
    requires FreeOf(sslmode, {Hash})
    ensures FreeOf(Ascii("sslmode") + [Equals] + sslmode, {Hash})
  {
    var s := "sslmode";
    forall u <- Ascii(s) ensures u != Hash {
      var i :| 0 <= i < |s| && Ascii(s)[i] == u;
      assert '#' !in s;
    }
  }

  function PartOf(env: Env, name: Name): Option<JsString> {
    match name
    case Host => env.host
    case Port => env.port
    case Database => env.name
    case User => env.user
    case Password => env.password
  }

  const InOrder := [Host, Port, Database, User, Password]

  /**
   * A complete URL is returned untouched. Without one, composing succeeds exactly when all five parts are set and the
   * credentials are well-formed text, and otherwise the failure names the first part that is missing.
   */
  lemma ResolvesIff(env: Env)
    ensures IsSet(env.url) ==> ResolveDatabaseUrl(env) == Ok(env.url.value)
    ensures !IsSet(env.url) ==>
              (ResolveDatabaseUrl(env).Ok? <==>
                && IsSet(env.host) && IsSet(env.port) && IsSet(env.name) && IsSet(env.user) && IsSet(env.password)
                && WellFormed(env.user.value) && WellFormed(env.password.value))
    ensures forall i :: 0 <= i < 5 ==>
              (ResolveDatabaseUrl(env) == Err(Required(InOrder[i])) <==>
                && !IsSet(env.url) && !IsSet(PartOf(env, InOrder[i]))
                && forall j :: 0 <= j < i ==> IsSet(PartOf(env, InOrder[j])))
  {
    if IsSet(env.user) { EncodeIffWellFormed(env.user.value); }
    if IsSet(env.password) { EncodeIffWellFormed(env.password.value); }
    assert InOrder[0] == Host && InOrder[1] == Port && InOrder[2] == Database && InOrder[3] == User && InOrder[4] == Password;
  }

  /** Parts a URL can hold as they are; only the credentials may be anything. */
  ghost predicate PartsAreFree(env: Env) {
    && IsSet(env.host) && FreeOf(env.host.value, {Colon, Slash, Question, Hash})
    && IsSet(env.port) && FreeOf(env.port.value, {Slash, Question, Hash})
    && IsSet(env.name) && FreeOf(env.name.value, {Question, Hash})
    && (env.sslmode.Some? ==> FreeOf(env.sslmode.value, {Hash}))
  }

  function SslMode(env: Env): JsString {
    if env.sslmode.Some? then env.sslmode.value else Ascii("require")
  }

  lemma ParsedIs(env: Env)
    requires !IsSet(env.url) && ResolveDatabaseUrl(env).Ok? && PartsAreFree(env)
    ensures ParseUrl(ResolveDatabaseUrl(env).value) ==
            Some(Url(Ascii("postgresql"), Encode(env.user.value).value, Encode(env.password.value).value, env.host.value,
                     env.port.value, [Slash] + env.name.value, Ascii("sslmode") + [Equals] + SslMode(env)))
  {
    ResolvesIff(env);
    EncodedIsPlain(env.user.value);
    EncodedIsPlain(env.password.value);
    if env.sslmode.None? { RequireIsFree(); }
    ParseCompose(Encode(env.user.value).value, Encode(env.password.value).value, env.host.value, env.port.value, env.name.value,
                 SslMode(env));
  }

  /**
   * The round trip: whatever the user and the password contain, reading the composed URL and percent-decoding its
   * userinfo gives back both, and the host, port and name are the ones that were set.
   */
  lemma CredentialsSurvive(env: Env)
    requires !IsSet(env.url) && ResolveDatabaseUrl(env).Ok? && PartsAreFree(env)
    ensures var url := ParseUrl(ResolveDatabaseUrl(env).value);
            && url.Some?
            && Decode(url.value.user) == Ok(env.user.value) && Decode(url.value.password) == Ok(env.password.value)
            && url.value.host == env.host.value && url.value.port == env.port.value
            && url.value.path == [Slash] + env.name.value
  {
    ParsedIs(env);
    ResolvesIff(env);
    DecodeEncode(env.user.value);
    DecodeEncode(env.password.value);
  }

  lemma QueryText(sslmode: JsString)
    ensures Ascii("sslmode") + [Equals] + sslmode == Ascii("sslmode=") + sslmode
  {
    assert Ascii("sslmode") + [Equals] == Ascii("sslmode=");
  }

  /** What was composed: a reader's view of it. */
  ghost predicate Reads(env: Env, url: Url) {
    !IsSet(env.url) && ResolveDatabaseUrl(env).Ok? && PartsAreFree(env) && ParseUrl(ResolveDatabaseUrl(env).value) == Some(url)
  }

  ghost predicate Spells(s: JsString, text: string) {
    |s| == |text| && forall i :: 0 <= i < |text| ==> s[i] == text[i] as int
  }

  lemma QueryIs(env: Env, url: Url)
    requires Reads(env, url)
    ensures url.query == Ascii("sslmode=") + SslMode(env)
  {
    ParsedIs(env);
    QueryText(SslMode(env));
  }

  /** TLS is required unless a mode was set, and then that mode is asked for. */
  lemma RequiresTlsByDefault(env: Env, url: Url, key: JsString, mode: JsString)
    requires Reads(env, url) && Spells(key, "sslmode=")
    requires env.sslmode == Some(mode) || (env.sslmode == None && Spells(mode, "require"))
    ensures url.query == key + mode
  {
    QueryIs(env, url);
  }

  lemma SpeaksPostgres(env: Env, url: Url)
    requires Reads(env, url)
    ensures Spells(url.scheme, "postgresql")
  {
    ParsedIs(env);
  }

  lemma RequireIsFree()
    ensures FreeOf(Ascii("require"), {Hash})
  {
    var s := "require";
    forall u <- Ascii(s) ensures u != Hash {
      var i :| 0 <= i < |s| && Ascii(s)[i] == u;
      assert '#' !in s;
    }
  }
}
