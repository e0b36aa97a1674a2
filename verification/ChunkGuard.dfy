/**
 * The build check that keeps the User Guide's text away from what every visitor loads (apps/web/vite.config.ts): a
 * search, from each entry, through the static imports of the finished chunks.
 */
module ChunkGuard {
  import opened Wrappers

  datatype Kind = Chunk | Asset

  datatype BuiltFile = BuiltFile(
    kind: Kind, fileName: string, isEntry: bool, imports: Option<seq<string>>, moduleIds: Option<seq<string>>)

  type Bundle = map<string, BuiltFile>

  const GuideChunkDir := "guide-assets/js"

  // ── Which modules carry guide text ─────────────────────────────────────────

  predicate StartsWith(s: string, prefix: string) {
    prefix <= s
  }

  /** Both path separators, as the pattern's `[\\/]`. */
  function Slashes(s: string): (t: string)
    ensures |t| == |s| && forall i :: 0 <= i < |s| ==> t[i] == if s[i] == '\\' then '/' else s[i]
  {
    seq(|s|, i requires 0 <= i < |s| => if s[i] == '\\' then '/' else s[i])
  }

  /** The path is this file, alone or with a query after it. */
  predicate NamesFile(s: string, path: string) {
    s == path || StartsWith(s, path + "?")
  }

  /** The guide's content directory, or one of its three table-of-contents files. */
  predicate IsGuidePath(s: string) {
    || StartsWith(s, "/src/pages/guide/content/")
    || NamesFile(s, "/src/pages/guide/model/toc.ts")
    || NamesFile(s, "/src/pages/guide/model/toc.vi.ts")
    || NamesFile(s, "/src/pages/guide/model/toc.en.ts")
  }

  predicate IsGuideText(id: string) {
    exists i :: 0 <= i <= |id| && IsGuidePath(Slashes(id)[i..])
  }

  predicate HoldsGuideText(moduleIds: seq<string>) {
    exists id <- moduleIds :: IsGuideText(id)
  }

  /** Where chunkFileName puts a chunk. */
  function ChunkDir(moduleIds: seq<string>): string {
    if HoldsGuideText(moduleIds) then GuideChunkDir + "/" else "assets/"
  }

  /** The chunk has the name chunkFileName's pattern gives it, for some `[name]` and `[hash]`. */
  ghost predicate IsNamedByPattern(f: BuiltFile) {
    exists base: string, hash: string ::
      f.fileName == ChunkDir(if f.moduleIds.Some? then f.moduleIds.value else []) + (base + "-" + hash + ".js")
  }

  function ImportsOf(f: BuiltFile): seq<string> {
    if f.imports.Some? then f.imports.value else []
  }

  predicate IsPrivate(f: BuiltFile) {
    StartsWith(f.fileName, GuideChunkDir + "/") || (f.moduleIds.Some? && HoldsGuideText(f.moduleIds.value))
  }

  // ── What every visitor loads ───────────────────────────────────────────────

  predicate IsChunk(bundle: Bundle, name: string) {
    name in bundle && bundle[name].kind.Chunk?
  }

  // In the pattern's own words.

  /** From here on the path is the guide's content, or its table of contents in no or either language, maybe with a query. */
  ghost predicate IsGuideTail(tail: string) {
    || "/src/pages/guide/content/" <= tail
    || exists language <- ["", ".vi", ".en"] ::
         tail == "/src/pages/guide/model/toc" + language + ".ts" || "/src/pages/guide/model/toc" + language + ".ts?" <= tail
  }

  lemma GuideTailIs(tail: string)
    ensures IsGuidePath(tail) <==> IsGuideTail(tail)
  {
    var toc := "/src/pages/guide/model/toc";
    assert toc + "" + ".ts" == "/src/pages/guide/model/toc.ts" && toc + "" + ".ts?" == "/src/pages/guide/model/toc.ts" + "?";
    assert toc + ".vi" + ".ts" == "/src/pages/guide/model/toc.vi.ts" && toc + ".vi" + ".ts?" == "/src/pages/guide/model/toc.vi.ts" + "?";
    assert toc + ".en" + ".ts" == "/src/pages/guide/model/toc.en.ts" && toc + ".en" + ".ts?" == "/src/pages/guide/model/toc.en.ts" + "?";
    var languages := ["", ".vi", ".en"];
    assert languages[0] == "" && languages[1] == ".vi" && languages[2] == ".en";
  }

  /** A module carries guide text exactly when some tail of its path, with either separator, is one of the guide's. */
  lemma GuideTextIff(id: string)
    ensures IsGuideText(id) <==> exists i :: 0 <= i <= |id| && IsGuideTail(Slashes(id)[i..])
  {
    forall i | 0 <= i <= |id| ensures IsGuidePath(Slashes(id)[i..]) <==> IsGuideTail(Slashes(id)[i..]) {
      GuideTailIs(Slashes(id)[i..]);
    }
  }

  /** Private is what is under the gated directory, or holds a module with guide text. */
  lemma PrivateIff(f: BuiltFile)
    ensures IsPrivate(f) <==>
              || "guide-assets/js/" <= f.fileName
              || (f.moduleIds != None && exists id <- f.moduleIds.value :: IsGuideText(id))
  {}

  /** A chunk that holds guide text is put under the gated directory, and any other one under the public one. */
  lemma ChunkDirIs(moduleIds: seq<string>)
    ensures (exists id <- moduleIds :: IsGuideText(id)) ==> ChunkDir(moduleIds) == "guide-assets/js/"
    ensures (forall id <- moduleIds :: !IsGuideText(id)) ==> ChunkDir(moduleIds) == "assets/"
  {}

  /** A chain of static imports, all of them chunks of the bundle. */
  ghost predicate IsChain(bundle: Bundle, chain: seq<string>) {
    && |chain| > 0
    && (forall i :: 0 <= i < |chain| ==> IsChunk(bundle, chain[i]))
    && (forall i :: 0 < i < |chain| ==> chain[i] in ImportsOf(bundle[chain[i - 1]]))
  }

  ghost predicate Reaches(bundle: Bundle, entry: string, name: string) {
    exists chain :: IsChain(bundle, chain) && chain[0] == entry && chain[|chain| - 1] == name
  }

  ghost predicate IsEntry(bundle: Bundle, entry: string) {
    IsChunk(bundle, entry) && bundle[entry].isEntry
  }

  /** The bundler's own key for a file is its name. */
  ghost predicate KeyedByName(bundle: Bundle) {
    forall name <- bundle :: bundle[name].fileName == name
  }

  datatype Leak = Leak(entry: string, file: string)

  ghost predicate IsLeak(bundle: Bundle, leak: Leak) {
    IsEntry(bundle, leak.entry) && Reaches(bundle, leak.entry, leak.file) && IsPrivate(bundle[leak.file])
  }

  ghost predicate ReachesNoPrivate(bundle: Bundle, entry: string) {
    forall name | Reaches(bundle, entry, name) :: !IsPrivate(bundle[name])
  }

  lemma ReachesItself(bundle: Bundle, name: string)
    requires IsChunk(bundle, name)
    ensures Reaches(bundle, name, name)
  {
    assert IsChain(bundle, [name]) && [name][0] == name && [name][|[name]| - 1] == name;
  }

  lemma ReachesImport(bundle: Bundle, entry: string, name: string, next: string)
    requires Reaches(bundle, entry, name) && IsChunk(bundle, next) && next in ImportsOf(bundle[name])
    ensures Reaches(bundle, entry, next)
  {
    var chain :| IsChain(bundle, chain) && chain[0] == entry && chain[|chain| - 1] == name;
    var longer := chain + [next];
    assert IsChain(bundle, longer) && longer[0] == entry && longer[|longer| - 1] == next;
  }

  /** What an entry loads: itself, and what a chunk it loads imports statically, if that is a chunk of the bundle. */
  lemma LoadsImports(bundle: Bundle, entry: string, name: string, names: seq<string>, next: string)
    requires Reaches(bundle, entry, name) && bundle[name].imports == Some(names) && next in names
    requires next in bundle && bundle[next].kind == Chunk
    ensures Reaches(bundle, entry, next)
  {
    ReachesImport(bundle, entry, name, next);
  }

  ghost predicate Closed(bundle: Bundle, seen: set<string>) {
    forall name <- seen :: name in bundle && forall next <- ImportsOf(bundle[name]) :: IsChunk(bundle, next) ==> next in seen
  }

  lemma {:induction false} ChainStaysInside(bundle: Bundle, seen: set<string>, chain: seq<string>)
    requires Closed(bundle, seen) && IsChain(bundle, chain) && chain[0] in seen
    ensures chain[|chain| - 1] in seen
    decreases |chain|
  {
    if |chain| > 1 {
      var shorter := chain[..|chain| - 1];
      assert IsChain(bundle, shorter);
      ChainStaysInside(bundle, seen, shorter);
      assert chain[|chain| - 1] in ImportsOf(bundle[shorter[|shorter| - 1]]);
    }
  }

  lemma ReachedStayInside(bundle: Bundle, seen: set<string>, entry: string)
    requires Closed(bundle, seen) && entry in seen
    ensures forall name | Reaches(bundle, entry, name) :: name in seen
  {
    forall name | Reaches(bundle, entry, name) ensures name in seen {
      var chain :| IsChain(bundle, chain) && chain[0] == entry && chain[|chain| - 1] == name;
      ChainStaysInside(bundle, seen, chain);
    }
  }

  // ── The search ─────────────────────────────────────────────────────────────

  ghost predicate SeenIsClean(bundle: Bundle, entry: string, seen: set<string>) {
    forall name <- seen :: name in bundle && Reaches(bundle, entry, name) && !IsPrivate(bundle[name])
  }

  ghost predicate QueueIsReached(bundle: Bundle, entry: string, queue: seq<string>) {
    forall name <- queue :: IsChunk(bundle, name) ==> Reaches(bundle, entry, name)
  }

  ghost predicate ImportsAreQueued(bundle: Bundle, seen: set<string>, queue: seq<string>) {
    forall name <- seen :: name in bundle &&
      forall next <- ImportsOf(bundle[name]) :: IsChunk(bundle, next) ==> next in seen || next in queue
  }

  /** What the search has established so far: what is seen is clean and reached, and its imports are seen or queued. */
  ghost predicate Frontier(bundle: Bundle, entry: string, seen: set<string>, queue: seq<string>) {
    && (entry in seen || entry in queue)
    && SeenIsClean(bundle, entry, seen) && QueueIsReached(bundle, entry, queue) && ImportsAreQueued(bundle, seen, queue)
  }

  lemma QueueImports(bundle: Bundle, entry: string, rest: seq<string>, name: string)
    requires QueueIsReached(bundle, entry, rest) && IsChunk(bundle, name) && Reaches(bundle, entry, name)
    ensures QueueIsReached(bundle, entry, rest + ImportsOf(bundle[name]))
  {
    forall next <- ImportsOf(bundle[name]) | IsChunk(bundle, next) ensures Reaches(bundle, entry, next) {
      ReachesImport(bundle, entry, name, next);
    }
  }

  lemma ImportsQueued(bundle: Bundle, seen: set<string>, rest: seq<string>, name: string)
    requires ImportsAreQueued(bundle, seen, rest + [name]) && name in bundle
    ensures ImportsAreQueued(bundle, seen + {name}, rest + ImportsOf(bundle[name]))
  {}

  lemma Expand(bundle: Bundle, entry: string, seen: set<string>, queue: seq<string>, rest: seq<string>, name: string)
    requires queue == rest + [name] && Frontier(bundle, entry, seen, queue)
    requires IsChunk(bundle, name) && !IsPrivate(bundle[name])
    ensures Frontier(bundle, entry, seen + {name}, rest + ImportsOf(bundle[name]))
  {
    assert name in queue;
    QueueImports(bundle, entry, rest, name);
    ImportsQueued(bundle, seen, rest, name);
  }

  lemma Skip(bundle: Bundle, entry: string, seen: set<string>, queue: seq<string>, rest: seq<string>, name: string)
    requires queue == rest + [name] && Frontier(bundle, entry, seen, queue)
    requires IsChunk(bundle, name) ==> name in seen
    requires IsChunk(bundle, entry)
    ensures Frontier(bundle, entry, seen, rest)
  {}

  lemma Exhausted(bundle: Bundle, entry: string, seen: set<string>)
    requires Frontier(bundle, entry, seen, [])
    ensures ReachesNoPrivate(bundle, entry)
  {
    ReachedStayInside(bundle, seen, entry);
  }

  lemma Found(bundle: Bundle, entry: string, queue: seq<string>, name: string)
    requires IsEntry(bundle, entry) && QueueIsReached(bundle, entry, queue) && name in queue
    requires IsChunk(bundle, name) && IsPrivate(bundle[name])
    ensures IsLeak(bundle, Leak(entry, name))
  {}

  /** One entry: the search stops, cycles or not, and finds a private chunk exactly when the entry reaches one. */
  method SearchFrom(bundle: Bundle, entry: string) returns (found: Option<string>)
    requires KeyedByName(bundle) && IsEntry(bundle, entry)
    ensures found.Some? ==> IsLeak(bundle, Leak(entry, found.value))
    ensures found.None? ==> ReachesNoPrivate(bundle, entry)
  {
    var seen: set<string> := {};
    var queue := [bundle[entry].fileName];
    assert Frontier(bundle, entry, seen, queue) by { ReachesItself(bundle, entry); }
    ghost var left := bundle.Keys;
    while |queue| > 0
      invariant left == bundle.Keys - seen
      invariant Frontier(bundle, entry, seen, queue)
      decreases left, queue
    {
      var name, rest := queue[|queue| - 1], queue[..|queue| - 1];
      assert queue == rest + [name];
      if name !in bundle || !bundle[name].kind.Chunk? || bundle[name].fileName in seen {
        assert Frontier(bundle, entry, seen, rest) by { Skip(bundle, entry, seen, queue, rest, name); }
        queue := rest;
        continue;
      }
      var file := bundle[name];
      if IsPrivate(file) {
        assert IsLeak(bundle, Leak(entry, name)) by { Found(bundle, entry, queue, name); }
        return Some(file.fileName);
      }
      assert Frontier(bundle, entry, seen + {name}, rest + ImportsOf(file)) by {
        Expand(bundle, entry, seen, queue, rest, name);
      }
      left := left - {name};
      seen := seen + {file.fileName};
      queue := rest + ImportsOf(file);
    }
    assert queue == [];
    Exhausted(bundle, entry, seen);
    return None;
  }

  /**
   * assertEntryIsPublic is sound and complete: it fails, naming an entry and a private chunk that entry reaches, if and
   * only if some entry reaches one.
   */
  method AssertEntryIsPublic(bundle: Bundle) returns (r: Result<(), Leak>)
    requires KeyedByName(bundle)
    ensures r.Err? ==> IsLeak(bundle, r.error)
    ensures r.Ok? <==> forall leak: Leak :: !IsLeak(bundle, leak)
  {
    var todo := bundle.Keys;
    while todo != {}
      invariant todo <= bundle.Keys
      invariant forall entry, file :: entry in bundle && entry !in todo ==> !IsLeak(bundle, Leak(entry, file))
      decreases |todo|
    {
      var entry :| entry in todo;
      if bundle[entry].kind.Chunk? && bundle[entry].isEntry {
        var found := SearchFrom(bundle, entry);
        if found.Some? { return Err(Leak(entry, found.value)); }
      }
      todo := todo - {entry};
    }
    forall leak: Leak ensures !IsLeak(bundle, leak) {
      assert !IsLeak(bundle, Leak(leak.entry, leak.file));
    }
    return Ok(());
  }

  /** Naming and check together: once the build passes, guide text is only in gated files that no visitor must load. */
  lemma GuideTextIsGated(bundle: Bundle, name: string)
    requires KeyedByName(bundle) && forall leak: Leak :: !IsLeak(bundle, leak)
    requires IsChunk(bundle, name) && bundle[name].moduleIds.Some? && HoldsGuideText(bundle[name].moduleIds.value)
    requires !bundle[name].isEntry ==> IsNamedByPattern(bundle[name])
    ensures "guide-assets/js/" <= name
    ensures forall entry | IsEntry(bundle, entry) :: !Reaches(bundle, entry, name)
  {
    forall entry | IsEntry(bundle, entry) ensures !Reaches(bundle, entry, name) {
      assert !IsLeak(bundle, Leak(entry, name));
    }
    ReachesItself(bundle, name);
    assert !IsEntry(bundle, name);
  }
}
