/**
 * What became of an email (libs/platform/src/email/email-delivery.service.ts): one pass over the outbox rows of many key
 * families, newest first, in which the first row of a family decides.
 */
module DeliveryStatus {
  import opened Wrappers
  import opened LikePattern

  datatype JobStatus = Pending | Sent | Failed | Bounced | Complained

  datatype Delivery = WasSent | WasBounced | WasComplained | HasFailed | Unknown

  datatype Row = Row(id: nat, key: Option<string>, status: JobStatus, scheduledAt: int)

  function Report(s: JobStatus): Delivery {
    match s
    case Pending => Unknown
    case Sent => WasSent
    case Failed => HasFailed
    case Bounced => WasBounced
    case Complained => WasComplained
  }

  // ── Keys and their roots ───────────────────────────────────────────────────

  predicate MarkAt(s: string, i: nat) {
    i + 1 < |s| && s[i] == ':' && s[i + 1] == 'r'
  }

  /** Where the last `:r` starts; -1 if there is none. */
  function LastResendMark(key: string): int {
    if |key| < 2 then -1 else if MarkAt(key, |key| - 2) then |key| - 2 else LastResendMark(key[..|key| - 1])
  }

  lemma {:induction false} LastResendMarkIs(key: string)
    ensures var m := LastResendMark(key);
            -1 <= m && (m >= 0 ==> MarkAt(key, m)) && (forall i: nat :: i > m ==> !MarkAt(key, i))
    decreases |key|
  {
    if |key| >= 2 && !MarkAt(key, |key| - 2) {
      var shorter := key[..|key| - 1];
      LastResendMarkIs(shorter);
      forall i: nat | i != |key| - 2 ensures MarkAt(key, i) <==> MarkAt(shorter, i) {}
    }
  }

  function RootOf(key: string): string {
    LastResendMarkIs(key);
    var m := LastResendMark(key);
    if m > 0 then key[..m] else key
  }

  /** A mark is a colon and an r. */
  lemma MarkIs(s: string, i: nat)
    ensures MarkAt(s, i) <==> i + 2 <= |s| && s[i..i + 2] == ":r"
  {}

  /** The root ends at the last mark, unless the mark is all there is before it; a key without one is its own root. */
  lemma RootOfCuts(root: string, rest: string)
    requires root != "" && (forall i: nat :: !MarkAt("r" + rest, i))
    ensures RootOf(root + ":r" + rest) == root
  {
    var key := root + ":r" + rest;
    var n := |root|;
    LastResendMarkIs(key);
    assert key[n] == ':' && key[n + 1] == 'r';
    assert MarkAt(key, n);
    forall i: nat | i > n ensures !MarkAt(key, i) {
      assert i - n - 1 < |"r" + rest| ==> key[i] == ("r" + rest)[i - n - 1];
      assert i - n < |"r" + rest| ==> key[i + 1] == ("r" + rest)[i - n];
      assert !MarkAt("r" + rest, i - n - 1);
    }
    assert key[..n] == root;
  }

  predicate IsDigits(s: string) {
    s != "" && forall i :: 0 <= i < |s| ==> '0' <= s[i] <= '9'
  }

  /** The root itself, or one of its resends. */
  predicate InFamily(root: string, key: string) {
    key == root || (root + ":r" <= key && IsDigits(key[|root| + 2..]))
  }

  /** A root holds no resend mark of its own, so that its resends are told apart from it. */
  ghost predicate IsRoot(root: string) {
    root != "" && forall i: nat :: !MarkAt(root, i)
  }

  lemma FamilySharesItsRoot(root: string, key: string)
    requires IsRoot(root) && InFamily(root, key)
    ensures RootOf(key) == root && key != ""
  {
    LastResendMarkIs(key);
    var m := LastResendMark(key);
    if key != root {
      var n := |root|;
      var digits := key[n + 2..];
      assert key[n] == (root + ":r")[n] == ':' && key[n + 1] == (root + ":r")[n + 1] == 'r';
      assert forall i :: n + 2 <= i < |key| ==> key[i] == digits[i - n - 2];
      assert MarkAt(key, n);
      assert forall i: nat :: i > n + 1 && i < |key| ==> '0' <= key[i] <= '9';
      assert forall i: nat :: i > n ==> !MarkAt(key, i);
      assert m == n;
      assert key[..n] == root;
    }
  }

  /** A key that is nothing but a resend is its own root. */
  lemma BareMarkIsItsOwnRoot(rest: string)
    requires forall i: nat :: !MarkAt("r" + rest, i)
    ensures RootOf(":r" + rest) == ":r" + rest
  {
    var key := ":r" + rest;
    LastResendMarkIs(key);
    forall i: nat | i > 0 ensures !MarkAt(key, i) {
      assert key[1..] == "r" + rest;
      assert i < |key| ==> key[i] == ("r" + rest)[i - 1];
      assert i + 1 < |key| ==> key[i + 1] == ("r" + rest)[i];
      assert !MarkAt("r" + rest, i - 1);
    }
  }

  /** A family is its root, and the root with `:r` and a decimal number. */
  lemma FamilyIs(root: string, key: string)
    ensures InFamily(root, key) <==>
              || key == root
              || exists digits: string ::
                   digits != "" && (forall c <- digits :: c in {'0', '1', '2', '3', '4', '5', '6', '7', '8', '9'})
                   && key == root + ":r" + digits
  {
    if InFamily(root, key) && key != root {
      var digits := key[|root| + 2..];
      assert key == root + ":r" + digits;
      forall c <- digits ensures c in {'0', '1', '2', '3', '4', '5', '6', '7', '8', '9'} {
        var i :| 0 <= i < |digits| && digits[i] == c;
      }
    }
    if digits: string :| digits != "" && (forall c <- digits :: c in {'0', '1', '2', '3', '4', '5', '6', '7', '8', '9'})
                         && key == root + ":r" + digits {
      assert key[|root| + 2..] == digits && root + ":r" <= key;
      forall i | 0 <= i < |digits| ensures '0' <= digits[i] <= '9' { assert digits[i] in digits; }
    }
  }

  // ── The query ──────────────────────────────────────────────────────────────

  predicate Later(a: Row, b: Row) {
    a.scheduledAt > b.scheduledAt || (a.scheduledAt == b.scheduledAt && a.id > b.id)
  }

  /** `key LIKE root:% OR key = root`, for some root; NULL is like nothing. */
  predicate Selected(r: Row, roots: seq<string>) {
    r.key.Some? && exists root <- roots :: r.key.value == root || Like(ResendPattern(root), r.key.value)
  }

  /** The selected rows of the table, each once, newest first. */
  ghost predicate IsAnswer(table: set<Row>, roots: seq<string>, rows: seq<Row>) {
    && (forall r :: r in rows <==> r in table && Selected(r, roots))
    && (forall i, j :: 0 <= i < j < |rows| ==> Later(rows[i], rows[j]))
  }

  // ── The pass ───────────────────────────────────────────────────────────────

  predicate Counts(r: Row) {
    r.key.Some? && r.key.value != ""
  }

  predicate BelongsTo(r: Row, root: string) {
    Counts(r) && RootOf(r.key.value) == root
  }

  /** Later means scheduled later, or at the same time under a larger id; and a row with an empty key is nobody's. */
  lemma OrderAndOwnership(a: Row, b: Row, root: string)
    ensures Later(a, b) <==> b.scheduledAt <= a.scheduledAt && (a.scheduledAt == b.scheduledAt ==> b.id < a.id)
    ensures a.key == None || a.key == Some("") ==> !BelongsTo(a, root)
    ensures a.key != None && a.key != Some("") ==> (BelongsTo(a, root) <==> RootOf(a.key.value) == root)
  {}

  function FirstOf(rows: seq<Row>, root: string): Option<Row> {
    if rows == [] then None
    else
      var first := FirstOf(rows[..|rows| - 1], root);
      if first.None? && BelongsTo(rows[|rows| - 1], root) then Some(rows[|rows| - 1]) else first
  }

  function Verdict(first: Option<Row>): Delivery {
    if first.Some? then Report(first.value.status) else Unknown
  }

  method StatusesFor(roots: seq<string>, rows: seq<Row>) returns (result: map<string, Delivery>)
    ensures roots == [] ==> result == map[]
    ensures roots != [] ==> forall x :: x in result <==> x in roots || FirstOf(rows, x).Some?
    ensures forall x <- result :: result[x] == Verdict(FirstOf(rows, x))
  {
    result := map[];
    if |roots| == 0 { return; }
    for i := 0 to |roots|
      invariant forall x :: x in result <==> x in roots[..i]
      invariant forall x <- result :: result[x] == Unknown
    {
      result := result[roots[i] := Unknown];
    }
    assert roots[..|roots|] == roots;
    var seen: set<string> := {};
    for i := 0 to |rows|
      invariant forall x :: x in seen <==> FirstOf(rows[..i], x).Some?
      invariant forall x :: x in result <==> x in roots || FirstOf(rows[..i], x).Some?
      invariant forall x <- result :: result[x] == Verdict(FirstOf(rows[..i], x))
    {
      var row := rows[i];
      assert rows[..i + 1][..i] == rows[..i] && rows[..i + 1][i] == row;
      if !Counts(row) { continue; }
      var root := RootOf(row.key.value);
      if root !in seen {
        seen := seen + {root};
        result := result[root := Report(row.status)];
      }
    }
    assert rows[..|rows|] == rows;
  }

  lemma {:induction false} FirstIsLatest(rows: seq<Row>, root: string)
    requires forall i, j :: 0 <= i < j < |rows| ==> Later(rows[i], rows[j])
    ensures var first := FirstOf(rows, root);
            if first.None? then forall r <- rows :: !BelongsTo(r, root)
            else first.value in rows && BelongsTo(first.value, root)
                 && forall r <- rows :: BelongsTo(r, root) && r != first.value ==> Later(first.value, r)
  {
    if rows != [] {
      var n := |rows| - 1;
      FirstIsLatest(rows[..n], root);
      assert rows == rows[..n] + [rows[n]];
      var first := FirstOf(rows[..n], root);
      if first.Some? {
        var i :| 0 <= i < n && rows[i] == first.value;
        assert Later(rows[i], rows[n]);
      }
    }
  }

  // ── The specification ──────────────────────────────────────────────────────

  /** The latest row of the family decides; a pending one, or none, is unknown. */
  ghost predicate IsStatusOf(table: set<Row>, root: string, d: Delivery) {
    || (d == Unknown && forall r <- table :: r.key.None? || !InFamily(root, r.key.value))
    || exists latest <- table ::
         && latest.key.Some? && InFamily(root, latest.key.value) && d == Report(latest.status)
         && forall r <- table :: r.key.Some? && InFamily(root, r.key.value) && r != latest ==> Later(latest, r)
  }

  /** Every key of the table is a root or a resend of one. */
  ghost predicate WellKeyed(table: set<Row>) {
    forall r <- table :: r.key.Some? ==> exists root :: IsRoot(root) && InFamily(root, r.key.value)
  }

  /** The check a caller can make before the query: some requested root's pattern matches this root and a bare colon. */
  predicate FindsResends(roots: seq<string>, root: string) {
    exists other <- roots :: Like(ResendPattern(other), root + ":")
  }

  /** A root without a backslash passes it by its own pattern. */
  lemma NoBackslashFindsResends(roots: seq<string>, root: string)
    requires root in roots && '\\' !in root
    ensures FindsResends(roots, root)
  {
    MatchesIffPrefix(root, root + ":");
  }

  lemma ResendKey(root: string, key: string)
    requires InFamily(root, key) && key != root
    ensures exists suffix :: ':' !in suffix && key == root + ":" + suffix
  {
    var digits := key[|root| + 2..];
    var suffix := "r" + digits;
    assert (root + ":r")[|root|..] == ":r";
    assert key == root + ":r" + digits;
    assert root + ":r" + digits == root + ":" + suffix;
    assert ':' !in digits by {
      assert forall i :: 0 <= i < |digits| ==> digits[i] != ':';
    }
  }

  lemma FamilyIsSelected(root: string, roots: seq<string>, r: Row)
    requires root in roots && IsRoot(root) && FindsResends(roots, root)
    requires r.key.Some? && InFamily(root, r.key.value)
    ensures Selected(r, roots) && BelongsTo(r, root)
  {
    FamilySharesItsRoot(root, r.key.value);
    if r.key.value != root {
      ResendKey(root, r.key.value);
      var suffix :| ':' !in suffix && r.key.value == root + ":" + suffix;
      var other :| other in roots && Like(ResendPattern(other), root + ":");
      FindsResendsIff(other, root, suffix);
    }
  }

  lemma BelongingIsFamily(table: set<Row>, r: Row, root: string)
    requires WellKeyed(table) && r in table && BelongsTo(r, root)
    ensures InFamily(root, r.key.value)
  {
    var own :| IsRoot(own) && InFamily(own, r.key.value);
    FamilySharesItsRoot(own, r.key.value);
  }

  /**
   * For every requested root without a resend mark whose resends the query finds, the pass over the query's rows gives
   * the status of the latest row of its family, whatever the other roots are.
   */
  lemma OnePassMeetsTheSpecification(table: set<Row>, roots: seq<string>, rows: seq<Row>, root: string)
    requires WellKeyed(table) && IsAnswer(table, roots, rows)
    requires root in roots && IsRoot(root) && FindsResends(roots, root)
    ensures IsStatusOf(table, root, Verdict(FirstOf(rows, root)))
  {
    FirstIsLatest(rows, root);
    forall r <- table | r.key.Some? && InFamily(root, r.key.value) ensures r in rows && BelongsTo(r, root) {
      FamilyIsSelected(root, roots, r);
    }
    var first := FirstOf(rows, root);
    if first.Some? { BelongingIsFamily(table, first.value, root); }
  }

  function Longest(roots: seq<string>): (n: nat)
    ensures forall root <- roots :: |root| <= n
  {
    if roots == [] then 0
    else
      var n := Longest(roots[1..]);
      if |roots[0]| > n then |roots[0]| else n
  }

  /** The key of a resend so far numbered that it is none of the requested roots. */
  function FarResend(roots: seq<string>, root: string): string {
    root + ":r" + seq(Longest(roots) + 1, _ => '1')
  }

  lemma FarResendIs(roots: seq<string>, root: string)
    ensures InFamily(root, FarResend(roots, root)) && FarResend(roots, root) !in roots
    ensures FarResend(roots, root) != root
    ensures exists suffix :: ':' !in suffix && FarResend(roots, root) == root + ":" + suffix
  {
    var digits := seq(Longest(roots) + 1, _ => '1');
    var key := FarResend(roots, root);
    assert key[|root| + 2..] == digits;
    assert root + ":r" <= key && IsDigits(digits);
    ResendKey(root, key);
  }

  /** Otherwise one sent resend is missed: the query answers nothing, and the root reads as unknown. */
  lemma UnfoundResendIsUnknown(roots: seq<string>, root: string, table: set<Row>)
    requires root in roots && IsRoot(root) && !FindsResends(roots, root)
    requires table == {Row(0, Some(FarResend(roots, root)), Sent, 5)}
    ensures WellKeyed(table) && IsAnswer(table, roots, []) && !IsStatusOf(table, root, Verdict(FirstOf([], root)))
  {
    var key := FarResend(roots, root);
    var row := Row(0, Some(key), Sent, 5);
    FarResendIs(roots, root);
    var suffix :| ':' !in suffix && key == root + ":" + suffix;
    forall other <- roots ensures !Like(ResendPattern(other), key) { FindsResendsIff(other, root, suffix); }
    assert !Selected(row, roots);
    assert row in table;
  }

  ghost predicate AnswersRight(table: set<Row>, roots: seq<string>, rows: seq<Row>, root: string) {
    WellKeyed(table) && IsAnswer(table, roots, rows) ==> IsStatusOf(table, root, Verdict(FirstOf(rows, root)))
  }

  /**
   * The exact boundary, for any list of requested roots: a root's status is right on every table if and only if some
   * requested pattern matches the root and a bare colon.
   */
  lemma StatusIsRightIff(roots: seq<string>, root: string)
    requires root in roots && IsRoot(root)
    ensures (forall table: set<Row>, rows: seq<Row> :: AnswersRight(table, roots, rows, root)) <==> FindsResends(roots, root)
  {
    if FindsResends(roots, root) {
      forall table: set<Row>, rows: seq<Row> ensures AnswersRight(table, roots, rows, root) {
        if WellKeyed(table) && IsAnswer(table, roots, rows) { OnePassMeetsTheSpecification(table, roots, rows, root); }
      }
    } else {
      var table := {Row(0, Some(FarResend(roots, root)), Sent, 5)};
      UnfoundResendIsUnknown(roots, root, table);
      assert !AnswersRight(table, roots, [], root);
    }
  }

  /** A concrete miss: the resend of `a\b` was sent, and the query for `a\b` answers nothing. */
  lemma BackslashLosesAResend()
    ensures var table, root := {Row(0, Some("a\\b:r1"), Sent, 5)}, "a\\b";
            && IsRoot(root) && WellKeyed(table) && IsAnswer(table, [root], [])
            && !IsStatusOf(table, root, Verdict(FirstOf([], root)))
  {
    var root, key := "a\\b", "a\\b:r1";
    var row := Row(0, Some(key), Sent, 5);
    assert key[|root| + 2..] == "1";
    assert InFamily(root, key);
    assert IsRoot(root);
    assert !Like(ResendPattern(root), key) by { PatternOfBackslash(); }
    assert !Selected(row, [root]);
    assert row in {row};
  }

  lemma PatternOfBackslash()
    ensures !Like(ResendPattern("a\\b"), "a\\b:r1")
  {
    var root, key := "a\\b", "a\\b:r1";
    var p := ResendPattern(root);
    PatternStep(root);
    PatternStep(root[1..]);
    assert root[1..] == "\\b" && root[1..][1..] == "b";
    PatternStep("b");
    assert p[0] == 'a' && p[1] == '\\' && p[2] == 'b';
    assert key[1..][0] == '\\' && p[1..][1] == 'b';
    assert !Like(p[1..], key[1..]);
  }

  /** There is one such status, so the order in which equal timestamps come back cannot change an answer. */
  lemma StatusIsUnique(table: set<Row>, root: string, a: Delivery, b: Delivery)
    requires IsStatusOf(table, root, a) && IsStatusOf(table, root, b)
    ensures a == b
  {}

  /** What is said of the latest row: its own verdict, and unknown while it is only queued. */
  lemma StatusNames(table: set<Row>, root: string, latest: Row, d: Delivery)
    requires IsStatusOf(table, root, d) && latest in table && latest.key.Some? && InFamily(root, latest.key.value)
    requires forall r <- table :: r.key.Some? && InFamily(root, r.key.value) && r != latest ==> Later(latest, r)
    ensures d == WasSent <==> latest.status == Sent
    ensures d == HasFailed <==> latest.status == Failed
    ensures d == WasBounced <==> latest.status == Bounced
    ensures d == WasComplained <==> latest.status == Complained
    ensures d == Unknown <==> latest.status == Pending
  {}

  /** A resend supersedes: a newer row of the family, whatever it says, is the one that is reported. */
  lemma ResendSupersedes(table: set<Row>, root: string, resend: Row, d: Delivery)
    requires resend.key.Some? && InFamily(root, resend.key.value)
    requires forall r <- table :: r.key.Some? && InFamily(root, r.key.value) ==> Later(resend, r)
    requires IsStatusOf(table + {resend}, root, d)
    ensures d == Report(resend.status)
  {
    assert resend in table + {resend};
  }
}
