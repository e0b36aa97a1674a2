/**
 * The migration history: the runner, which applies the journal entries past the newest recorded timestamp, and the pure
 * detector (db/stranded-migrations.ts) that afterwards says which entries the database does not have.
 */
module Migrations {
  import opened Wrappers

  type Hash = string

  datatype Entry = Entry(tag: string, when: int)

  /** A row of the bookkeeping table. */
  datatype Row = Row(createdAt: int, hash: Hash)

  type Files = map<string, Hash>

  /** A file rewritten after it ran: what the database recorded, and what the file hashes to now. */
  datatype Edit = Edit(recordedHash: Hash, fileHash: Hash)

  type Edits = map<string, Edit>

  // ── The runner ─────────────────────────────────────────────────────────────

  /** `ORDER BY created_at DESC LIMIT 1` */
  function Newest(rows: seq<Row>): Option<int> {
    if rows == [] then None
    else
      var rest := Newest(rows[1..]);
      if rest.None? || rows[0].createdAt > rest.value then Some(rows[0].createdAt) else rest
  }

  predicate IsDue(newest: Option<int>, e: Entry) {
    newest.None? || newest.value < e.when
  }

  function Due(newest: Option<int>, journal: seq<Entry>): seq<Entry> {
    if journal == [] then []
    else (if IsDue(newest, journal[0]) then [journal[0]] else []) + Due(newest, journal[1..])
  }

  predicate Complete(files: Files, journal: seq<Entry>) {
    forall e <- journal :: e.tag in files
  }

  function RowsOf(files: Files, entries: seq<Entry>): (rows: seq<Row>)
    requires Complete(files, entries)
    ensures |rows| == |entries| && forall i :: 0 <= i < |rows| ==> rows[i] == Row(entries[i].when, files[entries[i].tag])
  {
    seq(|entries|, i requires 0 <= i < |entries| => Row(entries[i].when, files[entries[i].tag]))
  }

  lemma {:induction false} DueIs(newest: Option<int>, journal: seq<Entry>)
    ensures forall e :: e in Due(newest, journal) <==> e in journal && IsDue(newest, e)
  {
    if journal != [] { DueIs(newest, journal[1..]); }
  }

  /** One run: a journal naming a file that is not there fails before anything is written. */
  function Deploy(files: Files, rows: seq<Row>, journal: seq<Entry>): seq<Row> {
    if !Complete(files, journal) then rows
    else
      DueIs(Newest(rows), journal);
      rows + RowsOf(files, Due(Newest(rows), journal))
  }

  function RunAll(files: Files, rows: seq<Row>, history: seq<seq<Entry>>): seq<Row>
    decreases |history|
  {
    if history == [] then rows else RunAll(files, Deploy(files, rows, history[0]), history[1..])
  }

  /** Did some run of the history execute this file? */
  ghost predicate EverApplied(files: Files, rows: seq<Row>, history: seq<seq<Entry>>, tag: string)
    decreases |history|
  {
    history != []
    && (|| (Complete(files, history[0]) && exists e <- history[0] :: e.tag == tag && IsDue(Newest(rows), e))
        || EverApplied(files, Deploy(files, rows, history[0]), history[1..], tag))
  }

  // ── The detector ───────────────────────────────────────────────────────────

  datatype Report = Report(
    missing: seq<Entry>, mismatched: seq<Entry>, recordedUnderOtherTimestamp: seq<Entry>, knownEdits: seq<Entry>)

  predicate HasHash(rows: seq<Row>, hash: Hash) {
    exists r <- rows :: r.hash == hash
  }

  predicate HasSlot(rows: seq<Row>, when: int) {
    exists r <- rows :: r.createdAt == when
  }

  /** What a map built from the rows in order answers: the last row at the timestamp wins. */
  function LastAt(rows: seq<Row>, when: int): Option<Hash> {
    if rows == [] then None
    else if rows[|rows| - 1].createdAt == when then Some(rows[|rows| - 1].hash)
    else LastAt(rows[..|rows| - 1], when)
  }

  datatype Verdict = Silent | Missing | Mismatched | OtherTimestamp | KnownEdit

  predicate IsKnownEdit(edits: Edits, tag: string, atWhen: Option<Hash>, hash: Hash) {
    tag in edits && atWhen == Some(edits[tag].recordedHash) && hash == edits[tag].fileHash
  }

  /** An entry is found by its file's hash first; only one whose hash is nowhere is judged by what holds its slot. */
  function Judge(rows: seq<Row>, files: Files, edits: Edits, e: Entry): Verdict {
    if e.tag !in files then Silent
    else if HasHash(rows, files[e.tag]) then (if HasSlot(rows, e.when) then Silent else OtherTimestamp)
    else if !HasSlot(rows, e.when) then Missing
    else if IsKnownEdit(edits, e.tag, LastAt(rows, e.when), files[e.tag]) then KnownEdit
    else Mismatched
  }

  function Judged(rows: seq<Row>, files: Files, edits: Edits, entries: seq<Entry>, v: Verdict): seq<Entry> {
    if entries == [] then []
    else
      var last := entries[|entries| - 1];
      Judged(rows, files, edits, entries[..|entries| - 1], v) + (if Judge(rows, files, edits, last) == v then [last] else [])
  }

  ghost predicate ReportIs(r: Report, rows: seq<Row>, files: Files, edits: Edits, entries: seq<Entry>) {
    && r.missing == Judged(rows, files, edits, entries, Missing)
    && r.mismatched == Judged(rows, files, edits, entries, Mismatched)
    && r.recordedUnderOtherTimestamp == Judged(rows, files, edits, entries, OtherTimestamp)
    && r.knownEdits == Judged(rows, files, edits, entries, KnownEdit)
  }

  lemma {:induction false} LastAtIs(rows: seq<Row>, when: int)
    ensures LastAt(rows, when).Some? <==> HasSlot(rows, when)
    ensures LastAt(rows, when).Some? ==> Row(when, LastAt(rows, when).value) in rows
    ensures LastAt(rows, when).Some? ==> HasHash(rows, LastAt(rows, when).value)
  {
    if rows != [] {
      LastAtIs(rows[..|rows| - 1], when);
      assert rows == rows[..|rows| - 1] + [rows[|rows| - 1]];
      if rows[|rows| - 1].createdAt == when { assert rows[|rows| - 1] in rows; }
    }
  }

  lemma {:induction false} JudgedIs(rows: seq<Row>, files: Files, edits: Edits, entries: seq<Entry>, v: Verdict)
    ensures forall e :: e in Judged(rows, files, edits, entries, v) <==> e in entries && Judge(rows, files, edits, e) == v
  {
    if entries != [] {
      JudgedIs(rows, files, edits, entries[..|entries| - 1], v);
      assert entries == entries[..|entries| - 1] + [entries[|entries| - 1]];
    }
  }

  /** strandedMigrations: two indexes over the rows, then one pass over the entries. */
  method StrandedMigrations(entries: seq<Entry>, recorded: seq<Row>, files: Files, edits: Edits) returns (report: Report)
    ensures ReportIs(report, recorded, files, edits, entries)
  {
    var hashByWhen: map<int, Hash> := map[];
    var recordedHashes: set<Hash> := {};
    for i := 0 to |recorded|
      invariant forall w :: LastAt(recorded[..i], w) == if w in hashByWhen then Some(hashByWhen[w]) else None
      invariant forall h :: h in recordedHashes <==> HasHash(recorded[..i], h)
    {
      hashByWhen := hashByWhen[recorded[i].createdAt := recorded[i].hash];
      recordedHashes := recordedHashes + {recorded[i].hash};
      assert recorded[..i + 1] == recorded[..i] + [recorded[i]];
      HashesGrow(recorded[..i], recorded[i]);
    }
    assert recorded[..|recorded|] == recorded;
    report := Report([], [], [], []);
    for i := 0 to |entries|
      invariant ReportIs(report, recorded, files, edits, entries[..i])
    {
      var entry := entries[i];
      assert entries[..i + 1][..i] == entries[..i] && entries[..i + 1][i] == entry;
      LastAtIs(recorded, entry.when);
      if entry.tag !in files { continue; }
      var hash := files[entry.tag];
      var atWhen := if entry.when in hashByWhen then Some(hashByWhen[entry.when]) else None;
      if atWhen == Some(hash) { continue; }
      if hash in recordedHashes {
        if atWhen.None? { report := report.(recordedUnderOtherTimestamp := report.recordedUnderOtherTimestamp + [entry]); }
        continue;
      }
      if IsKnownEdit(edits, entry.tag, atWhen, hash) {
        report := report.(knownEdits := report.knownEdits + [entry]);
        continue;
      }
      if atWhen.None? {
        report := report.(missing := report.missing + [entry]);
      } else {
        report := report.(mismatched := report.mismatched + [entry]);
      }
    }
    assert entries[..|entries|] == entries;
  }

  lemma HashesGrow(rows: seq<Row>, r: Row)
    ensures forall h :: HasHash(rows + [r], h) <==> HasHash(rows, h) || h == r.hash
  {
    forall h ensures HasHash(rows + [r], h) <==> HasHash(rows, h) || h == r.hash {
      if HasHash(rows, h) {
        var x :| x in rows && x.hash == h;
        assert x in rows + [r];
      }
      assert r in rows + [r];
    }
  }

  /** assertNoMissingMigrations */
  method AssertNoMissingMigrations(report: Report) returns (r: Result<(), seq<Entry>>)
    ensures r == if report.missing == [] then Ok(()) else Err(report.missing)
  {
    if |report.missing| == 0 { return Ok(()); }
    return Err(report.missing);
  }

  /** Found neither by its file's hash nor by its timestamp. */
  predicate RanNowhere(rows: seq<Row>, files: Files, e: Entry) {
    e.tag in files && !HasHash(rows, files[e.tag]) && !HasSlot(rows, e.when)
  }

  /**
   * assertNoStrandedMigrations, which ends every run: it fails if and only if some entry of the journal has a file that is
   * recorded under no timestamp while its own timestamp is empty, and names exactly those entries. An edited file, a
   * taken slot and a moved timestamp never fail it.
   */
  method AssertNoStrandedMigrations(entries: seq<Entry>, recorded: seq<Row>, files: Files, edits: Edits)
    returns (r: Result<(), seq<Entry>>)
    ensures r.Err? <==> exists e <- entries :: RanNowhere(recorded, files, e)
    ensures r.Err? ==> forall e :: e in r.error <==> e in entries && RanNowhere(recorded, files, e)
  {
    var report := StrandedMigrations(entries, recorded, files, edits);
    JudgedIs(recorded, files, edits, entries, Missing);
    assert report.missing != [] ==> report.missing[0] in report.missing;
    r := AssertNoMissingMigrations(report);
  }

  /**
   * The failure against the runs: after any history from rows of other files it names an entry exactly when no run
   * executed its file and nothing took its timestamp.
   */
  lemma NamedIffNeverRan(files: Files, foreign: seq<Row>, history: seq<seq<Entry>>, e: Entry)
    requires DistinctFiles(files) && e.tag in files
    requires forall tag <- files :: !HasHash(foreign, files[tag])
    ensures RanNowhere(RunAll(files, foreign, history), files, e)
            <==> !EverApplied(files, foreign, history, e.tag) && !HasSlot(RunAll(files, foreign, history), e.when)
  {
    RecordedIffApplied(files, foreign, history, e.tag);
  }

  // ── The detector against the runs ──────────────────────────────────────────

  /** No two files of the repository have the same text. */
  ghost predicate DistinctFiles(files: Files) {
    forall a <- files, b <- files :: files[a] == files[b] ==> a == b
  }

  lemma DeployRecords(files: Files, rows: seq<Row>, journal: seq<Entry>, tag: string)
    requires DistinctFiles(files) && tag in files
    ensures HasHash(Deploy(files, rows, journal), files[tag]) <==>
              HasHash(rows, files[tag])
              || (Complete(files, journal) && exists e <- journal :: e.tag == tag && IsDue(Newest(rows), e))
  {
    if Complete(files, journal) {
      var due := Due(Newest(rows), journal);
      DueIs(Newest(rows), journal);
      var added := RowsOf(files, due);
      var rows' := rows + added;
      assert Deploy(files, rows, journal) == rows';
      assert forall i :: 0 <= i < |rows| ==> rows'[i] in rows;
      if HasHash(rows', files[tag]) && !HasHash(rows, files[tag]) {
        var i :| 0 <= i < |rows'| && rows'[i].hash == files[tag];
        assert due[i - |rows|].tag == tag;
      }
      if HasHash(rows, files[tag]) {
        var r :| r in rows && r.hash == files[tag];
        assert r in rows';
      }
      if e :| e in journal && e.tag == tag && IsDue(Newest(rows), e) {
        var i :| 0 <= i < |due| && due[i] == e;
        assert added[i] in rows';
      }
    }
  }

  /** A file's hash is recorded after a history exactly when it was before it, or some run executed the file. */
  lemma {:induction false} RecordedIffApplied(files: Files, rows: seq<Row>, history: seq<seq<Entry>>, tag: string)
    requires DistinctFiles(files) && tag in files
    ensures HasHash(RunAll(files, rows, history), files[tag]) <==>
              HasHash(rows, files[tag]) || EverApplied(files, rows, history, tag)
    decreases |history|
  {
    if history != [] {
      DeployRecords(files, rows, history[0], tag);
      RecordedIffApplied(files, Deploy(files, rows, history[0]), history[1..], tag);
    }
  }

  /**
   * The detector is exact. Start from any rows that belong to other files (an abandoned branch's, say) and run any
   * history of journals, whether they extend, reorder or retime one another. Then an entry is reported as missing,
   * mismatched or a known edit exactly when no run executed its file, and as recorded elsewhere exactly when one did
   * but nothing sits at its timestamp now.
   */
  lemma ReportedIffSkipped(
    files: Files, edits: Edits, foreign: seq<Row>, history: seq<seq<Entry>>, entries: seq<Entry>, e: Entry, r: Report)
    requires DistinctFiles(files) && e in entries && e.tag in files
    requires forall tag <- files :: !HasHash(foreign, files[tag])
    requires ReportIs(r, RunAll(files, foreign, history), files, edits, entries)
    ensures e in r.missing || e in r.mismatched || e in r.knownEdits <==> !EverApplied(files, foreign, history, e.tag)
    ensures e.tag !in edits ==> e !in r.knownEdits
    ensures e in r.recordedUnderOtherTimestamp <==>
              EverApplied(files, foreign, history, e.tag) && !HasSlot(RunAll(files, foreign, history), e.when)
  {
    var rows := RunAll(files, foreign, history);
    RecordedIffApplied(files, foreign, history, e.tag);
    JudgedIs(rows, files, edits, entries, Missing);
    JudgedIs(rows, files, edits, entries, Mismatched);
    JudgedIs(rows, files, edits, entries, OtherTimestamp);
    JudgedIs(rows, files, edits, entries, KnownEdit);
  }

  lemma {:induction false} NewestIs(rows: seq<Row>)
    ensures Newest(rows).None? <==> rows == []
    ensures Newest(rows).Some? ==> HasSlot(rows, Newest(rows).value) && forall r <- rows :: r.createdAt <= Newest(rows).value
  {
    if rows != [] {
      NewestIs(rows[1..]);
      assert rows[0] in rows;
      if Newest(rows[1..]).Some? {
        var r :| r in rows[1..] && r.createdAt == Newest(rows[1..]).value;
        assert r in rows;
      }
    }
  }

  lemma NotDueStays(files: Files, rows: seq<Row>, journal: seq<Entry>, e: Entry)
    requires !IsDue(Newest(rows), e)
    ensures !IsDue(Newest(Deploy(files, rows, journal)), e)
  {
    var rows' := Deploy(files, rows, journal);
    NewestIs(rows);
    NewestIs(rows');
    var r :| r in rows && r.createdAt == Newest(rows).value;
    assert r in rows';
  }

  /** In every journal of the history the tag appears as this entry and no other. */
  ghost predicate OnlyAs(history: seq<seq<Entry>>, e: Entry) {
    forall j <- history :: e in j && forall x <- j :: x.tag == e.tag ==> x == e
  }

  lemma {:induction false} OnceSkippedForEver(files: Files, rows: seq<Row>, history: seq<seq<Entry>>, e: Entry)
    requires OnlyAs(history, e) && !IsDue(Newest(rows), e)
    ensures !EverApplied(files, rows, history, e.tag)
    decreases |history|
  {
    if history != [] {
      NotDueStays(files, rows, history[0], e);
      assert history[0] in history;
      OnceSkippedForEver(files, Deploy(files, rows, history[0]), history[1..], e);
    }
  }

  /**
   * What strands an entry: over a history of extensions its fate is settled by the first run whose journal has it, and it
   * is skipped for ever exactly when its timestamp is not past the newest one recorded when that run starts.
   */
  lemma {:induction false} SettledByTheFirstRun(files: Files, rows: seq<Row>, before: seq<seq<Entry>>, since: seq<seq<Entry>>, e: Entry)
    requires forall j <- before + since :: Complete(files, j)
    requires since != [] && OnlyAs(since, e)
    requires forall j <- before, x <- j :: x.tag != e.tag
    ensures EverApplied(files, rows, before + since, e.tag) <==> IsDue(Newest(RunAll(files, rows, before)), e)
    decreases |before|
  {
    var all := before + since;
    assert all[0] in all;
    if before == [] {
      assert all == since;
      if !IsDue(Newest(rows), e) { OnceSkippedForEver(files, rows, since, e); }
    } else {
      assert all[0] == before[0] && all[1..] == before[1..] + since;
      assert before[0] in before;
      assert forall j <- before[1..] :: j in before;
      assert forall j <- before[1..] + since :: j in all;
      SettledByTheFirstRun(files, Deploy(files, rows, before[0]), before[1..], since, e);
    }
  }

  // ── An ascending journal ───────────────────────────────────────────────────

  ghost predicate Ascending(journal: seq<Entry>) {
    forall i, j :: 0 <= i < j < |journal| ==> journal[i].when < journal[j].when
  }

  lemma {:induction false} DueAll(newest: Option<int>, entries: seq<Entry>)
    requires forall e <- entries :: IsDue(newest, e)
    ensures Due(newest, entries) == entries
  {
    if entries != [] { DueAll(newest, entries[1..]); }
  }

  lemma {:induction false} DueNone(newest: Option<int>, entries: seq<Entry>)
    requires forall e <- entries :: !IsDue(newest, e)
    ensures Due(newest, entries) == []
  {
    if entries != [] { DueNone(newest, entries[1..]); }
  }

  lemma {:induction false} DueConcat(newest: Option<int>, a: seq<Entry>, b: seq<Entry>)
    ensures Due(newest, a + b) == Due(newest, a) + Due(newest, b)
  {
    if a == [] {
      assert a + b == b;
    } else {
      assert (a + b)[1..] == a[1..] + b;
      DueConcat(newest, a[1..], b);
    }
  }

  lemma RowsConcat(files: Files, a: seq<Entry>, b: seq<Entry>)
    requires Complete(files, a) && Complete(files, b)
    ensures Complete(files, a + b) && RowsOf(files, a + b) == RowsOf(files, a) + RowsOf(files, b)
  {
    assert Complete(files, a + b);
    assert RowsOf(files, a + b) == RowsOf(files, a) + RowsOf(files, b);
  }

  /** On rows that hold all of the journal's head and none past it, a run applies exactly the rest, in order. */
  lemma DeployRest(files: Files, rows: seq<Row>, head: seq<Entry>, rest: seq<Entry>)
    requires Complete(files, head) && Complete(files, rest)
    requires forall e <- head :: !IsDue(Newest(rows), e)
    requires forall e <- rest :: IsDue(Newest(rows), e)
    ensures Deploy(files, rows, head + rest) == rows + RowsOf(files, rest)
  {
    assert Complete(files, head + rest) by { RowsConcat(files, head, rest); }
    assert Due(Newest(rows), head + rest) == rest by {
      DueConcat(Newest(rows), head, rest);
      DueNone(Newest(rows), head);
      DueAll(Newest(rows), rest);
      assert [] + rest == rest;
    }
  }

  lemma HeadNewest(files: Files, head: seq<Entry>, rest: seq<Entry>)
    requires Complete(files, head)
    requires forall a <- head, b <- rest :: a.when < b.when
    ensures forall e <- head :: !IsDue(Newest(RowsOf(files, head)), e)
    ensures forall e <- rest :: IsDue(Newest(RowsOf(files, head)), e)
  {
    var rows := RowsOf(files, head);
    NewestIs(rows);
    forall e <- head ensures !IsDue(Newest(rows), e) {
      var i :| 0 <= i < |head| && head[i] == e;
      assert rows[i] in rows;
    }
    forall e <- rest ensures IsDue(Newest(rows), e) {
      if rows != [] {
        var k :| 0 <= k < |rows| && rows[k].createdAt == Newest(rows).value;
        assert head[k] in head;
      }
    }
  }

  lemma AscendingSplits(head: seq<Entry>, rest: seq<Entry>)
    requires Ascending(head + rest)
    ensures forall a <- head, b <- rest :: a.when < b.when
  {
    forall a <- head, b <- rest ensures a.when < b.when {
      var i :| 0 <= i < |head| && head[i] == a;
      var j :| 0 <= j < |rest| && rest[j] == b;
      assert (head + rest)[i] == a && (head + rest)[|head| + j] == b;
    }
  }

  /** A strictly ascending journal on a database that holds a prefix of it: everything ends up recorded. */
  lemma AscendingCompletes(files: Files, head: seq<Entry>, rest: seq<Entry>)
    requires Complete(files, head) && Complete(files, rest) && Ascending(head + rest) && Complete(files, head + rest)
    ensures Deploy(files, RowsOf(files, head), head + rest) == RowsOf(files, head + rest)
  {
    AscendingSplits(head, rest);
    HeadNewest(files, head, rest);
    DeployRest(files, RowsOf(files, head), head, rest);
    RowsConcat(files, head, rest);
  }

  lemma {:induction false} NothingJudged(rows: seq<Row>, files: Files, edits: Edits, entries: seq<Entry>, v: Verdict)
    requires forall e <- entries :: Judge(rows, files, edits, e) != v
    ensures Judged(rows, files, edits, entries, v) == []
  {
    if entries != [] {
      assert entries[|entries| - 1] in entries;
      NothingJudged(rows, files, edits, entries[..|entries| - 1], v);
    }
  }

  /** … and the report on it is empty. */
  lemma AscendingReportsNothing(files: Files, edits: Edits, head: seq<Entry>, rest: seq<Entry>, r: Report)
    requires Complete(files, head) && Complete(files, rest) && Ascending(head + rest)
    requires ReportIs(r, Deploy(files, RowsOf(files, head), head + rest), files, edits, head + rest)
    ensures r == Report([], [], [], [])
  {
    var journal := head + rest;
    assert Complete(files, journal) by { RowsConcat(files, head, rest); }
    AscendingCompletes(files, head, rest);
    var rows := RowsOf(files, journal);
    forall e <- journal ensures Judge(rows, files, edits, e) == Silent { Recorded(files, edits, journal, e); }
    NothingJudged(rows, files, edits, journal, Missing);
    NothingJudged(rows, files, edits, journal, Mismatched);
    NothingJudged(rows, files, edits, journal, OtherTimestamp);
    NothingJudged(rows, files, edits, journal, KnownEdit);
  }

  lemma Recorded(files: Files, edits: Edits, journal: seq<Entry>, e: Entry)
    requires Complete(files, journal) && e in journal
    ensures Judge(RowsOf(files, journal), files, edits, e) == Silent
  {
    var rows := RowsOf(files, journal);
    var i :| 0 <= i < |journal| && journal[i] == e;
    assert rows[i] in rows;
  }

  // ── Corrected timestamps, row order and duplicates ─────────────────────────

  /** An entry that ran, and whose timestamp is then moved to an empty slot, is reported there and nowhere else. */
  lemma CorrectedTimestamp(rows: seq<Row>, files: Files, edits: Edits, entries: seq<Entry>, e: Entry, moved: int, r: Report)
    requires e.tag in files && Row(e.when, files[e.tag]) in rows && !HasSlot(rows, moved)
    requires Entry(e.tag, moved) in entries && ReportIs(r, rows, files, edits, entries)
    ensures var m := Entry(e.tag, moved);
            m in r.recordedUnderOtherTimestamp && m !in r.missing && m !in r.mismatched && m !in r.knownEdits
  {
    var row := Row(e.when, files[e.tag]);
    assert row in rows;
    assert HasHash(rows, files[e.tag]);
    JudgedIs(rows, files, edits, entries, Missing);
    JudgedIs(rows, files, edits, entries, Mismatched);
    JudgedIs(rows, files, edits, entries, OtherTimestamp);
    JudgedIs(rows, files, edits, entries, KnownEdit);
  }

  lemma {:induction false} SameJudged(
    rows: seq<Row>, other: seq<Row>, files: Files, edits: Edits, entries: seq<Entry>, v: Verdict)
    requires forall e <- entries :: Judge(rows, files, edits, e) == v <==> Judge(other, files, edits, e) == v
    ensures Judged(rows, files, edits, entries, v) == Judged(other, files, edits, entries, v)
  {
    if entries != [] {
      assert entries[|entries| - 1] in entries;
      SameJudged(rows, other, files, edits, entries[..|entries| - 1], v);
    }
  }

  /** What fails the run, and what is only recorded elsewhere, depend on which rows there are, not on order or repeats. */
  lemma MissingIgnoresRowOrder(
    rows: seq<Row>, other: seq<Row>, files: Files, edits: Edits, entries: seq<Entry>, r: Report, s: Report)
    requires forall x :: x in rows <==> x in other
    requires ReportIs(r, rows, files, edits, entries) && ReportIs(s, other, files, edits, entries)
    ensures r.missing == s.missing && r.recordedUnderOtherTimestamp == s.recordedUnderOtherTimestamp
  {
    forall e <- entries
      ensures Judge(rows, files, edits, e) == Missing <==> Judge(other, files, edits, e) == Missing
      ensures Judge(rows, files, edits, e) == OtherTimestamp <==> Judge(other, files, edits, e) == OtherTimestamp
    {
      SameSlots(rows, other, e.when);
      if e.tag in files { SameHashes(rows, other, files[e.tag]); }
    }
    SameJudged(rows, other, files, edits, entries, Missing);
    SameJudged(rows, other, files, edits, entries, OtherTimestamp);
  }

  lemma SameSlots(rows: seq<Row>, other: seq<Row>, when: int)
    requires forall x :: x in rows <==> x in other
    ensures HasSlot(rows, when) == HasSlot(other, when)
  {}

  lemma SameHashes(rows: seq<Row>, other: seq<Row>, hash: Hash)
    requires forall x :: x in rows <==> x in other
    ensures HasHash(rows, hash) == HasHash(other, hash)
  {}

  /** Whether an edited file is excused does depend on the order, when two rows share its timestamp. */
  lemma KnownEditDependsOnRowOrder(files: Files, edits: Edits, e: Entry, stray: Hash)
    requires e.tag in files && e.tag in edits && edits[e.tag].fileHash == files[e.tag]
    requires files[e.tag] != edits[e.tag].recordedHash && stray != files[e.tag] && stray != edits[e.tag].recordedHash
    ensures var recorded := Row(e.when, edits[e.tag].recordedHash);
            && Judge([Row(e.when, stray), recorded], files, edits, e) == KnownEdit
            && Judge([recorded, Row(e.when, stray)], files, edits, e) == Mismatched
  {
    var recorded := Row(e.when, edits[e.tag].recordedHash);
    var other := Row(e.when, stray);
    assert recorded in [recorded, other] && recorded in [other, recorded];
  }

  ghost predicate SameRows(rows: seq<Row>, other: seq<Row>) {
    forall x :: x in rows <==> x in other
  }

  /**
   * The rows hold both sides of a doubt: the file is a listed edit and recorded nowhere, and its timestamp holds the
   * listed hash and another one.
   */
  predicate OrderDecides(rows: seq<Row>, files: Files, edits: Edits, e: Entry) {
    && e.tag in files && e.tag in edits && files[e.tag] == edits[e.tag].fileHash && !HasHash(rows, files[e.tag])
    && Row(e.when, edits[e.tag].recordedHash) in rows
    && exists r <- rows :: r.createdAt == e.when && r.hash != edits[e.tag].recordedHash
  }

  lemma SameRowsJudge(rows: seq<Row>, other: seq<Row>, files: Files, edits: Edits, e: Entry)
    requires SameRows(rows, other) && !OrderDecides(rows, files, edits, e)
    ensures Judge(rows, files, edits, e) == Judge(other, files, edits, e)
  {
    SameSlots(rows, other, e.when);
    if e.tag in files { SameHashes(rows, other, files[e.tag]); }
    LastAtIs(rows, e.when);
    LastAtIs(other, e.when);
  }

  lemma LastRowJudges(rows: seq<Row>, files: Files, edits: Edits, e: Entry, last: Row)
    requires OrderDecides(rows, files, edits, e) && last in rows && last.createdAt == e.when
    ensures SameRows(rows, rows + [last])
    ensures Judge(rows + [last], files, edits, e) == if last.hash == edits[e.tag].recordedHash then KnownEdit else Mismatched
  {
    var other := rows + [last];
    assert SameRows(rows, other);
    SameHashes(rows, other, files[e.tag]);
    assert last in other;
    assert LastAt(other, e.when) == Some(last.hash);
  }

  /** Exactly when the order of the rows, or a repeated one, can change what is said of an entry. */
  lemma OrderMattersIff(rows: seq<Row>, files: Files, edits: Edits, e: Entry)
    ensures (forall other | SameRows(rows, other) :: Judge(other, files, edits, e) == Judge(rows, files, edits, e))
            <==> !OrderDecides(rows, files, edits, e)
  {
    if OrderDecides(rows, files, edits, e) {
      var recorded := Row(e.when, edits[e.tag].recordedHash);
      var stray :| stray in rows && stray.createdAt == e.when && stray.hash != edits[e.tag].recordedHash;
      LastRowJudges(rows, files, edits, e, recorded);
      LastRowJudges(rows, files, edits, e, stray);
    } else {
      forall other | SameRows(rows, other) ensures Judge(other, files, edits, e) == Judge(rows, files, edits, e) {
        SameRowsJudge(rows, other, files, edits, e);
      }
    }
  }

  ghost predicate SameReport(rows: seq<Row>, other: seq<Row>, files: Files, edits: Edits, entries: seq<Entry>) {
    forall v :: Judged(rows, files, edits, entries, v) == Judged(other, files, edits, entries, v)
  }

  /** … and so of the whole report: any rows that are the same as a set give it, exactly when no entry is in doubt. */
  lemma ReportIgnoresOrderIff(rows: seq<Row>, files: Files, edits: Edits, entries: seq<Entry>)
    ensures (forall other | SameRows(rows, other) :: SameReport(rows, other, files, edits, entries))
            <==> forall e <- entries :: !OrderDecides(rows, files, edits, e)
  {
    if e :| e in entries && OrderDecides(rows, files, edits, e) {
      OrderMattersIff(rows, files, edits, e);
      var other :| SameRows(rows, other) && Judge(other, files, edits, e) != Judge(rows, files, edits, e);
      var v := Judge(rows, files, edits, e);
      JudgedIs(rows, files, edits, entries, v);
      JudgedIs(other, files, edits, entries, v);
      assert !SameReport(rows, other, files, edits, entries);
    } else {
      forall other, v | SameRows(rows, other)
        ensures Judged(rows, files, edits, entries, v) == Judged(other, files, edits, entries, v)
      {
        forall e <- entries ensures Judge(rows, files, edits, e) == Judge(other, files, edits, e) {
          SameRowsJudge(rows, other, files, edits, e);
        }
        SameJudged(rows, other, files, edits, entries, v);
      }
    }
  }

  /** In particular one row per timestamp leaves nothing to the order. */
  lemma UniqueSlotsIgnoreRowOrder(
    rows: seq<Row>, other: seq<Row>, files: Files, edits: Edits, entries: seq<Entry>, r: Report, s: Report)
    requires SameRows(rows, other)
    requires forall x <- rows, y <- rows :: x.createdAt == y.createdAt ==> x == y
    requires ReportIs(r, rows, files, edits, entries) && ReportIs(s, other, files, edits, entries)
    ensures r == s
  {
    ReportIgnoresOrderIff(rows, files, edits, entries);
    assert SameReport(rows, other, files, edits, entries);
  }
}
