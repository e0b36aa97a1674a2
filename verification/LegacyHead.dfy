/**
 * The legacy-head script (db/fresh-db/apply-legacy-head.ts): apply the journal below 0068 with the real runner, run the
 * frozen 0068, and record it at its journal timestamp so that the next migration starts at 0069.
 */
module LegacyHead {
  import opened Wrappers
  import opened Migrations
  import opened Text

  // ── numberOf: Number.parseInt(tag.slice(0, 4), 10) ─────────────────────────

  predicate IsDigit(c: char) {
    '0' <= c <= '9'
  }

  /** The digits a string starts with, read in base ten on top of what was read so far. */
  function Digits(s: string, read: nat): nat {
    if s != "" && IsDigit(s[0]) then Digits(s[1..], 10 * read + (s[0] - '0') as nat) else read
  }

  /** `None` stands for NaN, which no comparison holds of. */
  function NumberOf(tag: string): Option<int> {
    var s := TrimStart(if |tag| > 4 then tag[..4] else tag);
    var signed := s != "" && (s[0] == '-' || s[0] == '+');
    var body := if signed then s[1..] else s;
    var magnitude: int := Digits(body, 0);
    if body == "" || !IsDigit(body[0]) then None
    else if signed && s[0] == '-' then Some(-magnitude)
    else Some(magnitude)
  }

  function DigitValue(c: char): int
    requires IsDigit(c)
  {
    (c - '0') as int
  }

  /** On the journal's own tags it is the number they start with. */
  lemma FourDigits(tag: string)
    requires |tag| >= 4 && forall i :: 0 <= i < 4 ==> IsDigit(tag[i])
    ensures NumberOf(tag) ==
            Some(1000 * DigitValue(tag[0]) + 100 * DigitValue(tag[1]) + 10 * DigitValue(tag[2]) + DigitValue(tag[3]))
  {
    var s := tag[..4];
    assert !IsSpace(tag[0]);
    assert (if |tag| > 4 then tag[..4] else tag) == s && TrimStart(s) == s;
    assert IsDigit(s[0]) && s[0] != '-' && s[0] != '+';
    var magnitude: int := Digits(s, 0);
    assert NumberOf(tag) == Some(magnitude);
    assert s[1..][0] == tag[1] && s[1..][1..][0] == tag[2] && s[1..][1..][1..][0] == tag[3] && s[1..][1..][1..][1..] == "";
    var a, b, c: nat := DigitValue(tag[0]), 10 * DigitValue(tag[0]) + DigitValue(tag[1]),
      100 * DigitValue(tag[0]) + 10 * DigitValue(tag[1]) + DigitValue(tag[2]);
    assert Digits(s, 0) == Digits(s[1..], a) == Digits(s[1..][1..], b) == Digits(s[1..][1..][1..], c);
    assert Digits("", 10 * c + DigitValue(tag[3])) == 10 * c + DigitValue(tag[3]);
  }

  predicate IsBelow(e: Entry) {
    NumberOf(e.tag).Some? && NumberOf(e.tag).value < 68
  }

  predicate IsAt(e: Entry) {
    NumberOf(e.tag) == Some(68)
  }

  /** Decimal notation, read from its last digit. */
  function Decimal(digits: string): int {
    if digits == "" then 0
    else 10 * Decimal(digits[..|digits| - 1]) + (digits[|digits| - 1] as int - '0' as int)
  }

  ghost predicate AllDigits(s: string) {
    forall c <- s :: '0' <= c <= '9'
  }

  lemma DigitIs(c: char)
    ensures IsDigit(c) <==> c in {'0', '1', '2', '3', '4', '5', '6', '7', '8', '9'}
  {}

  /** The first four characters of a tag: spaces, a sign, digits, and what follows them. */
  ghost predicate Reads(tag: string, space: string, sign: string, digits: string, rest: string) {
    && (if |tag| > 4 then tag[..4] else tag) == space + (sign + (digits + rest))
    && (forall c <- space :: IsSpace(c)) && (sign == "" || sign == "+" || sign == "-") && AllDigits(digits)
    && (rest != "" ==> !IsDigit(rest[0]))
    && (rest != "" && sign == "" && digits == "" ==> !IsSpace(rest[0]) && rest[0] != '+' && rest[0] != '-')
  }

  lemma {:induction false} TrimTakesSpaces(space: string, s: string)
    requires (forall c <- space :: IsSpace(c)) && (s != "" ==> !IsSpace(s[0]))
    ensures TrimStart(space + s) == s
  {
    if space == "" {
      assert space + s == s;
    } else {
      assert space[0] in space && (space + s)[1..] == space[1..] + s;
      assert forall c <- space[1..] :: c in space;
      TrimTakesSpaces(space[1..], s);
    }
  }

  lemma OneMoreDigit(done: string, c: char)
    requires '0' <= c <= '9'
    ensures Decimal(done + [c]) == 10 * Decimal(done) + (c as int - 48)
  {
    var next := done + [c];
    assert next[..|next| - 1] == done && next[|next| - 1] == c;
  }

  lemma {:induction false} DigitsAreDecimal(done: string, digits: string, rest: string, read: nat)
    requires AllDigits(digits) && (rest != "" ==> !IsDigit(rest[0])) && read == Decimal(done)
    ensures Digits(digits + rest, read) == Decimal(done + digits)
    decreases |digits|
  {
    var s := digits + rest;
    if digits == "" {
      assert s == rest && done + digits == done;
    } else {
      var c, more := digits[0], digits[1..];
      assert s[0] == c && s[1..] == more + rest;
      assert c in digits && forall d <- more :: d in digits;
      OneMoreDigit(done, c);
      DigitsAreDecimal(done + [c], more, rest, 10 * read + (c as int - 48));
      assert done + digits == (done + [c]) + more;
    }
  }

  /** What the digits start with decides whether there is a number at all, and no digit is a space or a sign. */
  lemma BodyIs(digits: string, rest: string)
    requires AllDigits(digits) && (rest != "" ==> !IsDigit(rest[0]))
    ensures digits + rest != "" && IsDigit((digits + rest)[0]) <==> digits != ""
    ensures if digits == "" then digits + rest == rest
            else var c := (digits + rest)[0]; !IsSpace(c) && c != '+' && c != '-'
  {
    if digits == "" {
      assert digits + rest == rest;
    } else {
      assert digits[0] in digits && (digits + rest)[0] == digits[0];
    }
  }

  lemma SignedIs(s: string, sign: string, body: string)
    requires s == sign + body && (sign == "" || sign == "+" || sign == "-")
    requires sign == "" && body != "" ==> !IsSpace(body[0]) && body[0] != '+' && body[0] != '-'
    ensures s != "" ==> !IsSpace(s[0])
    ensures (s != "" && (s[0] == '-' || s[0] == '+')) <==> sign != ""
    ensures sign != "" ==> s[1..] == body && (s[0] == '-' <==> sign == "-")
    ensures sign == "" ==> s == body
  {
    if sign == "" {
      assert s == body;
    } else {
      assert s[0] == sign[0] && s[1..] == body;
    }
  }

  lemma NumberOfTrimmed(tag: string, s: string, body: string, sign: string)
    requires s == TrimStart(if |tag| > 4 then tag[..4] else tag)
    requires (s != "" && (s[0] == '-' || s[0] == '+')) <==> sign != ""
    requires sign != "" ==> s[1..] == body && (s[0] == '-' <==> sign == "-")
    requires sign == "" ==> s == body
    ensures NumberOf(tag) ==
            if body == "" || !IsDigit(body[0]) then None
            else if sign == "-" then Some(-(Digits(body, 0) as int)) else Some(Digits(body, 0))
  {}

  lemma TrimmedIs(tag: string, space: string, sign: string, digits: string, rest: string, s: string, body: string)
    requires Reads(tag, space, sign, digits, rest) && body == digits + rest && s == sign + body
    ensures sign == "" && body != "" ==> !IsSpace(body[0]) && body[0] != '+' && body[0] != '-'
    ensures s == TrimStart(if |tag| > 4 then tag[..4] else tag)
  {
    BodyIs(digits, rest);
    SignedIs(s, sign, body);
    TrimTakesSpaces(space, s);
  }

  lemma MagnitudeIs(digits: string, rest: string)
    requires AllDigits(digits) && (rest != "" ==> !IsDigit(rest[0]))
    ensures Digits(digits + rest, 0) == Decimal(digits)
  {
    DigitsAreDecimal("", digits, rest, 0);
    assert "" + digits == digits;
  }

  lemma SignedNumberIs(tag: string, space: string, sign: string, digits: string, rest: string, body: string)
    requires Reads(tag, space, sign, digits, rest) && body == digits + rest
    ensures NumberOf(tag) ==
            if body == "" || !IsDigit(body[0]) then None
            else if sign == "-" then Some(-(Digits(body, 0) as int)) else Some(Digits(body, 0))
  {
    var s := sign + body;
    TrimmedIs(tag, space, sign, digits, rest, s, body);
    SignedIs(s, sign, body);
    NumberOfTrimmed(tag, s, body, sign);
  }

  /** parseInt in base ten: the signed decimal the text starts with after spaces, and NaN if no digit is there. */
  lemma NumberIs(tag: string, space: string, sign: string, digits: string, rest: string)
    requires Reads(tag, space, sign, digits, rest)
    ensures NumberOf(tag) ==
            if digits == "" then None else if sign == "-" then Some(-Decimal(digits)) else Some(Decimal(digits))
  {
    SignedNumberIs(tag, space, sign, digits, rest, digits + rest);
    BodyIs(digits, rest);
    MagnitudeIs(digits, rest);
  }

  /** Below means a number under 68, and at means 68; a tag without a number is neither. */
  lemma NumberDecides(e: Entry)
    ensures NumberOf(e.tag) == None ==> !IsBelow(e) && !IsAt(e)
    ensures forall n :: NumberOf(e.tag) == Some(n) ==> (IsBelow(e) <==> n <= 67) && (IsAt(e) <==> n == 68)
  {}

  function Head(journal: seq<Entry>): seq<Entry> {
    if journal == [] then []
    else (if IsBelow(journal[0]) then [journal[0]] else []) + Head(journal[1..])
  }

  function FindAt(journal: seq<Entry>): Option<Entry> {
    if journal == [] then None else if IsAt(journal[0]) then Some(journal[0]) else FindAt(journal[1..])
  }

  /** What is neither the head nor 0068. */
  function Later(journal: seq<Entry>, at: Entry): seq<Entry> {
    if journal == [] then []
    else (if IsBelow(journal[0]) || journal[0] == at then [] else [journal[0]]) + Later(journal[1..], at)
  }

  /** The first entry numbered 68 is found, if there is one. */
  lemma {:induction false} FindAtIs(journal: seq<Entry>)
    ensures FindAt(journal) == None <==> forall e <- journal :: NumberOf(e.tag) != Some(68)
    ensures FindAt(journal) != None ==>
              exists i :: 0 <= i < |journal| && journal[i] == FindAt(journal).value && NumberOf(journal[i].tag) == Some(68)
                && forall j :: 0 <= j < i ==> NumberOf(journal[j].tag) != Some(68)
  {
    if journal != [] {
      FindAtIs(journal[1..]);
      assert forall e <- journal :: e == journal[0] || e in journal[1..];
      assert journal[0] in journal && forall e <- journal[1..] :: e in journal;
      if !IsAt(journal[0]) && FindAt(journal[1..]) != None {
        var i :| 0 <= i < |journal[1..]| && journal[1..][i] == FindAt(journal[1..]).value && NumberOf(journal[1..][i].tag) == Some(68)
                 && forall j :: 0 <= j < i ==> NumberOf(journal[1..][j].tag) != Some(68);
        assert journal[i + 1] == journal[1..][i];
        forall j | 0 <= j < i + 1 ensures NumberOf(journal[j].tag) != Some(68) {
          if j > 0 { assert journal[j] == journal[1..][j - 1]; }
        }
      }
    }
  }

  // ── The script ─────────────────────────────────────────────────────────────

  /**
   * Where a run ends: killed before the migrator starts, killed once it has created the bookkeeping table and before its
   * transaction commits, killed before the record is inserted, or finished.
   */
  datatype Stop = BeforeMigrating | BeforeCommitting | BeforeRecording | Finished

  /** The bookkeeping table; `None` on a brand-new database. */
  type Table = Option<seq<Row>>

  function RowsIn(table: Table): seq<Row> {
    if table.Some? then table.value else []
  }

  function Record(rows: seq<Row>, when: int, hash: Hash): seq<Row> {
    if HasSlot(rows, when) then rows else rows + [Row(when, hash)]
  }

  function LegacyRun(files: Files, journal: seq<Entry>, legacy: Hash, table: Table, stop: Stop): Table {
    var head, at := Head(journal), FindAt(journal);
    if head == [] || at.None? || HasSlot(RowsIn(table), at.value.when) || !Complete(files, head) then table
    else
      match stop
      case BeforeMigrating => table
      case BeforeCommitting => Some(RowsIn(table))
      case BeforeRecording => Some(Deploy(files, RowsIn(table), head))
      case Finished => Some(Record(Deploy(files, RowsIn(table), head), at.value.when, legacy))
  }

  function LegacyRuns(files: Files, journal: seq<Entry>, legacy: Hash, table: Table, stops: seq<Stop>): Table
    decreases |stops|
  {
    if stops == [] then table
    else LegacyRuns(files, journal, legacy, LegacyRun(files, journal, legacy, table, stops[0]), stops[1..])
  }

  /** What each stop leaves of a run that has work to do: the table, an empty one if new, the head, and then the record. */
  lemma StopsLeave(files: Files, journal: seq<Entry>, at: Entry, legacy: Hash, rows: seq<Row>, table: Table)
    requires Head(journal) != [] && FindAt(journal) == Some(at) && (forall e <- Head(journal) :: e.tag in files)
    requires (forall r <- rows :: r.createdAt != at.when) && (table == Some(rows) || (table == None && rows == []))
    ensures LegacyRun(files, journal, legacy, table, BeforeMigrating) == table
    ensures LegacyRun(files, journal, legacy, table, BeforeCommitting) == Some(rows)
    ensures LegacyRun(files, journal, legacy, table, BeforeRecording) == Some(Deploy(files, rows, Head(journal)))
    ensures var deployed := Deploy(files, rows, Head(journal));
            LegacyRun(files, journal, legacy, table, Finished) ==
            if exists r <- deployed :: r.createdAt == at.when then Some(deployed) else Some(deployed + [Row(at.when, legacy)])
  {}

  /** No head, no 0068, 0068 recorded already, or a file of the head missing: nothing is written. */
  lemma RefusesUntouched(files: Files, journal: seq<Entry>, legacy: Hash, table: Table, stop: Stop)
    requires || Head(journal) == [] || FindAt(journal) == None
             || (table != None && exists r <- table.value :: r.createdAt == FindAt(journal).value.when)
             || (exists e <- Head(journal) :: e.tag !in files)
    ensures LegacyRun(files, journal, legacy, table, stop) == table
  {}

  class Bookkeeping {
    var table: Table

    constructor (table: Table)
      ensures this.table == table
    {
      this.table := table;
    }

    /** drizzle's migrator, first half: `CREATE TABLE IF NOT EXISTS`, outside the transaction. */
    method CreateTable()
      modifies this
      ensures table == Some(RowsIn(old(table)))
    {
      if table.None? { table := Some([]); }
    }

    /** … and second half: one transaction. */
    method ApplyDue(files: Files, journal: seq<Entry>)
      requires table.Some? && Complete(files, journal)
      modifies this
      ensures table == Some(Deploy(files, old(table).value, journal))
    {
      table := Some(Deploy(files, table.value, journal));
    }

    /** `INSERT … SELECT … WHERE NOT EXISTS`, so that a retried step adds no second row. */
    method InsertIfAbsent(when: int, hash: Hash)
      requires table.Some?
      modifies this
      ensures table == Some(Record(old(table).value, when, hash))
    {
      if !(exists r <- table.value :: r.createdAt == when) { table := Some(table.value + [Row(when, hash)]); }
    }

    method Run(files: Files, journal: seq<Entry>, legacy: Hash, stop: Stop) returns (ok: bool)
      modifies this
      ensures table == LegacyRun(files, journal, legacy, old(table), stop)
      ensures ok ==> Head(journal) != [] && FindAt(journal).Some? && HasSlot(RowsIn(table), FindAt(journal).value.when)
      ensures stop.Finished? && Head(journal) != [] && FindAt(journal).Some? && Complete(files, Head(journal)) ==> ok
    {
      var head, at := Head(journal), FindAt(journal);
      if head == [] || at.None? { return false; }
      if table.Some? && exists r <- table.value :: r.createdAt == at.value.when { return true; }
      if !(forall e <- head :: e.tag in files) || stop.BeforeMigrating? { return false; }
      CreateTable();
      if stop.BeforeCommitting? { return false; }
      ApplyDue(files, head);
      if stop.BeforeRecording? { return false; }
      InsertIfAbsent(at.value.when, legacy);
      RecordHolds(Deploy(files, RowsIn(old(table)), head), at.value.when, legacy);
      return true;
    }
  }

  lemma RecordHolds(rows: seq<Row>, when: int, hash: Hash)
    ensures HasSlot(Record(rows, when, hash), when)
  {
    if !HasSlot(rows, when) {
      assert Row(when, hash) in rows + [Row(when, hash)];
    }
  }

  // ── What any number of runs leaves behind ──────────────────────────────────

  /** The journal ascends around 0068: what is numbered below comes before it, everything else after. */
  ghost predicate AscendsAround(journal: seq<Entry>, at: Entry) {
    && FindAt(journal) == Some(at)
    && forall e <- journal :: if IsBelow(e) then e.when < at.when else e == at || at.when < e.when
  }

  lemma {:induction false} HeadIs(journal: seq<Entry>)
    ensures forall e :: e in Head(journal) <==> e in journal && IsBelow(e)
    ensures FindAt(journal).Some? ==> FindAt(journal).value in journal && IsAt(FindAt(journal).value)
  {
    if journal != [] { HeadIs(journal[1..]); }
  }

  lemma {:induction false} LaterIs(journal: seq<Entry>, at: Entry)
    ensures forall e :: e in Later(journal, at) <==> e in journal && !IsBelow(e) && e != at
  {
    if journal != [] { LaterIs(journal[1..], at); }
  }

  function HeadRows(files: Files, journal: seq<Entry>): seq<Row>
    requires Complete(files, Head(journal))
  {
    RowsOf(files, Head(journal))
  }

  lemma HeadSlots(files: Files, journal: seq<Entry>, at: Entry)
    requires AscendsAround(journal, at) && Complete(files, Head(journal))
    ensures forall r <- HeadRows(files, journal) :: r.createdAt < at.when
    ensures !HasSlot(HeadRows(files, journal), at.when)
  {
    HeadIs(journal);
    forall r <- HeadRows(files, journal) ensures r.createdAt < at.when {
      var i :| 0 <= i < |Head(journal)| && HeadRows(files, journal)[i] == r;
      assert Head(journal)[i] in Head(journal);
    }
  }

  /** The states a database that was empty can be in: no table, an empty one, the head, or all of it. */
  ghost predicate OnTheWay(files: Files, journal: seq<Entry>, at: Entry, legacy: Hash, table: Table)
    requires Complete(files, Head(journal))
  {
    || table.None? || table == Some([])
    || table == Some(HeadRows(files, journal))
    || table == Some(HeadRows(files, journal) + [Row(at.when, legacy)])
  }

  lemma DeployHead(files: Files, head: seq<Entry>)
    requires Complete(files, head)
    ensures Deploy(files, [], head) == RowsOf(files, head)
    ensures Deploy(files, RowsOf(files, head), head) == RowsOf(files, head)
  {
    DueAll(None, head);
    assert [] + RowsOf(files, head) == RowsOf(files, head);
    HeadNewest(files, head, []);
    DueNone(Newest(RowsOf(files, head)), head);
    assert RowsOf(files, head) + RowsOf(files, []) == RowsOf(files, head);
  }

  /** 0068's slot is taken in the last state and in no other, and the migrator brings every other to the head. */
  lemma OnTheWaySlots(files: Files, journal: seq<Entry>, at: Entry, legacy: Hash, table: Table)
    requires AscendsAround(journal, at) && Complete(files, Head(journal)) && OnTheWay(files, journal, at, legacy, table)
    ensures HasSlot(RowsIn(table), at.when) <==> table == Some(HeadRows(files, journal) + [Row(at.when, legacy)])
    ensures !HasSlot(RowsIn(table), at.when) ==> Deploy(files, RowsIn(table), Head(journal)) == HeadRows(files, journal)
  {
    HeadSlots(files, journal, at);
    DeployHead(files, Head(journal));
    var done := HeadRows(files, journal) + [Row(at.when, legacy)];
    assert done[|done| - 1] in done;
  }

  lemma OneRun(files: Files, journal: seq<Entry>, at: Entry, legacy: Hash, table: Table, stop: Stop)
    requires AscendsAround(journal, at) && Head(journal) != [] && Complete(files, Head(journal))
    requires OnTheWay(files, journal, at, legacy, table)
    ensures var table' := LegacyRun(files, journal, legacy, table, stop);
            && OnTheWay(files, journal, at, legacy, table')
            && (stop.Finished? || HasSlot(RowsIn(table), at.when) ==>
                  table' == Some(HeadRows(files, journal) + [Row(at.when, legacy)]))
  {
    OnTheWaySlots(files, journal, at, legacy, table);
    assert !HasSlot(HeadRows(files, journal), at.when) by { HeadSlots(files, journal, at); }
  }

  /**
   * Any number of runs from an empty database, each killed anywhere: as soon as one of them has finished, the table is
   * exactly the head, in order, and one row for 0068; and it stays so.
   */
  lemma {:induction false} AnyNumberOfRuns(
    files: Files, journal: seq<Entry>, at: Entry, legacy: Hash, table: Table, stops: seq<Stop>)
    requires AscendsAround(journal, at) && Head(journal) != [] && Complete(files, Head(journal))
    requires OnTheWay(files, journal, at, legacy, table)
    ensures var table' := LegacyRuns(files, journal, legacy, table, stops);
            && OnTheWay(files, journal, at, legacy, table')
            && (Finished in stops || HasSlot(RowsIn(table), at.when) ==>
                  table' == Some(HeadRows(files, journal) + [Row(at.when, legacy)]))
    decreases |stops|
  {
    var done := HeadRows(files, journal) + [Row(at.when, legacy)];
    assert done[|done| - 1] in done && HasSlot(done, at.when);
    if stops == [] {
      HeadSlots(files, journal, at);
    } else {
      OneRun(files, journal, at, legacy, table, stops[0]);
      AnyNumberOfRuns(files, journal, at, legacy, LegacyRun(files, journal, legacy, table, stops[0]), stops[1..]);
    }
  }

  function CountSlot(rows: seq<Row>, when: int): nat {
    if rows == [] then 0 else (if rows[0].createdAt == when then 1 else 0) + CountSlot(rows[1..], when)
  }

  lemma {:induction false} CountConcat(a: seq<Row>, b: seq<Row>, when: int)
    ensures CountSlot(a + b, when) == CountSlot(a, when) + CountSlot(b, when)
  {
    if a == [] {
      assert a + b == b;
    } else {
      assert (a + b)[1..] == a[1..] + b;
      CountConcat(a[1..], b, when);
    }
  }

  lemma {:induction false} CountZero(rows: seq<Row>, when: int)
    ensures CountSlot(rows, when) == 0 <==> !HasSlot(rows, when)
  {
    if rows != [] {
      CountZero(rows[1..], when);
      assert rows[0] in rows;
      assert forall r <- rows :: r == rows[0] || r in rows[1..];
    }
  }

  lemma DeployKeepsSlot(files: Files, rows: seq<Row>, journal: seq<Entry>, when: int)
    requires forall e <- journal :: e.when != when
    ensures CountSlot(Deploy(files, rows, journal), when) == CountSlot(rows, when)
  {
    if Complete(files, journal) {
      var due := Due(Newest(rows), journal);
      DueIs(Newest(rows), journal);
      var added := RowsOf(files, due);
      forall r <- added ensures r.createdAt != when {
        var i :| 0 <= i < |added| && added[i] == r;
        assert due[i] in due;
      }
      CountZero(added, when);
      CountConcat(rows, added, when);
    }
  }

  /**
   * On any database whatever, if no entry of the head shares 0068's timestamp: a run never adds a row to a slot that is
   * taken, and a finished one leaves one row more exactly when there was none.
   */
  lemma SlotHeldOnce(files: Files, journal: seq<Entry>, at: Entry, legacy: Hash, table: Table, stop: Stop)
    requires FindAt(journal) == Some(at) && Head(journal) != [] && Complete(files, Head(journal))
    requires forall e <- Head(journal) :: e.when != at.when
    ensures var before, after := CountSlot(RowsIn(table), at.when),
                                 CountSlot(RowsIn(LegacyRun(files, journal, legacy, table, stop)), at.when);
            after == if stop.Finished? && before == 0 then 1 else before
  {
    var rows := RowsIn(table);
    CountZero(rows, at.when);
    DeployKeepsSlot(files, rows, Head(journal), at.when);
    var deployed := Deploy(files, rows, Head(journal));
    CountZero(deployed, at.when);
    CountConcat(deployed, [Row(at.when, legacy)], at.when);
    assert CountSlot([Row(at.when, legacy)], at.when) == 1 + CountSlot([], at.when);
  }

  // ── The migration after it ─────────────────────────────────────────────────

  lemma {:induction false} DueIsLater(journal: seq<Entry>, at: Entry)
    requires forall e <- journal :: if IsBelow(e) then e.when < at.when else e == at || at.when < e.when
    requires !IsBelow(at)
    ensures Due(Some(at.when), journal) == Later(journal, at)
  {
    if journal != [] { DueIsLater(journal[1..], at); }
  }

  lemma NewestAtHead(files: Files, journal: seq<Entry>, at: Entry, legacy: Hash)
    requires AscendsAround(journal, at) && Complete(files, Head(journal))
    ensures Newest(HeadRows(files, journal) + [Row(at.when, legacy)]) == Some(at.when)
  {
    var rows := HeadRows(files, journal) + [Row(at.when, legacy)];
    HeadSlots(files, journal, at);
    NewestIs(rows);
    assert rows[|rows| - 1] in rows;
    forall r <- rows ensures r.createdAt <= at.when {}
  }

  /** The next migration on a legacy head applies exactly what is neither the head nor 0068. */
  lemma NextRunAppliesTheRest(files: Files, journal: seq<Entry>, at: Entry, legacy: Hash)
    requires AscendsAround(journal, at) && Complete(files, journal) && Complete(files, Head(journal))
    requires Complete(files, Later(journal, at))
    ensures var rows := HeadRows(files, journal) + [Row(at.when, legacy)];
            Deploy(files, rows, journal) == rows + RowsOf(files, Later(journal, at))
  {
    HeadIs(journal);
    NewestAtHead(files, journal, at, legacy);
    DueIsLater(journal, at);
  }

  ghost predicate DistinctTags(journal: seq<Entry>) {
    forall a <- journal, b <- journal :: a.tag == b.tag ==> a == b
  }

  lemma RowsOfAre(files: Files, entries: seq<Entry>)
    requires Complete(files, entries)
    ensures forall e <- entries :: Row(e.when, files[e.tag]) in RowsOf(files, entries)
    ensures forall r <- RowsOf(files, entries) :: exists e <- entries :: r == Row(e.when, files[e.tag])
  {
    var rows := RowsOf(files, entries);
    forall e <- entries ensures Row(e.when, files[e.tag]) in rows {
      var i :| 0 <= i < |entries| && entries[i] == e;
      assert rows[i] in rows;
    }
    forall r <- rows ensures exists e <- entries :: r == Row(e.when, files[e.tag]) {
      var i :| 0 <= i < |rows| && rows[i] == r;
      assert entries[i] in entries;
    }
  }

  /** Every row of the migrated legacy head: some other entry's own, or the frozen 0068. */
  ghost predicate RowsAre(files: Files, journal: seq<Entry>, at: Entry, legacy: Hash, rows: seq<Row>)
    requires Complete(files, journal)
  {
    && (forall e <- journal :: e != at ==> Row(e.when, files[e.tag]) in rows)
    && Row(at.when, legacy) in rows
    && (forall r <- rows :: r == Row(at.when, legacy) || exists e <- journal :: e != at && r == Row(e.when, files[e.tag]))
  }

  lemma MigratedRowsAre(files: Files, journal: seq<Entry>, at: Entry, legacy: Hash, rows: seq<Row>)
    requires AscendsAround(journal, at) && Complete(files, journal) && Complete(files, Head(journal))
    requires rows == Deploy(files, HeadRows(files, journal) + [Row(at.when, legacy)], journal)
    ensures RowsAre(files, journal, at, legacy, rows)
  {
    HeadIs(journal);
    LaterIs(journal, at);
    assert Complete(files, Later(journal, at));
    NextRunAppliesTheRest(files, journal, at, legacy);
    RowsOfAre(files, Head(journal));
    RowsOfAre(files, Later(journal, at));
    assert forall r :: r in rows <==>
      r in HeadRows(files, journal) || r == Row(at.when, legacy) || r in RowsOf(files, Later(journal, at));
  }

  lemma JudgeMigrated(files: Files, edits: Edits, journal: seq<Entry>, at: Entry, legacy: Hash, rows: seq<Row>, e: Entry)
    requires AscendsAround(journal, at) && Complete(files, journal) && RowsAre(files, journal, at, legacy, rows)
    requires DistinctFiles(files) && DistinctTags(journal) && at in journal && legacy != files[at.tag]
    requires at.tag in edits && edits[at.tag] == Edit(legacy, files[at.tag])
    requires e in journal
    ensures Judge(rows, files, edits, e) == if e == at then KnownEdit else Silent
  {
    if e == at {
      assert Row(at.when, legacy) in rows && HasSlot(rows, at.when);
      LastAtIs(rows, at.when);
      assert LastAt(rows, at.when) == Some(legacy);
      assert !HasHash(rows, files[at.tag]);
    } else {
      assert Row(e.when, files[e.tag]) in rows;
      assert HasHash(rows, files[e.tag]) && HasSlot(rows, e.when);
    }
  }

  /**
   * The whole story: any number of legacy-head runs on an empty database, one of them finished, then a migration. Nothing
   * is missing or mismatched, and 0068, which ran with its old text, is the one entry reported, as a known edit.
   */
  lemma LegacyHeadThenMigrate(
    files: Files, edits: Edits, journal: seq<Entry>, at: Entry, legacy: Hash, stops: seq<Stop>, r: Report)
    requires AscendsAround(journal, at) && Head(journal) != [] && Complete(files, journal) && Complete(files, Head(journal))
    requires at in journal && DistinctFiles(files) && DistinctTags(journal) && legacy != files[at.tag]
    requires at.tag in edits && edits[at.tag] == Edit(legacy, files[at.tag])
    requires Finished in stops
    requires var rows := RowsIn(LegacyRuns(files, journal, legacy, None, stops));
             ReportIs(r, Deploy(files, rows, journal), files, edits, journal)
    ensures r.missing == [] && r.mismatched == [] && r.recordedUnderOtherTimestamp == []
    ensures forall e :: e in r.knownEdits <==> e == at
  {
    AnyNumberOfRuns(files, journal, at, legacy, None, stops);
    HeadIs(journal);
    var rows := Deploy(files, HeadRows(files, journal) + [Row(at.when, legacy)], journal);
    MigratedRowsAre(files, journal, at, legacy, rows);
    forall e <- journal ensures Judge(rows, files, edits, e) == if e == at then KnownEdit else Silent {
      JudgeMigrated(files, edits, journal, at, legacy, rows, e);
    }
    NothingJudged(rows, files, edits, journal, Missing);
    NothingJudged(rows, files, edits, journal, Mismatched);
    NothingJudged(rows, files, edits, journal, OtherTimestamp);
    JudgedIs(rows, files, edits, journal, KnownEdit);
  }
}
