/**
 * The single-use call tokens of the MCP bridge (libs/platform/src/mcp-call-token.ts): a pending map with an expiry, swept
 * only when it is full, and read in two ways, one of which spends the token.
 */
module CallTokens {
  import opened Wrappers

  type Token = string
  type Time = int

  datatype Principal = Principal(userId: string, workspaceId: string, sessionId: string)

  datatype Entry = Entry(principal: Principal, expiresAt: Time)

  /** A header as the HTTP server hands it over. */
  datatype Header = Absent | One(value: string) | Many(values: seq<string>)

  const TokenTtl: Time := 5000
  const MaxPending: nat := 1000

  /** The token a header carries; the empty string is no token. */
  function TokenIn(raw: Header): (t: Option<Token>) {
    match raw
    case Absent => None
    case One(value) => if value == "" then None else Some(value)
    case Many(values) => if values == [] || values[0] == "" then None else Some(values[0])
  }

  function Sweep(pending: map<Token, Entry>, now: Time): map<Token, Entry> {
    map t <- pending | pending[t].expiresAt > now :: pending[t]
  }

  /** The clock is read once for the sweep, if there is one, and once more for the expiry. */
  function Mint(pending: map<Token, Entry>, sweepAt: Time, mintAt: Time, principal: Principal, token: Token): map<Token, Entry> {
    (if |pending| >= MaxPending then Sweep(pending, sweepAt) else pending)[token := Entry(principal, mintAt + TokenTtl)]
  }

  function Peek(pending: map<Token, Entry>, raw: Header, now: Time): Option<Principal> {
    var token := TokenIn(raw);
    if token.None? || token.value !in pending || pending[token.value].expiresAt <= now then None
    else Some(pending[token.value].principal)
  }

  function Spend(pending: map<Token, Entry>, raw: Header): map<Token, Entry> {
    var token := TokenIn(raw);
    if token.None? then pending else pending - {token.value}
  }

  // ── What the store stands for ──────────────────────────────────────────────

  /**
   * The ledger a reader has in mind: every token ever minted, with its principal and expiry, and which of them a consume
   * was attempted on. It forgets nothing, so it says what each read ought to answer.
   */
  datatype Ledger = Ledger(issued: map<Token, Entry>, spent: set<Token>, clock: Time)

  const Blank := Ledger(map[], {}, 0)

  predicate Redeemable(l: Ledger, token: Token, now: Time) {
    token in l.issued && token !in l.spent && now < l.issued[token].expiresAt
  }

  function Owed(l: Ledger, raw: Header, now: Time): Option<Principal> {
    var token := TokenIn(raw);
    if token.Some? && Redeemable(l, token.value, now) then Some(l.issued[token.value].principal) else None
  }

  datatype Event =
    | Minted(sweepAt: Time, at: Time, principal: Principal, token: Token)
    | Consumed(raw: Header, at: Time)
    | Peeked(raw: Header, at: Time)

  /** The clock does not run backwards, and 256 random bits are never drawn twice. */
  predicate Possible(l: Ledger, e: Event) {
    match e
    case Minted(sweepAt, at, _, token) => l.clock <= sweepAt <= at && token !in l.issued
    case Consumed(_, at) => l.clock <= at
    case Peeked(_, at) => l.clock <= at
  }

  function Record(l: Ledger, e: Event): Ledger {
    match e
    case Minted(_, at, principal, token) => Ledger(l.issued[token := Entry(principal, at + TokenTtl)], l.spent, at)
    case Consumed(raw, at) =>
      var token := TokenIn(raw);
      Ledger(l.issued, if token.Some? && token.value in l.issued then l.spent + {token.value} else l.spent, at)
    case Peeked(_, at) => l.(clock := at)
  }

  function Apply(pending: map<Token, Entry>, e: Event): map<Token, Entry> {
    match e
    case Minted(sweepAt, at, principal, token) => Mint(pending, sweepAt, at, principal, token)
    case Consumed(raw, _) => Spend(pending, raw)
    case Peeked(_, _) => pending
  }

  function Answer(pending: map<Token, Entry>, e: Event): Option<Principal> {
    match e
    case Minted(_, _, _, _) => None
    case Consumed(raw, at) => Peek(pending, raw, at)
    case Peeked(raw, at) => Peek(pending, raw, at)
  }

  /**
   * The store may have forgotten what is dead, and nothing else: every pending entry is issued and unspent, and every
   * issued, unspent, unexpired token is pending.
   */
  ghost predicate Keeps(pending: map<Token, Entry>, l: Ledger) {
    && (forall t <- pending :: t in l.issued && t !in l.spent && pending[t] == l.issued[t])
    && (forall t <- l.issued :: Redeemable(l, t, l.clock) ==> t in pending)
    && l.spent <= l.issued.Keys
  }

  lemma StepKeeps(pending: map<Token, Entry>, l: Ledger, e: Event)
    requires Keeps(pending, l) && Possible(l, e)
    ensures Keeps(Apply(pending, e), Record(l, e))
    ensures match e
            case Minted(_, _, _, _) => true
            case Consumed(raw, at) => Answer(pending, e) == Owed(l, raw, at)
            case Peeked(raw, at) => Answer(pending, e) == Owed(l, raw, at)
  {
    var l' := Record(l, e);
    forall t <- l'.issued | Redeemable(l', t, l'.clock) ensures t in Apply(pending, e) {
      if t in l.issued { assert Redeemable(l, t, l.clock); }
    }
    match e
    case Minted(_, _, _, _) =>
    case Consumed(raw, at) => AnswerIsOwed(pending, l, raw, at);
    case Peeked(raw, at) => AnswerIsOwed(pending, l, raw, at);
  }

  lemma AnswerIsOwed(pending: map<Token, Entry>, l: Ledger, raw: Header, at: Time)
    requires Keeps(pending, l) && l.clock <= at
    ensures Peek(pending, raw, at) == Owed(l, raw, at)
  {
    var token := TokenIn(raw);
    if token.Some? && Redeemable(l, token.value, at) { assert Redeemable(l, token.value, l.clock); }
  }

  // ── Runs ───────────────────────────────────────────────────────────────────

  function RunLedger(l: Ledger, es: seq<Event>): Ledger
    decreases |es|
  {
    if es == [] then l else RunLedger(Record(l, es[0]), es[1..])
  }

  predicate Plausible(l: Ledger, es: seq<Event>)
    decreases |es|
  {
    es == [] || (Possible(l, es[0]) && Plausible(Record(l, es[0]), es[1..]))
  }

  function Answers(pending: map<Token, Entry>, es: seq<Event>): (r: seq<Option<Principal>>)
    ensures |r| == |es|
    decreases |es|
  {
    if es == [] then [] else [Answer(pending, es[0])] + Answers(Apply(pending, es[0]), es[1..])
  }

  /**
   * Over every run: the answer to each read is the one the ledger owes at that moment. A token therefore yields exactly
   * the principal it was minted for, to every read before its first consume and its expiry, and nothing from then on;
   * however full the map became, no sweep dropped a live token.
   */
  lemma {:induction false} ReadsAnswerTheLedger(pending: map<Token, Entry>, l: Ledger, es: seq<Event>, k: nat)
    requires Keeps(pending, l) && Plausible(l, es) && k < |es| && !es[k].Minted?
    ensures Answers(pending, es)[k] == Owed(RunLedger(l, es[..k]), es[k].raw, es[k].at)
    decreases k
  {
    StepKeeps(pending, l, es[0]);
    if k > 0 {
      ReadsAnswerTheLedger(Apply(pending, es[0]), Record(l, es[0]), es[1..], k - 1);
      assert es[..k][1..] == es[1..][..k - 1];
    }
  }

  /** Once a consume has been attempted on an issued token, the ledger has it as spent for ever. */
  lemma {:induction false} ConsumeSpends(l: Ledger, es: seq<Event>, i: nat, token: Token)
    requires i < |es| && es[i].Consumed? && TokenIn(es[i].raw) == Some(token)
    requires token in RunLedger(l, es[..i]).issued
    ensures token in RunLedger(l, es).spent
    decreases |es|
  {
    if i > 0 {
      assert es[..i][1..] == es[1..][..i - 1];
      ConsumeSpends(Record(l, es[0]), es[1..], i - 1, token);
    } else {
      SpentStays(Record(l, es[0]), es[1..]);
    }
  }

  lemma {:induction false} SpentStays(l: Ledger, es: seq<Event>)
    ensures l.spent <= RunLedger(l, es).spent
    decreases |es|
  {
    if es != [] { SpentStays(Record(l, es[0]), es[1..]); }
  }

  /** Single use: of any two consumes of one token, whatever came between, the later yields nothing if the earlier yielded. */
  lemma ConsumedAtMostOnce(pending: map<Token, Entry>, l: Ledger, es: seq<Event>, i: nat, j: nat)
    requires Keeps(pending, l) && Plausible(l, es) && i < j < |es|
    requires es[i].Consumed? && es[j].Consumed? && TokenIn(es[i].raw) == TokenIn(es[j].raw)
    ensures Answers(pending, es)[i].None? || Answers(pending, es)[j].None?
  {
    ReadsAnswerTheLedger(pending, l, es, i);
    ReadsAnswerTheLedger(pending, l, es, j);
    if Answers(pending, es)[i].Some? {
      assert es[..j][..i] == es[..i];
      ConsumeSpends(l, es[..j], i, TokenIn(es[i].raw).value);
    }
  }

  /** A peek shows what a consume at the same moment would yield, and leaves every later answer as it was. */
  lemma PeekIsFree(pending: map<Token, Entry>, raw: Header, at: Time, es: seq<Event>)
    ensures Answers(pending, [Peeked(raw, at)] + es) == [Answer(pending, Consumed(raw, at))] + Answers(pending, es)
  {
    assert ([Peeked(raw, at)] + es)[1..] == es;
  }

  // ── In its own numbers ─────────────────────────────────────────────────────

  /** A header carries its value, or the first of its values, and an empty one is none. */
  lemma HeaderCarries(raw: Header, token: Token)
    ensures TokenIn(raw) == Some(token) <==>
              token != "" && (raw == One(token) || (raw.Many? && |raw.values| > 0 && raw.values[0] == token))
    ensures TokenIn(raw) == None <==>
              || raw == Absent || raw == One("") || (raw.Many? && (raw.values == [] || raw.values[0] == ""))
  {}

  /** A minted token is answered for five seconds, with its principal, and from then on not at all. */
  lemma MintedLivesFiveSeconds(
    pending: map<Token, Entry>, sweepAt: Time, at: Time, principal: Principal, token: Token, raw: Header, now: Time)
    requires token != "" && (raw == One(token) || (raw.Many? && |raw.values| > 0 && raw.values[0] == token))
    ensures var minted := Apply(pending, Minted(sweepAt, at, principal, token));
            && Answer(minted, Consumed(raw, now)) == (if now < at + 5_000 then Some(principal) else None)
            && Answer(minted, Peeked(raw, now)) == (if now < at + 5_000 then Some(principal) else None)
  {}

  /** A mint leaves every other token alone, but for expired ones, and those only once a thousand are pending. */
  lemma MintLeavesOthers(
    pending: map<Token, Entry>, sweepAt: Time, at: Time, principal: Principal, token: Token, other: Token)
    requires other != token
    ensures var minted := Apply(pending, Minted(sweepAt, at, principal, token));
            && (other in minted <==> other in pending && (|pending| < 1_000 || sweepAt < pending[other].expiresAt))
            && (other in minted ==> minted[other] == pending[other])
  {}

  /** A consume deletes the token it carries, live or not, and no other; a peek deletes none. */
  lemma ConsumeDeletes(pending: map<Token, Entry>, raw: Header, at: Time, other: Token)
    ensures Apply(pending, Peeked(raw, at)) == pending
    ensures var after := Apply(pending, Consumed(raw, at));
            && (other in after <==> other in pending && TokenIn(raw) != Some(other))
            && (other in after ==> after[other] == pending[other])
  {}

  /** What the ledger writes down: the time of every event, each mint, and each consume of a token it issued. */
  lemma LedgerRemembers(l: Ledger, e: Event, token: Token)
    ensures var after := Record(l, e);
            && after.clock == e.at
            && (token in after.issued <==> token in l.issued || (e.Minted? && e.token == token))
            && (e.Minted? ==> after.issued[e.token] == Entry(e.principal, e.at + 5_000))
            && (token in l.issued && !(e.Minted? && e.token == token) ==> after.issued[token] == l.issued[token])
            && (token in after.spent <==>
                  token in l.spent || (e.Consumed? && TokenIn(e.raw) == Some(token) && token in l.issued))
  {}

  /** A run can be continued by any event that is possible where it stands. */
  lemma {:induction false} RunsGoOn(l: Ledger, es: seq<Event>, e: Event)
    ensures Plausible(l, es + [e]) <==> Plausible(l, es) && Possible(RunLedger(l, es), e)
    ensures RunLedger(l, es + [e]) == Record(RunLedger(l, es), e)
    decreases |es|
  {
    if es == [] {
      assert es + [e] == [e];
      assert Plausible(Record(l, e), []);
    } else {
      assert (es + [e])[1..] == es[1..] + [e];
      RunsGoOn(Record(l, es[0]), es[1..], e);
    }
  }

  // ── The store ──────────────────────────────────────────────────────────────

  class TokenStore {
    var pending: map<Token, Entry>

    constructor ()
      ensures pending == map[]
    {
      pending := map[];
    }

    /** The sweep walks the entries and deletes the dead ones as it goes. */
    method DeleteExpired(now: Time)
      modifies this
      ensures pending == Sweep(old(pending), now)
    {
      var todo := pending.Keys;
      while todo != {}
        invariant todo <= pending.Keys <= old(pending).Keys
        invariant forall t <- pending :: pending[t] == old(pending)[t]
        invariant forall t <- old(pending) :: t in pending <==> t in todo || old(pending)[t].expiresAt > now
        decreases |todo|
      {
        var key :| key in todo;
        todo := todo - {key};
        if pending[key].expiresAt <= now { pending := pending - {key}; }
      }
    }

    method MintToken(sweepAt: Time, mintAt: Time, principal: Principal, token: Token)
      modifies this
      ensures pending == Apply(old(pending), Minted(sweepAt, mintAt, principal, token))
    {
      if |pending| >= MaxPending { DeleteExpired(sweepAt); }
      pending := pending[token := Entry(principal, mintAt + TokenTtl)];
    }

    method Consume(raw: Header, now: Time) returns (r: Option<Principal>)
      modifies this
      ensures pending == Apply(old(pending), Consumed(raw, now)) && r == Answer(old(pending), Consumed(raw, now))
    {
      var token := TokenIn(raw);
      if token.None? { return None; }
      var entry := if token.value in pending then Some(pending[token.value]) else None;
      pending := pending - {token.value};
      if entry.None? || entry.value.expiresAt <= now { return None; }
      return Some(entry.value.principal);
    }
  }
}
