/** legacy_sim.generator.LegacyCore: the day loop that applies, carries, charges and reports. */
module LegacyCore {
  import opened Options
  import opened Dates
  import opened DateText
  import opened Text
  import opened Extracts
  import opened DayCount
  import opened Calendar
  import opened BusinessDays
  import opened LegacyStream

  /** An account with the terms of its product. */
  datatype Account = Account(id: string, currency: string, openedOn: int, rateBp: int, monthlyFee: int, minBalance: int,
                             minBalanceFee: int, suspense: bool, onQ3Product: bool)

  datatype Hold = Hold(accountId: string, amount: int, placedAt: int, expiresAt: int)

  datatype AccountDay = AccountDay(accountId: string, currency: string, date: Day, ledger: int, available: int)
  datatype DayResult = DayResult(date: Day, transactions: seq<Txn>, balances: seq<AccountDay>)

  const HOLD_MINOR := 25_000
  const SHARED_FEE_MINOR := 501
  const HOUR_MICROS: int := 3_600_000_000

  function Get<K>(m: map<K, int>, k: K): int {
    if k in m then m[k] else 0
  }

  /** The sum of an account's transactions. */
  function SumFor(ts: seq<Txn>, a: string): int {
    if ts == [] then 0 else SumFor(ts[..|ts| - 1], a) + if ts[|ts| - 1].accountId == a then ts[|ts| - 1].amount else 0
  }

  /** A ledger after the transactions, one at a time. */
  function Applied(ledger: map<string, int>, ts: seq<Txn>): map<string, int> {
    if ts == [] then ledger else
      var l, t := Applied(ledger, ts[..|ts| - 1]), ts[|ts| - 1];
      l[t.accountId := Get(l, t.accountId) + t.amount]
  }

  lemma {:induction false} AppliedConcat(ledger: map<string, int>, x: seq<Txn>, y: seq<Txn>)
    ensures Applied(ledger, x + y) == Applied(Applied(ledger, x), y)
    decreases |y|
  {
    if y == [] {
      assert x + y == x;
    } else {
      assert (x + y)[..|x + y| - 1] == x + y[..|y| - 1];
      AppliedConcat(ledger, x, y[..|y| - 1]);
    }
  }

  /** Each account's ledger is its opening balance plus everything applied. */
  lemma {:induction false} LedgerIsOpeningPlusEmitted(opening: map<string, int>, ts: seq<Txn>, a: string)
    ensures Get(Applied(opening, ts), a) == Get(opening, a) + SumFor(ts, a)
    ensures a in Applied(opening, ts) ==> Applied(opening, ts)[a] == (if a in opening then opening[a] else 0) + SumFor(ts, a)
    ensures a !in Applied(opening, ts) ==> a !in opening && SumFor(ts, a) == 0
    decreases |ts|
  {
    if ts != [] {
      LedgerIsOpeningPlusEmitted(opening, ts[..|ts| - 1], a);
    }
  }

  // ---------------------------------------------------------------- charges

  function HoldExpiry(q: Quirks, placedAt: int): int {
    if q.q8 then (DayOf(placedAt) + 3) * DAY_MICROS else placedAt + 72 * HOUR_MICROS
  }

  function OpenHolds(holds: seq<Hold>, a: string, at: int): int {
    if holds == [] then 0 else
      var h := holds[|holds| - 1];
      OpenHolds(holds[..|holds| - 1], a, at) + if h.accountId == a && h.placedAt <= at < h.expiresAt then h.amount else 0
  }

  function Rounded(q: Quirks, num: int, den: int): int
    requires den != 0
  {
    if q.q1 then RoundHalfUp(num, den) else RoundHalfEven(num, den)
  }

  /** A month's interest on the sum of its daily balances. */
  function Interest(q: Quirks, a: Account, year: int, total: int): int {
    Rounded(q, total * a.rateBp, BASIS_POINTS * Denominator(year, LegacyBasis(year, q.q3 && a.onQ3Product, q.q6)))
  }

  function Fee(q: Quirks, a: Account, ledger: int, held: int): int {
    var monthly := if q.q4 && a.openedOn < q.openedBefore then 0 else a.monthlyFee;
    var basis := if q.q7 then ledger else ledger - held;
    var minimum := if a.minBalanceFee > 0 && basis < a.minBalance then a.minBalanceFee else 0;
    monthly + minimum + if a.suspense then 0 else Rounded(q, SHARED_FEE_MINOR, 2)
  }

  /** A deterministic id: UUIDv5 over the joined parts is taken as injective. */
  function DetId(kind: string, account: string, n: int): string {
    kind + "/" + account + "/" + IntText(n)
  }

  function Charge(kind: string, a: Account, amount: int, dated: Day, micros: int, n: int, other: string): (t: Txn)
    requires 0 <= micros < DAY_MICROS
    ensures t.accountId == a.id && t.amount == amount && t.businessDate == dated && t.kind == kind
  {
    assert (dated * DAY_MICROS + micros) / DAY_MICROS == dated;
    Txn(DetId(kind, a.id, n), a.id, a.currency, amount, dated * DAY_MICROS + micros, dated, dated, kind, other, None)
  }

  function MonthOfDay(n: int): (int, int) {
    (Civil(n).year, Civil(n).month)
  }

  /** The month before a day's own. */
  function MonthBefore(n: int): (int, int) {
    MonthOfDay(FirstOfMonth(Civil(n).year, Civil(n).month) - 1)
  }

  /** The next day is in another month. */
  predicate EndsMonth(n: int) {
    Civil(n + 1).month != Civil(n).month
  }

  /** The hooks the day loop asks: the quirk set and the documented calendar, as functions. */
  datatype Rules = Rules(
    transform: seq<Txn> -> seq<Txn>,        // Quirks.transform_transactions
    holdExpiry: int -> int,                 // Quirks.hold_expiry
    isOpen: int -> bool,                    // Quirks.is_business_day
    triggersInterest: int -> bool,          // the first business day of its month
    interestDate: Day -> Day,               // Quirks.interest_post_date, on a trigger day
    accruedMonth: int -> (int, int),        // the month before the trigger day's
    endsMonth: int -> bool,                 // the next day is in another month
    interest: (Account, int, int) -> int,   // account, year, sum of daily balances
    fee: (Account, int, int) -> int)        // account, ledger, open holds

  function RulesOf(q: Quirks): Rules {
    Rules(
      Transforming(q),
      (at: int) => HoldExpiry(q, at),
      Open(q.q5),
      (n: int) => n == OnOrAfter(false, FirstOfMonth(Civil(n).year, Civil(n).month)),
      (d: Day) => if q.q12 then d else CalendarFirst(d),
      (n: int) => MonthBefore(n),
      (n: int) => EndsMonth(n),
      (a: Account, year: int, total: int) => Interest(q, a, year, total),
      (a: Account, ledger: int, held: int) => Fee(q, a, ledger, held))
  }

  /** One account's interest: nothing without a rate or when it rounds to zero. */
  function InterestOn(r: Rules, a: Account, sums: map<string, int>, month: (int, int), dated: Day): seq<Txn> {
    var amount := r.interest(a, month.0, Get(sums, a.id));
    if a.rateBp == 0 || amount == 0 then []
    else [Charge("interest", a, amount, dated, 16 * HOUR_MICROS, month.0 * 12 + month.1, "INTEREST")]
  }

  /** The accounts in turn: what is charged, and the daily sums with those of every bearing account cleared. */
  function InterestOnAll(r: Rules, accounts: seq<Account>, sums: map<string, int>, month: (int, int), dated: Day): (seq<Txn>, map<string, int>) {
    if accounts == [] then ([], sums) else
      var (ts, s) := InterestOnAll(r, accounts[..|accounts| - 1], sums, month, dated);
      var a := accounts[|accounts| - 1];
      (ts + InterestOn(r, a, s, month, dated), if a.rateBp == 0 then s else s[a.id := 0])
  }

  function FeeOn(r: Rules, a: Account, ledger: map<string, int>, holds: seq<Hold>, d: Day, at: int): seq<Txn> {
    var fee := r.fee(a, Get(ledger, a.id), OpenHolds(holds, a.id, at));
    if fee == 0 then [] else [Charge("fee", a, 0 - fee, d, 16 * HOUR_MICROS + HOUR_MICROS / 2, d, "FEE")]
  }

  /** The accounts in turn, each against the ledger the fees before it left. */
  function FeesOnAll(r: Rules, accounts: seq<Account>, ledger: map<string, int>, holds: seq<Hold>, d: Day, at: int): (seq<Txn>, map<string, int>) {
    if accounts == [] then ([], ledger) else
      var (ts, l) := FeesOnAll(r, accounts[..|accounts| - 1], ledger, holds, d, at);
      var one := FeeOn(r, accounts[|accounts| - 1], l, holds, d, at);
      (ts + one, Applied(l, one))
  }

  /** The day triggers interest and the month was not the last one accrued. */
  predicate Accrues(r: Rules, last: Option<(int, int)>, d: Day) {
    r.triggersInterest(d) && last != Some(r.accruedMonth(d))
  }

  /** A day's interest and the daily sums it leaves. */
  function InterestDue(r: Rules, accounts: seq<Account>, sums: map<string, int>, last: Option<(int, int)>, d: Day): (seq<Txn>, map<string, int>) {
    if Accrues(r, last, d) then InterestOnAll(r, accounts, sums, r.accruedMonth(d), r.interestDate(d)) else ([], sums)
  }

  function FeesDue(r: Rules, accounts: seq<Account>, ledger: map<string, int>, holds: seq<Hold>, d: Day, at: int): seq<Txn> {
    if !r.endsMonth(d) then [] else FeesOnAll(r, accounts, ledger, holds, d, at).0
  }

  /** Everything a day charges: interest against the sums so far, then fees against the ledger it leaves. */
  function ChargesDue(r: Rules, accounts: seq<Account>, ledger: map<string, int>, sums: map<string, int>, last: Option<(int, int)>,
                      holds: seq<Hold>, d: Day, at: int): seq<Txn> {
    var interest := InterestDue(r, accounts, sums, last, d).0;
    interest + FeesDue(r, accounts, Applied(ledger, interest), holds, d, at)
  }

  /** Each account's sum grows by its balance where that is positive. */
  function Accumulated(accounts: seq<Account>, sums: map<string, int>, ledger: map<string, int>): map<string, int> {
    if accounts == [] then sums else
      var s, a := Accumulated(accounts[..|accounts| - 1], sums, ledger), accounts[|accounts| - 1].id;
      s[a := Get(s, a) + if Get(ledger, a) > 0 then Get(ledger, a) else 0]
  }

  function HoldsFor(accounts: seq<Account>, at: int, expiresAt: int): seq<Hold> {
    seq(|accounts|, i requires 0 <= i < |accounts| => Hold(accounts[i].id, HOLD_MINOR, at, expiresAt))
  }

  // ---------------------------------------------------------------- days and windows, as functions

  /** Everything the core carries from one day to the next. */
  datatype Books = Books(ledger: map<string, int>, holds: seq<Hold>, sums: map<string, int>, last: Option<(int, int)>, carried: seq<Txn>)

  function HeldAfter(r: Rules, accounts: seq<Account>, holds: seq<Hold>, d: Day): seq<Hold> {
    var at := d * DAY_MICROS + 18 * HOUR_MICROS;
    holds + HoldsFor(accounts, at, r.holdExpiry(at))
  }

  function DayLanded(r: Rules, b: Books, d: Day, generated: seq<Txn>): seq<Txn> {
    Landing(r.transform, d, generated + b.carried)
  }

  function DayCharges(r: Rules, accounts: seq<Account>, b: Books, d: Day, generated: seq<Txn>): seq<Txn> {
    ChargesDue(r, accounts, Applied(b.ledger, DayLanded(r, b, d, generated)), b.sums, b.last, HeldAfter(r, accounts, b.holds, d), d, d * DAY_MICROS + CUT_OFF)
  }

  /** What a day reports: what lands of its own and the carried transactions, then its charges. */
  function DayTxns(r: Rules, accounts: seq<Account>, b: Books, d: Day, generated: seq<Txn>): seq<Txn> {
    DayLanded(r, b, d, generated) + DayCharges(r, accounts, b, d, generated)
  }

  /** What it leaves: the daily sums, cleared by an accrual, grow by the closing balances; a trigger day sets the month. */
  function DayBooks(r: Rules, accounts: seq<Account>, b: Books, d: Day, generated: seq<Txn>): Books {
    var ledger := Applied(b.ledger, DayTxns(r, accounts, b, d, generated));
    Books(ledger, HeldAfter(r, accounts, b.holds, d),
          Accumulated(accounts, InterestDue(r, accounts, b.sums, b.last, d).1, ledger),
          if r.triggersInterest(d) then Some(r.accruedMonth(d)) else b.last,
          Carrying(r.transform, d, generated + b.carried))
  }

  /** One day of a window: what was there, what it reported, what it left. */
  datatype Entry = Entry(date: Day, before: Books, landed: seq<Txn>, charges: seq<Txn>, after: Books)

  function Closing(h: seq<Entry>, b: Books): Books {
    if h == [] then b else h[|h| - 1].after
  }

  function DayEntry(r: Rules, accounts: seq<Account>, b: Books, d: Day, generated: seq<Txn>): Entry {
    Entry(d, b, DayLanded(r, b, d, generated), DayCharges(r, accounts, b, d, generated), DayBooks(r, accounts, b, d, generated))
  }

  /** A history with one more day, if the core is open on it. */
  function Next(r: Rules, accounts: seq<Account>, h: seq<Entry>, b: Books, d: Day, generated: seq<Txn>): seq<Entry> {
    if r.isOpen(d) then h + [DayEntry(r, accounts, Closing(h, b), d, generated)] else h
  }

  /** The days from start to end on which the core is open, each on the books the last one left. */
  function History(r: Rules, accounts: seq<Account>, start: Day, end: int, generate: int -> seq<Txn>, b: Books): seq<Entry>
    requires end <= YearStart(MAX_YEAR + 1)
    decreases end - start
  {
    if end < start then [] else Next(r, accounts, History(r, accounts, start, end - 1, generate, b), b, end, generate(end))
  }

  // ---------------------------------------------------------------- the core

  lemma {:induction false} Associates(a: seq<Txn>, b: seq<Txn>, c: seq<Txn>)
    ensures a + b + c == a + (b + c)
  {
  }

  ghost predicate Charges(ts: seq<Txn>) {
    forall i | 0 <= i < |ts| :: IsCharge(ts[i])
  }

  /** Each account's reported ledger is its opening balance plus everything emitted; available is that less its open holds. */
  ghost predicate Positions(out: seq<AccountDay>, accounts: seq<Account>, d: Day, opening: map<string, int>, emitted: seq<Txn>, holds: seq<Hold>, at: int) {
    && |out| == |accounts|
    && forall i | 0 <= i < |out| ::
         && out[i].accountId == accounts[i].id && out[i].currency == accounts[i].currency && out[i].date == d
         && out[i].ledger == Get(opening, accounts[i].id) + SumFor(emitted, accounts[i].id)
         && out[i].available == out[i].ledger - OpenHolds(holds, accounts[i].id, at)
  }

  function PositionOf(a: Account, d: Day, ledger: map<string, int>, holds: seq<Hold>, at: int): AccountDay {
    AccountDay(a.id, a.currency, d, Get(ledger, a.id), Get(ledger, a.id) - OpenHolds(holds, a.id, at))
  }

  lemma {:induction false} PositionsAre(out: seq<AccountDay>, accounts: seq<Account>, d: Day, opening: map<string, int>, emitted: seq<Txn>,
                                        ledger: map<string, int>, holds: seq<Hold>, at: int)
    requires ledger == Applied(opening, emitted) && |out| == |accounts|
    requires forall j | 0 <= j < |out| :: out[j] == PositionOf(accounts[j], d, ledger, holds, at)
    ensures Positions(out, accounts, d, opening, emitted, holds, at)
  {
    forall j | 0 <= j < |out| ensures Get(ledger, accounts[j].id) == Get(opening, accounts[j].id) + SumFor(emitted, accounts[j].id) {
      LedgerIsOpeningPlusEmitted(opening, emitted, accounts[j].id);
    }
  }

  ghost predicate ChargesOn(ts: seq<Txn>, d: int) {
    forall i | 0 <= i < |ts| :: IsCharge(ts[i]) && ts[i].businessDate == d
  }

  lemma {:induction false} InterestNext(r: Rules, accounts: seq<Account>, i: nat, sums: map<string, int>, month: (int, int), dated: Day)
    requires i < |accounts|
    ensures var (ts, s), a := InterestOnAll(r, accounts[..i], sums, month, dated), accounts[i];
            InterestOnAll(r, accounts[..i + 1], sums, month, dated)
            == (ts + InterestOn(r, a, s, month, dated), if a.rateBp == 0 then s else s[a.id := 0])
  {
    assert accounts[..i + 1][..i] == accounts[..i];
  }

  lemma {:induction false} FeesNext(r: Rules, accounts: seq<Account>, i: nat, ledger: map<string, int>, holds: seq<Hold>, d: Day, at: int)
    requires i < |accounts|
    ensures var (ts, l) := FeesOnAll(r, accounts[..i], ledger, holds, d, at);
            var one := FeeOn(r, accounts[i], l, holds, d, at);
            FeesOnAll(r, accounts[..i + 1], ledger, holds, d, at) == (ts + one, Applied(l, one))
  {
    assert accounts[..i + 1][..i] == accounts[..i];
  }

  lemma {:induction false} InterestIsCharges(r: Rules, accounts: seq<Account>, sums: map<string, int>, month: (int, int), dated: Day)
    ensures ChargesOn(InterestOnAll(r, accounts, sums, month, dated).0, dated)
    decreases |accounts|
  {
    if accounts != [] {
      InterestIsCharges(r, accounts[..|accounts| - 1], sums, month, dated);
    }
  }

  lemma {:induction false} FeesAreCharges(r: Rules, accounts: seq<Account>, ledger: map<string, int>, holds: seq<Hold>, d: Day, at: int)
    ensures ChargesOn(FeesOnAll(r, accounts, ledger, holds, d, at).0, d)
    decreases |accounts|
  {
    if accounts != [] {
      FeesAreCharges(r, accounts[..|accounts| - 1], ledger, holds, d, at);
    }
  }

  class Core {
    const accounts: seq<Account>
    const rules: Rules
    const opening: map<string, int>
    var ledger: map<string, int>
    var holds: seq<Hold>
    var balanceSum: map<string, int>
    var lastInterestMonth: Option<(int, int)>
    var carried: seq<Txn>
    /** Every transaction reported so far. */
    ghost var emitted: seq<Txn>

    /** The ledger is the opening balances with everything emitted applied. */
    ghost predicate Valid()
      reads this
    {
      ledger == Applied(opening, emitted)
    }

    constructor (accounts: seq<Account>, rules: Rules, opening: map<string, int>)
      ensures Valid() && emitted == [] && Now() == Books(opening, [], map[], None, [])
      ensures this.rules == rules && this.accounts == accounts && this.opening == opening
    {
      this.accounts, this.rules, this.opening := accounts, rules, opening;
      ledger, holds, balanceSum, lastInterestMonth, carried, emitted := opening, [], map[], None, [], [];
    }

    /** self._ledger[a] = self._ledger.get(a, 0) + amount, for one reported transaction. */
    method Book(t: Txn)
      requires Valid()
      modifies this`ledger, this`emitted
      ensures Valid() && emitted == old(emitted) + [t]
      ensures ledger == old(ledger)[t.accountId := Get(old(ledger), t.accountId) + t.amount]
    {
      assert (emitted + [t])[..|emitted|] == emitted;
      ledger := ledger[t.accountId := Get(ledger, t.accountId) + t.amount];
      emitted := emitted + [t];
    }

    method BookAll(ts: seq<Txn>)
      requires Valid()
      modifies this`ledger, this`emitted
      ensures Valid() && emitted == old(emitted) + ts && ledger == Applied(old(ledger), ts)
    {
      for i := 0 to |ts|
        invariant Valid() && emitted == old(emitted) + ts[..i] && ledger == Applied(old(ledger), ts[..i])
      {
        assert ts[..i + 1][..i] == ts[..i];
        Book(ts[i]);
      }
      assert ts[..|ts|] == ts;
    }

    /** Interest on every account, skipped whole when the month was the last one accrued. */
    method PostInterestFor(month: (int, int), dated: Day) returns (out: seq<Txn>)
      requires Valid()
      modifies this`ledger, this`emitted, this`balanceSum, this`lastInterestMonth
      ensures Valid() && emitted == old(emitted) + out && lastInterestMonth == Some(month)
      ensures (out, balanceSum) == if old(lastInterestMonth) == Some(month) then ([], old(balanceSum))
                                   else InterestOnAll(rules, accounts, old(balanceSum), month, dated)
    {
      out := [];
      if lastInterestMonth == Some(month) {
        return;
      }
      lastInterestMonth := Some(month);
      for i := 0 to |accounts|
        invariant Valid() && emitted == old(emitted) + out && lastInterestMonth == Some(month)
        invariant (out, balanceSum) == InterestOnAll(rules, accounts[..i], old(balanceSum), month, dated)
      {
        var a := accounts[i];
        InterestNext(rules, accounts, i, old(balanceSum), month, dated);
        var one := InterestOn(rules, a, balanceSum, month, dated);
        BookAll(one);
        Associates(old(emitted), out, one);
        out := out + one;
        if a.rateBp != 0 {
          balanceSum := balanceSum[a.id := 0];
        }
      }
      assert accounts[..|accounts|] == accounts;
    }

    /** Interest for the month before the trigger day, once, dated by the core's own rule. */
    method PostInterest(on: Day) returns (out: seq<Txn>)
      requires Valid()
      modifies this`ledger, this`emitted, this`balanceSum, this`lastInterestMonth
      ensures Valid() && emitted == old(emitted) + out && lastInterestMonth == Some(rules.accruedMonth(on))
      ensures ChargesOn(out, rules.interestDate(on))
      ensures (out, balanceSum) == if old(lastInterestMonth) == lastInterestMonth then ([], old(balanceSum))
                                   else InterestOnAll(rules, accounts, old(balanceSum), rules.accruedMonth(on), rules.interestDate(on))
    {
      InterestIsCharges(rules, accounts, balanceSum, rules.accruedMonth(on), rules.interestDate(on));
      out := PostInterestFor(rules.accruedMonth(on), rules.interestDate(on));
    }

    method PostFees(d: Day, at: int) returns (out: seq<Txn>)
      requires Valid()
      modifies this`ledger, this`emitted
      ensures Valid() && emitted == old(emitted) + out && ChargesOn(out, d)
      ensures (out, ledger) == FeesOnAll(rules, accounts, old(ledger), holds, d, at)
    {
      out := [];
      for i := 0 to |accounts|
        invariant Valid() && emitted == old(emitted) + out
        invariant (out, ledger) == FeesOnAll(rules, accounts[..i], old(ledger), holds, d, at)
      {
        FeesNext(rules, accounts, i, old(ledger), holds, d, at);
        var one := FeeOn(rules, accounts[i], ledger, holds, d, at);
        BookAll(one);
        Associates(old(emitted), out, one);
        out := out + one;
      }
      assert accounts[..|accounts|] == accounts;
      FeesAreCharges(rules, accounts, old(ledger), holds, d, at);
    }

    /** A hold on every account at 18:00. */
    method PlaceHolds(d: Day)
      modifies this`holds
      ensures var at := d * DAY_MICROS + 18 * HOUR_MICROS; holds == old(holds) + HoldsFor(accounts, at, rules.holdExpiry(at))
    {
      var at := d * DAY_MICROS + 18 * HOUR_MICROS;
      for i := 0 to |accounts|
        invariant holds == old(holds) + HoldsFor(accounts, at, rules.holdExpiry(at))[..i]
      {
        holds := holds + [Hold(accounts[i].id, HOLD_MINOR, at, rules.holdExpiry(at))];
      }
    }

    /** The end-of-day positions: opening plus everything emitted, less the open holds. */
    method Report(d: Day, at: int) returns (out: seq<AccountDay>)
      requires Valid()
      modifies this`balanceSum
      ensures Positions(out, accounts, d, opening, emitted, holds, at)
      ensures forall i | 0 <= i < |out| :: out[i].ledger == Get(ledger, accounts[i].id)
      ensures balanceSum == Accumulated(accounts, old(balanceSum), ledger)
    {
      out := [];
      for i := 0 to |accounts|
        invariant |out| == i && forall j | 0 <= j < i :: out[j] == PositionOf(accounts[j], d, ledger, holds, at)
        invariant balanceSum == Accumulated(accounts[..i], old(balanceSum), ledger)
      {
        assert accounts[..i + 1][..i] == accounts[..i];
        var a := accounts[i];
        var l := Get(ledger, a.id);
        balanceSum := balanceSum[a.id := Get(balanceSum, a.id) + if l > 0 then l else 0];
        out := out + [PositionOf(a, d, ledger, holds, at)];
      }
      assert accounts[..|accounts|] == accounts;
      PositionsAre(out, accounts, d, opening, emitted, ledger, holds, at);
    }

    method InterestIfDue(d: Day) returns (out: seq<Txn>)
      requires Valid()
      modifies this`ledger, this`emitted, this`balanceSum, this`lastInterestMonth
      ensures Valid() && emitted == old(emitted) + out && ChargesOn(out, rules.interestDate(d))
      ensures (out, balanceSum) == InterestDue(rules, accounts, old(balanceSum), old(lastInterestMonth), d)
      ensures lastInterestMonth == if rules.triggersInterest(d) then Some(rules.accruedMonth(d)) else old(lastInterestMonth)
      ensures ledger == Applied(old(ledger), out)
    {
      out := [];
      if rules.triggersInterest(d) {
        out := PostInterest(d);
      }
      AppliedConcat(opening, old(emitted), out);
    }

    method FeesIfDue(d: Day, at: int) returns (out: seq<Txn>)
      requires Valid()
      modifies this`ledger, this`emitted
      ensures Valid() && emitted == old(emitted) + out && ChargesOn(out, d)
      ensures out == FeesDue(rules, accounts, old(ledger), holds, d, at) && ledger == Applied(old(ledger), out)
    {
      out := [];
      if rules.endsMonth(d) {
        out := PostFees(d, at);
      }
      AppliedConcat(opening, old(emitted), out);
    }

    /** Interest on a trigger day, fees at month end. */
    method PostCharges(d: Day, at: int) returns (out: seq<Txn>)
      requires Valid()
      modifies this`ledger, this`emitted, this`balanceSum, this`lastInterestMonth
      ensures Valid() && emitted == old(emitted) + out && Charges(out)
      ensures out == ChargesDue(rules, accounts, old(ledger), old(balanceSum), old(lastInterestMonth), holds, d, at)
      ensures ledger == Applied(old(ledger), out)
      ensures balanceSum == InterestDue(rules, accounts, old(balanceSum), old(lastInterestMonth), d).1
      ensures lastInterestMonth == if rules.triggersInterest(d) then Some(rules.accruedMonth(d)) else old(lastInterestMonth)
    {
      var interest := InterestIfDue(d);
      var fees := FeesIfDue(d, at);
      Associates(old(emitted), interest, fees);
      AppliedConcat(old(ledger), interest, fees);
      out := interest + fees;
    }

    function Now(): Books
      reads this
    {
      Books(ledger, holds, balanceSum, lastInterestMonth, carried)
    }

    /** run_day on any transactions generated for it: what lands is reported first, then interest and fees; the rest is
        carried, a hold is placed on every account, the positions reported are opening plus everything emitted, and the
        daily sums and the month accrued are left as the next accrual needs them. */
    method RunDay(d: Day, generated: seq<Txn>) returns (r: DayResult)
      requires Valid()
      modifies this
      ensures Valid() && r.date == d && emitted == old(emitted) + r.transactions
      ensures r.transactions == DayTxns(rules, accounts, old(Now()), d, generated)
      ensures Now() == DayBooks(rules, accounts, old(Now()), d, generated)
      ensures Leads(Landing(rules.transform, d, generated + old(carried)), r.transactions)
      ensures Positions(r.balances, accounts, d, opening, emitted, holds, d * DAY_MICROS + CUT_OFF)
      ensures forall i | 0 <= i < |accounts| :: r.balances[i].ledger == Get(ledger, accounts[i].id)
    {
      var at := d * DAY_MICROS + CUT_OFF;
      var today := Land(d, generated + carried);
      var charges := PostCharges(d, at);
      Associates(old(emitted), today, charges);
      DayAdds(rules, accounts, old(Now()), d, generated, today, charges);
      LeadsFirst(today, charges);
      var balances := Report(d, at);
      r := DayResult(d, today + charges, balances);
    }

    /** The first half of the day: book what lands, carry what does not, place the holds. */
    method Land(d: Day, raw: seq<Txn>) returns (today: seq<Txn>)
      requires Valid()
      modifies this`carried, this`ledger, this`emitted, this`holds
      ensures Valid() && today == Landing(rules.transform, d, raw) && carried == Carrying(rules.transform, d, raw)
      ensures emitted == old(emitted) + today && ledger == Applied(old(ledger), today)
      ensures var placed := d * DAY_MICROS + 18 * HOUR_MICROS; holds == old(holds) + HoldsFor(accounts, placed, rules.holdExpiry(placed))
    {
      today := Landing(rules.transform, d, raw);
      carried := Carrying(rules.transform, d, raw);
      BookAll(today);
      PlaceHolds(d);
    }

    method AppendDay(d: Day, generated: seq<Txn>, out: seq<DayResult>, ghost before: seq<Txn>, ghost h: seq<Entry>) returns (next: seq<DayResult>)
      requires Valid() && emitted == Emitting(before, out) && Follows(out, h, accounts)
      modifies this
      ensures Valid() && emitted == Emitting(before, next)
      ensures Now() == DayBooks(rules, accounts, old(Now()), d, generated)
      ensures Follows(next, h + [DayEntry(rules, accounts, old(Now()), d, generated)], accounts)
    {
      ghost var e := DayEntry(rules, accounts, Now(), d, generated);
      var r := RunDay(d, generated);
      EmittingNext(before, out, r);
      FollowsNext(out, r, h, e, accounts);
      next := out + [r];
    }

    /** The state after running a history: its days reported, its last books at hand. */
    ghost predicate UpTo(out: seq<DayResult>, h: seq<Entry>, b: Books, before: seq<Txn>)
      reads this
    {
      Valid() && Now() == Closing(h, b) && Follows(out, h, accounts) && emitted == Emitting(before, out)
    }

    /** The state after running a stream: its transfers reported, its remainder carried. */
    ghost predicate InStep(out: seq<DayResult>, s: (seq<seq<Txn>>, seq<Txn>))
      reads this
    {
      carried == s.1 && Reported(out, s.0)
    }

    /** One calendar day of a window whose histories, by last day, are hist. */
    method VisitDay(start: Day, d: Day, generate: int -> seq<Txn>, out: seq<DayResult>, ghost before: seq<Txn>, ghost b: Books, ghost hist: int -> seq<Entry>)
      returns (next: seq<DayResult>)
      requires start <= d && Grows(rules, accounts, start, generate, b, hist) && UpTo(out, hist(d - 1), b, before)
      modifies this
      ensures UpTo(next, hist(d), b, before)
    {
      assert From(start, d);
      next := out;
      if rules.isOpen(d) {
        next := AppendDay(d, generate(d), out, before, hist(d - 1));
      }
    }

    method VisitDays(start: Day, end: Day, generate: int -> seq<Txn>, ghost before: seq<Txn>, ghost b: Books, ghost hist: int -> seq<Entry>)
      returns (out: seq<DayResult>)
      requires start <= end && Grows(rules, accounts, start, generate, b, hist) && UpTo([], hist(start - 1), b, before)
      modifies this
      ensures UpTo(out, hist(end), b, before)
    {
      out := [];
      var d: int := start;
      while d <= end
        invariant start <= d <= end + 1
        invariant UpTo(out, hist(d - 1), b, before)
        decreases end - d
      {
        out := VisitDay(start, d, generate, out, before, b, hist);
        d := d + 1;
      }
    }

    /** run_window over the days the legacy core considers open. */
    method RunWindow(start: Day, end: Day, generate: int -> seq<Txn>) returns (out: seq<DayResult>)
      requires Valid()
      modifies this
      ensures UpTo(out, History(rules, accounts, start, end, generate, old(Now())), old(Now()), old(emitted))
      ensures InStep(out, Stream(rules.transform, rules.isOpen, start, end, generate, old(carried)))
    {
      ghost var b := Now();
      out := [];
      if start <= end {
        HistoryGrows(rules, accounts, start, generate, b);
        out := VisitDays(start, end, generate, emitted, b, HistoryTo(rules, accounts, start, generate, b));
      }
      HistoryStreams(rules, accounts, start, end, generate, b);
      HistoryReports(out, History(rules, accounts, start, end, generate, b), accounts);
    }
  }

  ghost predicate From(start: Day, d: int) {
    start <= d
  }

  /** hist(d) is the history up to d, as its recursion says. */
  ghost predicate Grows(r: Rules, accounts: seq<Account>, start: Day, generate: int -> seq<Txn>, b: Books, hist: int -> seq<Entry>) {
    && hist(start - 1) == []
    && forall d: Day {:trigger From(start, d)} | From(start, d) :: hist(d) == Next(r, accounts, hist(d - 1), b, d, generate(d))
  }

  function HistoryTo(r: Rules, accounts: seq<Account>, start: Day, generate: int -> seq<Txn>, b: Books): int -> seq<Entry> {
    (d: int) => if d <= YearStart(MAX_YEAR + 1) then History(r, accounts, start, d, generate, b) else []
  }

  lemma {:induction false} HistoryGrows(r: Rules, accounts: seq<Account>, start: Day, generate: int -> seq<Txn>, b: Books)
    ensures Grows(r, accounts, start, generate, b, HistoryTo(r, accounts, start, generate, b))
  {
    var hist := HistoryTo(r, accounts, start, generate, b);
    forall d: Day | From(start, d) ensures hist(d) == Next(r, accounts, hist(d - 1), b, d, generate(d)) {
      HistoryNext(r, accounts, start, d, generate, b);
    }
  }

  lemma {:induction false} DayAdds(r: Rules, accounts: seq<Account>, b: Books, d: Day, generated: seq<Txn>, today: seq<Txn>, charges: seq<Txn>)
    requires today == DayLanded(r, b, d, generated) && charges == DayCharges(r, accounts, b, d, generated)
    ensures DayTxns(r, accounts, b, d, generated) == today + charges
    ensures DayBooks(r, accounts, b, d, generated).ledger == Applied(Applied(b.ledger, today), charges)
  {
    AppliedConcat(b.ledger, today, charges);
  }

  function LandedOf(h: seq<Entry>): (r: seq<seq<Txn>>)
    ensures |r| == |h| && forall k | 0 <= k < |h| :: r[k] == h[k].landed
  {
    seq(|h|, k requires 0 <= k < |h| => h[k].landed)
  }

  ghost predicate OnlyCharges(h: seq<Entry>) {
    forall k | 0 <= k < |h| :: Charges(h[k].charges)
  }

  lemma {:induction false} DueAreCharges(r: Rules, accounts: seq<Account>, ledger: map<string, int>, sums: map<string, int>, last: Option<(int, int)>,
                                         holds: seq<Hold>, d: Day, at: int)
    ensures Charges(ChargesDue(r, accounts, ledger, sums, last, holds, d, at))
  {
    var interest := InterestDue(r, accounts, sums, last, d).0;
    InterestIsCharges(r, accounts, sums, r.accruedMonth(d), r.interestDate(d));
    FeesAreCharges(r, accounts, Applied(ledger, interest), holds, d, at);
  }

  /** The days of a history land what the stream of the open days lands, and carry what it carries. */
  lemma {:induction false} HistoryStreams(r: Rules, accounts: seq<Account>, start: Day, end: int, generate: int -> seq<Txn>, b: Books)
    requires end <= YearStart(MAX_YEAR + 1)
    ensures var h := History(r, accounts, start, end, generate, b);
            Stream(r.transform, r.isOpen, start, end, generate, b.carried) == (LandedOf(h), Closing(h, b).carried) && OnlyCharges(h)
    decreases end - start
  {
    var h := History(r, accounts, start, end, generate, b);
    if end < start {
      assert LandedOf(h) == [];
    } else {
      HistoryStreams(r, accounts, start, end - 1, generate, b);
      StreamNext(r.transform, r.isOpen, start, end, generate, b.carried);
      NextLands(r, accounts, History(r, accounts, start, end - 1, generate, b), b, end, generate(end));
    }
  }

  lemma {:induction false} NextLands(r: Rules, accounts: seq<Account>, h: seq<Entry>, b: Books, d: Day, generated: seq<Txn>)
    requires OnlyCharges(h)
    ensures var next, raw := Next(r, accounts, h, b, d, generated), generated + Closing(h, b).carried;
            && OnlyCharges(next)
            && (LandedOf(next), Closing(next, b).carried)
               == if r.isOpen(d) then (LandedOf(h) + [Landing(r.transform, d, raw)], Carrying(r.transform, d, raw)) else (LandedOf(h), Closing(h, b).carried)
  {
    EntryLands(r, accounts, h, Closing(h, b), d, generated);
  }

  lemma {:induction false} EntryLands(r: Rules, accounts: seq<Account>, h: seq<Entry>, b: Books, d: Day, generated: seq<Txn>)
    requires OnlyCharges(h)
    ensures var e := DayEntry(r, accounts, b, d, generated);
            && LandedOf(h + [e]) == LandedOf(h) + [Landing(r.transform, d, generated + b.carried)] && OnlyCharges(h + [e])
            && e.after.carried == Carrying(r.transform, d, generated + b.carried)
  {
    var today := DayLanded(r, b, d, generated);
    DueAreCharges(r, accounts, Applied(b.ledger, today), b.sums, b.last, HeldAfter(r, accounts, b.holds, d), d, d * DAY_MICROS + CUT_OFF);
  }

  lemma {:induction false} HistoryReports(out: seq<DayResult>, h: seq<Entry>, accounts: seq<Account>)
    requires Follows(out, h, accounts) && OnlyCharges(h)
    ensures Reported(out, LandedOf(h))
  {
    forall k | 0 <= k < |h| ensures Leads(LandedOf(h)[k], out[k].transactions) {
      assert Reports(out[k], h[k], accounts);
      LeadsFirst(h[k].landed, h[k].charges);
    }
  }

  lemma {:induction false} HistoryNext(r: Rules, accounts: seq<Account>, start: Day, d: Day, generate: int -> seq<Txn>, b: Books)
    requires start <= d
    ensures History(r, accounts, start, d, generate, b) == Next(r, accounts, History(r, accounts, start, d - 1, generate, b), b, d, generate(d))
  {
  }

  /** The reported days are those of the history, each with its transactions, closing ledgers and what holds leave of them. */
  ghost predicate Follows(out: seq<DayResult>, h: seq<Entry>, accounts: seq<Account>) {
    && |out| == |h|
    && forall k | 0 <= k < |h| :: Reports(out[k], h[k], accounts)
  }

  ghost predicate Reports(r: DayResult, e: Entry, accounts: seq<Account>) {
    && r.date == e.date && r.transactions == e.landed + e.charges && |r.balances| == |accounts|
    && forall i | 0 <= i < |accounts| ::
         && r.balances[i].accountId == accounts[i].id && r.balances[i].ledger == Get(e.after.ledger, accounts[i].id)
         && r.balances[i].available == r.balances[i].ledger - OpenHolds(e.after.holds, accounts[i].id, e.date * DAY_MICROS + CUT_OFF)
  }

  lemma {:induction false} FollowsNext(out: seq<DayResult>, r: DayResult, h: seq<Entry>, e: Entry, accounts: seq<Account>)
    requires Follows(out, h, accounts) && Reports(r, e, accounts)
    ensures Follows(out + [r], h + [e], accounts)
  {
  }

  lemma {:induction false} StreamNext(f: seq<Txn> -> seq<Txn>, open: int -> bool, start: int, d: int, generate: int -> seq<Txn>, carried: seq<Txn>)
    requires start <= d
    ensures var r := Stream(f, open, start, d - 1, generate, carried);
            var raw := generate(d) + r.1;
            Stream(f, open, start, d, generate, carried)
            == if open(d) then (r.0 + [Landing(f, d, raw)], Carrying(f, d, raw)) else r
  {
  }

  lemma {:induction false} EmittingNext(before: seq<Txn>, out: seq<DayResult>, r: DayResult)
    ensures Emitting(before, out + [r]) == Emitting(before, out) + r.transactions
  {
    assert (out + [r])[..|out|] == out;
  }

  /** Each day reports its transfers first and only charges after them. */
  ghost predicate Reported(days: seq<DayResult>, transfers: seq<seq<Txn>>) {
    && |days| == |transfers|
    && forall i | 0 <= i < |days| :: Leads(transfers[i], days[i].transactions)
  }

  /** The transfers come first and only charges follow. */
  ghost predicate Leads(transfers: seq<Txn>, all: seq<Txn>) {
    transfers <= all && Charges(all[|transfers|..])
  }

  lemma {:induction false} LeadsFirst(today: seq<Txn>, charges: seq<Txn>)
    requires Charges(charges)
    ensures Leads(today, today + charges)
  {
    assert (today + charges)[|today|..] == charges;
  }

  /** What was emitted before, and then everything the days report. */
  function Emitting(before: seq<Txn>, days: seq<DayResult>): seq<Txn> {
    if days == [] then before else Emitting(before, days[..|days| - 1]) + days[|days| - 1].transactions
  }

  /** What a window of the real core reports: each open day leads with its transfers, and over the window every
      transaction generated or carried in is among them exactly once, on its own date, or carried out. */
  lemma {:induction false} WindowEmitsExactlyOnce(q: Quirks, start: int, end: int, generate: int -> seq<Txn>, into: seq<Txn>,
                                                  out: seq<DayResult>, carried: seq<Txn>)
    requires StreamQuirksOff(q) && AllDated(into, RunDayFrom(q)(start)) && start <= end + 1 && StampsItself(q, start, end, generate)
    requires Reported(out, Stream(RulesOf(q).transform, RulesOf(q).isOpen, start, end, generate, into).0)
    requires carried == Stream(RulesOf(q).transform, RulesOf(q).isOpen, start, end, generate, into).1
    ensures exists transfers ::
              && Reported(out, transfers)
              && LegacyStream.Kept(Generated(Open(q.q5), start, end, generate), into, transfers, OpenDays(Open(q.q5), start, end), carried, RunDayFrom(q)(end + 1))
  {
    EmittedExactlyOnce(q, start, end, generate, into);
    var transfers := Stream(Transforming(q), Open(q.q5), start, end, generate, into).0;
    assert Reported(out, transfers);
  }
}
