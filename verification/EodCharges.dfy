/** What an end of day charges, as functions of the books: interest on the daily balances of the month before, fees against
    the available balance -- and that what a phase posts does not disturb what it still has to charge. */
module EodCharges {
  import opened Options
  import opened Dates
  import opened Books
  import opened Money
  import DayCount
  import Holds
  import opened Calendar
  import opened Posting
  import opened PostingService
  import opened Eod
  import opened EodGuarantees

  // ---------------------------------------------------------------- balances over the tables

  /** A row's business date is that of its posting. */
  predicate DatedBy(postings: map<PostingId, Request>, r: Row, d: int) {
    r.entry.posting in postings && postings[r.entry.posting].body.businessDate <= d
  }

  function SumOn(rows: seq<Row>, postings: map<PostingId, Request>, a: string, d: int): int {
    if rows == [] then 0 else
      var r := rows[|rows| - 1];
      SumOn(rows[..|rows| - 1], postings, a, d) + if r.entry.account == a && DatedBy(postings, r, d) then r.entry.amount.minor else 0
  }

  /** LedgerBalance as a plain sum. */
  function BalanceOn(t: Tables, a: string, d: int): int {
    SumOn(t.rows, t.postings, a, d)
  }

  /** Every row belongs to a posting. */
  ghost predicate RowsBacked(t: Tables) {
    forall i | 0 <= i < |t.rows| :: t.rows[i].entry.posting in t.postings
  }

  /** Neither side of the request is the account, or it is dated later. */
  predicate Apart(q: Request, a: string, d: int) {
    q.body.businessDate > d || forall i | 0 <= i < |q.body.entries| :: q.body.entries[i].account != a
  }

  lemma {:induction false} SumSkips(rows: seq<Row>, more: seq<Row>, postings: map<PostingId, Request>, a: string, d: int)
    requires forall i | 0 <= i < |more| :: more[i].entry.account != a || !DatedBy(postings, more[i], d)
    ensures SumOn(rows + more, postings, a, d) == SumOn(rows, postings, a, d)
    decreases |more|
  {
    if more == [] {
      assert rows + more == rows;
    } else {
      var n := |more| - 1;
      assert (rows + more)[..|rows| + n] == rows + more[..n];
      SumSkips(rows, more[..n], postings, a, d);
    }
  }

  lemma {:induction false} SumStays(rows: seq<Row>, was: map<PostingId, Request>, now: map<PostingId, Request>, a: string, d: int)
    requires forall i | 0 <= i < |rows| :: rows[i].entry.posting in was && rows[i].entry.posting in now
                                           && was[rows[i].entry.posting] == now[rows[i].entry.posting]
    ensures SumOn(rows, was, a, d) == SumOn(rows, now, a, d)
    decreases |rows|
  {
    if rows != [] {
      SumStays(rows[..|rows| - 1], was, now, a, d);
    }
  }

  lemma {:induction false} PublishLeaves(t: Tables, q: Request, ids: seq<nat>, a: string, d: int)
    requires |ids| == |q.body.entries| >= 1 && Known(q.body.currency)
    requires RowsBacked(t) && PostingIdFor(q.key) !in t.postings && Apart(q, a, d)
    ensures BalanceOn(Publish(t, q, ids), a, d) == BalanceOn(t, a, d)
  {
    var postings := t.postings[PostingIdFor(q.key) := q];
    SumStays(t.rows, t.postings, postings, a, d);
    SumSkips(t.rows, Legs(q, ids), postings, a, d);
  }

  /** A request leaves alone the balances it stays apart from, accepted or not. */
  lemma {:induction false} PostedLeaves(s: Eod.State, q: Request, a: string, d: int)
    requires |q.body.entries| >= 1 && Known(q.body.currency) && RowsBacked(s.tables) && Apart(q, a, d)
    ensures BalanceOn(Posted(s, q).tables, a, d) == BalanceOn(s.tables, a, d)
  {
    if q.key !in s.tables.claims && PostingIdFor(q.key) !in s.tables.postings {
      PublishLeaves(s.tables, q, Consecutive(s.nextEntry, |q.body.entries|), a, d);
    }
  }

  lemma {:induction false} PostedBacksRows(s: Eod.State, q: Request)
    requires |q.body.entries| >= 1 && Known(q.body.currency) && RowsBacked(s.tables)
    ensures RowsBacked(Posted(s, q).tables)
  {
  }

  lemma {:induction false} RunBacksRows(c: Schedule, s: Eod.State, es: seq<Eod.Event>)
    requires RowsBacked(s.tables) && Eod.ValidRun(c, s, es)
    ensures RowsBacked(Eod.Exec(c, s, es).tables)
    decreases |es|
  {
    if es != [] {
      var q := RequestOf(c, s, es[0]);
      if q.Some? {
        PostedBacksRows(s, q.value);
      }
      RunBacksRows(c, Eod.Step(c, s, es[0]), es[1..]);
    }
  }

  // ---------------------------------------------------------------- the charges

  datatype Product = Product(rateBp: Int64, monthlyFee: Int64, minBalance: Int64, minBalanceFee: Int64)

  type Basis = n: int | 0 < n <= 366 witness 365

  /** The catalogue by account, and for a calendar first the month before: its first day and its denominator. */
  datatype Terms = Terms(products: map<string, Product>, monthStart: Day -> int, denominator: Day -> Basis)

  /** The documented month and basis: ACT/365, or ACT/ACT in a leap year. */
  function Documented(products: map<string, Product>): Terms {
    Terms(products, (f: Day) => MonthStartBefore(f), (f: Day) => DenominatorBefore(f))
  }

  /** The first day of the month that the day before f lies in. */
  function MonthStartBefore(f: Day): int {
    FirstOfMonth(Civil(f - 1).year, Civil(f - 1).month)
  }

  function DenominatorBefore(f: Day): Basis {
    DenominatorOf(Civil(f - 1).year)
  }

  function DenominatorOf(y: int): Basis {
    DayCount.Denominator(y, DayCount.BasisFor(y))
  }

  function Positive(x: int): nat {
    if x > 0 then x else 0
  }

  /** The positive daily balances from one day up to another, that day excluded. */
  function DailySum(t: Tables, a: string, from: int, until: int): nat
    decreases until - from
  {
    if until <= from then 0 else DailySum(t, a, from, until - 1) + Positive(BalanceOn(t, a, until - 1))
  }

  /** A month's interest, posted on its calendar first f. */
  function InterestOf(terms: Terms, t: Tables, f: Day, a: string): Int64 {
    var den: Basis := terms.denominator(f);
    if a !in terms.products then 0
    else DayCount.InterestCode(Wrap(DailySum(t, a, terms.monthStart(f), f)), terms.products[a].rateBp, den)
  }

  function InterestCharge(terms: Terms, t: Tables, f: Day): Account -> Int64 {
    (a: Account) => InterestOf(terms, t, f, a.id)
  }

  function AvailableOn(t: Tables, holds: seq<Holds.Hold>, a: string, d: Day, now: int): int {
    BalanceOn(t, a, d) - Holds.Pending(holds, a, now)
  }

  function FeeOf(p: Product, available: int): Int64 {
    if p.minBalanceFee > 0 && available < p.minBalance then Wrap(p.monthlyFee + p.minBalanceFee) else p.monthlyFee
  }

  function FeeCharge(terms: Terms, t: Tables, holds: seq<Holds.Hold>, d: Day, now: int): Account -> Int64 {
    (a: Account) => if a.id !in terms.products then 0 else FeeOf(terms.products[a.id], AvailableOn(t, holds, a.id, d, now))
  }

  // ---------------------------------------------------------------- what interest leaves alone

  /** The balances before a date are the same. */
  ghost predicate SameBefore(t: Tables, u: Tables, f: int) {
    forall a, d | d < f :: BalanceOn(t, a, d) == BalanceOn(u, a, d)
  }

  lemma {:induction false} SameDailySum(t: Tables, u: Tables, f: int, a: string, from: int, until: int)
    requires SameBefore(t, u, f) && until <= f
    ensures DailySum(t, a, from, until) == DailySum(u, a, from, until)
    decreases until - from
  {
    if from < until {
      SameDailySum(t, u, f, a, from, until - 1);
      assert BalanceOn(t, a, until - 1) == BalanceOn(u, a, until - 1);
    }
  }

  /** Interest depends only on balances before the date it is posted on. */
  lemma {:induction false} SameInterest(terms: Terms, t: Tables, u: Tables, f: Day, a: Account)
    requires SameBefore(t, u, f)
    ensures InterestCharge(terms, t, f)(a) == InterestCharge(terms, u, f)(a)
  {
    SameDailySum(t, u, f, a.id, terms.monthStart(f), f);
  }

  /** ... which what a run posts as interest never touches. */
  lemma {:induction false} InterestLeavesBefore(s: Eod.State, q: Request)
    requires |q.body.entries| >= 1 && Known(q.body.currency) && RowsBacked(s.tables)
    ensures SameBefore(s.tables, Posted(s, q).tables, q.body.businessDate)
  {
    forall a, d | d < q.body.businessDate ensures BalanceOn(s.tables, a, d) == BalanceOn(Posted(s, q).tables, a, d) {
      PostedLeaves(s, q, a, d);
    }
  }

  // ---------------------------------------------------------------- what fees leave alone

  ghost predicate NoFee(terms: Terms, a: Account) {
    a.id !in terms.products || (terms.products[a.id].monthlyFee == 0 && terms.products[a.id].minBalanceFee <= 0)
  }

  /** The accounts table's key, and the catalogue's promise that suspense accounts bear no fee. */
  ghost predicate Separate(terms: Terms, accounts: seq<Account>) {
    && (forall i, j | 0 <= i < j < |accounts| :: accounts[i].id != accounts[j].id)
    && (forall i, j | 0 <= i < |accounts| && 0 <= j < |accounts| && accounts[i].id == accounts[j].suspense :: NoFee(terms, accounts[i]))
  }

  /** The fee of account k is the same on both tables. */
  ghost predicate SameFees(terms: Terms, t: Tables, u: Tables, holds: seq<Holds.Hold>, d: Day, now: int, accounts: seq<Account>, from: nat) {
    forall k | from <= k < |accounts| :: FeeCharge(terms, t, holds, d, now)(accounts[k]) == FeeCharge(terms, u, holds, d, now)(accounts[k])
  }

  /** One account's fee leaves every other account's fee alone. */
  lemma {:induction false} FeeLeavesOthers(terms: Terms, c: Schedule, s: Eod.State, holds: seq<Holds.Hold>, d: Day, now: int, accounts: seq<Account>,
                                           i: nat, k: nat, fee: Int64)
    requires Separate(terms, accounts) && i < k < |accounts| && RowsBacked(s.tables)
    requires Known(accounts[i].currency)
    ensures var u := Posted(s, FeeRequest(c, accounts[i], fee, d)).tables;
            FeeCharge(terms, s.tables, holds, d, now)(accounts[k]) == FeeCharge(terms, u, holds, d, now)(accounts[k])
  {
    var q := FeeRequest(c, accounts[i], fee, d);
    if !NoFee(terms, accounts[k]) {
      assert q.body.entries[0].account == accounts[i].id && q.body.entries[1].account == accounts[i].suspense;
      PostedLeaves(s, q, accounts[k].id, d);
    }
  }

  // ---------------------------------------------------------------- whose balance a charge changes

  /** What a request's entries add to an account. */
  function NetTo(es: seq<EntryRequest>, x: string): int {
    if es == [] then 0 else NetTo(es[..|es| - 1], x) + if es[|es| - 1].account == x then es[|es| - 1].minor else 0
  }

  lemma {:induction false} LegsAdd(rows: seq<Row>, q: Request, ids: seq<nat>, postings: map<PostingId, Request>, n: nat, x: string, d: int)
    requires |ids| == |q.body.entries| && Known(q.body.currency) && n <= |ids|
    requires PostingIdFor(q.key) in postings && postings[PostingIdFor(q.key)] == q
    ensures SumOn(rows + Legs(q, ids)[..n], postings, x, d)
            == SumOn(rows, postings, x, d) + if q.body.businessDate <= d then NetTo(q.body.entries[..n], x) else 0
    decreases n
  {
    var legs := Legs(q, ids);
    if n == 0 {
      assert rows + legs[..0] == rows;
    } else {
      LegsAdd(rows, q, ids, postings, n - 1, x, d);
      assert (rows + legs[..n])[..|rows| + n - 1] == rows + legs[..n - 1];
      assert q.body.entries[..n][..n - 1] == q.body.entries[..n - 1];
    }
  }

  /** A request newly posted moves each balance by its entries, from its business date on. */
  lemma {:induction false} PostedMoves(s: Eod.State, q: Request, x: string, d: int)
    requires |q.body.entries| >= 1 && Known(q.body.currency) && RowsBacked(s.tables)
    requires q.key !in s.tables.claims && PostingIdFor(q.key) !in s.tables.postings
    ensures BalanceOn(Posted(s, q).tables, x, d)
            == BalanceOn(s.tables, x, d) + if q.body.businessDate <= d then NetTo(q.body.entries, x) else 0
  {
    var ids := Consecutive(s.nextEntry, |q.body.entries|);
    var postings, n := s.tables.postings[PostingIdFor(q.key) := q], |ids|;
    SumStays(s.tables.rows, s.tables.postings, postings, x, d);
    LegsAdd(s.tables.rows, q, ids, postings, n, x, d);
    assert Legs(q, ids)[..n] == Legs(q, ids) && q.body.entries[..n] == q.body.entries;
  }

  /** What a charge is worth to x when it raises account a by `gain` against a's suspense account. */
  function Share(a: Account, gain: int, x: string): int {
    (if x == a.id then gain else 0) - if x == a.suspense then gain else 0
  }

  lemma {:induction false} NetOfTwo(e: EntryRequest, f: EntryRequest, x: string)
    ensures NetTo([e, f], x) == (if e.account == x then e.minor else 0) + if f.account == x then f.minor else 0
  {
    assert [e, f][..1] == [e] && [e][..0] == [];
    assert NetTo([e], x) == if e.account == x then e.minor else 0;
  }

  /** Interest raises the account and lowers suspense, on the calendar first. */
  lemma {:induction false} InterestRaises(c: Schedule, a: Account, amount: Int64, d: Day, x: string)
    requires amount != MIN64
    ensures NetTo(InterestRequest(c, a, amount, d).body.entries, x) == Share(a, amount, x)
    ensures InterestRequest(c, a, amount, d).body.businessDate == c.first(d)
  {
    var es := InterestRequest(c, a, amount, d).body.entries;
    NegationFits(amount);
    NetOfTwo(es[0], es[1], x);
    assert es == [es[0], es[1]];
  }

  /** A fee lowers the account and raises suspense, on the day. */
  lemma {:induction false} FeeLowers(c: Schedule, a: Account, fee: Int64, d: Day, x: string)
    requires fee != MIN64
    ensures NetTo(FeeRequest(c, a, fee, d).body.entries, x) == Share(a, 0 - fee, x)
    ensures FeeRequest(c, a, fee, d).body.businessDate == d
  {
    var es := FeeRequest(c, a, fee, d).body.entries;
    NegationFits(fee);
    NegationFits(Wrap(0 - fee));
    NetOfTwo(es[0], es[1], x);
    assert es == [es[0], es[1]];
  }

  // ---------------------------------------------------------------- what a charging phase does to the books

  /** What the first accounts' charges are worth to x, those aside whose keys were claimed before. */
  function Flow(claimed: set<Key>, accounts: seq<Account>, gain: Account -> int, key: Account -> Key, x: string): int {
    if accounts == [] then 0 else
      var a := accounts[|accounts| - 1];
      Flow(claimed, accounts[..|accounts| - 1], gain, key, x) + if gain(a) != 0 && key(a) !in claimed then Share(a, gain(a), x) else 0
  }

  /** From `date` on every balance has moved by the charges of the first n accounts; before it none has. */
  ghost predicate Moved(start: Tables, t: Tables, accounts: seq<Account>, n: nat, gain: Account -> int, key: Account -> Key, date: int)
    requires n <= |accounts|
  {
    forall x, d :: BalanceOn(t, x, d) == BalanceOn(start, x, d) + if date <= d then Flow(start.claims.Keys, accounts[..n], gain, key, x) else 0
  }

  /** The claims made since: each by one of those charges, for the account it charges. */
  ghost predicate ClaimsBy(start: Tables, t: Tables, accounts: seq<Account>, n: nat, key: Account -> Key)
    requires n <= |accounts|
  {
    && start.claims.Keys <= t.claims.Keys
    && forall k | k in t.claims && k !in start.claims ::
         exists j | 0 <= j < n :: k == key(accounts[j]) && t.claims[k].body.entries != [] && t.claims[k].body.entries[0].account == accounts[j].id
  }

  ghost predicate Settled(start: Tables, t: Tables, accounts: seq<Account>, n: nat, gain: Account -> int, key: Account -> Key, date: int)
    requires n <= |accounts|
  {
    Moved(start, t, accounts, n, gain, key, date) && ClaimsBy(start, t, accounts, n, key)
  }

  ghost predicate DistinctAccounts(accounts: seq<Account>) {
    forall i, j | 0 <= i < j < |accounts| :: accounts[i].id != accounts[j].id
  }

  lemma {:induction false} FlowNext(claimed: set<Key>, accounts: seq<Account>, i: nat, gain: Account -> int, key: Account -> Key, x: string)
    requires i < |accounts|
    ensures var a := accounts[i];
            Flow(claimed, accounts[..i + 1], gain, key, x)
            == Flow(claimed, accounts[..i], gain, key, x) + if gain(a) != 0 && key(a) !in claimed then Share(a, gain(a), x) else 0
  {
    assert accounts[..i + 1][..i] == accounts[..i];
  }

  /** Nothing to charge. */
  lemma {:induction false} SettledSame(start: Tables, t: Tables, accounts: seq<Account>, i: nat, gain: Account -> int, key: Account -> Key, date: int)
    requires i < |accounts| && Settled(start, t, accounts, i, gain, key, date)
    requires gain(accounts[i]) == 0 || key(accounts[i]) in start.claims
    ensures Settled(start, t, accounts, i + 1, gain, key, date)
  {
    forall x, d ensures BalanceOn(t, x, d) == BalanceOn(start, x, d) + if date <= d then Flow(start.claims.Keys, accounts[..i + 1], gain, key, x) else 0 {
      FlowNext(start.claims.Keys, accounts, i, gain, key, x);
    }
  }

  /** The request charges the account its gain on the date, under the account's key. */
  ghost predicate ChargesFor(q: Request, a: Account, gain: int, key: Key, date: int) {
    && q.key == key && q.body.businessDate == date && |q.body.entries| == 2 && q.body.entries[0].account == a.id && Known(q.body.currency)
    && forall x :: NetTo(q.body.entries, x) == Share(a, gain, x)
  }

  lemma {:induction false} SettledNew(s: Eod.State, q: Request, start: Tables, accounts: seq<Account>, i: nat, gain: Account -> int, key: Account -> Key, date: int)
    requires i < |accounts| && Settled(start, s.tables, accounts, i, gain, key, date) && RowsBacked(s.tables) && gain(accounts[i]) != 0
    requires ChargesFor(q, accounts[i], gain(accounts[i]), key(accounts[i]), date)
    requires q.key !in s.tables.claims && PostingIdFor(q.key) !in s.tables.postings
    ensures Settled(start, Posted(s, q).tables, accounts, i + 1, gain, key, date)
  {
    var t := Posted(s, q).tables;
    forall x, d ensures BalanceOn(t, x, d) == BalanceOn(start, x, d) + if date <= d then Flow(start.claims.Keys, accounts[..i + 1], gain, key, x) else 0 {
      PostedMoves(s, q, x, d);
      FlowNext(start.claims.Keys, accounts, i, gain, key, x);
      assert BalanceOn(s.tables, x, d) == BalanceOn(start, x, d) + if date <= d then Flow(start.claims.Keys, accounts[..i], gain, key, x) else 0;
    }
    assert t.claims == s.tables.claims[q.key := t.claims[q.key]] && t.claims[q.key].body == q.body;
    forall k | k in t.claims && k !in start.claims
      ensures exists j | 0 <= j < i + 1 :: k == key(accounts[j]) && t.claims[k].body.entries != [] && t.claims[k].body.entries[0].account == accounts[j].id
    {
      if k == q.key {
        assert k == key(accounts[i]);
      } else {
        var j :| 0 <= j < i && k == key(accounts[j]) && s.tables.claims[k].body.entries != [] && s.tables.claims[k].body.entries[0].account == accounts[j].id;
        assert k == key(accounts[j]);
      }
    }
  }

  /** One accepted charge: newly posted, or a replay of one posted before the phase. */
  lemma {:induction false} SettledNext(s: Eod.State, q: Request, start: Tables, accounts: seq<Account>, i: nat, gain: Account -> int, key: Account -> Key, date: int)
    requires DistinctAccounts(accounts) && i < |accounts| && Settled(start, s.tables, accounts, i, gain, key, date) && RowsBacked(s.tables)
    requires gain(accounts[i]) != 0 && ChargesFor(q, accounts[i], gain(accounts[i]), key(accounts[i]), date) && EodGuarantees.Accepted(s, q)
    ensures Settled(start, Posted(s, q).tables, accounts, i + 1, gain, key, date)
  {
    if q.key !in s.tables.claims {
      SettledNew(s, q, start, accounts, i, gain, key, date);
    } else {
      SettledSame(start, s.tables, accounts, i, gain, key, date);
    }
  }

  lemma {:induction false} NothingSettled(start: Tables, accounts: seq<Account>, gain: Account -> int, key: Account -> Key, date: int)
    ensures Settled(start, start, accounts, 0, gain, key, date)
  {
    var none := accounts[..0];
    assert none == [];
    assert forall x :: Flow(start.claims.Keys, none, gain, key, x) == 0;
  }

  /** Among distinct accounts, one that is nobody's suspense account has moved by its own charge alone. */
  lemma {:induction false} OwnFlow(claimed: set<Key>, accounts: seq<Account>, gain: Account -> int, key: Account -> Key, i: nat)
    requires DistinctAccounts(accounts) && i < |accounts| && forall j | 0 <= j < |accounts| :: accounts[j].suspense != accounts[i].id
    ensures var a := accounts[i]; Flow(claimed, accounts, gain, key, a.id) == if gain(a) != 0 && key(a) !in claimed then gain(a) else 0
    decreases |accounts|
  {
    var n := |accounts| - 1;
    if i == n {
      NoFlow(claimed, accounts[..n], gain, key, accounts[n].id);
    } else {
      OwnFlow(claimed, accounts[..n], gain, key, i);
    }
  }

  lemma {:induction false} NoFlow(claimed: set<Key>, accounts: seq<Account>, gain: Account -> int, key: Account -> Key, x: string)
    requires forall j | 0 <= j < |accounts| :: accounts[j].id != x && accounts[j].suspense != x
    ensures Flow(claimed, accounts, gain, key, x) == 0
    decreases |accounts|
  {
    if accounts != [] {
      NoFlow(claimed, accounts[..|accounts| - 1], gain, key, x);
    }
  }

  function InterestGain(terms: Terms, t: Tables, f: Day): Account -> int {
    (a: Account) => InterestCharge(terms, t, f)(a)
  }

  function FeeGain(terms: Terms, t: Tables, holds: seq<Holds.Hold>, d: Day, now: int): Account -> int {
    (a: Account) => 0 - FeeCharge(terms, t, holds, d, now)(a)
  }

  function InterestKeyAt(c: Schedule, d: Day): Account -> Key {
    (a: Account) => Key(PRINCIPAL, c.interestKey(a.id, c.first(d)))
  }

  function FeeKeyAt(c: Schedule, d: Day): Account -> Key {
    (a: Account) => Key(PRINCIPAL, c.feeKey(a.id, d))
  }

  lemma {:induction false} InterestChargesFor(c: Schedule, a: Account, amount: Int64, d: Day)
    requires amount != MIN64 && Known(a.currency)
    ensures ChargesFor(InterestRequest(c, a, amount, d), a, amount, InterestKeyAt(c, d)(a), c.first(d))
  {
    forall x ensures NetTo(InterestRequest(c, a, amount, d).body.entries, x) == Share(a, amount, x) {
      InterestRaises(c, a, amount, d, x);
    }
  }

  lemma {:induction false} FeeChargesFor(c: Schedule, a: Account, fee: Int64, d: Day)
    requires fee != MIN64 && Known(a.currency)
    ensures ChargesFor(FeeRequest(c, a, fee, d), a, 0 - fee, FeeKeyAt(c, d)(a), d)
  {
    forall x ensures NetTo(FeeRequest(c, a, fee, d).body.entries, x) == Share(a, 0 - fee, x) {
      FeeLowers(c, a, fee, d, x);
    }
  }

  /** What an interest phase leaves: balances moved by the interest, or nothing on other days. */
  ghost predicate InterestPhase(c: Schedule, terms: Terms, accounts: seq<Account>, d: Day, start: Tables, t: Tables) {
    if c.triggers(d) then Moved(start, t, accounts, |accounts|, InterestGain(terms, start, c.first(d)), InterestKeyAt(c, d), c.first(d)) else t == start
  }

  ghost predicate FeePhase(c: Schedule, terms: Terms, accounts: seq<Account>, holds: seq<Holds.Hold>, d: Day, now: int, start: Tables, t: Tables) {
    if c.monthEnd(d) then Moved(start, t, accounts, |accounts|, FeeGain(terms, start, holds, d, now), FeeKeyAt(c, d), d) else t == start
  }

  /** An account's own balance over a fee phase: down by its fee from the day on, if it was not charged before. */
  lemma {:induction false} FeeLowersBalance(c: Schedule, terms: Terms, accounts: seq<Account>, holds: seq<Holds.Hold>, d: Day, now: int, start: Tables, t: Tables,
                                            i: nat, day: int)
    requires c.monthEnd(d) && FeePhase(c, terms, accounts, holds, d, now, start, t) && DistinctAccounts(accounts)
    requires i < |accounts| && forall j | 0 <= j < |accounts| :: accounts[j].suspense != accounts[i].id
    ensures var a := accounts[i];
            BalanceOn(t, a.id, day) == BalanceOn(start, a.id, day)
                                       - if day >= d && Key("eod", c.feeKey(a.id, d)) !in start.claims then FeeCharge(terms, start, holds, d, now)(a) else 0
  {
    var gain, key := FeeGain(terms, start, holds, d, now), FeeKeyAt(c, d);
    OwnFlow(start.claims.Keys, accounts, gain, key, i);
    assert accounts[..|accounts|] == accounts;
  }

  /** ... and over an interest phase: up by its interest from the calendar first on. */
  lemma {:induction false} InterestRaisesBalance(c: Schedule, terms: Terms, accounts: seq<Account>, d: Day, start: Tables, t: Tables, i: nat, day: int)
    requires c.triggers(d) && InterestPhase(c, terms, accounts, d, start, t) && DistinctAccounts(accounts)
    requires i < |accounts| && forall j | 0 <= j < |accounts| :: accounts[j].suspense != accounts[i].id
    ensures var a, f := accounts[i], c.first(d);
            BalanceOn(t, a.id, day) == BalanceOn(start, a.id, day)
                                       + if day >= f && Key("eod", c.interestKey(a.id, f)) !in start.claims then InterestCharge(terms, start, f)(a) else 0
  {
    var gain, key := InterestGain(terms, start, c.first(d)), InterestKeyAt(c, d);
    OwnFlow(start.claims.Keys, accounts, gain, key, i);
    assert accounts[..|accounts|] == accounts;
  }
}
