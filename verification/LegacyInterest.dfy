/** Which interest a window of the legacy core charges: on the daily balances it reported, and each month once. */
module LegacyInterest {
  import opened Options
  import opened Dates
  import opened DateText
  import opened Extracts
  import opened Calendar
  import opened BusinessDays
  import opened LegacyStream
  import opened LegacyCore

  ghost predicate DistinctIds(accounts: seq<Account>) {
    forall i, j | 0 <= i < j < |accounts| :: accounts[i].id != accounts[j].id
  }

  function Positive(x: int): nat {
    if x > 0 then x else 0
  }

  // ---------------------------------------------------------------- one day, one account

  lemma {:induction false} AccumulatedElsewhere(accounts: seq<Account>, sums: map<string, int>, ledger: map<string, int>, a: string)
    requires forall i | 0 <= i < |accounts| :: accounts[i].id != a
    ensures Get(Accumulated(accounts, sums, ledger), a) == Get(sums, a)
    decreases |accounts|
  {
    if accounts != [] {
      AccumulatedElsewhere(accounts[..|accounts| - 1], sums, ledger, a);
    }
  }

  lemma {:induction false} AccumulatedAt(accounts: seq<Account>, sums: map<string, int>, ledger: map<string, int>, i: nat)
    requires DistinctIds(accounts) && i < |accounts|
    ensures Get(Accumulated(accounts, sums, ledger), accounts[i].id) == Get(sums, accounts[i].id) + Positive(Get(ledger, accounts[i].id))
    decreases |accounts|
  {
    var n := |accounts| - 1;
    if i == n {
      AccumulatedElsewhere(accounts[..n], sums, ledger, accounts[i].id);
    } else {
      AccumulatedAt(accounts[..n], sums, ledger, i);
    }
  }

  /** Interest to one account. */
  function InterestTo(a: string): Txn -> bool {
    (t: Txn) => t.accountId == a && t.kind == "interest"
  }

  lemma {:induction false} SelectConcat(x: seq<Txn>, y: seq<Txn>, p: Txn -> bool)
    ensures Select(x + y, p) == Select(x, p) + Select(y, p)
    decreases |y|
  {
    if y == [] {
      assert x + y == x;
    } else {
      var n := |y| - 1;
      SelectConcat(x, y[..n], p);
      assert (x + y)[..|x| + n] == x + y[..n];
      Associates(Select(x, p), Select(y[..n], p), if p(y[n]) then [y[n]] else []);
    }
  }

  lemma {:induction false} OneSelected(r: Rules, a: Account, sums: map<string, int>, month: (int, int), dated: Day, p: Txn -> bool)
    ensures (forall t: Txn | t.accountId == a.id && t.kind == "interest" :: p(t)) ==> Select(InterestOn(r, a, sums, month, dated), p) == InterestOn(r, a, sums, month, dated)
    ensures (forall t: Txn | t.accountId == a.id :: !p(t)) ==> Select(InterestOn(r, a, sums, month, dated), p) == []
  {
    var ts := InterestOn(r, a, sums, month, dated);
    if ts != [] {
      assert ts[..0] == [] && ts == [ts[0]];
    }
  }

  lemma {:induction false} SameSumSameInterest(r: Rules, a: Account, s: map<string, int>, t: map<string, int>, month: (int, int), dated: Day)
    requires Get(s, a.id) == Get(t, a.id)
    ensures InterestOn(r, a, s, month, dated) == InterestOn(r, a, t, month, dated)
  {
  }

  /** What one more account adds to another's. */
  lemma {:induction false} InterestPast(r: Rules, accounts: seq<Account>, sums: map<string, int>, month: (int, int), dated: Day, a: string)
    requires accounts != [] && accounts[|accounts| - 1].id != a
    ensures var n := |accounts| - 1;
            && Select(InterestOnAll(r, accounts, sums, month, dated).0, InterestTo(a)) == Select(InterestOnAll(r, accounts[..n], sums, month, dated).0, InterestTo(a))
            && Get(InterestOnAll(r, accounts, sums, month, dated).1, a) == Get(InterestOnAll(r, accounts[..n], sums, month, dated).1, a)
  {
    var n := |accounts| - 1;
    var all := InterestOnAll(r, accounts[..n], sums, month, dated);
    OneSelected(r, accounts[n], all.1, month, dated, InterestTo(a));
    SelectConcat(all.0, InterestOn(r, accounts[n], all.1, month, dated), InterestTo(a));
  }

  lemma {:induction false} InterestElsewhere(r: Rules, accounts: seq<Account>, sums: map<string, int>, month: (int, int), dated: Day, a: string)
    requires forall i | 0 <= i < |accounts| :: accounts[i].id != a
    ensures Select(InterestOnAll(r, accounts, sums, month, dated).0, InterestTo(a)) == []
    ensures Get(InterestOnAll(r, accounts, sums, month, dated).1, a) == Get(sums, a)
    decreases |accounts|
  {
    if accounts != [] {
      InterestElsewhere(r, accounts[..|accounts| - 1], sums, month, dated, a);
      InterestPast(r, accounts, sums, month, dated, a);
    }
  }

  lemma {:induction false} InterestHere(r: Rules, accounts: seq<Account>, sums: map<string, int>, month: (int, int), dated: Day)
    requires DistinctIds(accounts) && accounts != []
    ensures var a := accounts[|accounts| - 1];
            && Select(InterestOnAll(r, accounts, sums, month, dated).0, InterestTo(a.id)) == InterestOn(r, a, sums, month, dated)
            && Get(InterestOnAll(r, accounts, sums, month, dated).1, a.id) == if a.rateBp == 0 then Get(sums, a.id) else 0
  {
    var n := |accounts| - 1;
    var a, all := accounts[n], InterestOnAll(r, accounts[..n], sums, month, dated);
    InterestElsewhere(r, accounts[..n], sums, month, dated, a.id);
    SameSumSameInterest(r, a, all.1, sums, month, dated);
    OneSelected(r, a, all.1, month, dated, InterestTo(a.id));
    SelectConcat(all.0, InterestOn(r, a, all.1, month, dated), InterestTo(a.id));
  }

  /** Each account is charged on its own daily sum, and a bearing one has it cleared. */
  lemma {:induction false} InterestAt(r: Rules, accounts: seq<Account>, sums: map<string, int>, month: (int, int), dated: Day, i: nat)
    requires DistinctIds(accounts) && i < |accounts|
    ensures Select(InterestOnAll(r, accounts, sums, month, dated).0, InterestTo(accounts[i].id)) == InterestOn(r, accounts[i], sums, month, dated)
    ensures Get(InterestOnAll(r, accounts, sums, month, dated).1, accounts[i].id) == if accounts[i].rateBp == 0 then Get(sums, accounts[i].id) else 0
    decreases |accounts|
  {
    if i == |accounts| - 1 {
      InterestHere(r, accounts, sums, month, dated);
    } else {
      InterestAt(r, accounts[..|accounts| - 1], sums, month, dated, i);
      InterestPast(r, accounts, sums, month, dated, accounts[i].id);
    }
  }

  lemma {:induction false} NoInterestInFees(r: Rules, accounts: seq<Account>, ledger: map<string, int>, holds: seq<Hold>, d: Day, at: int, a: string)
    ensures Select(FeesOnAll(r, accounts, ledger, holds, d, at).0, InterestTo(a)) == []
    decreases |accounts|
  {
    if accounts != [] {
      var n := |accounts| - 1;
      NoInterestInFees(r, accounts[..n], ledger, holds, d, at, a);
      var (ts, l) := FeesOnAll(r, accounts[..n], ledger, holds, d, at);
      var one := FeeOn(r, accounts[n], l, holds, d, at);
      SelectNone(one, InterestTo(a));
      SelectConcat(ts, one, InterestTo(a));
    }
  }

  // ---------------------------------------------------------------- a day of a history

  predicate Accruing(r: Rules, e: Entry) {
    Accrues(r, e.before.last, e.date)
  }

  /** The interest charged to an account on a day, when its daily sum has come to `total`. */
  function InterestOf(r: Rules, a: Account, total: int, d: Day): seq<Txn> {
    InterestOn(r, a, map[a.id := total], r.accruedMonth(d), r.interestDate(d))
  }

  /** What a day does to an account's daily sum. */
  ghost predicate SumMoves(r: Rules, a: Account, e: Entry) {
    Get(e.after.sums, a.id)
    == (if Accruing(r, e) && a.rateBp != 0 then 0 else Get(e.before.sums, a.id)) + Positive(Get(e.after.ledger, a.id))
  }

  /** What it charges the account. */
  ghost predicate Charged(r: Rules, a: Account, e: Entry) {
    Select(e.charges, InterestTo(a.id)) == if Accruing(r, e) then InterestOf(r, a, Get(e.before.sums, a.id), e.date) else []
  }

  lemma {:induction false} DaySums(r: Rules, accounts: seq<Account>, sums: map<string, int>, last: Option<(int, int)>, d: Day, ledger: map<string, int>, i: nat)
    requires DistinctIds(accounts) && i < |accounts|
    ensures var a := accounts[i];
            Get(Accumulated(accounts, InterestDue(r, accounts, sums, last, d).1, ledger), a.id)
            == (if Accrues(r, last, d) && a.rateBp != 0 then 0 else Get(sums, a.id)) + Positive(Get(ledger, a.id))
  {
    if Accrues(r, last, d) {
      InterestAt(r, accounts, sums, r.accruedMonth(d), r.interestDate(d), i);
    }
    AccumulatedAt(accounts, InterestDue(r, accounts, sums, last, d).1, ledger, i);
  }

  lemma {:induction false} DueInterest(r: Rules, accounts: seq<Account>, sums: map<string, int>, last: Option<(int, int)>, d: Day, i: nat)
    requires DistinctIds(accounts) && i < |accounts|
    ensures var a := accounts[i];
            Select(InterestDue(r, accounts, sums, last, d).0, InterestTo(a.id)) == if Accrues(r, last, d) then InterestOf(r, a, Get(sums, a.id), d) else []
  {
    if Accrues(r, last, d) {
      InterestAt(r, accounts, sums, r.accruedMonth(d), r.interestDate(d), i);
      SameSumSameInterest(r, accounts[i], sums, map[accounts[i].id := Get(sums, accounts[i].id)], r.accruedMonth(d), r.interestDate(d));
    }
  }

  lemma {:induction false} InterestInCharges(r: Rules, accounts: seq<Account>, ledger: map<string, int>, sums: map<string, int>, last: Option<(int, int)>,
                                             holds: seq<Hold>, d: Day, at: int, a: string)
    ensures Select(ChargesDue(r, accounts, ledger, sums, last, holds, d, at), InterestTo(a)) == Select(InterestDue(r, accounts, sums, last, d).0, InterestTo(a))
  {
    var interest := InterestDue(r, accounts, sums, last, d).0;
    SelectConcat(interest, FeesDue(r, accounts, Applied(ledger, interest), holds, d, at), InterestTo(a));
    NoInterestInFees(r, accounts, Applied(ledger, interest), holds, d, at, a);
  }

  /** A day's charges hold the account's interest and nothing else of that kind. */
  lemma {:induction false} DayInterest(r: Rules, accounts: seq<Account>, ledger: map<string, int>, sums: map<string, int>, last: Option<(int, int)>,
                                       holds: seq<Hold>, d: Day, at: int, i: nat)
    requires DistinctIds(accounts) && i < |accounts|
    ensures var a := accounts[i];
            Select(ChargesDue(r, accounts, ledger, sums, last, holds, d, at), InterestTo(a.id))
            == if Accrues(r, last, d) then InterestOf(r, a, Get(sums, a.id), d) else []
  {
    InterestInCharges(r, accounts, ledger, sums, last, holds, d, at, accounts[i].id);
    DueInterest(r, accounts, sums, last, d, i);
  }

  // ---------------------------------------------------------------- histories

  function Prior(h: seq<Entry>, b: Books, k: nat): Books
    requires k <= |h|
  {
    if k == 0 then b else h[k - 1].after
  }

  /** A trigger day leaves its month as the last accrued. */
  predicate LeavesMonth(r: Rules, e: Entry) {
    e.after.last == if r.triggersInterest(e.date) then Some(r.accruedMonth(e.date)) else e.before.last
  }

  ghost predicate Rising(h: seq<Entry>) {
    forall k, m | 0 <= k < m < |h| :: h[k].date < h[m].date
  }

  ghost predicate Linked(h: seq<Entry>, b: Books) {
    forall k {:trigger Prior(h, b, k)} | 0 <= k < |h| :: h[k].before == Prior(h, b, k)
  }

  /** Each day starts from the books the one before left, on a later date. */
  ghost predicate Chained(r: Rules, h: seq<Entry>, b: Books) {
    Rising(h) && Linked(h, b) && forall k {:trigger LeavesMonth(r, h[k])} | 0 <= k < |h| :: LeavesMonth(r, h[k])
  }

  ghost predicate SumsMove(r: Rules, a: Account, h: seq<Entry>) {
    forall k {:trigger SumMoves(r, a, h[k])} | 0 <= k < |h| :: SumMoves(r, a, h[k])
  }

  /** The daily sums and the interest of one account. */
  ghost predicate Accounted(r: Rules, a: Account, h: seq<Entry>) {
    SumsMove(r, a, h) && forall k {:trigger Charged(r, a, h[k])} | 0 <= k < |h| :: Charged(r, a, h[k])
  }

  ghost predicate Within(r: Rules, h: seq<Entry>, start: int, end: int) {
    forall k | 0 <= k < |h| :: start <= h[k].date <= end && r.isOpen(h[k].date)
  }

  lemma {:induction false} DayFacts(r: Rules, accounts: seq<Account>, b: Books, d: Day, generated: seq<Txn>, i: nat, e: Entry)
    requires DistinctIds(accounts) && i < |accounts| && e == DayEntry(r, accounts, b, d, generated)
    ensures e.before == b && e.date == d && SumMoves(r, accounts[i], e) && Charged(r, accounts[i], e) && LeavesMonth(r, e)
  {
    DaySums(r, accounts, b.sums, b.last, d, e.after.ledger, i);
    DayInterest(r, accounts, Applied(b.ledger, e.landed), b.sums, b.last, HeldAfter(r, accounts, b.holds, d), d, d * DAY_MICROS + CUT_OFF, i);
  }

  lemma {:induction false} HistoryIsAccounted(r: Rules, accounts: seq<Account>, start: Day, end: int, generate: int -> seq<Txn>, b: Books, i: nat)
    requires end <= YearStart(MAX_YEAR + 1) && DistinctIds(accounts) && i < |accounts|
    ensures var h := History(r, accounts, start, end, generate, b);
            Chained(r, h, b) && Accounted(r, accounts[i], h) && Within(r, h, start, end)
    decreases end - start
  {
    if start <= end {
      HistoryIsAccounted(r, accounts, start, end - 1, generate, b, i);
      HistoryNext(r, accounts, start, end, generate, b);
      AccountedNextDay(r, accounts, History(r, accounts, start, end - 1, generate, b), b, start, end, generate(end), i);
    }
  }

  lemma {:induction false} AccountedNextDay(r: Rules, accounts: seq<Account>, h: seq<Entry>, b: Books, start: Day, d: Day, generated: seq<Txn>, i: nat)
    requires DistinctIds(accounts) && i < |accounts| && start <= d
    requires Chained(r, h, b) && Accounted(r, accounts[i], h) && Within(r, h, start, d - 1)
    ensures var next := Next(r, accounts, h, b, d, generated);
            Chained(r, next, b) && Accounted(r, accounts[i], next) && Within(r, next, start, d)
  {
    if r.isOpen(d) {
      var e := DayEntry(r, accounts, Closing(h, b), d, generated);
      DayFacts(r, accounts, Closing(h, b), d, generated, i, e);
      Lengthened(r, accounts[i], h, b, e, start, d);
    }
  }

  lemma {:induction false} Lengthened(r: Rules, a: Account, h: seq<Entry>, b: Books, e: Entry, start: int, end: int)
    requires Chained(r, h, b) && Accounted(r, a, h) && Within(r, h, start, end - 1) && start <= end
    requires e.before == Closing(h, b) && e.date == end && r.isOpen(end) && SumMoves(r, a, e) && Charged(r, a, e) && LeavesMonth(r, e)
    ensures Chained(r, h + [e], b) && Accounted(r, a, h + [e]) && Within(r, h + [e], start, end)
  {
    ChainedNext(r, h, b, e);
    AccountedNext(r, a, h, e);
    WithinNext(r, h, e, start, end);
  }

  lemma {:induction false} WithinNext(r: Rules, h: seq<Entry>, e: Entry, start: int, end: int)
    requires Within(r, h, start, end - 1) && start <= end && e.date == end && r.isOpen(end)
    ensures Within(r, h + [e], start, end)
  {
    assert forall k | 0 <= k < |h| :: (h + [e])[k] == h[k];
  }

  lemma {:induction false} ChainedNext(r: Rules, h: seq<Entry>, b: Books, e: Entry)
    requires Chained(r, h, b) && e.before == Closing(h, b) && LeavesMonth(r, e) && forall k | 0 <= k < |h| :: h[k].date < e.date
    ensures Chained(r, h + [e], b)
  {
    var next := h + [e];
    assert Rising(next) by {
      assert forall k | 0 <= k < |h| :: next[k].date == h[k].date;
    }
    forall k | 0 <= k < |next| ensures next[k].before == Prior(next, b, k) && LeavesMonth(r, next[k]) {
      if k < |h| {
        assert next[k] == h[k] && Prior(next, b, k) == Prior(h, b, k);
      }
    }
  }

  lemma {:induction false} AccountedNext(r: Rules, a: Account, h: seq<Entry>, e: Entry)
    requires Accounted(r, a, h) && SumMoves(r, a, e) && Charged(r, a, e)
    ensures Accounted(r, a, h + [e])
  {
    var next := h + [e];
    forall k | 0 <= k < |next| ensures SumMoves(r, a, next[k]) && Charged(r, a, next[k]) {
      assert k < |h| ==> next[k] == h[k];
    }
  }

  /** What an account's reported closing ledgers from day j to before day k come to, counting none below zero. */
  function DailySum(h: seq<Entry>, j: nat, k: nat, a: string): nat
    requires k <= |h|
    decreases k
  {
    if k <= j then 0 else DailySum(h, j, k - 1, a) + Positive(Get(h[k - 1].after.ledger, a))
  }

  ghost predicate NoAccrual(r: Rules, h: seq<Entry>, j: nat, k: nat)
    requires k <= |h|
  {
    forall m | j <= m < k :: !Accruing(r, h[m])
  }

  /** Since its last accrual on day j, a bearing account's daily sum is that of its closing ledgers. */
  lemma {:induction false} SumSince(r: Rules, a: Account, h: seq<Entry>, b: Books, j: nat, k: nat)
    requires Linked(h, b) && SumsMove(r, a, h) && a.rateBp != 0
    requires j < k <= |h| && Accruing(r, h[j]) && NoAccrual(r, h, j + 1, k)
    ensures Get(h[k - 1].after.sums, a.id) == DailySum(h, j, k, a.id)
    decreases k
  {
    assert SumMoves(r, a, h[k - 1]) && h[k - 1].before == Prior(h, b, k - 1);
    if k - 1 > j {
      SumSince(r, a, h, b, j, k - 1);
    } else {
      assert DailySum(h, j, j, a.id) == 0;
    }
  }

  /** Before the first accrual it is what it was at the start and the closing ledgers since. */
  lemma {:induction false} SumFromStart(r: Rules, a: Account, h: seq<Entry>, b: Books, k: nat)
    requires Linked(h, b) && SumsMove(r, a, h) && k <= |h| && NoAccrual(r, h, 0, k)
    ensures Get(Prior(h, b, k).sums, a.id) == Get(b.sums, a.id) + DailySum(h, 0, k, a.id)
    decreases k
  {
    if k > 0 {
      assert SumMoves(r, a, h[k - 1]) && h[k - 1].before == Prior(h, b, k - 1);
      SumFromStart(r, a, h, b, k - 1);
    }
  }

  // ---------------------------------------------------------------- each month once

  function MonthAfter(y: int, m: int): (int, int) {
    if m == 12 then (y + 1, 1) else (y, m + 1)
  }

  /** The last day of the month before. */
  function LastBefore(y: int, m: int): (d: Date)
    requires 1 <= m <= 12
    ensures Dates.Valid(d) && MonthAfter(d.year, d.month) == (y, m)
  {
    if m == 1 then Date(y - 1, 12, 31) else Date(y, m - 1, DaysInMonth(y, m - 1))
  }

  lemma {:induction false} LastBeforeIs(y: int, m: int)
    requires 1 <= m <= 12
    ensures Ordinal(LastBefore(y, m)) == FirstOfMonth(y, m) - 1
  {
    if m == 1 {
      MonthsFillTheYear(y - 1);
      YearLength(y - 1);
    }
  }

  /** The day before a first lies in the month before. */
  lemma {:induction false} DayBeforeFirst(y: int, m: int)
    requires 1 <= m <= 12
    ensures var (py, pm) := MonthOfDay(FirstOfMonth(y, m) - 1); MonthAfter(py, pm) == (y, m)
  {
    LastBeforeIs(y, m);
    CivilOfOrdinal(LastBefore(y, m));
  }

  /** Two trigger days that accrue one month are one day. */
  ghost predicate MonthsApart(r: Rules) {
    forall d, e | r.triggersInterest(d) && r.triggersInterest(e) && r.accruedMonth(d) == r.accruedMonth(e) :: d == e
  }

  function MonthStartOf(d: int): int {
    FirstOfMonth(Civil(d).year, Civil(d).month)
  }

  lemma {:induction false} ApartWhen(r: Rules, first: int -> int, openFrom: int -> int, before: int -> (int, int), after: ((int, int)) -> int)
    requires forall d :: r.triggersInterest(d) ==> d == openFrom(first(d))
    requires forall d :: r.accruedMonth(d) == before(d)
    requires forall d :: first(d) == after(before(d))
    ensures MonthsApart(r)
  {
  }

  lemma {:induction false} TriggerIs(q: Quirks, d: int)
    ensures RulesOf(q).triggersInterest(d) ==> d == OnOrAfter(false, MonthStartOf(d))
  {
  }

  lemma {:induction false} AccruedIs(q: Quirks, d: int)
    ensures RulesOf(q).accruedMonth(d) == MonthBefore(d)
  {
  }

  /** The first of the month after a month. */
  function FirstAfter(p: (int, int)): int {
    var (y, m) := MonthAfter(p.0, p.1);
    if 1 <= m <= 12 then FirstOfMonth(y, m) else 0
  }

  lemma {:induction false} FirstIsAfter(y: int, m: int)
    requires 1 <= m <= 12
    ensures FirstAfter(MonthOfDay(FirstOfMonth(y, m) - 1)) == FirstOfMonth(y, m)
  {
    DayBeforeFirst(y, m);
  }

  function MonthStarts(): int -> int {
    (d: int) => MonthStartOf(d)
  }

  function OpenFrom(): int -> int {
    (x: int) => OnOrAfter(false, x)
  }

  function MonthsBefore(): int -> (int, int) {
    (d: int) => MonthBefore(d)
  }

  lemma {:induction false} TriggersAre(q: Quirks)
    ensures forall d :: RulesOf(q).triggersInterest(d) ==> d == OpenFrom()(MonthStarts()(d))
  {
    forall d ensures RulesOf(q).triggersInterest(d) ==> d == OpenFrom()(MonthStarts()(d)) {
      TriggerIs(q, d);
    }
  }

  lemma {:induction false} MonthsAre(q: Quirks)
    ensures forall d :: RulesOf(q).accruedMonth(d) == MonthsBefore()(d)
  {
    forall d ensures RulesOf(q).accruedMonth(d) == MonthsBefore()(d) {
      AccruedIs(q, d);
    }
  }

  function FirstsAfter(): ((int, int)) -> int {
    (p: (int, int)) => FirstAfter(p)
  }

  lemma {:induction false} StartsAre()
    ensures forall d :: MonthStarts()(d) == FirstsAfter()(MonthsBefore()(d))
  {
    forall d ensures MonthStarts()(d) == FirstsAfter()(MonthsBefore()(d)) {
      FirstIsAfter(Civil(d).year, Civil(d).month);
    }
  }

  /** The month accrued is the one before the day's: the month after it begins where the day's begins. */
  lemma {:induction false} AccruedMonths(q: Quirks, n: int)
    ensures FirstAfter(RulesOf(q).accruedMonth(n)) == MonthStartOf(n)
  {
    MonthsAre(q);
    StartsAre();
    AccruedBefore(RulesOf(q).accruedMonth, n, MonthStarts(), MonthsBefore(), FirstsAfter());
  }

  lemma {:induction false} AccruedBefore(accrued: int -> (int, int), n: int, first: int -> int, before: int -> (int, int), after: ((int, int)) -> int)
    requires forall d :: accrued(d) == before(d)
    requires forall d :: first(d) == after(before(d))
    ensures after(accrued(n)) == first(n)
  {
  }

  /** So it is on the real calendar, under any quirks. */
  lemma {:induction false} RealMonthsApart(q: Quirks)
    ensures MonthsApart(RulesOf(q))
  {
    TriggersAre(q);
    MonthsAre(q);
    StartsAre();
    ApartWhen(RulesOf(q), MonthStarts(), OpenFrom(), MonthsBefore(), FirstsAfter());
  }

  /** The month last accrued after day k of a history. */
  ghost predicate LastOf(r: Rules, h: seq<Entry>, b: Books, k: nat, last: Option<(int, int)>)
    requires k <= |h|
  {
    last == b.last || exists m | 0 <= m < k :: r.triggersInterest(h[m].date) && last == Some(r.accruedMonth(h[m].date))
  }

  lemma {:induction false} LastIs(r: Rules, h: seq<Entry>, b: Books, k: nat)
    requires Chained(r, h, b) && k <= |h|
    ensures LastOf(r, h, b, k, Prior(h, b, k).last)
    decreases k
  {
    if k > 0 {
      LastIs(r, h, b, k - 1);
      assert h[k - 1].before == Prior(h, b, k - 1) && LeavesMonth(r, h[k - 1]);
      LastMoves(r, h, b, k - 1, h[k - 1].before.last);
    }
  }

  lemma {:induction false} LastMoves(r: Rules, h: seq<Entry>, b: Books, k: nat, last: Option<(int, int)>)
    requires k < |h| && LastOf(r, h, b, k, last)
    ensures LastOf(r, h, b, k + 1, if r.triggersInterest(h[k].date) then Some(r.accruedMonth(h[k].date)) else last)
  {
  }

  lemma {:induction false} TriggerAccrues(r: Rules, h: seq<Entry>, b: Books, k: nat)
    requires MonthsApart(r) && Chained(r, h, b) && k < |h| && r.triggersInterest(h[k].date)
    ensures Accruing(r, h[k]) || b.last == Some(r.accruedMonth(h[k].date))
  {
    LastIs(r, h, b, k);
    assert h[k].before == Prior(h, b, k);
    if h[k].before.last != b.last {
      var m :| 0 <= m < k && r.triggersInterest(h[m].date) && h[k].before.last == Some(r.accruedMonth(h[m].date));
      assert h[m].date < h[k].date;
    }
  }

  /** No month is accrued twice, and every trigger day accrues its month, one the core came with aside. */
  lemma {:induction false} EachMonthOnce(r: Rules, h: seq<Entry>, b: Books)
    requires MonthsApart(r) && Chained(r, h, b)
    ensures forall k, m | 0 <= k < m < |h| && Accruing(r, h[k]) && Accruing(r, h[m]) :: r.accruedMonth(h[k].date) != r.accruedMonth(h[m].date)
    ensures forall k | 0 <= k < |h| && r.triggersInterest(h[k].date) :: Accruing(r, h[k]) || b.last == Some(r.accruedMonth(h[k].date))
  {
    forall k | 0 <= k < |h| && r.triggersInterest(h[k].date) ensures Accruing(r, h[k]) || b.last == Some(r.accruedMonth(h[k].date)) {
      TriggerAccrues(r, h, b, k);
    }
  }

  // ---------------------------------------------------------------- in terms of what a window reports

  /** The same sum read off the reported balances. */
  function ReportedSum(out: seq<DayResult>, i: nat, j: nat, k: nat): nat
    requires k <= |out| && forall m | 0 <= m < k :: i < |out[m].balances|
    decreases k
  {
    if k <= j then 0 else ReportedSum(out, i, j, k - 1) + Positive(out[k - 1].balances[i].ledger)
  }

  lemma {:induction false} SumIsReported(out: seq<DayResult>, h: seq<Entry>, accounts: seq<Account>, i: nat, j: nat, k: nat)
    requires Follows(out, h, accounts) && i < |accounts| && k <= |h|
    ensures forall m | 0 <= m < k :: i < |out[m].balances|
    ensures ReportedSum(out, i, j, k) == DailySum(h, j, k, accounts[i].id)
    decreases k
  {
    assert forall m | 0 <= m < k :: Reports(out[m], h[m], accounts);
    if k > j {
      SumIsReported(out, h, accounts, i, j, k - 1);
    }
  }

  /** One transaction of interest to an account, unless it comes to nothing. */
  ghost predicate Pays(ts: seq<Txn>, a: Account, amount: int, dated: Day) {
    if amount == 0 then ts == []
    else |ts| == 1 && ts[0].amount == amount && ts[0].accountId == a.id && ts[0].currency == a.currency && ts[0].businessDate == dated
  }

  /** The reported day is its transfers and then its charges, and among those a bearing account's interest is that on `total`,
      at the year of the month accrued. */
  ghost predicate ChargedOn(r: Rules, a: Account, e: Entry, day: DayResult, total: int) {
    && day.transactions == e.landed + e.charges
    && (a.rateBp != 0 ==> Pays(Select(e.charges, InterestTo(a.id)), a, r.interest(a, r.accruedMonth(day.date).0, total), r.interestDate(day.date)))
  }

  lemma {:induction false} ChargedShows(r: Rules, accounts: seq<Account>, i: nat, e: Entry, day: DayResult)
    requires i < |accounts| && Charged(r, accounts[i], e) && Accruing(r, e) && Reports(day, e, accounts)
    ensures ChargedOn(r, accounts[i], e, day, Get(e.before.sums, accounts[i].id))
  {
  }

  /** Between two accruals of a window, the interest an account is charged at the second is that on the positive part of
      its reported ledgers, from the day of the first to the day before the second. */
  lemma {:induction false} InterestIsOnReportedBalances(r: Rules, accounts: seq<Account>, h: seq<Entry>, b: Books, out: seq<DayResult>, i: nat, j: nat, k: nat)
    requires i < |accounts| && accounts[i].rateBp != 0 && Chained(r, h, b) && Accounted(r, accounts[i], h) && Follows(out, h, accounts)
    requires j < k < |out| && Accruing(r, h[j]) && NoAccrual(r, h, j + 1, k) && Accruing(r, h[k])
    ensures forall m | 0 <= m < k :: i < |out[m].balances|
    ensures ChargedOn(r, accounts[i], h[k], out[k], ReportedSum(out, i, j, k))
  {
    SumSince(r, accounts[i], h, b, j, k);
    assert h[k].before == Prior(h, b, k);
    SumIsReported(out, h, accounts, i, j, k);
    assert Charged(r, accounts[i], h[k]) && Reports(out[k], h[k], accounts);
    ChargedShows(r, accounts, i, h[k], out[k]);
  }

  /** The first accrual of a window is on what the account came with and its reported ledgers so far. */
  lemma {:induction false} FirstInterest(r: Rules, accounts: seq<Account>, h: seq<Entry>, b: Books, out: seq<DayResult>, i: nat, k: nat)
    requires i < |accounts| && Chained(r, h, b) && Accounted(r, accounts[i], h) && Follows(out, h, accounts)
    requires k < |out| && NoAccrual(r, h, 0, k) && Accruing(r, h[k])
    ensures forall m | 0 <= m < k :: i < |out[m].balances|
    ensures ChargedOn(r, accounts[i], h[k], out[k], Get(b.sums, accounts[i].id) + ReportedSum(out, i, 0, k))
  {
    SumFromStart(r, accounts[i], h, b, k);
    assert h[k].before == Prior(h, b, k);
    SumIsReported(out, h, accounts, i, 0, k);
    assert Charged(r, accounts[i], h[k]) && Reports(out[k], h[k], accounts);
    ChargedShows(r, accounts, i, h[k], out[k]);
  }

  /** A window of a core that has accrued no month yet: interest falls on trigger days, each accrues a month of its own,
      and what a bearing account is charged at one accrual after another is the interest on its positive ledgers reported
      since.  RealMonthsApart gives the hypothesis for the real calendar. */
  lemma {:induction false} WindowInterest(r: Rules, accounts: seq<Account>, start: Day, end: Day, generate: int -> seq<Txn>, b: Books, out: seq<DayResult>, i: nat)
    requires MonthsApart(r) && DistinctIds(accounts) && i < |accounts| && accounts[i].rateBp != 0 && b.last == None
    requires Follows(out, History(r, accounts, start, end, generate, b), accounts)
    ensures forall m | 0 <= m < |out| :: i < |out[m].balances|
    ensures var h := History(r, accounts, start, end, generate, b);
            && (forall k | 0 <= k < |out| :: Accruing(r, h[k]) <==> r.triggersInterest(out[k].date))
            && (forall k, m | 0 <= k < m < |out| && r.triggersInterest(out[k].date) && r.triggersInterest(out[m].date) ::
                  r.accruedMonth(out[k].date) != r.accruedMonth(out[m].date))
            && (forall j, k | 0 <= j < k < |out| && Accruing(r, h[j]) && NoAccrual(r, h, j + 1, k) && Accruing(r, h[k]) ::
                  ChargedOn(r, accounts[i], h[k], out[k], ReportedSum(out, i, j, k)))
            && (forall k | 0 <= k < |out| && !Accruing(r, h[k]) :: Select(h[k].charges, InterestTo(accounts[i].id)) == [])
  {
    var h := History(r, accounts, start, end, generate, b);
    HistoryIsAccounted(r, accounts, start, end, generate, b, i);
    HistoryInterest(r, accounts, h, b, out, i);
  }

  lemma {:induction false} HistoryInterest(r: Rules, accounts: seq<Account>, h: seq<Entry>, b: Books, out: seq<DayResult>, i: nat)
    requires i < |accounts| && accounts[i].rateBp != 0 && b.last == None && MonthsApart(r)
    requires Chained(r, h, b) && Accounted(r, accounts[i], h) && Follows(out, h, accounts)
    ensures forall k | 0 <= k < |out| :: Accruing(r, h[k]) <==> r.triggersInterest(out[k].date)
    ensures forall k, m | 0 <= k < m < |out| && r.triggersInterest(out[k].date) && r.triggersInterest(out[m].date) ::
              r.accruedMonth(out[k].date) != r.accruedMonth(out[m].date)
    ensures forall m | 0 <= m < |out| :: i < |out[m].balances|
    ensures forall j, k | 0 <= j < k < |out| && Accruing(r, h[j]) && NoAccrual(r, h, j + 1, k) && Accruing(r, h[k]) ::
              ChargedOn(r, accounts[i], h[k], out[k], ReportedSum(out, i, j, k))
    ensures forall k | 0 <= k < |out| && !Accruing(r, h[k]) :: Select(h[k].charges, InterestTo(accounts[i].id)) == []
  {
    HistoryMonths(r, accounts, h, b, out);
    HistoryFits(out, h, accounts, i);
    forall j, k | 0 <= j < k < |out| && Accruing(r, h[j]) && NoAccrual(r, h, j + 1, k) && Accruing(r, h[k])
      ensures ChargedOn(r, accounts[i], h[k], out[k], ReportedSum(out, i, j, k))
    {
      InterestIsOnReportedBalances(r, accounts, h, b, out, i, j, k);
    }
    forall k | 0 <= k < |out| && !Accruing(r, h[k]) ensures Select(h[k].charges, InterestTo(accounts[i].id)) == [] {
      assert Charged(r, accounts[i], h[k]);
    }
  }

  lemma {:induction false} HistoryFits(out: seq<DayResult>, h: seq<Entry>, accounts: seq<Account>, i: nat)
    requires Follows(out, h, accounts) && i < |accounts|
    ensures forall m | 0 <= m < |out| :: i < |out[m].balances|
  {
    assert forall k | 0 <= k < |out| :: Reports(out[k], h[k], accounts);
  }

  lemma {:induction false} HistoryMonths(r: Rules, accounts: seq<Account>, h: seq<Entry>, b: Books, out: seq<DayResult>)
    requires MonthsApart(r) && Chained(r, h, b) && b.last == None && Follows(out, h, accounts)
    ensures forall k | 0 <= k < |out| :: Accruing(r, h[k]) <==> r.triggersInterest(out[k].date)
    ensures forall k, m | 0 <= k < m < |out| && r.triggersInterest(out[k].date) && r.triggersInterest(out[m].date) ::
              r.accruedMonth(out[k].date) != r.accruedMonth(out[m].date)
  {
    EachMonthOnce(r, h, b);
    assert forall k | 0 <= k < |out| :: Reports(out[k], h[k], accounts);
  }
}
