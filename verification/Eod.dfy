/** internal/ledger/accrual: end-of-day runs -- claimed once per date, stoppable anywhere, posting by idempotency key. */
module Eod {
  import opened Options
  import opened Dates
  import opened DateText
  import opened Text
  import opened BusinessDays
  import opened Money
  import opened Posting
  import opened PostingService

  const PRINCIPAL := "eod"

  // ---------------------------------------------------------------- what an end of day posts

  /** Interest runs on the first business day of a month; fees on its last calendar day. */
  predicate TriggersInterest(d: Day) {
    d == OnOrAfter(false, CalendarFirst(d))
  }

  predicate IsMonthEnd(d: Day) {
    Civil(d + 1).month != Civil(d).month
  }

  /** %04d-%02d of the month before the calendar first f. */
  function MonthText(f: Day): string {
    YearBefore(f);
    Field(Civil(f - 1).year, 4) + "-" + Field(Civil(f - 1).month, 2)
  }

  lemma {:induction false} YearBefore(f: Day)
    ensures Civil(f - 1).year >= 0
  {
    assert YearStart(MIN_YEAR) == 0;
    YearIsNotNegative(f - 1);
  }

  function InterestKey(account: string, f: Day): string {
    Join(["interest", account, MonthText(f)], '/')
  }

  function FeeKey(account: string, d: Day): string {
    Join(["fee", account, Iso(d)], '/')
  }

  /** The calendar questions a run asks and the keys it posts under, as functions of the date. */
  datatype Schedule = Schedule(triggers: Day -> bool, monthEnd: Day -> bool, first: Day -> Day,
                               interestKey: (string, Day) -> string, feeKey: (string, Day) -> string)

  function Documented(): Schedule {
    Schedule((d: Day) => TriggersInterest(d), (d: Day) => IsMonthEnd(d), (d: Day) => CalendarFirst(d),
             (a: string, f: Day) => InterestKey(a, f), (a: string, d: Day) => FeeKey(a, d))
  }

  datatype Account = Account(id: string, currency: string, suspense: string)

  /** postAgainstSuspense's request: the amount on the account, its negation on the currency's suspense account. */
  function ChargeRequest(kind: string, idem: string, a: Account, amount: Int64, d: Day): Request {
    Request(Key(PRINCIPAL, idem),
            Body(kind, a.currency, d, d, d * DAY_MICROS + 57_600_000_000, None,
                 [EntryRequest(a.id, amount), EntryRequest(a.suspense, Wrap(0 - amount))]))
  }

  function InterestRequest(c: Schedule, a: Account, amount: Int64, d: Day): Request {
    ChargeRequest("interest", c.interestKey(a.id, c.first(d)), a, amount, c.first(d))
  }

  function FeeRequest(c: Schedule, a: Account, fee: Int64, d: Day): Request {
    ChargeRequest("fee", c.feeKey(a.id, d), a, Wrap(0 - fee), d)
  }

  // ---------------------------------------------------------------- the machine

  /** Tables, the claimed dates in order, and the runs now at work on a date they claimed. */
  datatype State = State(tables: Tables, nextEntry: nat, claimed: seq<Day>, running: map<nat, Day>)

  datatype Event =
    | Claim(run: nat, date: Day)
    | Interest(run: nat, account: Account, amount: Int64)
    | Fee(run: nat, account: Account, fee: Int64)
    | Stop(run: nat)                // finished, failed or killed: after any step
    | Outside(request: Request)     // a posting by any other caller, under any principal

  ghost predicate Enabled(c: Schedule, s: State, e: Event) {
    match e
    case Claim(r, _) => r !in s.running
    case Interest(r, a, x) => r in s.running && c.triggers(s.running[r]) && Posting.Valid(InterestRequest(c, a, x, s.running[r]))
    case Fee(r, a, x) => r in s.running && c.monthEnd(s.running[r]) && Posting.Valid(FeeRequest(c, a, x, s.running[r]))
    case Stop(r) => r in s.running
    case Outside(q) => Posting.Valid(q)
  }

  /** One Post: what it leaves behind is what it leaves when nobody else is writing. */
  function Posted(s: State, q: Request): State
    requires |q.body.entries| >= 1 && Known(q.body.currency)
  {
    s.(tables := PostAlone(s.tables, s.nextEntry, q).0, nextEntry := s.nextEntry + |q.body.entries|)
  }

  function Step(c: Schedule, s: State, e: Event): State
    requires Enabled(c, s, e)
  {
    match e
    case Claim(r, d) => if d in s.claimed then s else s.(claimed := s.claimed + [d], running := s.running[r := d])
    case Interest(r, a, x) => Posted(s, InterestRequest(c, a, x, s.running[r]))
    case Fee(r, a, x) => Posted(s, FeeRequest(c, a, x, s.running[r]))
    case Stop(r) => s.(running := s.running - {r})
    case Outside(q) => Posted(s, q)
  }

  ghost predicate ValidRun(c: Schedule, s: State, es: seq<Event>)
    decreases |es|
  {
    es == [] || (Enabled(c, s, es[0]) && ValidRun(c, Step(c, s, es[0]), es[1..]))
  }

  ghost function Exec(c: Schedule, s: State, es: seq<Event>): State
    requires ValidRun(c, s, es)
    decreases |es|
  {
    if es == [] then s else Exec(c, Step(c, s, es[0]), es[1..])
  }

  function Initial(): State {
    State.State(Posting.Empty().tables, 1, [], map[])
  }
}
