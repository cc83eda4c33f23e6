/** The end-of-day engine's phases, as one caller of the machine in Eod: what each charges is read off the books. */
module EodEngine {
  import opened Dates
  import opened Books
  import opened Money
  import DayCount
  import Holds
  import opened Posting
  import opened PostingService
  import opened Eod
  import opened EodGuarantees
  import opened EodCharges

  lemma {:induction false} HistoryGrows(c: Schedule, s: Eod.State, es: seq<Eod.Event>, e: Eod.Event)
    requires Eod.ValidRun(c, s, es) && Eod.Enabled(c, Eod.Exec(c, s, es), e)
    ensures Eod.ValidRun(c, s, es + [e]) && Eod.Exec(c, s, es + [e]) == Eod.Step(c, Eod.Exec(c, s, es), e)
    decreases |es|
  {
    if es == [] {
      assert ([e])[1..] == [];
      assert es + [e] == [e];
    } else {
      HistoryGrows(c, Eod.Step(c, s, es[0]), es[1..], e);
      assert (es + [e])[1..] == es[1..] + [e];
    }
  }

  /** Every account up to n with a non-zero charge has exactly the posting requested for it. */
  ghost predicate Covered(t: Tables, accounts: seq<Account>, n: nat, charge: Account -> Int64, request: Account -> Request) {
    n <= |accounts| && forall i | 0 <= i < n && charge(accounts[i]) != 0 :: OnTheBooks(t, request(accounts[i]))
  }

  ghost predicate OnTheBooks(t: Tables, q: Request) {
    PostingIdFor(q.key) in t.postings && t.postings[PostingIdFor(q.key)] == q
  }

  /** Postings of t are in u, unchanged. */
  ghost predicate Keeps(t: Tables, u: Tables) {
    forall p | p in t.postings :: p in u.postings && u.postings[p] == t.postings[p]
  }

  function InterestAt(c: Schedule, interest: Account -> Int64, d: Day): Account -> Request {
    (a: Account) => InterestRequest(c, a, interest(a), d)
  }

  function FeeAt(c: Schedule, fee: Account -> Int64, d: Day): Account -> Request {
    (a: Account) => FeeRequest(c, a, fee(a), d)
  }

  /** How many accounts are charged, and how much in all. */
  function Charged(accounts: seq<Account>, charge: Account -> Int64): (nat, int) {
    if accounts == [] then (0, 0) else
      var (n, t) := Charged(accounts[..|accounts| - 1], charge);
      var x := charge(accounts[|accounts| - 1]);
      if x == 0 then (n, t) else (n + 1, t + x)
  }

  lemma {:induction false} ChargedNext(accounts: seq<Account>, i: nat, charge: Account -> Int64)
    requires i < |accounts|
    ensures var (n, t), x := Charged(accounts[..i], charge), charge(accounts[i]);
            Charged(accounts[..i + 1], charge) == if x == 0 then (n, t) else (n + 1, t + x)
  {
    assert accounts[..i + 1][..i] == accounts[..i];
  }

  lemma {:induction false} CoveredNext(t: Tables, u: Tables, accounts: seq<Account>, i: nat, charge: Account -> Int64, request: Account -> Request)
    requires i < |accounts| && Covered(t, accounts, i, charge, request) && Keeps(t, u)
    requires charge(accounts[i]) != 0 ==> OnTheBooks(u, request(accounts[i]))
    ensures Covered(u, accounts, i + 1, charge, request)
  {
  }

  /** The first n accounts are dealt with: their charges are on the books and counted. */
  ghost predicate DealtWith(t: Tables, accounts: seq<Account>, n: nat, charge: Account -> Int64, request: Account -> Request, count: nat, total: int) {
    Covered(t, accounts, n, charge, request) && (count, total) == Charged(accounts[..n], charge)
  }

  lemma {:induction false} DealtWithNext(t: Tables, u: Tables, accounts: seq<Account>, i: nat, charge: Account -> Int64, request: Account -> Request,
                                         count: nat, total: int, count2: nat, total2: int)
    requires i < |accounts| && DealtWith(t, accounts, i, charge, request, count, total) && Keeps(t, u)
    requires charge(accounts[i]) != 0 ==> OnTheBooks(u, request(accounts[i]))
    requires (count2, total2) == if charge(accounts[i]) == 0 then (count, total) else (count + 1, total + charge(accounts[i]))
    ensures DealtWith(u, accounts, i + 1, charge, request, count2, total2)
  {
    ChargedNext(accounts, i, charge);
    CoveredNext(t, u, accounts, i, charge, request);
  }

  lemma {:induction false} AllDealtWith(t: Tables, accounts: seq<Account>, charge: Account -> Int64, request: Account -> Request, count: nat, total: int)
    ensures DealtWith(t, accounts, 0, charge, request, 0, 0)
    ensures DealtWith(t, accounts, |accounts|, charge, request, count, total) ==>
              Covered(t, accounts, |accounts|, charge, request) && (count, total) == Charged(accounts, charge)
  {
    assert accounts[..|accounts|] == accounts;
  }

  /** The event posts the request, in a phase its run may be in. */
  ghost predicate Charges(c: Schedule, running: map<nat, Day>, e: Eod.Event, q: Request) {
    || (e.Interest? && e.run in running && c.triggers(running[e.run]) && q == InterestRequest(c, e.account, e.amount, running[e.run]))
    || (e.Fee? && e.run in running && c.monthEnd(running[e.run]) && q == FeeRequest(c, e.account, e.fee, running[e.run]))
  }

  /** The request was refused and nothing changed, or it was posted. */
  ghost predicate Tried(s: Eod.State, q: Request, s': Eod.State) {
    s' == s || (|q.body.entries| >= 1 && Known(q.body.currency) && s' == Posted(s, q))
  }

  /** The request was valid and accepted, anew or as a replay. */
  ghost predicate Landed(s: Eod.State, q: Request, s': Eod.State) {
    Posting.Valid(q) && EodGuarantees.Accepted(s, q) && s' == Posted(s, q)
  }

  /** One account's turn with a charge of x: posted as requested and counted, or nothing to do. */
  ghost predicate Turned(x: Int64, q: Request, s: Eod.State, s': Eod.State, n: nat, t: int, count: nat, total: int) {
    && (x != 0 ==> OnTheBooks(s'.tables, q) && Landed(s, q, s'))
    && (x == 0 ==> s' == s)
    && (count, total) == if x == 0 then (n, t) else (n + 1, t + x)
  }

  /** The balances have moved by the first n accounts' interest, or fees. */
  ghost predicate InterestSettled(c: Schedule, terms: Terms, start: Tables, t: Tables, accounts: seq<Account>, n: nat, d: Day)
    requires n <= |accounts|
  {
    Settled(start, t, accounts, n, InterestGain(terms, start, c.first(d)), InterestKeyAt(c, d), c.first(d))
  }

  ghost predicate FeesSettled(c: Schedule, terms: Terms, holds: seq<Holds.Hold>, now: int, start: Tables, t: Tables, accounts: seq<Account>, n: nat, d: Day)
    requires n <= |accounts|
  {
    Settled(start, t, accounts, n, FeeGain(terms, start, holds, d, now), FeeKeyAt(c, d), d)
  }

  /** The account-days of some accounts on a day. */
  function DayKeys(accounts: seq<Account>, d: Day): (r: set<(string, Day)>)
    ensures forall a: string :: (a, d) in r <==> exists i | 0 <= i < |accounts| :: accounts[i].id == a
  {
    if accounts == [] then {} else
      var n := |accounts| - 1;
      assert forall i | 0 <= i < n :: accounts[..n][i] == accounts[i];
      DayKeys(accounts[..n], d) + {(accounts[n].id, d)}
  }

  /** The stored run report, its duration aside. */
  datatype Report = Report(holdsExpired: nat, interestPosted: nat, interestMinor: int, feesPosted: nat, feeMinor: int, checkpoints: nat)

  class Engine {
    const schedule: Schedule
    const terms: Terms
    var st: Eod.State
    var holds: seq<Holds.Hold>
    /** The account-days that have a checkpoint. */
    var checkpointed: set<(string, Day)>
    ghost var history: seq<Eod.Event>

    /** The state is what a history of the machine's events produced. */
    ghost predicate Traced()
      reads this
    {
      Eod.ValidRun(schedule, Initial(), history) && Eod.Exec(schedule, Initial(), history) == st
    }

    constructor (schedule: Schedule, terms: Terms, holds: seq<Holds.Hold>)
      ensures Traced() && this.schedule == schedule && this.terms == terms && this.holds == holds && checkpointed == {}
    {
      this.schedule, this.terms, this.holds := schedule, terms, holds;
      st, history, checkpointed := Initial(), [], {};
    }

    method Do(e: Eod.Event)
      requires Traced() && Eod.Enabled(schedule, st, e)
      modifies this`st, this`history
      ensures Traced() && st == Eod.Step(schedule, old(st), e)
    {
      HistoryGrows(schedule, Initial(), history, e);
      st, history := Eod.Step(schedule, st, e), history + [e];
    }

    /** One charge through Post: refused by Validate, refused by the stored claim, or on the books. */
    method PostCharge(e: Eod.Event, q: Request) returns (ok: bool)
      requires Traced() && Charges(schedule, st.running, e, q)
      modifies this`st, this`history
      ensures Traced() && st.running == old(st).running && st.claimed == old(st).claimed
      ensures Keeps(old(st).tables, st.tables) && Tried(old(st), q, st)
      ensures ok ==> OnTheBooks(st.tables, q) && Landed(old(st), q, st)
    {
      var v := Validate(q);
      if v != Posting.Accepted {
        return false;
      }
      RunKeepsInv(schedule, Initial(), history);
      RefusedExactlyWhen(st, q);
      PostedKeepsInv(st, q);
      ok := PostAlone(st.tables, st.nextEntry, q).1.Success?;
      Do(e);
    }

    /** One account's turn: nothing to charge, out of budget, refused, or posted. */
    method Attempt(x: Int64, e: Eod.Event, q: Request, budget: nat, n: nat, t: int) returns (ok: bool, count: nat, total: int)
      requires Traced() && Charges(schedule, st.running, e, q) && n <= budget
      modifies this`st, this`history
      ensures Traced() && st.running == old(st).running && st.claimed == old(st).claimed
      ensures Keeps(old(st).tables, st.tables) && Tried(old(st), q, st)
      ensures ok ==> count <= budget && Turned(x, q, old(st), st, n, t, count, total)
    {
      ok, count, total := true, n, t;
      if x != 0 {
        if n == budget {
          return false, n, t;
        }
        ok := PostCharge(e, q);
        count, total := n + 1, t + x;
      }
    }

    /** The day loop: one balance read a day, none below zero counted. */
    method SumDays(a: string, from: int, until: int) returns (sum: nat)
      ensures sum == DailySum(st.tables, a, from, until)
    {
      sum := 0;
      var d := from;
      while d < until
        invariant from <= d && (d <= until || d == from)
        invariant sum == DailySum(st.tables, a, from, d)
        decreases until - d
      {
        var balance := BalanceOn(st.tables, a, d);
        if balance > 0 {
          sum := sum + balance;
        }
        d := d + 1;
      }
    }

    /** An account's interest for the month before the calendar first f. */
    method InterestFor(a: Account, f: Day) returns (x: Int64)
      ensures x == InterestCharge(terms, st.tables, f)(a)
    {
      if a.id !in terms.products {
        return 0;
      }
      var sum := SumDays(a.id, terms.monthStart(f), f);
      x := DayCount.InterestFor(Wrap(sum), terms.products[a.id].rateBp, terms.denominator(f));
    }

    /** One account's turn in postInterest, the books at the start of the phase being `start`. */
    method InterestTurn(run: nat, d: Day, a: Account, ghost start: Tables, budget: nat, n: nat, t: int) returns (ok: bool, count: nat, total: int)
      requires Traced() && run in st.running && st.running[run] == d && schedule.triggers(d) && n <= budget
      requires SameBefore(start, st.tables, schedule.first(d))
      modifies this`st, this`history
      ensures Traced() && st.running == old(st).running && st.claimed == old(st).claimed
      ensures Keeps(old(st).tables, st.tables) && SameBefore(start, st.tables, schedule.first(d))
      ensures ok ==> var charge := InterestCharge(terms, start, schedule.first(d));
                     count <= budget && Turned(charge(a), InterestAt(schedule, charge, d)(a), old(st), st, n, t, count, total)
    {
      var f := schedule.first(d);
      ghost var was := st;
      var x := InterestFor(a, f);
      SameInterest(terms, start, st.tables, f, a);
      RunBacksRows(schedule, Initial(), history);
      ok, count, total := Attempt(x, Eod.Interest(run, a, x), InterestRequest(schedule, a, x, d), budget, n, t);
      InterestTried(was, InterestRequest(schedule, a, x, d), st, start);
    }

    /** That turn in the loop. */
    method InterestStep(run: nat, d: Day, accounts: seq<Account>, i: nat, ghost start: Tables, budget: nat, n: nat, t: int) returns (ok: bool, count: nat, total: int)
      requires Traced() && run in st.running && st.running[run] == d && schedule.triggers(d) && n <= budget && i < |accounts|
      requires Keeps(start, st.tables) && SameBefore(start, st.tables, schedule.first(d))
      requires var charge := InterestCharge(terms, start, schedule.first(d)); DealtWith(st.tables, accounts, i, charge, InterestAt(schedule, charge, d), n, t)
      modifies this`st, this`history
      ensures Traced() && st.running == old(st).running && st.claimed == old(st).claimed
      ensures Keeps(start, st.tables) && SameBefore(start, st.tables, schedule.first(d))
      ensures ok ==> count <= budget
      ensures ok ==> var charge := InterestCharge(terms, start, schedule.first(d)); DealtWith(st.tables, accounts, i + 1, charge, InterestAt(schedule, charge, d), count, total)
      ensures ok && DistinctAccounts(accounts) && InterestSettled(schedule, terms, start, old(st).tables, accounts, i, d) ==>
                InterestSettled(schedule, terms, start, st.tables, accounts, i + 1, d)
    {
      ghost var was := st;
      RunBacksRows(schedule, Initial(), history);
      ok, count, total := InterestTurn(run, d, accounts[i], start, budget, n, t);
      if ok {
        InterestAdvances(schedule, terms, was, st, start, accounts, i, d, n, t, count, total);
      }
    }

    /** postInterest: each account in turn, until the first error or `budget` postings.  The books as they stood at the start
        decide every amount: what the loop itself posts is dated after all balances it reads. */
    method PostInterest(run: nat, d: Day, accounts: seq<Account>, budget: nat) returns (ok: bool, count: nat, total: int)
      requires Traced() && run in st.running && st.running[run] == d && schedule.triggers(d)
      modifies this`st, this`history
      ensures Traced() && st.running == old(st).running && st.claimed == old(st).claimed
      ensures Keeps(old(st).tables, st.tables)
      ensures ok ==> var charge := InterestCharge(terms, old(st).tables, schedule.first(d));
                     && Covered(st.tables, accounts, |accounts|, charge, InterestAt(schedule, charge, d))
                     && (count, total) == Charged(accounts, charge) && count <= budget
      ensures ok && DistinctAccounts(accounts) ==> Moved(old(st).tables, st.tables, accounts, |accounts|, InterestGain(terms, old(st).tables, schedule.first(d)), InterestKeyAt(schedule, d), schedule.first(d))
    {
      ghost var start := st.tables;
      ghost var charge := InterestCharge(terms, start, schedule.first(d));
      ghost var request := InterestAt(schedule, charge, d);
      count, total := 0, 0;
      AllDealtWith(start, accounts, charge, request, 0, 0);
      NothingSettled(start, accounts, InterestGain(terms, start, schedule.first(d)), InterestKeyAt(schedule, d), schedule.first(d));
      for i := 0 to |accounts|
        invariant Traced() && st.running == old(st).running && st.claimed == old(st).claimed
        invariant Keeps(start, st.tables) && SameBefore(start, st.tables, schedule.first(d))
        invariant DistinctAccounts(accounts) ==> InterestSettled(schedule, terms, start, st.tables, accounts, i, d)
        invariant count <= budget && DealtWith(st.tables, accounts, i, charge, request, count, total)
      {
        ok, count, total := InterestStep(run, d, accounts, i, start, budget, count, total);
        if !ok {
          return;
        }
      }
      AllDealtWith(st.tables, accounts, charge, request, count, total);
      ok := true;
    }

    /** An account's fee on the day. */
    method FeeFor(a: Account, d: Day, now: int) returns (x: Int64)
      ensures x == FeeCharge(terms, st.tables, holds, d, now)(a)
    {
      if a.id !in terms.products {
        return 0;
      }
      var p := terms.products[a.id];
      x := p.monthlyFee;
      if p.minBalanceFee > 0 {
        var available := BalanceOn(st.tables, a.id, d) - Holds.Pending(holds, a.id, now);
        if available < p.minBalance {
          x := Wrap(x + p.minBalanceFee);
        }
      }
    }

    /** One account's turn in postFees. */
    method FeeTurn(run: nat, d: Day, now: int, accounts: seq<Account>, i: nat, ghost start: Tables, budget: nat, n: nat, t: int)
      returns (ok: bool, count: nat, total: int)
      requires Traced() && run in st.running && st.running[run] == d && schedule.monthEnd(d) && n <= budget
      requires i < |accounts| && Separate(terms, accounts) && SameFees(terms, start, st.tables, holds, d, now, accounts, i)
      modifies this`st, this`history
      ensures Traced() && st.running == old(st).running && st.claimed == old(st).claimed
      ensures Keeps(old(st).tables, st.tables) && SameFees(terms, start, st.tables, holds, d, now, accounts, i + 1)
      ensures ok ==> var charge, a := FeeCharge(terms, start, holds, d, now), accounts[i];
                     count <= budget && Turned(charge(a), FeeAt(schedule, charge, d)(a), old(st), st, n, t, count, total)
    {
      var a := accounts[i];
      ghost var was := st;
      var x := FeeFor(a, d, now);
      RunBacksRows(schedule, Initial(), history);
      ok, count, total := Attempt(x, Eod.Fee(run, a, x), FeeRequest(schedule, a, x, d), budget, n, t);
      FeeTried(terms, schedule, was, st, start, holds, d, now, accounts, i, x);
    }

    /** That turn in the loop. */
    method FeeStep(run: nat, d: Day, now: int, accounts: seq<Account>, i: nat, ghost start: Tables, budget: nat, n: nat, t: int) returns (ok: bool, count: nat, total: int)
      requires Traced() && run in st.running && st.running[run] == d && schedule.monthEnd(d) && Separate(terms, accounts) && n <= budget && i < |accounts|
      requires Keeps(start, st.tables) && SameFees(terms, start, st.tables, holds, d, now, accounts, i)
      requires var charge := FeeCharge(terms, start, holds, d, now); DealtWith(st.tables, accounts, i, charge, FeeAt(schedule, charge, d), n, t)
      modifies this`st, this`history
      ensures Traced() && st.running == old(st).running && st.claimed == old(st).claimed
      ensures Keeps(start, st.tables) && SameFees(terms, start, st.tables, holds, d, now, accounts, i + 1)
      ensures ok ==> count <= budget
      ensures ok ==> var charge := FeeCharge(terms, start, holds, d, now); DealtWith(st.tables, accounts, i + 1, charge, FeeAt(schedule, charge, d), count, total)
      ensures ok && DistinctAccounts(accounts) && FeesSettled(schedule, terms, holds, now, start, old(st).tables, accounts, i, d) ==>
                FeesSettled(schedule, terms, holds, now, start, st.tables, accounts, i + 1, d)
    {
      ghost var was := st;
      RunBacksRows(schedule, Initial(), history);
      ok, count, total := FeeTurn(run, d, now, accounts, i, start, budget, n, t);
      if ok {
        FeesAdvance(schedule, terms, was, st, start, holds, now, accounts, i, d, n, t, count, total);
      }
    }

    /** postFees, likewise: one account's fee never changes what another is charged. */
    method PostFees(run: nat, d: Day, now: int, accounts: seq<Account>, budget: nat) returns (ok: bool, count: nat, total: int)
      requires Traced() && run in st.running && st.running[run] == d && schedule.monthEnd(d) && Separate(terms, accounts)
      modifies this`st, this`history
      ensures Traced() && st.running == old(st).running && st.claimed == old(st).claimed
      ensures Keeps(old(st).tables, st.tables)
      ensures ok ==> var charge := FeeCharge(terms, old(st).tables, holds, d, now);
                     && Covered(st.tables, accounts, |accounts|, charge, FeeAt(schedule, charge, d))
                     && (count, total) == Charged(accounts, charge) && count <= budget
      ensures ok && DistinctAccounts(accounts) ==> Moved(old(st).tables, st.tables, accounts, |accounts|, FeeGain(terms, old(st).tables, holds, d, now), FeeKeyAt(schedule, d), d)
    {
      ghost var start := st.tables;
      ghost var charge := FeeCharge(terms, start, holds, d, now);
      ghost var request := FeeAt(schedule, charge, d);
      count, total := 0, 0;
      AllDealtWith(start, accounts, charge, request, 0, 0);
      NothingSettled(start, accounts, FeeGain(terms, start, holds, d, now), FeeKeyAt(schedule, d), d);
      for i := 0 to |accounts|
        invariant Traced() && st.running == old(st).running && st.claimed == old(st).claimed
        invariant Keeps(start, st.tables) && SameFees(terms, start, st.tables, holds, d, now, accounts, i)
        invariant DistinctAccounts(accounts) ==> FeesSettled(schedule, terms, holds, now, start, st.tables, accounts, i, d)
        invariant count <= budget && DealtWith(st.tables, accounts, i, charge, request, count, total)
      {
        ok, count, total := FeeStep(run, d, now, accounts, i, start, budget, count, total);
        if !ok {
          return;
        }
      }
      AllDealtWith(st.tables, accounts, charge, request, count, total);
      ok := true;
    }

    /** The checkpoint loop: account-days that have one are passed over; it stops at an error on account `reach`. */
    method WriteCheckpoints(accounts: seq<Account>, d: Day, reach: nat) returns (ok: bool, count: nat)
      modifies this`checkpointed
      ensures ok <==> |accounts| <= reach
      ensures checkpointed == old(checkpointed) + DayKeys(if |accounts| <= reach then accounts else accounts[..reach], d)
      ensures count == |checkpointed| - |old(checkpointed)|
    {
      count := 0;
      for i := 0 to |accounts|
        invariant i <= reach
        invariant checkpointed == old(checkpointed) + DayKeys(accounts[..i], d)
        invariant count == |checkpointed| - |old(checkpointed)|
      {
        if i == reach {
          return false, count;
        }
        assert accounts[..i + 1][..i] == accounts[..i];
        var key := (accounts[i].id, d);
        if key !in checkpointed {
          checkpointed := checkpointed + {key};
          count := count + 1;
        }
      }
      assert accounts[..|accounts|] == accounts;
      ok := true;
    }

    /** Run: claim, expire, interest, fees, checkpoints, each able to stop the run.  A replayed date is refused and changes
        nothing.  `expires` is false when the expiry fails. */
    method Run(run: nat, d: Day, now: int, accounts: seq<Account>, expires: bool, budget: nat, reach: nat) returns (ok: bool, report: Report)
      requires Traced() && run !in st.running && Separate(terms, accounts)
      modifies this
      ensures Traced() && run !in st.running && d in st.claimed
      ensures d in old(st).claimed ==> !ok && st == old(st) && holds == old(holds) && checkpointed == old(checkpointed) && report == Report(0, 0, 0, 0, 0, 0)
      ensures d !in old(st).claimed ==> holds == if expires then Holds.ExpireAll(old(holds), now) else old(holds)
      ensures ok ==> report.holdsExpired == Holds.DueCount(old(holds), now)
      ensures ok && schedule.triggers(d) ==>
                var charge := InterestCharge(terms, old(st).tables, schedule.first(d));
                && Covered(st.tables, accounts, |accounts|, charge, InterestAt(schedule, charge, d))
                && (report.interestPosted, report.interestMinor) == Charged(accounts, charge)
      ensures ok && !schedule.triggers(d) ==> (report.interestPosted, report.interestMinor) == (0, 0)
      ensures ok ==>
                exists mid ::
                  && Keeps(old(st).tables, mid) && InterestPhase(schedule, terms, accounts, d, old(st).tables, mid)
                  && FeePhase(schedule, terms, accounts, Holds.ExpireAll(old(holds), now), d, now, mid, st.tables)
                  && (schedule.monthEnd(d) ==>
                        var charge := FeeCharge(terms, mid, Holds.ExpireAll(old(holds), now), d, now);
                        Covered(st.tables, accounts, |accounts|, charge, FeeAt(schedule, charge, d)) && (report.feesPosted, report.feeMinor) == Charged(accounts, charge))
      ensures ok && !schedule.monthEnd(d) ==> (report.feesPosted, report.feeMinor) == (0, 0)
      ensures ok ==> checkpointed == old(checkpointed) + DayKeys(accounts, d)
                     && report.checkpoints == |checkpointed| - |old(checkpointed)|
    {
      report := Report(0, 0, 0, 0, 0, 0);
      if d in st.claimed {
        Do(Eod.Claim(run, d));
        return false, report;
      }
      Do(Eod.Claim(run, d));
      if !expires {
        Do(Eod.Stop(run));
        return false, report;
      }
      report := report.(holdsExpired := Holds.DueCount(holds, now));
      holds := Holds.ExpireAll(holds, now);
      ok, report := Charge(run, d, now, accounts, budget, report);
      if ok {
        var n;
        ok, n := WriteCheckpoints(accounts, d, reach);
        report := report.(checkpoints := n);
      }
      Do(Eod.Stop(run));
    }

    /** The two charging phases. */
    method Charge(run: nat, d: Day, now: int, accounts: seq<Account>, budget: nat, start: Report) returns (ok: bool, report: Report)
      requires Traced() && run in st.running && st.running[run] == d && Separate(terms, accounts)
      requires (start.interestPosted, start.interestMinor) == (start.feesPosted, start.feeMinor) == (0, 0)
      modifies this`st, this`history
      ensures Traced() && st.running == old(st).running && st.claimed == old(st).claimed
      ensures report.holdsExpired == start.holdsExpired
      ensures ok && schedule.triggers(d) ==>
                var charge := InterestCharge(terms, old(st).tables, schedule.first(d));
                && Covered(st.tables, accounts, |accounts|, charge, InterestAt(schedule, charge, d))
                && (report.interestPosted, report.interestMinor) == Charged(accounts, charge)
      ensures ok && !schedule.triggers(d) ==> (report.interestPosted, report.interestMinor) == (0, 0)
      ensures ok ==>
                exists mid ::
                  && Keeps(old(st).tables, mid) && InterestPhase(schedule, terms, accounts, d, old(st).tables, mid)
                  && FeePhase(schedule, terms, accounts, holds, d, now, mid, st.tables)
                  && (schedule.monthEnd(d) ==>
                        var charge := FeeCharge(terms, mid, holds, d, now);
                        Covered(st.tables, accounts, |accounts|, charge, FeeAt(schedule, charge, d)) && (report.feesPosted, report.feeMinor) == Charged(accounts, charge))
      ensures ok && !schedule.monthEnd(d) ==> (report.feesPosted, report.feeMinor) == (0, 0)
    {
      report := start;
      ok := true;
      var n, t := 0, 0;
      if schedule.triggers(d) {
        ok, n, t := PostInterest(run, d, accounts, budget);
        report := report.(interestPosted := n, interestMinor := t);
      }
      assert DistinctAccounts(accounts);
      ghost var mid := st.tables;
      assert ok ==> Keeps(old(st).tables, mid) && InterestPhase(schedule, terms, accounts, d, old(st).tables, mid);
      if ok && schedule.monthEnd(d) {
        ok, n, t := PostFees(run, d, now, accounts, budget);
        report := report.(feesPosted := n, feeMinor := t);
        if schedule.triggers(d) {
          ghost var charge := InterestCharge(terms, old(st).tables, schedule.first(d));
          if ok {
            CoveredStays(mid, st.tables, accounts, charge, InterestAt(schedule, charge, d));
          }
        }
      }
    }
  }

  lemma {:induction false} InterestSettles(c: Schedule, terms: Terms, s: Eod.State, s': Eod.State, start: Tables, accounts: seq<Account>, i: nat, d: Day)
    requires i < |accounts| && RowsBacked(s.tables)
    requires var charge := InterestCharge(terms, start, c.first(d));
             if charge(accounts[i]) == 0 then s' == s else Landed(s, InterestAt(c, charge, d)(accounts[i]), s')
    ensures DistinctAccounts(accounts) && InterestSettled(c, terms, start, s.tables, accounts, i, d) ==> InterestSettled(c, terms, start, s'.tables, accounts, i + 1, d)
  {
    var gain, key, x := InterestGain(terms, start, c.first(d)), InterestKeyAt(c, d), InterestCharge(terms, start, c.first(d))(accounts[i]);
    if DistinctAccounts(accounts) && Settled(start, s.tables, accounts, i, gain, key, c.first(d)) {
      if x == 0 {
        SettledSame(start, s.tables, accounts, i, gain, key, c.first(d));
      } else {
        var q := InterestRequest(c, accounts[i], x, d);
        assert q.body.entries[0].minor == x && x != MIN64;
        InterestChargesFor(c, accounts[i], x, d);
        SettledNext(s, q, start, accounts, i, gain, key, c.first(d));
      }
    }
  }

  lemma {:induction false} FeeSettles(c: Schedule, terms: Terms, s: Eod.State, s': Eod.State, start: Tables, holds: seq<Holds.Hold>, now: int,
                                      accounts: seq<Account>, i: nat, d: Day)
    requires i < |accounts| && RowsBacked(s.tables)
    requires var charge := FeeCharge(terms, start, holds, d, now);
             if charge(accounts[i]) == 0 then s' == s else Landed(s, FeeAt(c, charge, d)(accounts[i]), s')
    ensures DistinctAccounts(accounts) && FeesSettled(c, terms, holds, now, start, s.tables, accounts, i, d) ==>
              FeesSettled(c, terms, holds, now, start, s'.tables, accounts, i + 1, d)
  {
    var gain, key, x := FeeGain(terms, start, holds, d, now), FeeKeyAt(c, d), FeeCharge(terms, start, holds, d, now)(accounts[i]);
    if DistinctAccounts(accounts) && Settled(start, s.tables, accounts, i, gain, key, d) {
      if x == 0 {
        SettledSame(start, s.tables, accounts, i, gain, key, d);
      } else {
        var q := FeeRequest(c, accounts[i], x, d);
        FeeOffMin(c, accounts[i], x, d);
        FeeChargesFor(c, accounts[i], x, d);
        SettledNext(s, q, start, accounts, i, gain, key, d);
      }
    }
  }

  lemma {:induction false} InterestAdvances(c: Schedule, terms: Terms, s: Eod.State, s': Eod.State, start: Tables, accounts: seq<Account>, i: nat, d: Day,
                                            n: nat, t: int, count: nat, total: int)
    requires i < |accounts| && RowsBacked(s.tables) && Keeps(s.tables, s'.tables)
    requires var charge := InterestCharge(terms, start, c.first(d));
             && DealtWith(s.tables, accounts, i, charge, InterestAt(c, charge, d), n, t)
             && Turned(charge(accounts[i]), InterestAt(c, charge, d)(accounts[i]), s, s', n, t, count, total)
    ensures var charge := InterestCharge(terms, start, c.first(d)); DealtWith(s'.tables, accounts, i + 1, charge, InterestAt(c, charge, d), count, total)
    ensures DistinctAccounts(accounts) && InterestSettled(c, terms, start, s.tables, accounts, i, d) ==> InterestSettled(c, terms, start, s'.tables, accounts, i + 1, d)
  {
    var charge := InterestCharge(terms, start, c.first(d));
    InterestSettles(c, terms, s, s', start, accounts, i, d);
    DealtWithNext(s.tables, s'.tables, accounts, i, charge, InterestAt(c, charge, d), n, t, count, total);
  }

  lemma {:induction false} FeesAdvance(c: Schedule, terms: Terms, s: Eod.State, s': Eod.State, start: Tables, holds: seq<Holds.Hold>, now: int,
                                       accounts: seq<Account>, i: nat, d: Day, n: nat, t: int, count: nat, total: int)
    requires i < |accounts| && RowsBacked(s.tables) && Keeps(s.tables, s'.tables)
    requires var charge := FeeCharge(terms, start, holds, d, now);
             && DealtWith(s.tables, accounts, i, charge, FeeAt(c, charge, d), n, t)
             && Turned(charge(accounts[i]), FeeAt(c, charge, d)(accounts[i]), s, s', n, t, count, total)
    ensures var charge := FeeCharge(terms, start, holds, d, now); DealtWith(s'.tables, accounts, i + 1, charge, FeeAt(c, charge, d), count, total)
    ensures DistinctAccounts(accounts) && FeesSettled(c, terms, holds, now, start, s.tables, accounts, i, d) ==>
              FeesSettled(c, terms, holds, now, start, s'.tables, accounts, i + 1, d)
  {
    var charge := FeeCharge(terms, start, holds, d, now);
    FeeSettles(c, terms, s, s', start, holds, now, accounts, i, d);
    DealtWithNext(s.tables, s'.tables, accounts, i, charge, FeeAt(c, charge, d), n, t, count, total);
  }

  lemma {:induction false} FeeOffMin(c: Schedule, a: Account, fee: Int64, d: Day)
    requires Posting.Valid(FeeRequest(c, a, fee, d))
    ensures fee != MIN64 && Known(a.currency)
  {
    DayCount.MinNegates();
    assert FeeRequest(c, a, fee, d).body.entries[0].minor != MIN64;
  }

  lemma {:induction false} InterestTried(s: Eod.State, q: Request, s': Eod.State, start: Tables)
    requires RowsBacked(s.tables) && Tried(s, q, s') && SameBefore(start, s.tables, q.body.businessDate)
    ensures SameBefore(start, s'.tables, q.body.businessDate)
  {
    if s' != s {
      InterestLeavesBefore(s, q);
    }
  }

  lemma {:induction false} FeeTried(terms: Terms, c: Schedule, s: Eod.State, s': Eod.State, start: Tables, holds: seq<Holds.Hold>, d: Day, now: int,
                                    accounts: seq<Account>, i: nat, fee: Int64)
    requires i < |accounts| && RowsBacked(s.tables) && Tried(s, FeeRequest(c, accounts[i], fee, d), s') && Separate(terms, accounts)
    requires SameFees(terms, start, s.tables, holds, d, now, accounts, i)
    ensures SameFees(terms, start, s'.tables, holds, d, now, accounts, i + 1)
  {
    if s' != s {
      forall k | i < k < |accounts|
        ensures FeeCharge(terms, s.tables, holds, d, now)(accounts[k]) == FeeCharge(terms, s'.tables, holds, d, now)(accounts[k])
      {
        FeeLeavesOthers(terms, c, s, holds, d, now, accounts, i, k, fee);
      }
    }
  }

  lemma {:induction false} CoveredStays(t: Tables, u: Tables, accounts: seq<Account>, charge: Account -> Int64, request: Account -> Request)
    requires Covered(t, accounts, |accounts|, charge, request) && Keeps(t, u)
    ensures Covered(u, accounts, |accounts|, charge, request)
  {
  }
}
