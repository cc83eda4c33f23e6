/** What end of day guarantees -- alone, and next to callers who may post under its own principal. */
module EodGuarantees {
  import opened Options
  import opened Dates
  import opened DateText
  import opened Text
  import Sorting
  import Books
  import opened Money
  import opened Posting
  import opened PostingService
  import opened Eod

  // ---------------------------------------------------------------- the invariant

  /** A date is claimed once; postings sit under their own ids; every claim has its posting, with the body it stored. */
  ghost predicate Inv(s: Eod.State) {
    && Sorting.NoDuplicates(s.claimed)
    && (forall r | r in s.running :: s.running[r] in s.claimed)
    && (forall p | p in s.tables.postings :: p == PostingIdFor(s.tables.postings[p].key))
    && (forall k | k in s.tables.claims :: Backed(s.tables, k))
  }

  ghost predicate Backed(t: Tables, k: Key) {
    && k in t.claims && t.claims[k].response.Some?
    && PostingIdFor(k) in t.postings && t.postings[PostingIdFor(k)] == Request(k, t.claims[k].body)
  }

  lemma {:induction false} PostedKeepsInv(s: Eod.State, q: Request)
    requires Inv(s) && |q.body.entries| >= 1 && Known(q.body.currency)
    ensures Inv(Posted(s, q))
    ensures forall p | p in s.tables.postings :: p in Posted(s, q).tables.postings && Posted(s, q).tables.postings[p] == s.tables.postings[p]
    ensures forall p | p in Posted(s, q).tables.postings :: p in s.tables.postings || Posted(s, q).tables.postings[p] == q
  {
    var t := Posted(s, q).tables;
    forall k | k in t.claims ensures Backed(t, k) {
      if k in s.tables.claims {
        assert Backed(s.tables, k);
      }
    }
  }

  /** The request an event posts, if any. */
  function RequestOf(c: Schedule, s: Eod.State, e: Eod.Event): Option<Request>
    requires Eod.Enabled(c, s, e)
  {
    match e
    case Interest(r, a, x) => Some(InterestRequest(c, a, x, s.running[r]))
    case Fee(r, a, x) => Some(FeeRequest(c, a, x, s.running[r]))
    case Outside(q) => Some(q)
    case _ => None
  }

  /** A step changes the postings only by the request it posts. */
  lemma {:induction false} StepPosts(c: Schedule, s: Eod.State, e: Eod.Event)
    requires Inv(s) && Eod.Enabled(c, s, e)
    ensures var s', q := Eod.Step(c, s, e), RequestOf(c, s, e);
            && Inv(s')
            && (forall p | p in s.tables.postings :: p in s'.tables.postings && s'.tables.postings[p] == s.tables.postings[p])
            && (forall p | p in s'.tables.postings :: p in s.tables.postings || (q.Some? && s'.tables.postings[p] == q.value))
  {
    var q := RequestOf(c, s, e);
    if q.Some? {
      PostedKeepsInv(s, q.value);
    }
  }

  lemma {:induction false} RunKeepsInv(c: Schedule, s: Eod.State, es: seq<Eod.Event>)
    requires Inv(s) && Eod.ValidRun(c, s, es)
    ensures Inv(Eod.Exec(c, s, es))
    decreases |es|
  {
    if es != [] {
      StepPosts(c, s, es[0]);
      RunKeepsInv(c, Eod.Step(c, s, es[0]), es[1..]);
    }
  }

  /** Postings are never changed or removed. */
  lemma {:induction false} PostingsStay(c: Schedule, s: Eod.State, es: seq<Eod.Event>, p: Books.PostingId)
    requires Inv(s) && Eod.ValidRun(c, s, es) && p in s.tables.postings
    ensures p in Eod.Exec(c, s, es).tables.postings && Eod.Exec(c, s, es).tables.postings[p] == s.tables.postings[p]
    decreases |es|
  {
    if es != [] {
      StepPosts(c, s, es[0]);
      PostingsStay(c, Eod.Step(c, s, es[0]), es[1..], p);
    }
  }

  // ---------------------------------------------------------------- one charge per kind, account and date

  /** A posting under the end-of-day principal of a kind, on an account, dated d. */
  ghost predicate ChargeOn(q: Request, kind: string, account: string, d: Day) {
    q.key.principal == PRINCIPAL && q.body.kind == kind && q.body.businessDate == d && q.body.entries != [] && q.body.entries[0].account == account
  }

  /** The key an end-of-day run posts that charge under. */
  function EngineKey(c: Schedule, kind: string, account: string, d: Day): string {
    if kind == "interest" then c.interestKey(account, d) else c.feeKey(account, d)
  }

  /** Every such posting carries the engine's key. */
  ghost predicate OwnKeysOnly(c: Schedule, t: Tables, kind: string, account: string, d: Day) {
    forall p | p in t.postings && ChargeOn(t.postings[p], kind, account, d) :: t.postings[p].key.idem == EngineKey(c, kind, account, d)
  }

  /** No caller posts such a charge under another key: what an operator can ask of the allow-list and its clients. */
  ghost predicate NoImitation(c: Schedule, es: seq<Eod.Event>, kind: string, account: string, d: Day) {
    forall e | e in es && e.Outside? && ChargeOn(e.request, kind, account, d) :: e.request.key.idem == EngineKey(c, kind, account, d)
  }

  lemma {:induction false} StepKeepsOwnKeys(c: Schedule, s: Eod.State, e: Eod.Event, kind: string, account: string, d: Day)
    requires Inv(s) && Eod.Enabled(c, s, e) && OwnKeysOnly(c, s.tables, kind, account, d)
    requires e.Outside? && ChargeOn(e.request, kind, account, d) ==> e.request.key.idem == EngineKey(c, kind, account, d)
    ensures OwnKeysOnly(c, Eod.Step(c, s, e).tables, kind, account, d)
  {
    StepPosts(c, s, e);
    var q := RequestOf(c, s, e);
    if q.Some? && ChargeOn(q.value, kind, account, d) {
      assert q.value.key.idem == EngineKey(c, kind, account, d);
    }
  }

  lemma {:induction false} RunKeepsOwnKeys(c: Schedule, s: Eod.State, es: seq<Eod.Event>, kind: string, account: string, d: Day)
    requires Inv(s) && Eod.ValidRun(c, s, es) && OwnKeysOnly(c, s.tables, kind, account, d) && NoImitation(c, es, kind, account, d)
    ensures OwnKeysOnly(c, Eod.Exec(c, s, es).tables, kind, account, d)
    decreases |es|
  {
    if es != [] {
      assert es[0] in es;
      StepPosts(c, s, es[0]);
      StepKeepsOwnKeys(c, s, es[0], kind, account, d);
      RunKeepsOwnKeys(c, Eod.Step(c, s, es[0]), es[1..], kind, account, d);
    }
  }

  /** The request would succeed now: its key is claimed with this body, or is free and so is its id. */
  predicate Accepted(s: Eod.State, q: Request) {
    if q.key in s.tables.claims then s.tables.claims[q.key].body == q.body else PostingIdFor(q.key) !in s.tables.postings
  }

  /** Another caller's charge of that kind, account and date under a key of its own. */
  ghost predicate Imitates(c: Schedule, e: Eod.Event, kind: string, account: string, d: Day) {
    e.Outside? && ChargeOn(e.request, kind, account, d) && e.request.key.idem != EngineKey(c, kind, account, d)
  }

  /** Every imitation the run contains was refused when it came. */
  ghost predicate ImitationsRefused(c: Schedule, s: Eod.State, es: seq<Eod.Event>, kind: string, account: string, d: Day)
    requires Eod.ValidRun(c, s, es)
    decreases |es|
  {
    es == [] || (
      && (Imitates(c, es[0], kind, account, d) ==> !Accepted(s, es[0].request))
      && ImitationsRefused(c, Eod.Step(c, s, es[0]), es[1..], kind, account, d))
  }

  lemma {:induction false} RefusedLeavesNothing(s: Eod.State, q: Request)
    requires |q.body.entries| >= 1 && Known(q.body.currency) && !Accepted(s, q)
    ensures Posted(s, q).tables == s.tables
  {
  }

  /** A foreign key gets onto the books exactly when some imitation is accepted. */
  lemma {:induction false} OwnKeysExactly(c: Schedule, s: Eod.State, es: seq<Eod.Event>, kind: string, account: string, d: Day)
    requires Inv(s) && Eod.ValidRun(c, s, es) && OwnKeysOnly(c, s.tables, kind, account, d)
    ensures OwnKeysOnly(c, Eod.Exec(c, s, es).tables, kind, account, d) <==> ImitationsRefused(c, s, es, kind, account, d)
    decreases |es|
  {
    if es != [] {
      var e, s' := es[0], Eod.Step(c, s, es[0]);
      StepPosts(c, s, e);
      if Imitates(c, e, kind, account, d) && Accepted(s, e.request) {
        RefusedExactlyWhen(s, e.request);
        PostingsStay(c, s', es[1..], PostingIdFor(e.request.key));
      } else {
        if Imitates(c, e, kind, account, d) {
          RefusedLeavesNothing(s, e.request);
        } else {
          StepKeepsOwnKeys(c, s, e, kind, account, d);
        }
        OwnKeysExactly(c, s', es[1..], kind, account, d);
      }
    }
  }

  /** Any run, any callers: one key has at most one posting; and where the engine's charge of a kind, account and date is
      on the books, it is the only one if and only if every charge another caller sent under a key of its own was refused:
      its key was claimed with another body, or its id was taken. */
  lemma {:induction false} AtMostOnceExactly(c: Schedule, es: seq<Eod.Event>, kind: string, account: string, d: Day, p: Books.PostingId)
    requires Eod.ValidRun(c, Initial(), es)
    requires var t := Eod.Exec(c, Initial(), es).tables;
             p in t.postings && ChargeOn(t.postings[p], kind, account, d) && t.postings[p].key.idem == EngineKey(c, kind, account, d)
    ensures var t := Eod.Exec(c, Initial(), es).tables;
            && (forall q, r | q in t.postings && r in t.postings && t.postings[q].key == t.postings[r].key :: q == r)
            && ((forall q | q in t.postings && ChargeOn(t.postings[q], kind, account, d) :: q == p) <==> ImitationsRefused(c, Initial(), es, kind, account, d))
  {
    RunKeepsInv(c, Initial(), es);
    OwnKeysExactly(c, Initial(), es, kind, account, d);
  }

  /** Over any interleaving of runs, replays, stops and other callers none of whom posts such a charge under another key:
      at most one posting of the kind, account and date, and no date is claimed twice. */
  lemma {:induction false} ChargedAtMostOnce(c: Schedule, es: seq<Eod.Event>, kind: string, account: string, d: Day, p: Books.PostingId, q: Books.PostingId)
    requires Eod.ValidRun(c, Initial(), es) && NoImitation(c, es, kind, account, d)
    requires var t := Eod.Exec(c, Initial(), es).tables;
             p in t.postings && q in t.postings && ChargeOn(t.postings[p], kind, account, d) && ChargeOn(t.postings[q], kind, account, d)
    ensures p == q && Sorting.NoDuplicates(Eod.Exec(c, Initial(), es).claimed)
  {
    RunKeepsInv(c, Initial(), es);
    RunKeepsOwnKeys(c, Initial(), es, kind, account, d);
  }

  // ---------------------------------------------------------------- what is charged is due

  /** Interest belongs to a claimed trigger day and is dated its calendar first; a fee to a claimed month end, dated it. */
  ghost predicate DueFor(c: Schedule, q: Request, claimed: seq<Day>) {
    exists d :: d in claimed &&
      ((c.triggers(d) && q.body.kind == "interest" && q.body.businessDate == c.first(d)) || (c.monthEnd(d) && q.body.kind == "fee" && q.body.businessDate == d))
  }

  ghost predicate AllDue(c: Schedule, s: Eod.State) {
    forall p | p in s.tables.postings && s.tables.postings[p].key.principal == PRINCIPAL :: DueFor(c, s.tables.postings[p], s.claimed)
  }

  lemma {:induction false} StepKeepsDue(c: Schedule, s: Eod.State, e: Eod.Event)
    requires Inv(s) && Eod.Enabled(c, s, e) && AllDue(c, s) && (e.Outside? ==> e.request.key.principal != PRINCIPAL)
    ensures AllDue(c, Eod.Step(c, s, e))
  {
    StepPosts(c, s, e);
    var s' := Eod.Step(c, s, e);
    forall p | p in s'.tables.postings && s'.tables.postings[p].key.principal == PRINCIPAL ensures DueFor(c, s'.tables.postings[p], s'.claimed) {
      if p in s.tables.postings {
        var d :| d in s.claimed && ((c.triggers(d) && s.tables.postings[p].body.kind == "interest" && s.tables.postings[p].body.businessDate == c.first(d))
                                    || (c.monthEnd(d) && s.tables.postings[p].body.kind == "fee" && s.tables.postings[p].body.businessDate == d));
        assert d in s'.claimed;
      } else {
        assert s.running[e.run] in s.claimed;
      }
    }
  }

  /** With no outside posting under the principal, everything posted under it is interest or a fee of a claimed date. */
  lemma {:induction false} ChargesAreDue(c: Schedule, s: Eod.State, es: seq<Eod.Event>)
    requires Inv(s) && AllDue(c, s) && Eod.ValidRun(c, s, es) && forall e | e in es && e.Outside? :: e.request.key.principal != PRINCIPAL
    ensures AllDue(c, Eod.Exec(c, s, es))
    decreases |es|
  {
    if es != [] {
      assert es[0] in es;
      StepPosts(c, s, es[0]);
      StepKeepsDue(c, s, es[0]);
      ChargesAreDue(c, Eod.Step(c, s, es[0]), es[1..]);
    }
  }

  /** A charge is refused, and its run stopped, exactly when its key is claimed with another body or its id is taken. */
  lemma {:induction false} RefusedExactlyWhen(s: Eod.State, q: Request)
    requires Inv(s) && Posting.Valid(q)
    ensures PostAlone(s.tables, s.nextEntry, q).1.Success? <==> Accepted(s, q)
    ensures PostAlone(s.tables, s.nextEntry, q).1.Success? ==>
            PostingIdFor(q.key) in Posted(s, q).tables.postings && Posted(s, q).tables.postings[PostingIdFor(q.key)] == q
  {
    if q.key in s.tables.claims {
      assert Backed(s.tables, q.key);
    }
  }

  /** Distinct account-months and account-dates never share a key, so no charge is taken for a replay of another. */
  lemma {:induction false} KeysAreDistinct(a: string, b: string, d: Day, e: Day)
    requires '/' !in a && '/' !in b
    ensures InterestKey(a, d) == InterestKey(b, e) ==> a == b && MonthText(d) == MonthText(e)
    ensures FeeKey(a, d) == FeeKey(b, e) ==> a == b && d == e
    ensures InterestKey(a, d) != FeeKey(b, e)
  {
    MonthTextFree(d);
    MonthTextFree(e);
    DateTextFree(d, '/');
    DateTextFree(e, '/');
    DistinctKeys(a, b, MonthText(d), MonthText(e), Iso(d), Iso(e));
    IsoRoundTrip(d);
    IsoRoundTrip(e);
  }

  lemma {:induction false} DistinctKeys(a: string, b: string, x: string, y: string, u: string, v: string)
    requires '/' !in a && '/' !in b && '/' !in x && '/' !in y && '/' !in u && '/' !in v
    ensures Join(["interest", a, x], '/') == Join(["interest", b, y], '/') ==> a == b && x == y
    ensures Join(["fee", a, u], '/') == Join(["fee", b, v], '/') ==> a == b && u == v
    ensures Join(["interest", a, x], '/') != Join(["fee", b, v], '/')
  {
    JoinedKeys("interest", a, x, "interest", b, y);
    JoinedKeys("fee", a, u, "fee", b, v);
    JoinedKeys("interest", a, x, "fee", b, v);
  }

  lemma {:induction false} JoinedKeys(k: string, a: string, x: string, l: string, b: string, y: string)
    requires '/' !in k && '/' !in a && '/' !in x && '/' !in l && '/' !in b && '/' !in y
    ensures Join([k, a, x], '/') == Join([l, b, y], '/') <==> k == l && a == b && x == y
  {
    var p, q := [k, a, x], [l, b, y];
    SplitJoin(p, '/');
    SplitJoin(q, '/');
    assert p == q ==> p[0] == q[0] && p[1] == q[1] && p[2] == q[2];
  }

  lemma {:induction false} MonthTextFree(f: Day)
    ensures '/' !in MonthText(f)
  {
    YearBefore(f);
    FieldFree(Civil(f - 1).year, 4, '/');
    FieldFree(Civil(f - 1).month, 2, '/');
  }

  // ---------------------------------------------------------------- an imitation

  lemma {:induction false} PairFits(x: Int64, y: Int64, c: string, k: nat)
    requires Known(c) && x + y == 0 && k <= 2
    ensures var xs := [Amount(x, c, ScaleOf(c)), Amount(y, c, ScaleOf(c))]; Fits(Total(xs[..k])) && Total(xs) == 0
  {
    var xs := [Amount(x, c, ScaleOf(c)), Amount(y, c, ScaleOf(c))];
    assert xs[..0] == [] && xs[..1] == [xs[0]] && xs[..2] == xs && [xs[0]][..0] == [];
    assert Total(xs[..1]) == x;
  }

  /** Every charge of a known currency that is not MinInt64 is a valid request. */
  lemma {:induction false} ChargeIsValid(kind: string, idem: string, a: Account, x: Int64, d: Day)
    requires kind in KINDS && idem != "" && Known(a.currency) && x != MIN64
    ensures Posting.Valid(ChargeRequest(kind, idem, a, x, d))
  {
    var b := ChargeRequest(kind, idem, a, x, d).body;
    NegationFits(x);
    var xs := AmountsOf(b);
    assert xs == [Amount(x, a.currency, ScaleOf(a.currency)), Amount(Wrap(0 - x), a.currency, ScaleOf(a.currency))];
    forall k | 0 <= k <= |xs| ensures Fits(Total(xs[..k])) && Total(xs) == 0 {
      PairFits(x, Wrap(0 - x), a.currency, k);
    }
  }

  /** A caller posting under the principal with a key of its own gives the account a second charge of the kind and date. */
  lemma {:induction false} ImitationDoubles(c: Schedule, d: Day, a: Account, x: Int64, y: Int64, idem: string)
    requires c.triggers(d) && Known(a.currency) && x != MIN64 && y != MIN64
    requires idem != "" && c.interestKey(a.id, c.first(d)) != "" && idem != c.interestKey(a.id, c.first(d))
    ensures var run := [Eod.Outside(ChargeRequest("interest", idem, a, y, c.first(d)))] + ([Eod.Claim(0, d)] + ([Eod.Interest(0, a, x)] + []));
            && Eod.ValidRun(c, Initial(), run)
            && var t := Eod.Exec(c, Initial(), run).tables.postings;
               exists p, q :: p in t && q in t && p != q && ChargeOn(t[p], "interest", a.id, c.first(d)) && ChargeOn(t[q], "interest", a.id, c.first(d))
  {
    var f, q := ChargeRequest("interest", idem, a, y, c.first(d)), InterestRequest(c, a, x, d);
    ChargeIsValid("interest", idem, a, y, c.first(d));
    ChargeIsValid("interest", c.interestKey(a.id, c.first(d)), a, x, c.first(d));
    var s1 := Posted(Initial(), f);
    var s2 := s1.(claimed := [d], running := map[0 := d]);
    var s3 := Posted(s2, q);
    assert Eod.Step(c, Initial(), Eod.Outside(f)) == s1 && Eod.Step(c, s1, Eod.Claim(0, d)) == s2 && Eod.Step(c, s2, Eod.Interest(0, a, x)) == s3;
    ThenRun(c, s2, Eod.Interest(0, a, x), []);
    ThenRun(c, s1, Eod.Claim(0, d), [Eod.Interest(0, a, x)] + []);
    ThenRun(c, Initial(), Eod.Outside(f), [Eod.Claim(0, d)] + ([Eod.Interest(0, a, x)] + []));
    var t := s3.tables.postings;
    assert PostingIdFor(f.key) != PostingIdFor(q.key) by {
      assert (PRINCIPAL + "/" + idem)[4..] == idem && (PRINCIPAL + "/" + q.key.idem)[4..] == q.key.idem;
    }
    assert t[PostingIdFor(f.key)] == f && t[PostingIdFor(q.key)] == q;
    assert ChargeOn(f, "interest", a.id, c.first(d)) && ChargeOn(q, "interest", a.id, c.first(d));
  }

  lemma {:induction false} ThenRun(c: Schedule, s: Eod.State, e: Eod.Event, es: seq<Eod.Event>)
    requires Eod.Enabled(c, s, e) && Eod.ValidRun(c, Eod.Step(c, s, e), es)
    ensures Eod.ValidRun(c, s, [e] + es) && Eod.Exec(c, s, [e] + es) == Eod.Exec(c, Eod.Step(c, s, e), es)
  {
    assert ([e] + es)[1..] == es;
  }

  // ---------------------------------------------------------------- never resumed

  /** The date is claimed and nobody is at work on it. */
  ghost predicate Idle(s: Eod.State, d: Day) {
    d in s.claimed && forall r | r in s.running :: s.running[r] != d
  }

  /** A calendar first has at most one trigger day. */
  ghost predicate OneTrigger(c: Schedule) {
    forall d, e | c.triggers(d) && c.triggers(e) && c.first(d) == c.first(e) :: d == e
  }

  lemma {:induction false} DocumentedHasOneTrigger()
    ensures OneTrigger(Documented())
  {
  }

  /** The charge of a kind dated x that the run of d would post. */
  ghost predicate BelongsTo(c: Schedule, kind: string, x: Day, d: Day) {
    (kind == "interest" && c.triggers(d) && x == c.first(d)) || (kind == "fee" && x == d)
  }

  lemma {:induction false} StepStaysIdle(c: Schedule, s: Eod.State, e: Eod.Event, d: Day, kind: string, account: string, x: Day)
    requires Inv(s) && Eod.Enabled(c, s, e) && Idle(s, d) && OneTrigger(c) && BelongsTo(c, kind, x, d)
    requires e.Outside? ==> !ChargeOn(e.request, kind, account, x)
    ensures Idle(Eod.Step(c, s, e), d)
    ensures forall p | p in Eod.Step(c, s, e).tables.postings && ChargeOn(Eod.Step(c, s, e).tables.postings[p], kind, account, x) :: p in s.tables.postings
  {
    StepPosts(c, s, e);
  }

  /** A run that stopped is not resumed: once nobody works on a claimed date, no caller's posting aside, neither its fees
      nor, on a trigger day, its interest is ever posted again, although some accounts may not have been charged. */
  lemma {:induction false} NeverResumed(c: Schedule, s: Eod.State, es: seq<Eod.Event>, d: Day, kind: string, account: string, x: Day, p: Books.PostingId)
    requires Inv(s) && Eod.ValidRun(c, s, es) && Idle(s, d) && OneTrigger(c) && BelongsTo(c, kind, x, d)
    requires forall e | e in es && e.Outside? :: !ChargeOn(e.request, kind, account, x)
    requires p in Eod.Exec(c, s, es).tables.postings && ChargeOn(Eod.Exec(c, s, es).tables.postings[p], kind, account, x)
    ensures p in s.tables.postings
    decreases |es|
  {
    if es != [] {
      assert es[0] in es;
      StepPosts(c, s, es[0]);
      StepStaysIdle(c, s, es[0], d, kind, account, x);
      NeverResumed(c, Eod.Step(c, s, es[0]), es[1..], d, kind, account, x, p);
      PostingsStay(c, Eod.Step(c, s, es[0]), es[1..], p);
    }
  }
}
