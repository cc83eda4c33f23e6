/** What end of day leaves on the books: every balance is what the postings on them come to. */
module EodBooks {
  import opened Options
  import opened Books
  import opened Money
  import opened Posting
  import opened PostingService
  import opened Eod
  import opened EodGuarantees
  import opened EodCharges

  /** What a request is worth to an account on a date: its entries there, from its business date on. */
  function Effect(q: Request, x: string, d: int): int {
    if d < q.body.businessDate then 0 else NetTo(q.body.entries, x)
  }

  function Total(qs: seq<Request>, x: string, d: int): int {
    if qs == [] then 0 else Total(qs[..|qs| - 1], x, d) + Effect(qs[|qs| - 1], x, d)
  }

  /** The requests behind the postings, each once. */
  ghost predicate Behind(t: Tables, qs: seq<Request>) {
    && (forall i, j | 0 <= i < j < |qs| :: PostingIdFor(qs[i].key) != PostingIdFor(qs[j].key))
    && (forall i | 0 <= i < |qs| :: PostingIdFor(qs[i].key) in t.postings && t.postings[PostingIdFor(qs[i].key)] == qs[i])
    && forall p | p in t.postings :: exists i :: 0 <= i < |qs| && PostingIdFor(qs[i].key) == p
  }

  ghost predicate Booked(t: Tables, qs: seq<Request>) {
    Behind(t, qs) && forall x, d :: BalanceOn(t, x, d) == Total(qs, x, d)
  }

  lemma {:induction false} NothingBooked()
    ensures Booked(Eod.Initial().tables, [])
  {
  }

  lemma {:induction false} TotalNext(qs: seq<Request>, q: Request, x: string, d: int)
    ensures Total(qs + [q], x, d) == Total(qs, x, d) + Effect(q, x, d)
  {
    assert (qs + [q])[..|qs|] == qs;
  }

  lemma {:induction false} BehindNext(t: Tables, u: Tables, qs: seq<Request>, q: Request)
    requires Behind(t, qs) && PostingIdFor(q.key) !in t.postings && u.postings == t.postings[PostingIdFor(q.key) := q]
    ensures Behind(u, qs + [q])
  {
    var next := qs + [q];
    forall p | p in u.postings ensures exists i :: 0 <= i < |next| && PostingIdFor(next[i].key) == p {
      if p == PostingIdFor(q.key) {
        assert next[|qs|] == q;
      } else {
        var i :| 0 <= i < |qs| && PostingIdFor(qs[i].key) == p;
        assert next[i] == qs[i];
      }
    }
  }

  /** A request newly on the books adds its posting and its worth to every balance. */
  ghost predicate Adds(t: Tables, u: Tables, q: Request) {
    && PostingIdFor(q.key) !in t.postings && u.postings == t.postings[PostingIdFor(q.key) := q]
    && forall x, d :: BalanceOn(u, x, d) == BalanceOn(t, x, d) + Effect(q, x, d)
  }

  lemma {:induction false} PostedAdds(s: Eod.State, q: Request)
    requires RowsBacked(s.tables) && |q.body.entries| >= 1 && Known(q.body.currency)
    requires q.key !in s.tables.claims && PostingIdFor(q.key) !in s.tables.postings
    ensures Adds(s.tables, Posted(s, q).tables, q)
  {
    forall x, d ensures BalanceOn(Posted(s, q).tables, x, d) == BalanceOn(s.tables, x, d) + Effect(q, x, d) {
      PostedMoves(s, q, x, d);
    }
  }

  lemma {:induction false} NewlyBooked(t: Tables, u: Tables, q: Request, qs: seq<Request>)
    requires Booked(t, qs) && Adds(t, u, q)
    ensures Booked(u, qs + [q])
  {
    BehindNext(t, u, qs, q);
    forall x, d ensures BalanceOn(u, x, d) == Total(qs + [q], x, d) {
      TotalNext(qs, q, x, d);
    }
  }

  /** A request newly on the books joins the list; any other leaves the books alone. */
  lemma {:induction false} PostBooks(s: Eod.State, q: Request, qs: seq<Request>) returns (next: seq<Request>)
    requires RowsBacked(s.tables) && Booked(s.tables, qs) && |q.body.entries| >= 1 && Known(q.body.currency)
    ensures Booked(Posted(s, q).tables, next)
  {
    if q.key in s.tables.claims || PostingIdFor(q.key) in s.tables.postings {
      next := qs;
    } else {
      next := qs + [q];
      PostedAdds(s, q);
      NewlyBooked(s.tables, Posted(s, q).tables, q, qs);
    }
  }

  lemma {:induction false} StepBooks(c: Schedule, s: Eod.State, e: Eod.Event, qs: seq<Request>) returns (next: seq<Request>)
    requires Inv(s) && RowsBacked(s.tables) && Booked(s.tables, qs) && Eod.Enabled(c, s, e)
    ensures Booked(Eod.Step(c, s, e).tables, next) && RowsBacked(Eod.Step(c, s, e).tables)
  {
    var q := RequestOf(c, s, e);
    next := qs;
    if q.Some? {
      PostedBacksRows(s, q.value);
      next := PostBooks(s, q.value, qs);
    }
  }

  lemma {:induction false} RunBooks(c: Schedule, s: Eod.State, es: seq<Eod.Event>, qs: seq<Request>) returns (all: seq<Request>)
    requires Inv(s) && RowsBacked(s.tables) && Booked(s.tables, qs) && Eod.ValidRun(c, s, es)
    ensures Booked(Eod.Exec(c, s, es).tables, all)
    decreases |es|
  {
    all := qs;
    if es != [] {
      StepPosts(c, s, es[0]);
      var next := StepBooks(c, s, es[0], qs);
      all := RunBooks(c, Eod.Step(c, s, es[0]), es[1..], next);
    }
  }

  /** Over any interleaving of end-of-day runs and other callers, from empty tables: each account's balance on each date is
      the sum of the entries on it of the postings dated by then, each posting once. */
  lemma {:induction false} BalancesFollowPostings(c: Schedule, es: seq<Eod.Event>) returns (all: seq<Request>)
    requires Eod.ValidRun(c, Eod.Initial(), es)
    ensures Booked(Eod.Exec(c, Eod.Initial(), es).tables, all)
  {
    NothingBooked();
    all := RunBooks(c, Eod.Initial(), es, []);
  }
}
