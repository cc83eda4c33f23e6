/** GlobalInvariant over the one entries table all three writers share. */
module ZeroSum {
  import opened Books
  import opened Sorting
  import Posting
  import PostingService
  import PostingGuarantees
  import Delivery
  import DeliveryGuarantees
  import Eod

  // ---------------------------------------------------------------- order does not matter

  lemma {:induction false} DriftSplit(t: seq<Entry>, i: nat, c: string)
    requires i < |t|
    ensures Drift(t, c) == Drift(t[..i] + t[i + 1..], c) + Drift([t[i]], c)
  {
    assert t == t[..i] + [t[i]] + t[i + 1..];
    DriftConcat(t[..i] + [t[i]], t[i + 1..], c);
    DriftConcat(t[..i], [t[i]], c);
    DriftConcat(t[..i], t[i + 1..], c);
  }

  /** The drift of a table is that of its rows in any order. */
  lemma {:induction false} DriftPermutes(s: seq<Entry>, t: seq<Entry>, c: string)
    requires multiset(s) == multiset(t)
    ensures Drift(s, c) == Drift(t, c)
    decreases |s|
  {
    assert |multiset(s)| == |s| && |multiset(t)| == |t|;
    if s != [] {
      var n := |s| - 1;
      Snoc(s);
      SameElements(s, t, s[n]);
      var i :| 0 <= i < |t| && t[i] == s[n];
      WithoutOne(t, i);
      DriftPermutes(s[..n], t[..i] + t[i + 1..], c);
      DriftSplit(t, i, c);
      DriftSplit(s, n, c);
      assert s[..n] + s[n + 1..] == s[..n];
    }
  }

  lemma {:induction false} WithoutOne(t: seq<Entry>, i: nat)
    requires i < |t|
    ensures multiset(t[..i] + t[i + 1..]) == multiset(t) - multiset{t[i]}
  {
    assert t == t[..i] + [t[i]] + t[i + 1..];
  }

  // ---------------------------------------------------------------- end of day

  ghost predicate EodInv(s: Eod.State) {
    Balanced(PostingGuarantees.EntriesOf(s.tables.rows))
  }

  lemma {:induction false} PostedBalances(s: Eod.State, q: Posting.Request)
    requires EodInv(s) && Posting.Valid(q)
    ensures EodInv(Eod.Posted(s, q))
  {
    var ids := PostingService.Consecutive(s.nextEntry, |q.body.entries|);
    PostingGuarantees.PublishBalances(s.tables, q, ids);
  }

  /** Per-currency zero-sum in every state of any interleaving of end-of-day runs. */
  lemma {:induction false} EodBalances(c: Eod.Schedule, s: Eod.State, es: seq<Eod.Event>)
    requires EodInv(s) && Eod.ValidRun(c, s, es)
    ensures EodInv(Eod.Exec(c, s, es))
    decreases |es|
  {
    if es != [] {
      var e := es[0];
      if e.Interest? {
        PostedBalances(s, Eod.InterestRequest(c, e.account, e.amount, s.running[e.run]));
      } else if e.Fee? {
        PostedBalances(s, Eod.FeeRequest(c, e.account, e.fee, s.running[e.run]));
      } else if e.Outside? {
        PostedBalances(s, e.request);
      }
      EodBalances(c, Eod.Step(c, s, e), es[1..]);
    }
  }

  // ---------------------------------------------------------------- together

  /** Whatever the delivery mode, whatever the faults, however the rows of the consumer, of concurrent Post calls and of
      end-of-day runs interleave in the table: GlobalInvariant reads zero in every currency. */
  lemma {:induction false} BooksAlwaysBalance(m: Delivery.Mode, w: Delivery.World, ds: seq<Delivery.Event>, ps: seq<Posting.Event>,
                                              c: Eod.Schedule, es: seq<Eod.Event>, table: seq<Entry>)
    requires Delivery.Initial(w) && Delivery.ValidRun(m, w, ds)
    requires Posting.ValidRun(Posting.Empty(), ps) && Eod.ValidRun(c, Eod.Initial(), es)
    requires multiset(table) == multiset(Delivery.Exec(m, w, ds).db.entries)
                                + multiset(PostingGuarantees.EntriesOf(Posting.Exec(Posting.Empty(), ps).tables.rows))
                                + multiset(PostingGuarantees.EntriesOf(Eod.Exec(c, Eod.Initial(), es).tables.rows))
    ensures Balanced(table)
  {
    var a := Delivery.Exec(m, w, ds).db.entries;
    var b := PostingGuarantees.EntriesOf(Posting.Exec(Posting.Empty(), ps).tables.rows);
    var d := PostingGuarantees.EntriesOf(Eod.Exec(c, Eod.Initial(), es).tables.rows);
    DeliveryGuarantees.InitialFacts(m, w);
    DeliveryGuarantees.EveryModeBalances(m, w, ds);
    PostingGuarantees.WritePathBalances(ps);
    EodBalances(c, Eod.Initial(), es);
    BalancedConcat(a, b);
    BalancedConcat(a + b, d);
    assert multiset(table) == multiset(a + b + d);
    forall cur ensures Drift(table, cur) == 0 {
      DriftPermutes(table, a + b + d, cur);
    }
  }
}
