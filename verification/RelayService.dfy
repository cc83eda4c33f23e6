/** internal/ledger/outbox's Relay over the broker contract: claim, produce, mark, with postings in between, then again. */
module RelayService {
  import opened Relay
  import opened RelayGuarantees

  // ---------------------------------------------------------------- runs, composed

  lemma {:induction false} RunAppend(w: World, a: seq<Event>, b: seq<Event>)
    requires ValidRun(w, a) && ValidRun(Exec(w, a), b)
    ensures ValidRun(w, a + b) && Exec(w, a + b) == Exec(Exec(w, a), b)
    decreases |a|
  {
    if a == [] {
      assert a + b == b;
    } else {
      RunAppend(Step(w, a[0]), a[1..], b);
      assert (a + b)[1..] == a[1..] + b;
    }
  }

  lemma {:induction false} RunOne(w: World, e: Event)
    requires Enabled(w, e)
    ensures ValidRun(w, [e]) && Exec(w, [e]) == Step(w, e)
  {
    assert [e][1..] == [];
  }

  /** Postings and landings leave the claimed batch alone. */
  lemma {:induction false} BatchStays(w: World, es: seq<Event>)
    requires ValidRun(w, es) && w.flight.Flying? && forall e | e in es :: e.Post? || e.Land?
    ensures Exec(w, es).flight.Flying? && Exec(w, es).flight.batch == w.flight.batch
    decreases |es|
  {
    if es != [] {
      assert es[0] in es;
      BatchStays(Step(w, es[0]), es[1..]);
    }
  }

  /** What happens around one Drain: between claim and acknowledgement rows land and postings commit, before the mark
      postings commit.  A produce that succeeds has landed everything. */
  ghost predicate Around(w: World, limit: nat, during: seq<Event>, produced: bool, after: seq<Event>) {
    && w.flight.Resting?
    && (Oldest(w.outbox, limit) != [] ==>
          && ValidRun(Step(w, Claim(limit)), during) && (forall e | e in during :: e.Post? || e.Land?)
          && (produced ==> Enabled(Exec(Step(w, Claim(limit)), during), Mark))
          && ValidRun(Exec(Step(w, Claim(limit)), during), after) && (forall e | e in after :: e.Post?))
  }

  function DrainRun(w: World, limit: nat, during: seq<Event>, produced: bool, after: seq<Event>, markLanded: bool): seq<Event> {
    [Claim(limit)] + (if Oldest(w.outbox, limit) == [] then []
                      else during + (if produced then after + [if markLanded then Mark else Abandon] else [Abandon]))
  }

  lemma {:induction false} PostsKeepMark(w: World, es: seq<Event>)
    requires ValidRun(w, es) && Enabled(w, Mark) && forall e | e in es :: e.Post?
    ensures Enabled(Exec(w, es), Mark)
    decreases |es|
  {
    if es != [] {
      assert es[0] in es;
      PostsKeepMark(Step(w, es[0]), es[1..]);
    }
  }

  /** The last step of a drain that claimed something. */
  function LastStep(produced: bool, markLanded: bool): Event {
    if produced && markLanded then Mark else Abandon
  }

  /** A drain is a run of the machine: the claim, what happens around it, and a mark or a claim given up. */
  lemma {:induction false} DrainRuns(w: World, limit: nat, during: seq<Event>, produced: bool, after: seq<Event>, markLanded: bool)
    requires Around(w, limit, during, produced, after)
    ensures var run, w1 := DrainRun(w, limit, during, produced, after, markLanded), Step(w, Claim(limit));
            && ValidRun(w, run)
            && (Oldest(w.outbox, limit) == [] ==> Exec(w, run) == w1 && w1.flight.Resting?)
            && (Oldest(w.outbox, limit) != [] ==>
                  var w2 := Exec(w1, during);
                  var w3 := if produced then Exec(w2, after) else w2;
                  && Enabled(w3, LastStep(produced, markLanded)) && Exec(w, run) == Step(w3, LastStep(produced, markLanded))
                  && w3.flight.Flying? && w3.flight.batch == Oldest(w.outbox, limit))
  {
    var w1 := Step(w, Claim(limit));
    RunOne(w, Claim(limit));
    if Oldest(w.outbox, limit) == [] {
      assert [Claim(limit)] + [] == [Claim(limit)];
    } else {
      BatchStays(w1, during);
      FlightRuns(w1, during, produced, after, markLanded);
      RunAppend(w, [Claim(limit)], during + if produced then after + [LastStep(produced, markLanded)] else [LastStep(produced, markLanded)]);
    }
  }

  lemma {:induction false} FlightRuns(w: World, during: seq<Event>, produced: bool, after: seq<Event>, markLanded: bool)
    requires ValidRun(w, during) && Exec(w, during).flight.Flying? && (produced ==> Enabled(Exec(w, during), Mark))
    requires ValidRun(Exec(w, during), after) && (forall e | e in after :: e.Post?)
    ensures var w2, last := Exec(w, during), LastStep(produced, markLanded);
            var w3 := if produced then Exec(w2, after) else w2;
            var rest := during + if produced then after + [last] else [last];
            && Enabled(w3, last) && w3.flight.Flying? && w3.flight.batch == w2.flight.batch && ValidRun(w, rest) && Exec(w, rest) == Step(w3, last)
  {
    var w2, last := Exec(w, during), LastStep(produced, markLanded);
    if produced {
      BatchStays(w2, after);
      PostsKeepMark(w2, after);
      RunOne(Exec(w2, after), last);
      RunAppend(w2, after, [last]);
      RunAppend(w, during, after + [last]);
    } else {
      RunOne(w2, last);
      RunAppend(w, during, [last]);
    }
  }

  // ---------------------------------------------------------------- what one drain does to the table

  function Least(a: nat, b: nat): nat {
    if a < b then a else b
  }

  ghost function RowsOf(rows: seq<Row>): set<Row> {
    set r | r in rows
  }

  /** As many unsent rows as there are, up to the limit, of least id. */
  ghost predicate LeastUnsent(rows: seq<Row>, taken: set<Row>, limit: nat) {
    && taken <= UnsentRows(rows) && |taken| == Least(|UnsentRows(rows)|, limit)
    && forall x, y | x in taken && y in UnsentRows(rows) && y !in taken :: x.id < y.id
  }

  ghost function Arrivals(es: seq<Event>): set<Row> {
    set e | e in es && e.Post? :: e.row
  }

  ghost function ArrivalsOf(rows: seq<Row>, limit: nat, during: seq<Event>, produced: bool, after: seq<Event>): set<Row> {
    if Oldest(rows, limit) == [] then {} else Arrivals(during) + if produced then Arrivals(after) else {}
  }

  /** The rows taken turn sent if the mark landed, the arrivals join, and nothing else changes. */
  ghost function After(rows: set<Row>, taken: set<Row>, marked: bool, arrivals: set<Row>): set<Row> {
    (if marked then rows - taken + set r | r in taken :: Row(r.id, r.part, true) else rows) + arrivals
  }

  /** A drain of a table: the rows taken, and what became of all of them. */
  ghost predicate Drained(before: seq<Row>, now: seq<Row>, limit: nat, marked: bool, arrivals: set<Row>) {
    exists taken :: LeastUnsent(before, taken, limit) && RowsOf(now) == After(RowsOf(before), taken, marked, arrivals)
  }

  lemma {:induction false} OneArrives(w: World, e: Event)
    requires Inv(w) && Enabled(w, e) && (e.Post? || e.Land?)
    ensures Inv(Step(w, e)) && RowsOf(Step(w, e).outbox) == RowsOf(w.outbox) + Arrivals([e])
  {
    StepKeepsInv(w, e);
    if e.Post? {
      Placed(w.outbox, e.row);
      assert Arrivals([e]) == {e.row} by {
        assert e in [e];
      }
    } else {
      assert Arrivals([e]) == {};
    }
  }

  lemma {:induction false} ArrivalsHead(es: seq<Event>)
    requires es != []
    ensures Arrivals(es) == Arrivals([es[0]]) + Arrivals(es[1..])
  {
    assert forall e :: e in es <==> e in [es[0]] || e in es[1..];
  }

  lemma {:induction false} ArrivalsJoin(w: World, es: seq<Event>)
    requires Inv(w) && ValidRun(w, es) && forall e | e in es :: e.Post? || e.Land?
    ensures Inv(Exec(w, es)) && RowsOf(Exec(w, es).outbox) == RowsOf(w.outbox) + Arrivals(es)
    decreases |es|
  {
    if es == [] {
      assert Arrivals(es) == {};
    } else {
      assert es[0] in es;
      OneArrives(w, es[0]);
      ArrivalsJoin(Step(w, es[0]), es[1..]);
      ArrivalsHead(es);
    }
  }

  lemma {:induction false} MarkTurns(w: World)
    requires Inv(w) && Enabled(w, Mark)
    ensures RowsOf(Step(w, Mark).outbox) == After(RowsOf(w.outbox), RowsOf(w.flight.batch), true, {})
  {
    var ids, rows, batch := IdsOf(w.flight.batch), w.outbox, w.flight.batch;
    var marked := MarkSent(rows, ids);
    forall r ensures r in marked <==> r in After(RowsOf(rows), RowsOf(batch), true, {}) {
      MarkedRow(w, r);
    }
  }

  /** A row's id is in the batch's exactly when the row is. */
  lemma {:induction false} InBatch(w: World, i: nat)
    requires Inv(w) && w.flight.Flying? && i < |w.outbox|
    ensures w.outbox[i].id in IdsOf(w.flight.batch) <==> w.outbox[i] in w.flight.batch
  {
    var batch := w.flight.batch;
    if k :| 0 <= k < |batch| && batch[k].id == w.outbox[i].id {
      assert batch[k] in batch;
      var j :| 0 <= j < |w.outbox| && w.outbox[j] == batch[k];
      OlderIsBefore(w.outbox, i, j);
      OlderIsBefore(w.outbox, j, i);
    }
  }

  lemma {:induction false} MarkedRow(w: World, r: Row)
    requires Inv(w) && Enabled(w, Mark)
    ensures r in MarkSent(w.outbox, IdsOf(w.flight.batch)) <==> r in After(RowsOf(w.outbox), RowsOf(w.flight.batch), true, {})
  {
    var rows, batch := w.outbox, w.flight.batch;
    var marked := MarkSent(rows, IdsOf(batch));
    if r in marked {
      var i :| 0 <= i < |marked| && marked[i] == r;
      RowAfter(w, i, marked);
    }
    if r in rows && r !in batch {
      var i :| 0 <= i < |rows| && rows[i] == r;
      RowAfter(w, i, marked);
    }
    if b :| b in batch && r == Row(b.id, b.part, true) {
      var i :| 0 <= i < |rows| && rows[i] == b;
      RowAfter(w, i, marked);
    }
    AfterIs(rows, batch, r);
  }

  lemma {:induction false} AfterIs(rows: seq<Row>, batch: seq<Row>, r: Row)
    ensures r in After(RowsOf(rows), RowsOf(batch), true, {}) <==> (r in rows && r !in batch) || exists b :: b in batch && r == Row(b.id, b.part, true)
  {
  }

  lemma {:induction false} RowAfter(w: World, i: nat, marked: seq<Row>)
    requires Inv(w) && w.flight.Flying? && i < |w.outbox| && marked == MarkSent(w.outbox, IdsOf(w.flight.batch))
    ensures |marked| == |w.outbox| && w.outbox[i] in w.outbox
    ensures marked[i] == if w.outbox[i] in w.flight.batch then Row(w.outbox[i].id, w.outbox[i].part, true) else w.outbox[i]
  {
    InBatch(w, i);
  }

  lemma {:induction false} TakenAre(w: World, limit: nat)
    requires Inv(w)
    ensures LeastUnsent(w.outbox, RowsOf(Oldest(w.outbox, limit)), limit)
    ensures |Oldest(w.outbox, limit)| == Least(|UnsentRows(w.outbox)|, limit)
  {
    OldestAre(w.outbox, limit);
    DistinctRows(Oldest(w.outbox, limit));
  }

  lemma {:induction false} DistinctRows(rows: seq<Row>)
    requires Ordered(rows)
    ensures |RowsOf(rows)| == |rows|
    decreases |rows|
  {
    if rows != [] {
      var n := |rows| - 1;
      LastIsYoungest(rows);
      DistinctRows(rows[..n]);
      assert RowsOf(rows) == RowsOf(rows[..n]) + {rows[n]};
    }
  }

  lemma {:induction false} DrainDoes(w: World, limit: nat, during: seq<Event>, produced: bool, after: seq<Event>, markLanded: bool)
    requires Inv(w) && Around(w, limit, during, produced, after)
    ensures |Oldest(w.outbox, limit)| == Least(|UnsentRows(w.outbox)|, limit)
    ensures var run := DrainRun(w, limit, during, produced, after, markLanded);
            && ValidRun(w, run) && Inv(Exec(w, run))
            && Drained(w.outbox, Exec(w, run).outbox, limit, produced && markLanded, ArrivalsOf(w.outbox, limit, during, produced, after))
  {
    TakenAre(w, limit);
    var taken, w1 := RowsOf(Oldest(w.outbox, limit)), Step(w, Claim(limit));
    RunOne(w, Claim(limit));
    StepKeepsInv(w, Claim(limit));
    if Oldest(w.outbox, limit) == [] {
      assert [Claim(limit)] + [] == [Claim(limit)];
      assert After(RowsOf(w.outbox), taken, produced && markLanded, {}) == RowsOf(w.outbox);
    } else {
      FlightDoes(w1, during, produced, after, markLanded);
      var rest := during + if produced then after + [if markLanded then Mark else Abandon] else [Abandon];
      RunAppend(w, [Claim(limit)], rest);
    }
  }

  lemma {:induction false} FlightDoes(w: World, during: seq<Event>, produced: bool, after: seq<Event>, markLanded: bool)
    requires Inv(w) && w.flight.Flying? && (forall r | r in w.flight.batch :: !r.sent)
    requires ValidRun(w, during) && (forall e | e in during :: e.Post? || e.Land?) && (produced ==> Enabled(Exec(w, during), Mark))
    requires ValidRun(Exec(w, during), after) && (forall e | e in after :: e.Post?)
    ensures var rest := during + if produced then after + [if markLanded then Mark else Abandon] else [Abandon];
            && ValidRun(w, rest) && Inv(Exec(w, rest))
            && RowsOf(Exec(w, rest).outbox) == After(RowsOf(w.outbox), RowsOf(w.flight.batch), produced && markLanded, Arrivals(during) + if produced then Arrivals(after) else {})
  {
    var w2 := Exec(w, during);
    ArrivalsJoin(w, during);
    BatchStays(w, during);
    if !produced {
      RunOne(w2, Abandon);
      RunAppend(w, during, [Abandon]);
    } else {
      var w3, last := Exec(w2, after), if markLanded then Mark else Abandon;
      ArrivalsJoin(w2, after);
      BatchStays(w2, after);
      PostsKeepMark(w2, after);
      StepKeepsInv(w3, last);
      RunOne(w3, last);
      RunAppend(w2, after, [last]);
      RunAppend(w, during, after + [last]);
      if markLanded {
        MarkTurns(w3);
        ArrivalsAreNew(w, during, w.flight.batch);
        ArrivalsAreNew(w2, after, w.flight.batch);
      }
    }
  }

  /** What arrives is no row of the batch: ids are drawn once. */
  lemma {:induction false} ArrivalsAreNew(w: World, es: seq<Event>, batch: seq<Row>)
    requires Inv(w) && ValidRun(w, es) && (forall e | e in es :: e.Post? || e.Land?) && forall r | r in batch :: r in w.outbox
    ensures Arrivals(es) !! RowsOf(batch)
    decreases |es|
  {
    if es != [] {
      var w' := Step(w, es[0]);
      assert es[0] in es;
      StepKeepsInv(w, es[0]);
      if es[0].Post? {
        Placed(w.outbox, es[0].row);
      }
      ArrivalsAreNew(w', es[1..], batch);
      assert forall e :: e in es <==> e == es[0] || e in es[1..];
    }
  }

  class Service {
    var outbox: seq<Row>
    var logs: seq<seq<nat>>
    var flight: Flight

    function Abs(): World
      reads this
    {
      World(outbox, logs, flight)
    }

    method Do(e: Event)
      requires Enabled(Abs(), e)
      modifies this
      ensures Abs() == Step(old(Abs()), e)
    {
      var w := Step(Abs(), e);
      outbox, logs, flight := w.outbox, w.logs, w.flight;
    }

    /** What other connections commit and what the broker takes. */
    method Others(es: seq<Event>)
      requires ValidRun(Abs(), es)
      modifies this
      ensures Abs() == Exec(old(Abs()), es)
    {
      for i := 0 to |es|
        invariant ValidRun(Abs(), es[i..]) && Exec(Abs(), es[i..]) == Exec(old(Abs()), es)
      {
        assert es[i..][0] == es[i] && es[i..][1..] == es[i + 1..];
        Do(es[i]);
      }
    }

    /** Drain: claim, produce, and only then mark.  markLanded without markAcked is a mark whose answer was lost. */
    method Drain(limit: nat, during: seq<Event>, produced: bool, after: seq<Event>, markLanded: bool, markAcked: bool) returns (n: nat, ok: bool)
      requires Around(Abs(), limit, during, produced, after) && (markAcked ==> markLanded)
      modifies this
      ensures var run := DrainRun(old(Abs()), limit, during, produced, after, markLanded);
              ValidRun(old(Abs()), run) && Abs() == Exec(old(Abs()), run)
      ensures flight.Resting?
      ensures n == if produced then |Oldest(old(outbox), limit)| else 0
      ensures ok <==> Oldest(old(outbox), limit) == [] || (produced && markAcked)
      ensures old(Inv(Abs())) ==>
                && Inv(Abs()) && (ok ==> n == Least(|UnsentRows(old(outbox))|, limit))
                && Drained(old(outbox), outbox, limit, produced && markLanded, ArrivalsOf(old(outbox), limit, during, produced, after))
    {
      ghost var w := Abs();
      if Inv(w) {
        DrainDoes(w, limit, during, produced, after, markLanded);
      }
      DrainRuns(w, limit, during, produced, after, markLanded);
      var batch := Oldest(outbox, limit);
      Do(Claim(limit));
      if batch == [] {
        return 0, true;
      }
      var ids: set<nat> := {};
      for i := 0 to |batch|
        invariant ids == IdsOf(batch[..i]) && Abs() == Step(w, Claim(limit))
      {
        IdsSnoc(batch[..i], batch[i]);
        assert batch[..i + 1] == batch[..i] + [batch[i]];
        ids := ids + {batch[i].id};
      }
      assert batch[..|batch|] == batch;
      Others(during);
      if !produced {
        flight := Resting;
        return 0, false;
      }
      Others(after);
      if markLanded {
        outbox := MarkSent(outbox, ids);
      }
      flight := Resting;
      return |batch|, markAcked;
    }

    /** The shutdown loop with no faults: it stops, and then every committed row is sent and logged. */
    method DrainAll(limit: nat)
      requires Inv(Abs()) && flight.Resting? && limit > 0
      modifies this
      ensures Inv(Abs()) && |outbox| == |old(outbox)|
      ensures forall i | 0 <= i < |outbox| :: outbox[i].sent && outbox[i].id == old(outbox)[i].id && outbox[i].part == old(outbox)[i].part
      ensures old(AllRisen(Abs())) ==> forall p | 0 <= p < |logs| :: Firsts(logs[p]) == To(outbox, p)
    {
      var n := 1;
      while n > 0
        invariant Inv(Abs()) && flight.Resting? && SameRows(outbox, old(outbox))
        invariant old(AllRisen(Abs())) ==> AllRisen(Abs())
        invariant n == 0 ==> Unsent(outbox) == []
        decreases |Unsent(outbox)|, n
      {
        n := DrainOnce(limit);
      }
      AllSent(Abs());
      if AllRisen(Abs()) {
        AllLogged(Abs());
      }
    }

    /** One pass of that loop. */
    method DrainOnce(limit: nat) returns (n: nat)
      requires Inv(Abs()) && flight.Resting? && limit > 0
      modifies this
      ensures Inv(Abs()) && flight.Resting? && SameRows(outbox, old(outbox)) && (old(AllRisen(Abs())) ==> AllRisen(Abs()))
      ensures n == 0 <==> old(Unsent(outbox)) == []
      ensures n == 0 ==> Unsent(outbox) == []
      ensures n > 0 ==> |Unsent(outbox)| < |old(Unsent(outbox))|
    {
      ghost var w := Abs();
      PassRuns(w, limit);
      var ok;
      n, ok := Drain(limit, Landings(Oldest(outbox, limit)), true, [], true, true);
      PassDone(w, limit, Abs(), n);
    }
  }

  lemma {:induction false} IdsSnoc(rows: seq<Row>, r: Row)
    ensures IdsOf(rows + [r]) == IdsOf(rows) + {r.id}
  {
    assert forall k | 0 <= k < |rows| :: (rows + [r])[k] == rows[k];
    assert (rows + [r])[|rows|] == r;
  }

  // ---------------------------------------------------------------- a pass without faults

  /** The in-process broker takes the batch record by record. */
  function Landings(batch: seq<Row>): (r: seq<Event>)
    ensures |r| == |batch| && forall i | 0 <= i < |batch| :: r[i] == Land(batch[i].part)
  {
    seq(|batch|, i requires 0 <= i < |batch| => Land(batch[i].part))
  }

  lemma {:induction false} ToCons(rows: seq<Row>, p: nat)
    requires rows != []
    ensures To(rows, p) == (if rows[0].part == p then [rows[0].id] else []) + To(rows[1..], p)
    decreases |rows|
  {
    var n := |rows| - 1;
    if n > 0 {
      ToCons(rows[..n], p);
      assert rows[..n][1..] == rows[1..][..n - 1];
    }
  }

  /** Nothing else of the batch is left than these rows. */
  ghost predicate StillToLand(w: World, rows: seq<Row>) {
    && w.flight.Flying? && |w.flight.left| == |w.logs| && (forall i | 0 <= i < |rows| :: rows[i].part < |w.logs|)
    && (forall p | 0 <= p < |w.logs| :: w.flight.left[p] == To(rows, p))
  }

  lemma {:induction false} FirstLands(w: World, rows: seq<Row>)
    requires rows != [] && StillToLand(w, rows)
    ensures var e := Land(rows[0].part);
            Enabled(w, e) && StillToLand(Step(w, e), rows[1..]) && Step(w, e).outbox == w.outbox &&
            Step(w, e).flight.batch == w.flight.batch && |Step(w, e).logs| == |w.logs| &&
            forall p | 0 <= p < |w.logs| :: w.logs[p] + To(rows, p) == Step(w, e).logs[p] + To(rows[1..], p)
  {
    var q := rows[0].part;
    forall p | 0 <= p < |w.logs| ensures To(rows, p) == (if q == p then [rows[0].id] else []) + To(rows[1..], p) {
      ToCons(rows, p);
    }
    assert w.flight.left[q][1..] == To(rows[1..], q);
  }

  /** Taken record by record, a batch lands whole: each partition gets its share in order and nothing is left. */
  lemma {:induction false} AllLand(w: World, rows: seq<Row>)
    requires StillToLand(w, rows)
    ensures ValidRun(w, Landings(rows))
    ensures var w' := Exec(w, Landings(rows));
            && w'.outbox == w.outbox && |w'.logs| == |w.logs| && Enabled(w', Mark) && w'.flight.batch == w.flight.batch
            && forall p | 0 <= p < |w.logs| :: w'.logs[p] == w.logs[p] + To(rows, p)
    decreases |rows|
  {
    if rows == [] {
      assert Landings(rows) == [];
    } else {
      FirstLands(w, rows);
      LandingsCons(rows);
      AllLand(Step(w, Land(rows[0].part)), rows[1..]);
    }
  }

  lemma {:induction false} LandingsCons(rows: seq<Row>)
    requires rows != []
    ensures Landings(rows) != [] && Landings(rows)[0] == Land(rows[0].part) && Landings(rows)[1..] == Landings(rows[1..])
  {
  }

  lemma {:induction false} NoPostsNeverLate(w: World, es: seq<Event>)
    requires ValidRun(w, es) && forall e | e in es :: !e.Post?
    ensures NeverLate(w, es)
    decreases |es|
  {
    if es != [] {
      assert es[0] in es;
      NoPostsNeverLate(Step(w, es[0]), es[1..]);
    }
  }

  lemma {:induction false} PassRuns(w: World, limit: nat)
    requires Inv(w) && w.flight.Resting?
    ensures var batch, lands := Oldest(w.outbox, limit), Landings(Oldest(w.outbox, limit));
            && Around(w, limit, lands, true, [])
            && ValidRun(w, DrainRun(w, limit, lands, true, [], true))
            && Exec(w, DrainRun(w, limit, lands, true, [], true)).outbox == MarkSent(w.outbox, IdsOf(batch))
  {
    var batch, lands := Oldest(w.outbox, limit), Landings(Oldest(w.outbox, limit));
    RunOne(w, Claim(limit));
    var w1 := Step(w, Claim(limit));
    if batch == [] {
      assert [Claim(limit)] + [] == [Claim(limit)];
      assert MarkSent(w.outbox, IdsOf(batch)) == w.outbox;
    } else {
      ClaimIsUnsent(w.outbox, limit);
      assert forall i | 0 <= i < |batch| :: batch[i] in batch;
      AllLand(w1, batch);
      RunOne(Exec(w1, lands), Mark);
      RunAppend(w1, lands, [Mark]);
      RunAppend(w, [Claim(limit)], lands + [Mark]);
      assert [] + [Mark] == [Mark];
    }
  }

  lemma {:induction false} PassFacts(w: World, limit: nat)
    requires Inv(w) && w.flight.Resting?
    ensures var lands := Landings(Oldest(w.outbox, limit));
            && Around(w, limit, lands, true, [])
            && ValidRun(w, DrainRun(w, limit, lands, true, [], true))
            && var w' := Exec(w, DrainRun(w, limit, lands, true, [], true));
               Inv(w') && SameRows(w'.outbox, w.outbox) && (AllRisen(w) ==> AllRisen(w')) &&
               w'.outbox == MarkSent(w.outbox, IdsOf(Oldest(w.outbox, limit)))
  {
    var run := DrainRun(w, limit, Landings(Oldest(w.outbox, limit)), true, [], true);
    PassRuns(w, limit);
    RunKeepsInv(w, run);
    NoPostsNeverLate(w, run);
    if AllRisen(w) {
      OrderExactlyWhenNeverLate(w, run);
    }
  }

  /** What a pass without faults leaves, and what its count says. */
  lemma {:induction false} PassDone(w: World, limit: nat, w': World, n: nat)
    requires Inv(w) && w.flight.Resting? && limit > 0 && n == |Oldest(w.outbox, limit)|
    requires var run := DrainRun(w, limit, Landings(Oldest(w.outbox, limit)), true, [], true); ValidRun(w, run) && w' == Exec(w, run)
    ensures Inv(w') && SameRows(w'.outbox, w.outbox) && (AllRisen(w) ==> AllRisen(w'))
    ensures n == 0 <==> Unsent(w.outbox) == []
    ensures n == 0 ==> Unsent(w'.outbox) == []
    ensures n > 0 ==> |Unsent(w'.outbox)| < |Unsent(w.outbox)|
  {
    PassFacts(w, limit);
    MarkShrinks(w.outbox, limit);
    if n == 0 {
      NoneMarked(w.outbox);
    }
  }

  lemma {:induction false} NoneMarked(rows: seq<Row>)
    ensures MarkSent(rows, {}) == rows && IdsOf([]) == {}
  {
  }

  ghost predicate SameRows(a: seq<Row>, b: seq<Row>) {
    |a| == |b| && forall i | 0 <= i < |a| :: a[i].id == b[i].id && a[i].part == b[i].part
  }

  lemma {:induction false} MarkedUnsent(rows: seq<Row>, ids: set<nat>)
    ensures |Unsent(MarkSent(rows, ids))| <= |Unsent(rows)|
    ensures (exists r :: r in rows && !r.sent && r.id in ids) ==> |Unsent(MarkSent(rows, ids))| < |Unsent(rows)|
    decreases |rows|
  {
    if rows != [] {
      var n := |rows| - 1;
      MarkedUnsent(rows[..n], ids);
      assert MarkSent(rows, ids)[..n] == MarkSent(rows[..n], ids);
      assert rows == rows[..n] + [rows[n]];
    }
  }

  /** Marking a non-empty claim leaves fewer rows unsent; an empty claim means none are. */
  lemma {:induction false} MarkShrinks(rows: seq<Row>, limit: nat)
    requires Ordered(rows) && limit > 0
    ensures Oldest(rows, limit) == [] <==> Unsent(rows) == []
    ensures Oldest(rows, limit) != [] ==> |Unsent(MarkSent(rows, IdsOf(Oldest(rows, limit))))| < |Unsent(rows)|
  {
    var c := Oldest(rows, limit);
    if c != [] {
      ClaimIsUnsent(rows, limit);
      assert c[0] in c && c[0].id in IdsOf(c);
      MarkedUnsent(rows, IdsOf(c));
    }
  }

  lemma {:induction false} AllSent(w: World)
    requires Inv(w) && Unsent(w.outbox) == []
    ensures forall i | 0 <= i < |w.outbox| :: w.outbox[i].sent
  {
    UnsentAre(w.outbox);
    assert forall i | 0 <= i < |w.outbox| :: w.outbox[i] in w.outbox;
  }

  /** When all is sent the first occurrences are the whole outbox. */
  lemma {:induction false} AllLogged(w: World)
    requires Inv(w) && AllRisen(w) && forall i | 0 <= i < |w.outbox| :: w.outbox[i].sent
    ensures forall p | 0 <= p < |w.logs| :: Firsts(w.logs[p]) == To(w.outbox, p)
  {
    RisenIsOrder(w);
    forall p | 0 <= p < |w.logs| ensures Firsts(w.logs[p]) == To(w.outbox, p) {
      var xs, ys := Firsts(w.logs[p]), To(w.outbox, p);
      forall y | y in ys ensures y in xs {
        ToHas(w.outbox, p, y);
        HoldsIs(w.outbox, p, y);
        FirstsHave(w.logs[p], y);
      }
      ToIncreases(w.outbox, p);
      WholePrefix(xs, ys);
    }
  }

  lemma {:induction false} WholePrefix(xs: seq<nat>, ys: seq<nat>)
    requires Increasing(ys) && xs <= ys && forall y | y in ys :: y in xs
    ensures xs == ys
  {
    assert forall i | 0 <= i < |xs| :: xs[i] == ys[i];
    assert Increasing(xs) && forall x | x in xs :: x in ys;
    ClosedIsPrefix(ys, xs);
  }
}
