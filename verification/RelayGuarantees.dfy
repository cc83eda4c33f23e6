/** What the relay guarantees: at-least-once whatever becomes visible when, and order exactly when nothing is late. */
module RelayGuarantees {
  import opened Relay

  // ---------------------------------------------------------------- whatever becomes visible when

  /** The batch in flight consists of rows of the outbox, each logged or still to land; each partition's rest rises. */
  ghost predicate FlightOk(w: World) {
    w.flight.Flying? ==>
      && |w.flight.left| == |w.logs|
      && (forall p | 0 <= p < |w.logs| :: Increasing(w.flight.left[p]))
      && (forall p, x | 0 <= p < |w.logs| && x in w.flight.left[p] :: Holds(w.outbox, p, x))
      && (forall r | r in w.flight.batch :: r in w.outbox && r.part < |w.logs| && (r.id in w.logs[r.part] || r.id in w.flight.left[r.part]))
  }

  /** Every sent row is in its partition's log, and every logged id is a row of that partition. */
  ghost predicate LogsOk(w: World) {
    && Ordered(w.outbox)
    && (forall r | r in w.outbox :: r.part < |w.logs| && (r.sent ==> r.id in w.logs[r.part]))
    && (forall p, x | 0 <= p < |w.logs| && x in w.logs[p] :: Holds(w.outbox, p, x))
  }

  ghost predicate Inv(w: World) {
    LogsOk(w) && FlightOk(w)
  }

  lemma {:induction false} HoldsIs(rows: seq<Row>, p: nat, x: nat)
    ensures Holds(rows, p, x) <==> exists r :: r in rows && r.part == p && r.id == x
  {
    if Holds(rows, p, x) {
      var i :| 0 <= i < |rows| && rows[i].part == p && rows[i].id == x;
      assert rows[i] in rows;
    }
  }

  lemma {:induction false} PostKeepsInv(w: World, r: Row)
    requires Inv(w) && Enabled(w, Post(r))
    ensures Inv(Step(w, Post(r)))
    ensures forall p, x :: Holds(Step(w, Post(r)).outbox, p, x) <==> Holds(w.outbox, p, x) || (p == r.part && x == r.id)
  {
    Placed(w.outbox, r);
    forall p, x ensures Holds(Place(w.outbox, r), p, x) <==> Holds(w.outbox, p, x) || (p == r.part && x == r.id) {
      HoldsIs(w.outbox, p, x);
      HoldsIs(Place(w.outbox, r), p, x);
    }
  }

  /** What a claim sends to a partition are unsent rows of that partition. */
  lemma {:induction false} ClaimedAreRows(w: World, limit: nat, p: nat, x: nat)
    requires Inv(w) && x in To(Oldest(w.outbox, limit), p)
    ensures Holds(w.outbox, p, x)
  {
    ToHas(Oldest(w.outbox, limit), p, x);
    HoldsIs(Oldest(w.outbox, limit), p, x);
    ClaimIsUnsent(w.outbox, limit);
    HoldsIs(w.outbox, p, x);
  }

  lemma {:induction false} ClaimKeepsInv(w: World, limit: nat)
    requires Inv(w) && Enabled(w, Claim(limit))
    ensures Inv(Step(w, Claim(limit)))
  {
    var batch := Oldest(w.outbox, limit);
    ClaimIsUnsent(w.outbox, limit);
    forall p | 0 <= p < |w.logs| ensures Increasing(To(batch, p)) && forall x | x in To(batch, p) :: Holds(w.outbox, p, x) {
      ToIncreases(batch, p);
      forall x | x in To(batch, p) ensures Holds(w.outbox, p, x) {
        ClaimedAreRows(w, limit, p, x);
      }
    }
    forall r | r in batch ensures r.id in To(batch, r.part) {
      HoldsIs(batch, r.part, r.id);
      ToHas(batch, r.part, r.id);
    }
  }

  /** Landing moves one id from what is left of the batch to the log. */
  lemma {:induction false} LandMoves(w: World, q: nat, p: nat, x: nat)
    requires Inv(w) && Enabled(w, Land(q)) && p < |w.logs|
    ensures var w' := Step(w, Land(q));
            && (x in w'.logs[p] <==> x in w.logs[p] || (p == q && x == w.flight.left[q][0]))
            && (x in w.flight.left[p] <==> x in w'.flight.left[p] || (p == q && x == w.flight.left[q][0]))
  {
    assert w.flight.left[q] == [w.flight.left[q][0]] + w.flight.left[q][1..];
  }

  lemma {:induction false} LandKeepsInv(w: World, q: nat)
    requires Inv(w) && Enabled(w, Land(q))
    ensures Inv(Step(w, Land(q)))
  {
    var w' := Step(w, Land(q));
    forall p, x | 0 <= p < |w.logs|
      ensures x in w'.logs[p] ==> Holds(w.outbox, p, x)
      ensures x in w.logs[p] ==> x in w'.logs[p]
      ensures x in w'.flight.left[p] ==> x in w.flight.left[p]
      ensures x in w.flight.left[p] ==> x in w'.logs[p] || x in w'.flight.left[p]
    {
      LandMoves(w, q, p, x);
    }
  }

  lemma {:induction false} MarkedRows(rows: seq<Row>, ids: set<nat>)
    ensures forall p, x :: Holds(MarkSent(rows, ids), p, x) <==> Holds(rows, p, x)
    ensures Ordered(rows) ==> Ordered(MarkSent(rows, ids))
  {
    var marked := MarkSent(rows, ids);
    forall p, x ensures Holds(marked, p, x) <==> Holds(rows, p, x) {
      if Holds(rows, p, x) {
        var i :| 0 <= i < |rows| && rows[i].part == p && rows[i].id == x;
        assert marked[i].part == p;
      }
    }
  }

  /** The rows a mark touches are the batch's own, and all of those have landed. */
  lemma {:induction false} MarkedIsLogged(w: World, i: nat)
    requires Inv(w) && Enabled(w, Mark) && i < |w.outbox| && w.outbox[i].id in IdsOf(w.flight.batch)
    ensures w.outbox[i].part < |w.logs| && w.outbox[i].id in w.logs[w.outbox[i].part]
  {
    var batch, r := w.flight.batch, w.outbox[i];
    var k :| 0 <= k < |batch| && batch[k].id == r.id;
    assert batch[k] in batch;
    var j :| 0 <= j < |w.outbox| && w.outbox[j] == batch[k];
    OlderIsBefore(w.outbox, i, j);
    OlderIsBefore(w.outbox, j, i);
  }

  lemma {:induction false} MarkKeepsInv(w: World)
    requires Inv(w) && Enabled(w, Mark)
    ensures Inv(Step(w, Mark))
  {
    var ids, w' := IdsOf(w.flight.batch), Step(w, Mark);
    MarkedRows(w.outbox, ids);
    forall r | r in w'.outbox ensures r.part < |w.logs| && (r.sent ==> r.id in w.logs[r.part]) {
      var i :| 0 <= i < |w'.outbox| && w'.outbox[i] == r;
      assert w.outbox[i] in w.outbox;
      if w.outbox[i].id in ids {
        MarkedIsLogged(w, i);
      }
    }
  }

  lemma {:induction false} StepKeepsInv(w: World, e: Event)
    requires Inv(w) && Enabled(w, e)
    ensures Inv(Step(w, e))
  {
    match e
    case Post(r) => PostKeepsInv(w, r);
    case Claim(limit) => ClaimKeepsInv(w, limit);
    case Land(p) => LandKeepsInv(w, p);
    case Mark => MarkKeepsInv(w);
    case Abandon =>
  }

  lemma {:induction false} RunKeepsInv(w: World, es: seq<Event>)
    requires Inv(w) && ValidRun(w, es)
    ensures Inv(Exec(w, es))
    decreases |es|
  {
    if es != [] {
      StepKeepsInv(w, es[0]);
      RunKeepsInv(Step(w, es[0]), es[1..]);
    }
  }

  /** A committed row stays; only a post adds one. */
  lemma {:induction false} StepHolds(w: World, e: Event, p: nat, x: nat)
    requires Inv(w) && Enabled(w, e)
    ensures Holds(Step(w, e).outbox, p, x) <==> Holds(w.outbox, p, x) || (e.Post? && p == e.row.part && x == e.row.id)
  {
    if e.Post? {
      PostKeepsInv(w, e.row);
    } else if e.Mark? {
      MarkedRows(w.outbox, IdsOf(w.flight.batch));
    }
  }

  /** At least once, in whatever order ids become visible: over any run in which postings commit at any point of a claim,
      and claims are given up anywhere, every sent row is in its partition's log, nothing is logged that is not a row of
      the partition, and no row, once committed, leaves the outbox: an unsent one is still there to be claimed. */
  lemma {:induction false} AtLeastOnce(w: World, es: seq<Event>)
    requires Inv(w) && ValidRun(w, es)
    ensures var w' := Exec(w, es);
            && (forall r | r in w'.outbox && r.sent :: r.part < |w'.logs| && r.id in w'.logs[r.part])
            && (forall p, x | 0 <= p < |w'.logs| && x in w'.logs[p] :: Holds(w'.outbox, p, x))
            && (forall p, x | Holds(w.outbox, p, x) :: Holds(w'.outbox, p, x))
            && (forall r | r in w'.outbox && !r.sent :: r in Unsent(w'.outbox))
    decreases |es|
  {
    if es != [] {
      StepKeepsInv(w, es[0]);
      AtLeastOnce(Step(w, es[0]), es[1..]);
      forall p, x | Holds(w.outbox, p, x) ensures Holds(Step(w, es[0]).outbox, p, x) {
        StepHolds(w, es[0], p, x);
      }
    } else {
      UnsentAre(w.outbox);
    }
  }

  // ---------------------------------------------------------------- order

  /** First occurrences rise, and every row below a logged one is logged. */
  ghost predicate Risen(log: seq<nat>, rows: seq<Row>, p: nat) {
    && Increasing(Firsts(log))
    && (forall x | x in log :: Holds(rows, p, x))
    && (forall x: nat, y: nat | x in log && Holds(rows, p, y) && y < x :: y in log)
  }

  /** In a partition's log the first occurrences are a prefix of what the outbox sends there. */
  ghost predicate InOutboxOrder(w: World) {
    forall p | 0 <= p < |w.logs| :: Firsts(w.logs[p]) <= To(w.outbox, p)
  }

  lemma {:induction false} RisesByOne(log: seq<nat>, rows: seq<Row>, p: nat, x: nat)
    requires Risen(log, rows, p) && Holds(rows, p, x) && forall y: nat | Holds(rows, p, y) && y < x :: y in log
    ensures Risen(log + [x], rows, p)
  {
    assert (log + [x])[..|log|] == log;
    if x !in Firsts(log) {
      FirstsHave(log, x);
      forall k | 0 <= k < |Firsts(log)| ensures Firsts(log)[k] < x {
        FirstsHave(log, Firsts(log)[k]);
        assert Firsts(log)[k] in log;
      }
    }
  }

  ghost predicate AllRisen(w: World) {
    forall p | 0 <= p < |w.logs| :: Risen(w.logs[p], w.outbox, p)
  }

  /** Two rising lists: what is contained and closed downwards is a prefix. */
  lemma {:induction false} ClosedIsPrefix(xs: seq<nat>, ys: seq<nat>)
    requires Increasing(xs) && Increasing(ys) && (forall x | x in xs :: x in ys)
    requires forall x, y | x in xs && y in ys && y < x :: y in xs
    ensures xs <= ys
    decreases |xs|
  {
    if xs != [] {
      var n := |xs| - 1;
      var init, last := xs[..n], xs[n];
      assert forall i | 0 <= i < n :: init[i] == xs[i] && xs[i] < last;
      forall x, y | x in init && y in ys && y < x ensures y in init {
        assert x in xs;
        var k :| 0 <= k < |xs| && xs[k] == y;
        assert xs[n] > x;
        assert init[k] == y;
      }
      forall x | x in init ensures x in ys {
        assert x in xs;
      }
      ClosedIsPrefix(init, ys);
      LastFollows(xs, ys);
    }
  }

  lemma {:induction false} LastFollows(xs: seq<nat>, ys: seq<nat>)
    requires Increasing(xs) && Increasing(ys) && xs != [] && xs[..|xs| - 1] <= ys && xs[|xs| - 1] in ys
    requires forall x, y | x in xs && y in ys && y < x :: y in xs
    ensures xs <= ys
  {
    var n, last := |xs| - 1, xs[|xs| - 1];
    var j :| 0 <= j < |ys| && ys[j] == last;
    assert forall i | 0 <= i < n :: xs[i] == xs[..n][i] == ys[i];
    if j < |xs| {
      LessIsBefore(xs, j, n);
    }
    LessIsBefore(ys, n, j);
    assert last in xs && ys[n] in ys;
    var k :| 0 <= k < |xs| && xs[k] == ys[n];
    LessIsBefore(ys, k, n);
    assert k == n;
    assert forall i | 0 <= i < |xs| :: xs[i] == ys[i];
  }

  lemma {:induction false} RisenIsOrder(w: World)
    requires Inv(w)
    ensures AllRisen(w) ==> InOutboxOrder(w)
  {
    if AllRisen(w) {
      forall p | 0 <= p < |w.logs| ensures Firsts(w.logs[p]) <= To(w.outbox, p) {
        var xs, ys := Firsts(w.logs[p]), To(w.outbox, p);
        assert Risen(w.logs[p], w.outbox, p);
        forall x ensures (x in xs <==> x in w.logs[p]) && (x in ys <==> Holds(w.outbox, p, x)) {
          FirstsHave(w.logs[p], x);
          ToHas(w.outbox, p, x);
        }
        ToIncreases(w.outbox, p);
        ClosedIsPrefix(xs, ys);
      }
    }
  }

  lemma {:induction false} PrefixIsClosed(xs: seq<nat>, ys: seq<nat>, x: nat, y: nat)
    requires Increasing(ys) && xs <= ys && x in xs && y in ys && y < x
    ensures y in xs
  {
    var i :| 0 <= i < |xs| && xs[i] == x;
    var j :| 0 <= j < |ys| && ys[j] == y;
    LessIsBefore(ys, j, i);
    assert xs[j] == y;
  }

  /** A log that skips an elder of one of its ids contradicts outbox order. */
  lemma {:induction false} SkippedElder(w: World, p: nat, x: nat, y: nat)
    requires Inv(w) && p < |w.logs| && x in w.logs[p] && Holds(w.outbox, p, y) && y < x && y !in w.logs[p]
    ensures !InOutboxOrder(w)
  {
    var xs, ys := Firsts(w.logs[p]), To(w.outbox, p);
    FirstsHave(w.logs[p], x);
    FirstsHave(w.logs[p], y);
    ToHas(w.outbox, p, y);
    ToIncreases(w.outbox, p);
    if xs <= ys {
      PrefixIsClosed(xs, ys, x, y);
    }
  }

  // ---------------------------------------------------------------- what the batch in flight still does

  ghost function Left(w: World, p: nat): seq<nat> {
    if w.flight.Flying? && p < |w.flight.left| then w.flight.left[p] else []
  }

  /** In this run the batch in flight lands x in partition p before it is marked or abandoned. */
  ghost predicate Lands(w: World, es: seq<Event>, p: nat, x: nat)
    requires ValidRun(w, es)
    decreases |es|
  {
    && w.flight.Flying? && es != []
    && ((es[0] == Land(p) && x == w.flight.left[p][0]) || Lands(Step(w, es[0]), es[1..], p, x))
  }

  lemma {:induction false} LandsWhatIsLeft(w: World, es: seq<Event>, p: nat, x: nat)
    requires Inv(w) && ValidRun(w, es) && Lands(w, es, p, x)
    ensures p < |w.logs| && x in Left(w, p)
    decreases |es|
  {
    if !(es[0] == Land(p) && x == w.flight.left[p][0]) {
      var w' := Step(w, es[0]);
      StepKeepsInv(w, es[0]);
      LandsWhatIsLeft(w', es[1..], p, x);
      if es[0].Land? {
        LandMoves(w, es[0].part, p, x);
      }
    }
  }

  /** A row commits late when its partition has already logged a younger one, or has one claimed that will land. */
  ghost predicate Late(w: World, es: seq<Event>)
    requires ValidRun(w, es)
  {
    es != [] && es[0].Post? &&
    exists x: nat :: x > es[0].row.id && (x in w.logs[es[0].row.part] || Lands(Step(w, es[0]), es[1..], es[0].row.part, x))
  }

  /** Elders of what will land are logged or land too. */
  ghost predicate Closed(w: World, es: seq<Event>)
    requires ValidRun(w, es)
  {
    forall p: nat, x: nat, y: nat | p < |w.logs| && Lands(w, es, p, x) && Holds(w.outbox, p, y) && y < x :: y in w.logs[p] || y in Left(w, p)
  }

  /** A claimed row's elders in its partition are logged or claimed with it. */
  lemma {:induction false} EldersToo(w: World, limit: nat, p: nat, x: nat, y: nat)
    requires Inv(w) && p < |w.logs| && x in To(Oldest(w.outbox, limit), p) && Holds(w.outbox, p, y) && y < x
    ensures y in w.logs[p] || y in To(Oldest(w.outbox, limit), p)
  {
    var batch := Oldest(w.outbox, limit);
    HoldsIs(w.outbox, p, y);
    var r :| r in w.outbox && r.part == p && r.id == y;
    if !r.sent {
      ClaimIsUnsent(w.outbox, limit);
      ToHas(batch, p, x);
      HoldsIs(batch, p, x);
      var c :| c in batch && c.part == p && c.id == x;
      ClaimSkipsNothing(w.outbox, limit, r, c);
      HoldsIs(batch, p, y);
      ToHas(batch, p, y);
    }
  }

  lemma {:induction false} StepKeepsClosed(w: World, es: seq<Event>)
    requires Inv(w) && ValidRun(w, es) && es != [] && Closed(w, es) && !Late(w, es)
    ensures Closed(Step(w, es[0]), es[1..])
  {
    var w', rest := Step(w, es[0]), es[1..];
    StepKeepsInv(w, es[0]);
    forall p: nat, x: nat, y: nat | p < |w'.logs| && Lands(w', rest, p, x) && Holds(w'.outbox, p, y) && y < x
      ensures y in w'.logs[p] || y in Left(w', p)
    {
      LandsWhatIsLeft(w', rest, p, x);
      StepHolds(w, es[0], p, y);
      if es[0].Claim? {
        EldersToo(w, es[0].limit, p, x, y);
      } else {
        assert Lands(w, es, p, x);
        if es[0].Land? {
          LandMoves(w, es[0].part, p, y);
        }
      }
    }
  }

  /** What lands next finds its elders logged. */
  lemma {:induction false} LandKeepsRisen(w: World, es: seq<Event>)
    requires Inv(w) && AllRisen(w) && ValidRun(w, es) && es != [] && es[0].Land? && Closed(w, es)
    ensures AllRisen(Step(w, es[0]))
  {
    var q := es[0].part;
    var left := w.flight.left[q];
    var x := left[0];
    assert Lands(w, es, q, x);
    forall y: nat | Holds(w.outbox, q, y) && y < x ensures y in w.logs[q] {
      if y in left {
        var k :| 0 <= k < |left| && left[k] == y;
        LessIsBefore(left, k, 0);
      }
    }
    assert x in left;
    assert Risen(w.logs[q], w.outbox, q);
    RisesByOne(w.logs[q], w.outbox, q, x);
    var w' := Step(w, es[0]);
    forall p | 0 <= p < |w'.logs| ensures Risen(w'.logs[p], w'.outbox, p) {
      assert Risen(w.logs[p], w.outbox, p);
    }
  }

  lemma {:induction false} StepKeepsRisen(w: World, es: seq<Event>)
    requires Inv(w) && AllRisen(w) && ValidRun(w, es) && es != [] && Closed(w, es) && !Late(w, es)
    ensures AllRisen(Step(w, es[0]))
  {
    if es[0].Land? {
      LandKeepsRisen(w, es);
    } else {
      var w' := Step(w, es[0]);
      forall p | 0 <= p < |w'.logs| ensures Risen(w'.logs[p], w'.outbox, p) {
        assert Risen(w.logs[p], w.outbox, p);
        forall x ensures Holds(w'.outbox, p, x) <==> Holds(w.outbox, p, x) || (es[0].Post? && p == es[0].row.part && x == es[0].row.id) {
          StepHolds(w, es[0], p, x);
        }
      }
    }
  }

  /** Outbox order in every state a run passes through. */
  ghost predicate OrderThroughout(w: World, es: seq<Event>)
    requires ValidRun(w, es)
    decreases |es|
  {
    InOutboxOrder(w) && (es == [] || OrderThroughout(Step(w, es[0]), es[1..]))
  }

  ghost predicate NeverLate(w: World, es: seq<Event>)
    requires ValidRun(w, es)
    decreases |es|
  {
    es == [] || (!Late(w, es) && NeverLate(Step(w, es[0]), es[1..]))
  }

  /** A row that the batch in flight lacks is overtaken by every younger one that lands. */
  lemma {:induction false} Overtaken(w: World, es: seq<Event>, p: nat, x: nat, y: nat)
    requires Inv(w) && ValidRun(w, es) && Lands(w, es, p, x) && p < |w.logs|
    requires Holds(w.outbox, p, y) && y < x && y !in w.logs[p] && y !in Left(w, p)
    ensures !OrderThroughout(w, es)
    decreases |es|
  {
    var w' := Step(w, es[0]);
    StepKeepsInv(w, es[0]);
    StepHolds(w, es[0], p, y);
    if es[0].Land? {
      LandMoves(w, es[0].part, p, y);
      LandMoves(w, es[0].part, p, x);
    }
    if es[0] == Land(p) && x == w.flight.left[p][0] {
      SkippedElder(w', p, x, y);
    } else {
      Overtaken(w', es[1..], p, x, y);
    }
  }

  lemma {:induction false} LateBreaksOrder(w: World, es: seq<Event>)
    requires Inv(w) && ValidRun(w, es) && Late(w, es)
    ensures !OrderThroughout(w, es)
  {
    var r, w' := es[0].row, Step(w, es[0]);
    StepKeepsInv(w, es[0]);
    StepHolds(w, es[0], r.part, r.id);
    assert !Holds(w.outbox, r.part, r.id);
    assert r.id !in w.logs[r.part] && r.id !in Left(w, r.part);
    var x: nat :| x > r.id && (x in w.logs[r.part] || Lands(w', es[1..], r.part, x));
    if x in w.logs[r.part] {
      SkippedElder(w', r.part, x, r.id);
    } else {
      Overtaken(w', es[1..], r.part, x, r.id);
    }
  }

  /** Per-partition, hence per-key, order holds throughout a run if and only if no row commits after a younger row of its
      partition was logged, or was claimed and goes on to land. */
  lemma {:induction false} OrderExactlyWhenNeverLate(w: World, es: seq<Event>)
    requires Inv(w) && AllRisen(w) && ValidRun(w, es) && Closed(w, es)
    ensures OrderThroughout(w, es) <==> NeverLate(w, es)
    ensures NeverLate(w, es) ==> AllRisen(Exec(w, es)) && InOutboxOrder(Exec(w, es))
    decreases |es|
  {
    RisenIsOrder(w);
    if es != [] {
      StepKeepsInv(w, es[0]);
      if Late(w, es) {
        LateBreaksOrder(w, es);
      } else {
        StepKeepsRisen(w, es);
        StepKeepsClosed(w, es);
        OrderExactlyWhenNeverLate(Step(w, es[0]), es[1..]);
      }
    }
  }

  lemma {:induction false} EmptyFacts(parts: nat)
    ensures Inv(Empty(parts)) && AllRisen(Empty(parts))
  {
  }

  /** From empty tables: at least once, and outbox order per partition throughout exactly when no row commits late. */
  lemma {:induction false} AtLeastOnceInOrder(parts: nat, es: seq<Event>)
    requires ValidRun(Empty(parts), es)
    ensures var w := Exec(Empty(parts), es);
            && Inv(w)
            && (forall r | r in w.outbox && r.sent :: r.part < |w.logs| && r.id in w.logs[r.part])
            && (NeverLate(Empty(parts), es) ==> InOutboxOrder(w))
            && (NeverLate(Empty(parts), es) <==> OrderThroughout(Empty(parts), es))
  {
    EmptyFacts(parts);
    RunKeepsInv(Empty(parts), es);
    OrderExactlyWhenNeverLate(Empty(parts), es);
  }

  // ---------------------------------------------------------------- ids that become visible in order

  /** Within a partition rows commit in the order of their ids. */
  ghost predicate VisibleInOrder(w: World, es: seq<Event>)
    requires ValidRun(w, es)
    decreases |es|
  {
    es == [] || (
      && (es[0].Post? ==> forall y: nat | Holds(w.outbox, es[0].row.part, y) :: y < es[0].row.id)
      && VisibleInOrder(Step(w, es[0]), es[1..]))
  }

  lemma {:induction false} VisibleInOrderIsNeverLate(w: World, es: seq<Event>)
    requires Inv(w) && ValidRun(w, es) && VisibleInOrder(w, es)
    ensures NeverLate(w, es)
    decreases |es|
  {
    if es != [] {
      var w' := Step(w, es[0]);
      StepKeepsInv(w, es[0]);
      VisibleInOrderIsNeverLate(w', es[1..]);
      if es[0].Post? {
        var r := es[0].row;
        forall x: nat | Lands(w', es[1..], r.part, x) ensures x < r.id {
          LandsWhatIsLeft(w', es[1..], r.part, x);
          assert Holds(w.outbox, r.part, x);
        }
      }
    }
  }

  /** When ids become visible in order, faults and posts between claim, produce and mark leave outbox order alone. */
  lemma {:induction false} OrderWhenVisibleInOrder(parts: nat, es: seq<Event>)
    requires ValidRun(Empty(parts), es) && VisibleInOrder(Empty(parts), es)
    ensures OrderThroughout(Empty(parts), es)
  {
    EmptyFacts(parts);
    VisibleInOrderIsNeverLate(Empty(parts), es);
    OrderExactlyWhenNeverLate(Empty(parts), es);
  }
}
