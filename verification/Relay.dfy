/** internal/ledger/outbox over internal/broker: at-least-once relay of committed outbox rows.

    The relay claims a batch with a plain SELECT, produces it and then marks it; postings commit at any point in
    between.  The topic has any number of partitions; a row's partition is fixed by its key.  Records land one by one,
    in order within a partition, and a batch may be given up at any point: a failed produce leaves, in each partition,
    some prefix of what the batch sent there. */
module Relay {

  datatype Row = Row(id: nat, part: nat, sent: bool)

  /** The batch in flight; left[p] is what partition p has not taken yet. */
  datatype Flight = Resting | Flying(batch: seq<Row>, left: seq<seq<nat>>)

  /** The outbox by outbox_id; logs[p] holds the ids produced to partition p, in order and with repeats. */
  datatype World = World(outbox: seq<Row>, logs: seq<seq<nat>>, flight: Flight)

  ghost predicate Ordered(rows: seq<Row>) {
    forall i, j | 0 <= i < j < |rows| :: rows[i].id < rows[j].id
  }

  /** A committed row takes its place by id: ids are drawn before COMMIT, so it need not be the last. */
  function Place(rows: seq<Row>, r: Row): seq<Row> {
    if rows == [] || rows[|rows| - 1].id < r.id then rows + [r] else Place(rows[..|rows| - 1], r) + [rows[|rows| - 1]]
  }

  /** The unsent rows, oldest first. */
  function Unsent(rows: seq<Row>): seq<Row> {
    if rows == [] then [] else Unsent(rows[..|rows| - 1]) + if rows[|rows| - 1].sent then [] else [rows[|rows| - 1]]
  }

  /** ClaimOutboxBatch: the oldest unsent rows, at most `limit`. */
  function Oldest(rows: seq<Row>, limit: nat): seq<Row> {
    if limit < |Unsent(rows)| then Unsent(rows)[..limit] else Unsent(rows)
  }

  /** The ids a sequence of rows sends to one partition. */
  function To(rows: seq<Row>, p: nat): seq<nat> {
    if rows == [] then [] else To(rows[..|rows| - 1], p) + (if rows[|rows| - 1].part == p then [rows[|rows| - 1].id] else [])
  }

  /** First occurrences of a partition log, in order. */
  function Firsts(log: seq<nat>): seq<nat> {
    if log == [] then []
    else var init := Firsts(log[..|log| - 1]);
         if log[|log| - 1] in init then init else init + [log[|log| - 1]]
  }

  function MarkSent(rows: seq<Row>, ids: set<nat>): (r: seq<Row>)
    ensures |r| == |rows|
    ensures forall i | 0 <= i < |rows| :: r[i] == if rows[i].id in ids then rows[i].(sent := true) else rows[i]
  {
    seq(|rows|, i requires 0 <= i < |rows| => if rows[i].id in ids then rows[i].(sent := true) else rows[i])
  }

  function IdsOf(rows: seq<Row>): set<nat> {
    set i | 0 <= i < |rows| :: rows[i].id
  }

  /** What a batch sends to each partition. */
  function Shares(batch: seq<Row>, parts: nat): (r: seq<seq<nat>>)
    ensures |r| == parts && forall p | 0 <= p < parts :: r[p] == To(batch, p)
  {
    seq(parts, p requires 0 <= p < parts => To(batch, p))
  }

  datatype Event =
    | Post(row: Row)      // a posting transaction commits its outbox row
    | Claim(limit: nat)   // the relay reads a batch
    | Land(part: nat)     // a partition takes the next record of the batch
    | Mark                // everything was acknowledged and the UPDATE lands, whether or not its answer arrives
    | Abandon             // produce or mark failed, or the relay died

  ghost predicate Enabled(w: World, e: Event) {
    match e
    case Post(r) => r.part < |w.logs| && !r.sent && forall i | 0 <= i < |w.outbox| :: w.outbox[i].id != r.id
    case Claim(_) => w.flight.Resting?
    case Land(p) => w.flight.Flying? && p < |w.flight.left| && p < |w.logs| && w.flight.left[p] != []
    case Mark => w.flight.Flying? && forall p | 0 <= p < |w.flight.left| :: w.flight.left[p] == []
    case Abandon => w.flight.Flying?
  }

  function Step(w: World, e: Event): World
    requires Enabled(w, e)
  {
    match e
    case Post(r) => w.(outbox := Place(w.outbox, r))
    case Claim(limit) =>
      var batch := Oldest(w.outbox, limit);
      w.(flight := if batch == [] then Resting else Flying(batch, Shares(batch, |w.logs|)))
    case Land(p) =>
      var f := w.flight;
      w.(logs := w.logs[p := w.logs[p] + [f.left[p][0]]], flight := f.(left := f.left[p := f.left[p][1..]]))
    case Mark => w.(outbox := MarkSent(w.outbox, IdsOf(w.flight.batch)), flight := Resting)
    case Abandon => w.(flight := Resting)
  }

  ghost predicate ValidRun(w: World, es: seq<Event>)
    decreases |es|
  {
    es == [] || (Enabled(w, es[0]) && ValidRun(Step(w, es[0]), es[1..]))
  }

  function Exec(w: World, es: seq<Event>): World
    requires ValidRun(w, es)
    decreases |es|
  {
    if es == [] then w else Exec(Step(w, es[0]), es[1..])
  }

  function Empty(parts: nat): World {
    World([], seq(parts, _ => []), Resting)
  }

  // ---------------------------------------------------------------- rows and ids

  ghost predicate Increasing(xs: seq<nat>) {
    forall i, j | 0 <= i < j < |xs| :: xs[i] < xs[j]
  }

  /** Row i of the outbox goes to partition p with id x. */
  ghost predicate Holds(rows: seq<Row>, p: nat, x: nat) {
    exists i | 0 <= i < |rows| :: rows[i].part == p && rows[i].id == x
  }

  lemma {:induction false} ToHas(rows: seq<Row>, p: nat, x: nat)
    ensures x in To(rows, p) <==> Holds(rows, p, x)
    decreases |rows|
  {
    if rows != [] {
      var n := |rows| - 1;
      ToHas(rows[..n], p, x);
      assert forall i | 0 <= i < n :: rows[..n][i] == rows[i];
      if Holds(rows[..n], p, x) {
        var i :| 0 <= i < n && rows[..n][i].part == p && rows[..n][i].id == x;
        assert rows[i].part == p;
      }
      if Holds(rows, p, x) && !(rows[n].part == p && rows[n].id == x) {
        var i :| 0 <= i < |rows| && rows[i].part == p && rows[i].id == x;
        assert rows[..n][i].part == p;
      }
    }
  }

  lemma {:induction false} ToIncreases(rows: seq<Row>, p: nat)
    requires Ordered(rows)
    ensures Increasing(To(rows, p))
    ensures forall k | 0 <= k < |To(rows, p)| :: To(rows, p)[k] <= rows[|rows| - 1].id
    decreases |rows|
  {
    if rows != [] {
      var init := rows[..|rows| - 1];
      ToIncreases(init, p);
      if To(init, p) != [] {
        assert init[|init| - 1].id < rows[|rows| - 1].id;
      }
    }
  }

  lemma {:induction false} FirstsHave(log: seq<nat>, x: nat)
    ensures x in Firsts(log) <==> x in log
    decreases |log|
  {
    if log != [] {
      FirstsHave(log[..|log| - 1], x);
      assert x in log <==> x in log[..|log| - 1] || x == log[|log| - 1];
    }
  }

  lemma {:induction false} LastIsYoungest(rows: seq<Row>)
    requires Ordered(rows) && rows != []
    ensures var n := |rows| - 1;
            Ordered(rows[..n]) && (forall x | x in rows[..n] :: x.id < rows[n].id) && forall x :: x in rows <==> x in rows[..n] || x == rows[n]
  {
    assert rows == rows[..|rows| - 1] + [rows[|rows| - 1]];
  }

  lemma {:induction false} OrderedSnoc(rows: seq<Row>, r: Row)
    requires Ordered(rows) && forall x | x in rows :: x.id < r.id
    ensures Ordered(rows + [r])
  {
    assert forall i | 0 <= i < |rows| :: rows[i] in rows;
  }

  lemma {:induction false} OlderIsBefore(rows: seq<Row>, i: nat, j: nat)
    requires Ordered(rows) && i < |rows| && j < |rows|
    ensures rows[i].id < rows[j].id <==> i < j
  {
  }

  lemma {:induction false} LessIsBefore(xs: seq<nat>, i: nat, j: nat)
    requires Increasing(xs) && i < |xs| && j < |xs|
    ensures xs[i] < xs[j] <==> i < j
  {
  }

  /** Placing keeps the table ordered and adds exactly one row. */
  lemma {:induction false} Placed(rows: seq<Row>, r: Row)
    requires Ordered(rows) && forall i | 0 <= i < |rows| :: rows[i].id != r.id
    ensures Ordered(Place(rows, r)) && forall x :: x in Place(rows, r) <==> x in rows || x == r
    decreases |rows|
  {
    if rows != [] {
      var n := |rows| - 1;
      LastIsYoungest(rows);
      assert forall x | x in rows[..n] :: x.id != r.id by {
        assert forall i | 0 <= i < n :: rows[..n][i] == rows[i];
      }
      if rows[n].id < r.id {
        OrderedSnoc(rows, r);
      } else {
        assert forall i | 0 <= i < n :: rows[..n][i] in rows[..n];
        Placed(rows[..n], r);
        OrderedSnoc(Place(rows[..n], r), rows[n]);
      }
    }
  }

  lemma {:induction false} UnsentAre(rows: seq<Row>)
    requires Ordered(rows)
    ensures Ordered(Unsent(rows)) && forall x :: x in Unsent(rows) <==> x in rows && !x.sent
    decreases |rows|
  {
    if rows != [] {
      var n := |rows| - 1;
      LastIsYoungest(rows);
      UnsentAre(rows[..n]);
      OrderedSnoc(Unsent(rows[..n]), rows[n]);
    }
  }

  lemma {:induction false} ClaimIsUnsent(rows: seq<Row>, limit: nat)
    requires Ordered(rows)
    ensures Ordered(Oldest(rows, limit)) && forall x | x in Oldest(rows, limit) :: x in rows && !x.sent
  {
    UnsentAre(rows);
    var u, c := Unsent(rows), Oldest(rows, limit);
    forall x | x in c ensures x in u {
      var j :| 0 <= j < |c| && c[j] == x;
      assert u[j] == x;
    }
  }

  /** A claim skips nothing: every unsent row before a claimed one is claimed. */
  lemma {:induction false} ClaimSkipsNothing(rows: seq<Row>, limit: nat, x: Row, y: Row)
    requires Ordered(rows) && x in rows && !x.sent && y in Oldest(rows, limit) && x.id < y.id
    ensures x in Oldest(rows, limit)
  {
    UnsentAre(rows);
    var u, c := Unsent(rows), Oldest(rows, limit);
    var i :| 0 <= i < |u| && u[i] == x;
    var j :| 0 <= j < |c| && c[j] == y;
    assert u[j] == y;
    OlderIsBefore(u, i, j);
    assert c[i] == x;
  }

  // ---------------------------------------------------------------- what a claim takes

  ghost function UnsentRows(rows: seq<Row>): set<Row> {
    set r | r in rows && !r.sent
  }

  lemma {:induction false} UnsentCount(rows: seq<Row>)
    requires Ordered(rows)
    ensures |Unsent(rows)| == |UnsentRows(rows)|
    decreases |rows|
  {
    if rows != [] {
      var n := |rows| - 1;
      LastIsYoungest(rows);
      UnsentCount(rows[..n]);
      assert rows[n] !in rows[..n];
      assert UnsentRows(rows) == UnsentRows(rows[..n]) + if rows[n].sent then {} else {rows[n]};
    }
  }

  /** As many unsent rows as there are, up to the limit, and those of least id. */
  lemma {:induction false} OldestAre(rows: seq<Row>, limit: nat)
    requires Ordered(rows)
    ensures Ordered(Oldest(rows, limit))
    ensures |Oldest(rows, limit)| == if |UnsentRows(rows)| <= limit then |UnsentRows(rows)| else limit
    ensures forall x | x in Oldest(rows, limit) :: x in UnsentRows(rows)
    ensures forall x, y | x in Oldest(rows, limit) && y in UnsentRows(rows) && y !in Oldest(rows, limit) :: x.id < y.id
  {
    UnsentCount(rows);
    UnsentAre(rows);
    ClaimIsUnsent(rows, limit);
    forall x, y | x in Oldest(rows, limit) && y in UnsentRows(rows) && y !in Oldest(rows, limit) ensures x.id < y.id {
      if y.id < x.id {
        ClaimSkipsNothing(rows, limit, y, x);
      }
    }
  }
}
