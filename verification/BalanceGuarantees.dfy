/** What a checkpointed balance is worth: its exact error in every reachable state, and when that error is nothing. */
module BalanceGuarantees {
  import opened Balance

  // ---------------------------------------------------------------- sums

  lemma {:induction false} SumIfConcat(x: seq<Entry>, y: seq<Entry>, p: Entry -> bool)
    ensures SumIf(x + y, p) == SumIf(x, p) + SumIf(y, p)
    decreases |y|
  {
    if y == [] {
      assert x + y == x;
    } else {
      assert (x + y)[..|x + y| - 1] == x + y[..|y| - 1];
      SumIfConcat(x, y[..|y| - 1], p);
    }
  }

  /** Where p is exactly one of q and r, its sum is theirs. */
  lemma {:induction false} SumIfSplit(es: seq<Entry>, p: Entry -> bool, q: Entry -> bool, r: Entry -> bool)
    requires forall i | 0 <= i < |es| :: (p(es[i]) <==> q(es[i]) || r(es[i])) && !(q(es[i]) && r(es[i]))
    ensures SumIf(es, p) == SumIf(es, q) + SumIf(es, r)
    decreases |es|
  {
    if es != [] {
      SumIfSplit(es[..|es| - 1], p, q, r);
    }
  }

  lemma {:induction false} SumIfNone(es: seq<Entry>, p: Entry -> bool)
    requires forall i | 0 <= i < |es| :: !p(es[i])
    ensures SumIf(es, p) == 0
    decreases |es|
  {
    if es != [] {
      SumIfNone(es[..|es| - 1], p);
    }
  }

  // ---------------------------------------------------------------- the error of a checkpoint

  /** What a stored checkpoint leaves out of reads at asOf: the error of the balance it was built on, the rows under its
      watermark dated after it, and the rows under its watermark that became visible between its two reads or later. */
  function ErrorOf(es: seq<Entry>, c: Checkpoint, asOf: int): int
    requires c.origin.seen <= c.origin.mark <= |es|
  {
    var o := c.origin;
    o.inherited
    + SumIf(es[..o.seen], Forward(c.account, c.date, asOf, c.last))
    + SumIf(es[o.seen..o.mark], Under(c.account, asOf, c.last))
    + SumIf(es[o.mark..], Under(c.account, asOf, c.last))
  }

  /** The checkpoint's balance is what was visible at its read, less the inherited error, and its watermark covers
      everything it counts among the rows visible when it was read. */
  ghost predicate Recorded(es: seq<Entry>, c: Checkpoint) {
    && c.origin.seen <= c.origin.mark <= |es|
    && c.balance == Plain(es[..c.origin.seen], c.account, c.date) - c.origin.inherited
    && forall i | 0 <= i < c.origin.mark && Counts(es[i], c.account, c.date) :: es[i].id <= c.last
  }

  ghost predicate JobRecorded(es: seq<Entry>, k: Job) {
    && k.seen <= |es| && k.balance == Plain(es[..k.seen], k.account, k.date) - k.inherited
    && (k.marked.Some? ==> Recorded(es, Row(k)))
  }

  ghost predicate RowsKnown(es: seq<Entry>, next: nat) {
    forall i | 0 <= i < |es| :: 0 < es[i].id < next
  }

  ghost predicate Inv(l: Ledger) {
    && RowsKnown(l.entries, l.nextId) && (forall tx <- l.open :: RowsKnown(l.open[tx], l.nextId)) && l.nextId > 0
    && (forall i | 0 <= i < |l.checkpoints| :: Recorded(l.entries, l.checkpoints[i]))
    && (forall j <- l.jobs :: JobRecorded(l.entries, l.jobs[j]))
  }

  /** The error of a read: that of the checkpoint it starts from. */
  function ErrorAt(l: Ledger, a: string, asOf: int): int
    requires forall i | 0 <= i < |l.checkpoints| :: l.checkpoints[i].origin.seen <= l.checkpoints[i].origin.mark <= |l.entries|
  {
    match Latest(l.checkpoints, a, asOf)
    case None => 0
    case Some(n) => ErrorOf(l.entries, l.checkpoints[n], asOf)
  }

  lemma {:induction false} UnderIsBalancePlusError(es: seq<Entry>, c: Checkpoint, asOf: int)
    requires Recorded(es, c) && c.date <= asOf
    ensures SumIf(es, Under(c.account, asOf, c.last)) == c.balance + ErrorOf(es, c, asOf)
  {
    var o, under := c.origin, Under(c.account, asOf, c.last);
    var seen, between, late := es[..o.seen], es[o.seen..o.mark], es[o.mark..];
    assert es == seen + between + late;
    SumIfConcat(seen + between, late, under);
    SumIfConcat(seen, between, under);
    assert forall i | 0 <= i < |seen| :: seen[i] == es[i];
    SumIfSplit(seen, under, Dated(c.account, c.date), Forward(c.account, c.date, asOf, c.last));
  }

  lemma {:induction false} ReadIsPlainLessError(l: Ledger, a: string, asOf: int)
    requires Inv(l)
    ensures LedgerBalance(l, a, asOf) == Plain(l.entries, a, asOf) - ErrorAt(l, a, asOf)
  {
    var m := Latest(l.checkpoints, a, asOf);
    if m.None? {
      SumIfSplit(l.entries, Dated(a, asOf), Above(a, asOf, 0), Under(a, asOf, 0));
      SumIfNone(l.entries, Under(a, asOf, 0));
    } else {
      var c := l.checkpoints[m.value];
      SumIfSplit(l.entries, Dated(a, asOf), Above(a, asOf, c.last), Under(a, asOf, c.last));
      UnderIsBalancePlusError(l.entries, c, asOf);
    }
  }

  // ---------------------------------------------------------------- every run

  lemma {:induction false} RecordedGrows(es: seq<Entry>, rows: seq<Entry>, c: Checkpoint)
    requires Recorded(es, c)
    ensures Recorded(es + rows, c)
  {
    assert (es + rows)[..c.origin.seen] == es[..c.origin.seen];
    assert forall i | 0 <= i < c.origin.mark :: (es + rows)[i] == es[i];
  }

  lemma {:induction false} CommitKeepsInv(l: Ledger, tx: nat)
    requires Inv(l) && tx in l.open
    ensures Inv(Step(l, Commit(tx)))
  {
    var es, rows := l.entries, l.open[tx];
    forall i | 0 <= i < |l.checkpoints| ensures Recorded(es + rows, l.checkpoints[i]) {
      RecordedGrows(es, rows, l.checkpoints[i]);
    }
    forall j <- l.jobs ensures JobRecorded(es + rows, l.jobs[j]) {
      var k := l.jobs[j];
      assert JobRecorded(es, k);
      assert (es + rows)[..k.seen] == es[..k.seen];
      if k.marked.Some? {
        RecordedGrows(es, rows, Row(k));
      }
    }
  }

  lemma {:induction false} StepKeepsInv(l: Ledger, e: Event)
    requires Inv(l) && Enabled(l, e)
    ensures Inv(Step(l, e))
  {
    match e
    case InsertRow(_, _, _, _) =>
    case Commit(tx) => CommitKeepsInv(l, tx);
    case Rollback(_) =>
    case ReadBalance(_, _, _) => assert l.entries[..|l.entries|] == l.entries;
    case ReadLast(j) => assert JobRecorded(l.entries, l.jobs[j]);
    case InsertCheckpoint(j) => assert JobRecorded(l.entries, l.jobs[j]);
    case Die(_) =>
  }

  lemma {:induction false} RunKeepsInv(l: Ledger, es: seq<Event>)
    requires Inv(l) && ValidRun(l, es)
    ensures Inv(Exec(l, es))
    decreases |es|
  {
    if es != [] {
      StepKeepsInv(l, es[0]);
      RunKeepsInv(Step(l, es[0]), es[1..]);
    }
  }

  /** The unique (account_id, business_date) of ledger.checkpoints. */
  ghost predicate OnePerDay(cps: seq<Checkpoint>) {
    forall i, j | 0 <= i < j < |cps| :: cps[i].account != cps[j].account || cps[i].date != cps[j].date
  }

  lemma {:induction false} RunKeepsOnePerDay(l: Ledger, es: seq<Event>)
    requires OnePerDay(l.checkpoints) && ValidRun(l, es)
    ensures OnePerDay(Exec(l, es).checkpoints)
    decreases |es|
  {
    if es != [] {
      RunKeepsOnePerDay(Step(l, es[0]), es[1..]);
    }
  }

  /** After any run an account-day has at most one checkpoint; a job that inserts one adds exactly its row where the
      account-day has none, and leaves the table alone where it has one.  Either way the account-day then has one. */
  lemma {:induction false} FirstCheckpointStays(es: seq<Event>, j: nat)
    requires ValidRun(Fresh(), es) && Enabled(Exec(Fresh(), es), InsertCheckpoint(j))
    ensures var l := Exec(Fresh(), es);
            var k, after := l.jobs[j], Step(l, InsertCheckpoint(j)).checkpoints;
            && OnePerDay(after)
            && (exists c <- after :: c.account == k.account && c.date == k.date)
            && ((exists c <- l.checkpoints :: c.account == k.account && c.date == k.date) ==> after == l.checkpoints)
            && ((forall c <- l.checkpoints :: c.account != k.account || c.date != k.date) ==>
                  after == l.checkpoints + [Checkpoint(k.account, k.date, k.balance, k.marked.value.0, Origin(k.seen, k.marked.value.1, k.inherited))])
  {
    RunKeepsOnePerDay(Fresh(), es);
    var l := Exec(Fresh(), es);
    var k, after := l.jobs[j], Step(l, InsertCheckpoint(j)).checkpoints;
    if !HasCheckpoint(l.checkpoints, k.account, k.date) {
      assert after[|l.checkpoints|] in after;
    }
  }

  /** After any run whatever -- transactions committing in any order of their ids, rows dated in any order, checkpoint jobs
      interleaved and dying anywhere -- a checkpointed balance is the plain sum less exactly the error of its checkpoint;
      they agree if and only if that error is zero. */
  lemma {:induction false} CheckpointedRead(es: seq<Event>, a: string, asOf: int)
    requires ValidRun(Fresh(), es)
    ensures var l := Exec(Fresh(), es);
            && Inv(l)
            && LedgerBalance(l, a, asOf) == Plain(l.entries, a, asOf) - ErrorAt(l, a, asOf)
            && (LedgerBalance(l, a, asOf) == Plain(l.entries, a, asOf) <==> ErrorAt(l, a, asOf) == 0)
  {
    RunKeepsInv(Fresh(), es);
    ReadIsPlainLessError(Exec(Fresh(), es), a, asOf);
  }

  /** What a new checkpoint inherits is the error of the read it is built on. */
  lemma {:induction false} ErrorIsInherited(l: Ledger, j: nat, a: string, d: int)
    requires Inv(l) && Enabled(l, ReadBalance(j, a, d))
    ensures Step(l, ReadBalance(j, a, d)).jobs[j].inherited == ErrorAt(l, a, d)
  {
    ReadIsPlainLessError(l, a, d);
  }

  // ---------------------------------------------------------------- the three provisos

  /** Every row of a under the watermark was visible at the balance read and is dated no later than the checkpoint. */
  ghost predicate Covered(es: seq<Entry>, a: string, d: int, last: nat, seen: nat) {
    forall i | 0 <= i < |es| && es[i].account == a && es[i].id <= last :: i < seen && es[i].date <= d
  }

  /** Watermark reads: nothing counted was written between the two reads and nothing under the watermark is dated later.
      Commits: no row comes into view under the watermark of a checkpoint, stored or about to be. */
  ghost predicate Orderly(l: Ledger, e: Event)
    requires Enabled(l, e)
  {
    match e
    case ReadLast(j) => var k := l.jobs[j]; Covered(l.entries, k.account, k.date, Watermark(l, k), k.seen)
    case Commit(tx) =>
      && (forall i, r | 0 <= i < |l.checkpoints| && r in l.open[tx] && r.account == l.checkpoints[i].account :: r.id > l.checkpoints[i].last)
      && (forall j, r | j in l.jobs && r in l.open[tx] && r.account == l.jobs[j].account && l.jobs[j].marked.Some? :: r.id > l.jobs[j].marked.value.0)
    case _ => true
  }

  ghost predicate OrderlyRun(l: Ledger, es: seq<Event>)
    requires ValidRun(l, es)
    decreases |es|
  {
    es == [] || (Orderly(l, es[0]) && OrderlyRun(Step(l, es[0]), es[1..]))
  }

  ghost predicate Clean(es: seq<Entry>, c: Checkpoint) {
    c.origin.inherited == 0 && Covered(es, c.account, c.date, c.last, c.origin.seen)
  }

  ghost predicate AllClean(l: Ledger) {
    && (forall i | 0 <= i < |l.checkpoints| :: Clean(l.entries, l.checkpoints[i]))
    && (forall j | j in l.jobs :: l.jobs[j].inherited == 0 && (l.jobs[j].marked.Some? ==> Clean(l.entries, Row(l.jobs[j]))))
  }

  lemma {:induction false} CleanHasNoError(es: seq<Entry>, c: Checkpoint, asOf: int)
    requires Recorded(es, c) && Clean(es, c)
    ensures ErrorOf(es, c, asOf) == 0
  {
    var o := c.origin;
    assert forall i | 0 <= i < o.seen :: es[..o.seen][i] == es[i];
    SumIfNone(es[..o.seen], Forward(c.account, c.date, asOf, c.last));
    assert forall i | 0 <= i < o.mark - o.seen :: es[o.seen..o.mark][i] == es[o.seen + i];
    SumIfNone(es[o.seen..o.mark], Under(c.account, asOf, c.last));
    assert forall i | 0 <= i < |es| - o.mark :: es[o.mark..][i] == es[o.mark + i];
    SumIfNone(es[o.mark..], Under(c.account, asOf, c.last));
  }

  lemma {:induction false} CleanReadsPlain(l: Ledger, a: string, asOf: int)
    requires Inv(l) && AllClean(l)
    ensures ErrorAt(l, a, asOf) == 0 && LedgerBalance(l, a, asOf) == Plain(l.entries, a, asOf)
  {
    ReadIsPlainLessError(l, a, asOf);
    var m := Latest(l.checkpoints, a, asOf);
    if m.Some? {
      CleanHasNoError(l.entries, l.checkpoints[m.value], asOf);
    }
  }

  lemma {:induction false} CoveredGrows(es: seq<Entry>, rows: seq<Entry>, a: string, d: int, last: nat, seen: nat)
    requires Covered(es, a, d, last, seen) && forall r | r in rows && r.account == a :: r.id > last
    ensures Covered(es + rows, a, d, last, seen)
  {
    assert forall k | 0 <= k < |rows| :: rows[k] in rows;
  }

  lemma {:induction false} StepKeepsClean(l: Ledger, e: Event)
    requires Inv(l) && AllClean(l) && Enabled(l, e) && Orderly(l, e)
    ensures AllClean(Step(l, e))
  {
    match e
    case InsertRow(_, _, _, _) =>
    case Commit(tx) =>
      forall i | 0 <= i < |l.checkpoints| ensures Clean(l.entries + l.open[tx], l.checkpoints[i]) {
        var c := l.checkpoints[i];
        CoveredGrows(l.entries, l.open[tx], c.account, c.date, c.last, c.origin.seen);
      }
      forall j | j in l.jobs && l.jobs[j].marked.Some? ensures Clean(l.entries + l.open[tx], Row(l.jobs[j])) {
        var c := Row(l.jobs[j]);
        CoveredGrows(l.entries, l.open[tx], c.account, c.date, c.last, c.origin.seen);
      }
    case Rollback(_) =>
    case ReadBalance(j, a, d) => CleanReadsPlain(l, a, d);
    case ReadLast(_) =>
    case InsertCheckpoint(_) =>
    case Die(_) =>
  }

  lemma {:induction false} RunKeepsClean(l: Ledger, es: seq<Event>)
    requires Inv(l) && AllClean(l) && ValidRun(l, es) && OrderlyRun(l, es)
    ensures Inv(Exec(l, es)) && AllClean(Exec(l, es))
    decreases |es|
  {
    if es != [] {
      StepKeepsInv(l, es[0]);
      StepKeepsClean(l, es[0]);
      RunKeepsClean(Step(l, es[0]), es[1..]);
    }
  }

  /** When no checkpoint's watermark covers a row dated after it, written between its reads, or made visible later, every
      checkpointed balance is the plain sum. */
  lemma {:induction false} CheckpointsAgreeWithThePlainSum(es: seq<Event>, a: string, asOf: int)
    requires ValidRun(Fresh(), es) && OrderlyRun(Fresh(), es)
    ensures LedgerBalance(Exec(Fresh(), es), a, asOf) == Plain(Exec(Fresh(), es).entries, a, asOf)
  {
    RunKeepsClean(Fresh(), es);
    CleanReadsPlain(Exec(Fresh(), es), a, asOf);
  }

  /** What a transaction has written, in order. */
  ghost function Written(es: seq<Event>, tx: nat): seq<(string, int, int)> {
    if es == [] then [] else
      (match es[0]
       case InsertRow(t, a, d, x) => if t == tx then [(a, d, x)] else []
       case _ => []) + Written(es[1..], tx)
  }

  ghost predicate Ends(e: Event, tx: nat) {
    e == Commit(tx) || e == Rollback(tx)
  }

  ghost predicate Ascending(rows: seq<Entry>) {
    forall i, j | 0 <= i < j < |rows| :: rows[i].id < rows[j].id
  }

  /** Rows with these contents, under ids drawn in their order. */
  ghost predicate Shows(rows: seq<Entry>, w: seq<(string, int, int)>) {
    && |rows| == |w| && Ascending(rows)
    && forall i | 0 <= i < |rows| :: w[i] == (rows[i].account, rows[i].date, rows[i].minor)
  }

  ghost predicate Wrote(l: Ledger, tx: nat, w: seq<(string, int, int)>) {
    (tx in l.open <==> w != []) && Shows(Rows(l, tx), w)
  }

  lemma {:induction false} WritesOne(l: Ledger, e: Event, tx: nat, w: seq<(string, int, int)>)
    requires Inv(l) && Enabled(l, e) && !Ends(e, tx) && Wrote(l, tx, w)
    ensures Wrote(Step(l, e), tx, w + Written([e], tx))
  {
    assert RowsKnown(Rows(l, tx), l.nextId);
    assert Written([e][1..], tx) == [];
    if !(e.InsertRow? && e.tx == tx) {
      assert w + [] == w && Rows(Step(l, e), tx) == Rows(l, tx);
    }
  }

  lemma {:induction false} WrittenHead(es: seq<Event>, tx: nat)
    requires es != []
    ensures Written(es, tx) == Written([es[0]], tx) + Written(es[1..], tx)
  {
    assert [es[0]][1..] == [] && Written([], tx) == [];
  }

  ghost predicate EndedBy(es: seq<Event>, tx: nat) {
    exists e :: e in es && Ends(e, tx)
  }

  /** While a transaction is open it holds exactly the rows it wrote, in order, under ids drawn in that order. */
  lemma {:induction false} WritesInOrder(l: Ledger, es: seq<Event>, tx: nat, w: seq<(string, int, int)>)
    requires Inv(l) && ValidRun(l, es) && Wrote(l, tx, w) && !EndedBy(es, tx)
    ensures Wrote(Exec(l, es), tx, w + Written(es, tx))
    decreases |es|
  {
    if es == [] {
      assert w + [] == w;
    } else {
      StepKeepsInv(l, es[0]);
      WritesOne(l, es[0], tx, w);
      NotEnded(es, tx);
      WritesInOrder(Step(l, es[0]), es[1..], tx, w + Written([es[0]], tx));
      WrittenHead(es, tx);
      Associates(w, Written([es[0]], tx), Written(es[1..], tx));
    }
  }

  lemma {:induction false} NotEnded(es: seq<Event>, tx: nat)
    requires es != [] && !EndedBy(es, tx)
    ensures !Ends(es[0], tx) && !EndedBy(es[1..], tx)
  {
    assert es[0] in es;
    assert forall e | e in es[1..] :: e in es;
  }

  lemma {:induction false} Associates<T>(a: seq<T>, b: seq<T>, c: seq<T>)
    ensures a + b + c == a + (b + c)
  {
  }

  /** A commit makes exactly what its transaction wrote visible, all of it at once and behind what was visible. */
  lemma {:induction false} CommitPublishesAll(l: Ledger, es: seq<Event>, tx: nat) returns (rows: seq<Entry>)
    requires Inv(l) && ValidRun(l, es) && tx !in l.open && !EndedBy(es, tx) && Written(es, tx) != []
    ensures Enabled(Exec(l, es), Commit(tx)) && Step(Exec(l, es), Commit(tx)).entries == Exec(l, es).entries + rows
    ensures Shows(rows, Written(es, tx))
  {
    WritesInOrder(l, es, tx, []);
    assert [] + Written(es, tx) == Written(es, tx);
    rows := Rows(Exec(l, es), tx);
  }

  /** The third proviso can be checked when the watermark is read: if no open transaction holds a row of the account with
      an id under it, none ever comes into view. */
  lemma {:induction false} NothingOpenNothingLate(l: Ledger, es: seq<Event>, a: string, last: nat, i: nat)
    requires ValidRun(l, es) && last < l.nextId
    requires forall tx, r | tx in l.open && r in l.open[tx] && r.account == a :: r.id > last
    requires |l.entries| <= i < |Exec(l, es).entries| && Exec(l, es).entries[i].account == a
    ensures Exec(l, es).entries[i].id > last
    decreases |es|
  {
    if es != [] {
      var l' := Step(l, es[0]);
      if i < |l'.entries| {
        VisibleStays(l', es[1..], i);
        assert l'.entries[i] in l.open[es[0].tx];
      } else {
        NothingOpenNothingLate(l', es[1..], a, last, i);
      }
    }
  }

  /** Visible rows are never changed or removed. */
  lemma {:induction false} VisibleStays(l: Ledger, es: seq<Event>, i: nat)
    requires ValidRun(l, es) && i < |l.entries|
    ensures i < |Exec(l, es).entries| && Exec(l, es).entries[i] == l.entries[i]
    decreases |es|
  {
    if es != [] {
      VisibleStays(Step(l, es[0]), es[1..], i);
    }
  }

  // ---------------------------------------------------------------- each proviso is needed

  lemma {:induction false} ThenRun(l: Ledger, e: Event, es: seq<Event>)
    requires Enabled(l, e) && ValidRun(Step(l, e), es)
    ensures ValidRun(l, [e] + es) && Exec(l, [e] + es) == Exec(Step(l, e), es)
  {
    assert ([e] + es)[1..] == es;
  }

  /** A job that reads both and stores its checkpoint at once. */
  lemma {:induction false} CheckpointNow(l: Ledger, j: nat, a: string, d: int)
    requires j !in l.jobs && !HasCheckpoint(l.checkpoints, a, d)
    ensures ValidRun(l, [ReadBalance(j, a, d), ReadLast(j), InsertCheckpoint(j)])
    ensures var read, n := LedgerBalance(l, a, d), |l.entries|;
            Exec(l, [ReadBalance(j, a, d), ReadLast(j), InsertCheckpoint(j)])
            == l.(checkpoints := l.checkpoints + [Checkpoint(a, d, read, MaxEntryId(l.entries, a, d), Origin(n, n, Plain(l.entries, a, d) - read))])
  {
    var l1 := Step(l, ReadBalance(j, a, d));
    var l2 := Step(l1, ReadLast(j));
    ThenRun(l2, InsertCheckpoint(j), []);
    ThenRun(l1, ReadLast(j), [InsertCheckpoint(j)]);
    ThenRun(l, ReadBalance(j, a, d), [ReadLast(j)] + [InsertCheckpoint(j)]);
    assert [ReadBalance(j, a, d), ReadLast(j), InsertCheckpoint(j)] == [ReadBalance(j, a, d)] + ([ReadLast(j)] + [InsertCheckpoint(j)]);
    assert Step(l2, InsertCheckpoint(j)).jobs == l.jobs;
  }

  /** A job already past its balance read: the watermark is what is visible now. */
  lemma {:induction false} FinishJob(l: Ledger, j: nat)
    requires j in l.jobs && l.jobs[j].marked.None? && !HasCheckpoint(l.checkpoints, l.jobs[j].account, l.jobs[j].date)
    ensures ValidRun(l, [ReadLast(j), InsertCheckpoint(j)])
    ensures var k := l.jobs[j];
            Exec(l, [ReadLast(j), InsertCheckpoint(j)])
            == l.(jobs := l.jobs - {j},
                  checkpoints := l.checkpoints + [Checkpoint(k.account, k.date, k.balance, Watermark(l, k), Origin(k.seen, |l.entries|, k.inherited))])
  {
    var l1 := Step(l, ReadLast(j));
    ThenRun(l1, InsertCheckpoint(j), []);
    ThenRun(l, ReadLast(j), [InsertCheckpoint(j)]);
    assert [ReadLast(j), InsertCheckpoint(j)] == [ReadLast(j)] + [InsertCheckpoint(j)];
    assert Step(l1, InsertCheckpoint(j)).jobs == l.jobs - {j};
  }

  lemma {:induction false} SumIfPair(x: Entry, y: Entry, p: Entry -> bool)
    ensures SumIf([x], p) == if p(x) then x.minor else 0
    ensures SumIf([x, y], p) == (if p(x) then x.minor else 0) + if p(y) then y.minor else 0
  {
    assert [x, y][..1] == [x] && [x][..0] == [];
  }

  /** One transaction writing one row. */
  function Write(tx: nat, d: int, x: int): seq<Event> {
    [InsertRow(tx, "a", d, x), Commit(tx)]
  }

  const CHECKPOINT: seq<Event> := [ReadBalance(7, "a", 1), ReadLast(7), InsertCheckpoint(7)]

  lemma {:induction false} WriteRuns(l: Ledger, tx: nat, d: int, x: int)
    requires tx !in l.open
    ensures ValidRun(l, Write(tx, d, x))
    ensures Exec(l, Write(tx, d, x)) == l.(entries := l.entries + [Entry(l.nextId, "a", d, x)], nextId := l.nextId + 1)
  {
    var l1 := Step(l, InsertRow(tx, "a", d, x));
    ThenRun(l1, Commit(tx), []);
    ThenRun(l, InsertRow(tx, "a", d, x), [Commit(tx)]);
    assert Write(tx, d, x) == [InsertRow(tx, "a", d, x)] + [Commit(tx)];
    assert Step(l1, Commit(tx)).open == l.open;
  }

  lemma {:induction false} RunAppend(l: Ledger, es: seq<Event>, fs: seq<Event>)
    requires ValidRun(l, es) && ValidRun(Exec(l, es), fs)
    ensures ValidRun(l, es + fs) && Exec(l, es + fs) == Exec(Exec(l, es), fs)
    decreases |es|
  {
    if es == [] {
      assert es + fs == fs;
    } else {
      RunAppend(Step(l, es[0]), es[1..], fs);
      ThenRun(l, es[0], es[1..] + fs);
      assert es + fs == [es[0]] + (es[1..] + fs);
    }
  }

  /** A backdated entry after a forward-dated one, then a checkpoint: the watermark swallows the forward-dated entry, and
      every later read from that checkpoint is short by it. */
  lemma {:induction false} ForwardDatedEntryIsSwallowed(x: int, y: int)
    ensures var run := Write(1, 2, x) + Write(2, 1, y) + CHECKPOINT;
            && ValidRun(Fresh(), run)
            && LedgerBalance(Exec(Fresh(), run), "a", 2) == y && Plain(Exec(Fresh(), run).entries, "a", 2) == x + y
  {
    WriteRuns(Fresh(), 1, 2, x);
    var l1 := Exec(Fresh(), Write(1, 2, x));
    WriteRuns(l1, 2, 1, y);
    RunAppend(Fresh(), Write(1, 2, x), Write(2, 1, y));
    var l2 := Exec(l1, Write(2, 1, y));
    CheckpointNow(l2, 7, "a", 1);
    RunAppend(Fresh(), Write(1, 2, x) + Write(2, 1, y), CHECKPOINT);
    var p, q := Entry(1, "a", 2, x), Entry(2, "a", 1, y);
    assert l2.entries == [p, q];
    SumIfPair(p, q, Above("a", 1, 0));
    SumIfPair(p, q, Dated("a", 2));
    SumIfPair(p, q, Above("a", 2, 2));
    assert [p, q][..1] == [p] && [p][..0] == [];
    assert MaxEntryId([p, q], "a", 1) == 2;
  }

  /** A write between the two reads is covered by the watermark but not by the balance. */
  lemma {:induction false} WriteBetweenTheReadsIsLost(x: int)
    ensures var run := [ReadBalance(7, "a", 1)] + (Write(1, 1, x) + [ReadLast(7), InsertCheckpoint(7)]);
            && ValidRun(Fresh(), run)
            && LedgerBalance(Exec(Fresh(), run), "a", 1) == 0 && Plain(Exec(Fresh(), run).entries, "a", 1) == x
  {
    var l1 := Step(Fresh(), ReadBalance(7, "a", 1));
    WriteRuns(l1, 1, 1, x);
    var l2 := Exec(l1, Write(1, 1, x));
    FinishJob(l2, 7);
    RunAppend(l1, Write(1, 1, x), [ReadLast(7), InsertCheckpoint(7)]);
    ThenRun(Fresh(), ReadBalance(7, "a", 1), Write(1, 1, x) + [ReadLast(7), InsertCheckpoint(7)]);
    var p := Entry(1, "a", 1, x);
    assert l2.entries == [p] && [p][..0] == [];
    SumIfPair(p, p, Dated("a", 1));
    SumIfPair(p, p, Above("a", 1, 1));
    assert MaxEntryId([p], "a", 1) == 1;
  }

  /** A transaction that drew the lower id commits after a checkpoint has been built on the higher one: nothing was written
      between the reads and nothing is dated later, and the row is missing for good. */
  lemma {:induction false} LateCommitIsLost(x: int, y: int)
    ensures var run := [InsertRow(1, "a", 1, x)] + (Write(2, 1, y) + CHECKPOINT + [Commit(1)]);
            && ValidRun(Fresh(), run)
            && LedgerBalance(Exec(Fresh(), run), "a", 1) == y && Plain(Exec(Fresh(), run).entries, "a", 1) == x + y
  {
    var l1 := Step(Fresh(), InsertRow(1, "a", 1, x));
    WriteRuns(l1, 2, 1, y);
    var l2 := Exec(l1, Write(2, 1, y));
    CheckpointNow(l2, 7, "a", 1);
    RunAppend(l1, Write(2, 1, y), CHECKPOINT);
    var l3 := Exec(l2, CHECKPOINT);
    ThenRun(l3, Commit(1), []);
    RunAppend(l1, Write(2, 1, y) + CHECKPOINT, [Commit(1)]);
    ThenRun(Fresh(), InsertRow(1, "a", 1, x), Write(2, 1, y) + CHECKPOINT + [Commit(1)]);
    var p, q := Entry(1, "a", 1, x), Entry(2, "a", 1, y);
    assert l2.entries == [q] && Step(l3, Commit(1)).entries == [q, p];
    assert [q][..0] == [];
    SumIfPair(q, p, Above("a", 1, 0));
    SumIfPair(q, p, Dated("a", 1));
    SumIfPair(q, p, Above("a", 1, 2));
    assert MaxEntryId([q], "a", 1) == 2;
  }
}
