/** The balance queries of internal/ledger/store and internal/ledger/balance's Checkpoint: derived balances over
    append-only entries, bounded by checkpoints, with every statement of every transaction interleaved. */
module Balance {
  import opened Options

  /** entry_id is drawn from a sequence by the INSERT, before the row is visible to anyone else. */
  datatype Entry = Entry(id: nat, account: string, date: int, minor: int)

  /** A checkpoint row.  No query reads `origin`: it records where the two reads stood. */
  datatype Checkpoint = Checkpoint(account: string, date: int, balance: int, last: nat, origin: Origin)

  /** How many rows were visible at the balance read and at the watermark read, and the error already in the balance read. */
  datatype Origin = Origin(seen: nat, mark: nat, inherited: int)

  /** A running Checkpoint call after its balance read; `marked` holds the watermark and where it was read. */
  datatype Job = Job(account: string, date: int, balance: int, seen: nat, inherited: int, marked: Option<(nat, nat)>)

  /** Visible rows in commit order, the rows of open transactions, and the id sequence. */
  datatype Ledger = Ledger(entries: seq<Entry>, open: map<nat, seq<Entry>>, nextId: nat, checkpoints: seq<Checkpoint>, jobs: map<nat, Job>)

  // ---------------------------------------------------------------- queries

  function SumIf(es: seq<Entry>, p: Entry -> bool): int {
    if es == [] then 0 else SumIf(es[..|es| - 1], p) + if p(es[|es| - 1]) then es[|es| - 1].minor else 0
  }

  predicate Counts(e: Entry, a: string, d: int) {
    e.account == a && e.date <= d
  }

  function Dated(a: string, d: int): Entry -> bool {
    (e: Entry) => Counts(e, a, d)
  }

  function Above(a: string, d: int, last: nat): Entry -> bool {
    (e: Entry) => Counts(e, a, d) && e.id > last
  }

  function Under(a: string, d: int, last: nat): Entry -> bool {
    (e: Entry) => Counts(e, a, d) && e.id <= last
  }

  /** Under the watermark, dated after d but not after asOf. */
  function Forward(a: string, d: int, asOf: int, last: nat): Entry -> bool {
    (e: Entry) => e.account == a && d < e.date <= asOf && e.id <= last
  }

  /** The plain sum of a's entries dated on or before d. */
  function Plain(es: seq<Entry>, a: string, d: int): int {
    SumIf(es, Dated(a, d))
  }

  /** MaxEntryIDAsOf: the highest id among a's entries dated on or before d, or 0. */
  function MaxEntryId(es: seq<Entry>, a: string, d: int): (r: nat)
    ensures forall i | 0 <= i < |es| && Counts(es[i], a, d) :: es[i].id <= r
    ensures r == 0 || exists i | 0 <= i < |es| :: Counts(es[i], a, d) && es[i].id == r
  {
    if es == [] then 0 else
      var n := |es| - 1;
      var r := MaxEntryId(es[..n], a, d);
      assert forall i | 0 <= i < n :: es[..n][i] == es[i];
      if Counts(es[n], a, d) && es[n].id > r then es[n].id else r
  }

  predicate Covers(c: Checkpoint, a: string, d: int) {
    c.account == a && c.date <= d
  }

  /** The checkpoint row chosen by ORDER BY business_date DESC LIMIT 1, as an index. */
  function Latest(cps: seq<Checkpoint>, a: string, d: int): (r: Option<nat>)
    ensures r.None? <==> forall i | 0 <= i < |cps| :: !Covers(cps[i], a, d)
    ensures r.Some? ==> r.value < |cps| && Covers(cps[r.value], a, d)
    ensures r.Some? ==> forall i | 0 <= i < |cps| && Covers(cps[i], a, d) :: cps[i].date <= cps[r.value].date
  {
    if cps == [] then None else
      var n := |cps| - 1;
      var m := Latest(cps[..n], a, d);
      if !Covers(cps[n], a, d) then m
      else if m.Some? && cps[m.value].date >= cps[n].date then m
      else Some(n)
  }

  /** ledgerBalanceSQL: the latest checkpoint on or before asOf plus the entries with ids above its watermark. */
  function LedgerBalance(l: Ledger, a: string, asOf: int): int {
    match Latest(l.checkpoints, a, asOf)
    case None => SumIf(l.entries, Above(a, asOf, 0))
    case Some(n) => l.checkpoints[n].balance + SumIf(l.entries, Above(a, asOf, l.checkpoints[n].last))
  }

  // ---------------------------------------------------------------- the machine

  datatype Event =
    | InsertRow(tx: nat, account: string, date: int, minor: int)   // draws the next id, visible to nobody yet
    | Commit(tx: nat)
    | Rollback(tx: nat)                                            // its ids are never used
    | ReadBalance(job: nat, account: string, date: int)
    | ReadLast(job: nat)
    | InsertCheckpoint(job: nat)                                   // 23505 when the account-day already has a checkpoint
    | Die(job: nat)

  predicate HasCheckpoint(cps: seq<Checkpoint>, a: string, d: int) {
    exists i :: 0 <= i < |cps| && cps[i].account == a && cps[i].date == d
  }

  predicate Enabled(l: Ledger, e: Event) {
    match e
    case InsertRow(_, _, _, _) => true
    case Commit(tx) => tx in l.open
    case Rollback(tx) => tx in l.open
    case ReadBalance(j, _, _) => j !in l.jobs
    case ReadLast(j) => j in l.jobs && l.jobs[j].marked.None?
    case InsertCheckpoint(j) => j in l.jobs && l.jobs[j].marked.Some?
    case Die(j) => j in l.jobs
  }

  function Rows(l: Ledger, tx: nat): seq<Entry> {
    if tx in l.open then l.open[tx] else []
  }

  function Watermark(l: Ledger, k: Job): nat {
    MaxEntryId(l.entries, k.account, k.date)
  }

  function Row(k: Job): Checkpoint
    requires k.marked.Some?
  {
    Checkpoint(k.account, k.date, k.balance, k.marked.value.0, Origin(k.seen, k.marked.value.1, k.inherited))
  }

  function Step(l: Ledger, e: Event): Ledger
    requires Enabled(l, e)
  {
    match e
    case InsertRow(tx, a, d, x) => l.(open := l.open[tx := Rows(l, tx) + [Entry(l.nextId, a, d, x)]], nextId := l.nextId + 1)
    case Commit(tx) => l.(entries := l.entries + l.open[tx], open := l.open - {tx})
    case Rollback(tx) => l.(open := l.open - {tx})
    case ReadBalance(j, a, d) =>
      var read := LedgerBalance(l, a, d);
      l.(jobs := l.jobs[j := Job(a, d, read, |l.entries|, Plain(l.entries, a, d) - read, None)])
    case ReadLast(j) => l.(jobs := l.jobs[j := l.jobs[j].(marked := Some((Watermark(l, l.jobs[j]), |l.entries|)))])
    case InsertCheckpoint(j) =>
      var k := l.jobs[j];
      l.(jobs := l.jobs - {j},
         checkpoints := if HasCheckpoint(l.checkpoints, k.account, k.date) then l.checkpoints else l.checkpoints + [Row(k)])
    case Die(j) => l.(jobs := l.jobs - {j})
  }

  ghost predicate ValidRun(l: Ledger, es: seq<Event>)
    decreases |es|
  {
    es == [] || (Enabled(l, es[0]) && ValidRun(Step(l, es[0]), es[1..]))
  }

  ghost function Exec(l: Ledger, es: seq<Event>): Ledger
    requires ValidRun(l, es)
    decreases |es|
  {
    if es == [] then l else Exec(Step(l, es[0]), es[1..])
  }

  function Fresh(): Ledger {
    Ledger([], map[], 1, [], map[])
  }
}
