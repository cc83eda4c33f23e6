/** internal/ledger/consumer over internal/broker: the four delivery modes as one step machine.

    Any number of consumer sessions interleave with producers, broker faults and
    database faults.  A session is one process life: it starts at the committed
    offsets and ends on any error that RunOnce returns. */
module Delivery {
  import opened Books
  import opened Money

  datatype Mode = AtMostOnce | AtLeastOnce | InboxDedup | Transactional

  predicate Dedup(m: Mode) {
    m.InboxDedup? || m.Transactional?
  }

  /** Where a record sits in the broker. */
  datatype Src = Src(part: nat, off: nat)

  /** A movement event.  `parses` is false when the payload, the account id, a
      date or the timestamp does not parse. */
  datatype Record = Record(msg: string, account: string, currency: string, minor: Int64, parses: bool)

  predicate Applicable(r: Record) {
    r.parses && r.msg != "" && New(r.minor, r.currency).Ok?
  }

  /** `src` is history only: the postings table has no such column. */
  datatype Posting = Posting(id: PostingId, msg: string, src: Src)

  datatype Db = Db(inbox: set<string>, postings: seq<Posting>, entries: seq<Entry>, minted: nat)

  predicate HasPosting(db: Db, id: PostingId) {
    exists i :: 0 <= i < |db.postings| && db.postings[i].id == id
  }

  datatype TxResult = Applied(db: Db) | Duplicate | Failed

  function Suspense(currency: string): string {
    "suspense/" + currency
  }

  /** One apply transaction: inbox claim, posting, two legs, commit.  Either all of it lands or none. */
  function ApplyTx(m: Mode, db: Db, r: Record, src: Src): TxResult {
    if !Applicable(r) then Failed
    else if Dedup(m) && r.msg in db.inbox then Duplicate
    else
      var id := if Dedup(m) then Derived(r.msg) else Minted(db.minted);
      if HasPosting(db, id) then Failed
      else
        var amt := New(r.minor, r.currency).value;
        Applied(Db(if Dedup(m) then db.inbox + {r.msg} else db.inbox,
                   db.postings + [Posting(id, r.msg, src)],
                   db.entries + [Entry(id, r.account, amt), Entry(id, Suspense(r.currency), Neg(amt))],
                   if Dedup(m) then db.minted else db.minted + 1))
  }

  /** Polled is mode A between poll and commit.  Applying(batch, done) has booked batch[..done]. */
  datatype Phase = Idle | Polled(batch: seq<Src>) | Applying(batch: seq<Src>, done: nat)
  datatype Session = Session(pos: seq<nat>, phase: Phase)
  datatype World = World(logs: seq<seq<Record>>, committed: seq<nat>, db: Db, sessions: map<nat, Session>)

  datatype Event =
    | Produce(part: nat, rec: Record)
    | Join(sid: nat)
    | Poll(sid: nat, polled: seq<Src>)
    | CommitOk(sid: nat)
    | CommitDeferred(sid: nat, landed: bool)   // a transient error; the offsets may have landed all the same
    | Apply(sid: nat)
    | ApplyFault(sid: nat, landed: bool)       // a database error; the transaction may have committed all the same
    | Abort(sid: nat)                          // mode D: the session rewinds to the committed offsets
    | Crash(sid: nat)                          // any other error RunOnce returns, or a kill
    | Regress(to: seq<nat>)                    // a coordinator failover forgets commits

  /** What CommitRecords stores: per partition, one past the last offset of the batch. */
  function CommitTo(c: seq<nat>, batch: seq<Src>): (r: seq<nat>)
    requires forall s <- batch :: s.part < |c|
    ensures |r| == |c|
    decreases |batch|
  {
    if batch == [] then c else CommitTo(c[batch[0].part := batch[0].off + 1], batch[1..])
  }

  /** A poll may interleave partitions freely but reads each one in order from the session's position. */
  ghost predicate Consecutive(logs: seq<seq<Record>>, pos: seq<nat>, batch: seq<Src>)
    requires |pos| == |logs|
    decreases |batch|
  {
    batch == [] ||
    var s := batch[0];
    && s.part < |pos| && s.off == pos[s.part] && s.off < |logs[s.part]|
    && Consecutive(logs, pos[s.part := s.off + 1], batch[1..])
  }

  ghost predicate InLogs(logs: seq<seq<Record>>, s: Src) {
    s.part < |logs| && s.off < |logs[s.part]|
  }

  /** The phase's batch lies below the session's position, and committing it would reach that position. */
  ghost predicate BatchOf(logs: seq<seq<Record>>, pos: seq<nat>, batch: seq<Src>) {
    && |pos| == |logs|
    && (forall s <- batch :: s.part < |pos| && s.off < pos[s.part])
    && CommitTo(pos, batch) == pos
  }

  ghost predicate SessionOk(m: Mode, logs: seq<seq<Record>>, s: Session) {
    && |s.pos| == |logs|
    && (forall p | 0 <= p < |logs| :: s.pos[p] <= |logs[p]|)
    && match s.phase
       case Idle => true
       case Polled(b) => m == AtMostOnce && BatchOf(logs, s.pos, b)
       case Applying(b, d) => d <= |b| && BatchOf(logs, s.pos, b)
  }

  ghost predicate WellFormed(m: Mode, w: World) {
    && |w.committed| == |w.logs|
    && (forall p | 0 <= p < |w.logs| :: w.committed[p] <= |w.logs[p]|)
    && (forall i | 0 <= i < |w.db.postings| :: var q := w.db.postings[i]; InLogs(w.logs, q.src) && w.logs[q.src.part][q.src.off].msg == q.msg)
    && (forall sid <- w.sessions :: SessionOk(m, w.logs, w.sessions[sid]))
  }

  /** The batch whose offsets this session commits next: before applying in mode A, after it otherwise. */
  ghost predicate Committing(m: Mode, s: Session) {
    if m == AtMostOnce then s.phase.Polled? else s.phase.Applying? && s.phase.done == |s.phase.batch|
  }

  ghost predicate Enabled(m: Mode, w: World, e: Event)
    requires WellFormed(m, w)
  {
    match e
    case Produce(p, _) => p < |w.logs|
    case Join(sid) => sid !in w.sessions
    case Poll(sid, b) => sid in w.sessions && w.sessions[sid].phase.Idle? && Consecutive(w.logs, w.sessions[sid].pos, b)
    case CommitOk(sid) => sid in w.sessions && Committing(m, w.sessions[sid])
    case CommitDeferred(sid, _) => sid in w.sessions && Committing(m, w.sessions[sid])
    case Apply(sid) => sid in w.sessions && w.sessions[sid].phase.Applying? && w.sessions[sid].phase.done < |w.sessions[sid].phase.batch|
    case ApplyFault(sid, _) => sid in w.sessions && w.sessions[sid].phase.Applying? && w.sessions[sid].phase.done < |w.sessions[sid].phase.batch|
    case Abort(sid) => m == Transactional && sid in w.sessions
    case Crash(sid) => sid in w.sessions
    case Regress(to) => |to| == |w.committed| && forall p | 0 <= p < |to| :: to[p] <= w.committed[p]
  }

  /** After its last record a mode A batch is finished; the other modes still owe the commit. */
  function AfterApply(m: Mode, s: Session): Session
    requires s.phase.Applying?
  {
    if m == AtMostOnce && s.phase.done + 1 >= |s.phase.batch| then s.(phase := Idle)
    else s.(phase := Applying(s.phase.batch, s.phase.done + 1))
  }

  function StartBatch(m: Mode, s: Session, b: seq<Src>): Session
    requires forall x <- b :: x.part < |s.pos|
  {
    if b == [] then s
    else Session(CommitTo(s.pos, b), if m == AtMostOnce then Polled(b) else Applying(b, 0))
  }

  ghost function Step(m: Mode, w: World, e: Event): World
    requires WellFormed(m, w) && Enabled(m, w, e)
  {
    match e
    case Produce(p, r) => w.(logs := w.logs[p := w.logs[p] + [r]])
    case Join(sid) => w.(sessions := w.sessions[sid := Session(w.committed, Idle)])
    case Poll(sid, b) =>
      PollFacts(w.logs, w.sessions[sid].pos, b);
      w.(sessions := w.sessions[sid := StartBatch(m, w.sessions[sid], b)])
    case CommitOk(sid) =>
      var s := w.sessions[sid];
      w.(committed := CommitTo(w.committed, s.phase.batch),
         sessions := w.sessions[sid := s.(phase := if m == AtMostOnce then Applying(s.phase.batch, 0) else Idle)])
    case CommitDeferred(sid, landed) =>
      var s := w.sessions[sid];
      w.(committed := if landed then CommitTo(w.committed, s.phase.batch) else w.committed,
         sessions := w.sessions[sid := s.(phase := Idle)])
    case Apply(sid) =>
      var s := w.sessions[sid];
      var src := s.phase.batch[s.phase.done];
      (match ApplyTx(m, w.db, w.logs[src.part][src.off], src)
       case Applied(db) => w.(db := db, sessions := w.sessions[sid := AfterApply(m, s)])
       case Duplicate => w.(sessions := w.sessions[sid := AfterApply(m, s)])
       case Failed => w.(sessions := w.sessions - {sid}))
    case ApplyFault(sid, landed) =>
      var s := w.sessions[sid];
      var src := s.phase.batch[s.phase.done];
      var tx := ApplyTx(m, w.db, w.logs[src.part][src.off], src);
      w.(db := if landed && tx.Applied? then tx.db else w.db, sessions := w.sessions - {sid})
    case Abort(sid) => w.(sessions := w.sessions[sid := Session(w.committed, Idle)])
    case Crash(sid) => w.(sessions := w.sessions - {sid})
    case Regress(to) => w.(committed := to)
  }

  // ---------------------------------------------------------------- offset arithmetic

  /** CommitTo writes only the batch's partitions, and what it writes does not depend on what was there. */
  lemma {:induction false} CommitToPointwise(c: seq<nat>, d: seq<nat>, batch: seq<Src>, p: nat)
    requires |c| == |d| && p < |c|
    requires forall s <- batch :: s.part < |c|
    ensures if exists s :: s in batch && s.part == p then CommitTo(c, batch)[p] == CommitTo(d, batch)[p] else CommitTo(c, batch)[p] == c[p]
    decreases |batch|
  {
    if batch != [] {
      var s := batch[0];
      var c1, d1 := c[s.part := s.off + 1], d[s.part := s.off + 1];
      CommitToPointwise(c1, d1, batch[1..], p);
      if s.part == p && !(exists t :: t in batch[1..] && t.part == p) {
        CommitToPointwise(d1, c1, batch[1..], p);
      } else if exists t :: t in batch && t.part == p {
        var t :| t in batch && t.part == p;
        assert t in batch[1..] || t == s;
      }
    }
  }

  /** A poll reads exactly the offsets between the old and the new position, each once. */
  lemma {:induction false} PollFacts(logs: seq<seq<Record>>, pos: seq<nat>, b: seq<Src>)
    requires |pos| == |logs| && Consecutive(logs, pos, b)
    ensures forall s <- b :: s.part < |pos|
    ensures var to := CommitTo(pos, b);
            && (forall s <- b :: pos[s.part] <= s.off < to[s.part])
            && (forall p | 0 <= p < |pos| :: pos[p] <= to[p])
            && (forall p | 0 <= p < |pos| && pos[p] <= |logs[p]| :: to[p] <= |logs[p]|)
            && (forall p, i | 0 <= p < |pos| && pos[p] <= i < to[p] :: Src(p, i) in b)
    ensures forall i, j | 0 <= i < j < |b| :: b[i] != b[j]
    decreases |b|
  {
    if b != [] {
      var s := b[0];
      PollFacts(logs, pos[s.part := s.off + 1], b[1..]);
      assert forall x :: x in b <==> x == s || x in b[1..];
    }
  }

  lemma {:induction false} PollIsBatch(logs: seq<seq<Record>>, pos: seq<nat>, b: seq<Src>)
    requires |pos| == |logs| && Consecutive(logs, pos, b)
    ensures (forall s <- b :: s.part < |pos|) && BatchOf(logs, CommitTo(pos, b), b)
  {
    PollFacts(logs, pos, b);
    var to := CommitTo(pos, b);
    forall p | 0 <= p < |pos| ensures CommitTo(to, b)[p] == to[p] {
      CommitToPointwise(to, pos, b, p);
    }
  }

  /** Committing a session's batch lands each touched partition on the session's position. */
  lemma {:induction false} CommitReachesPosition(logs: seq<seq<Record>>, c: seq<nat>, pos: seq<nat>, b: seq<Src>, p: nat)
    requires |c| == |logs| && BatchOf(logs, pos, b) && p < |c|
    ensures CommitTo(c, b)[p] == (if exists s :: s in b && s.part == p then pos[p] else c[p])
  {
    CommitToPointwise(c, pos, b, p);
  }

  lemma {:induction false} CommitStaysInLogs(w: World, m: Mode, s: Session, b: seq<Src>)
    requires WellFormed(m, w) && SessionOk(m, w.logs, s) && BatchOf(w.logs, s.pos, b)
    ensures forall p | 0 <= p < |w.logs| :: CommitTo(w.committed, b)[p] <= |w.logs[p]|
  {
    forall p | 0 <= p < |w.logs| ensures CommitTo(w.committed, b)[p] <= |w.logs[p]| {
      CommitReachesPosition(w.logs, w.committed, s.pos, b, p);
    }
  }

  lemma {:induction false} ProduceWellFormed(m: Mode, w: World, p: nat, r: Record)
    requires WellFormed(m, w) && Enabled(m, w, Produce(p, r))
    ensures WellFormed(m, Step(m, w, Produce(p, r)))
  {
    var w' := Step(m, w, Produce(p, r));
    forall sid <- w'.sessions ensures SessionOk(m, w'.logs, w'.sessions[sid]) {
      assert SessionOk(m, w.logs, w.sessions[sid]);
    }
  }

  lemma {:induction false} ReplaceSession(m: Mode, w: World, sid: nat, s: Session)
    requires WellFormed(m, w) && SessionOk(m, w.logs, s)
    ensures WellFormed(m, w.(sessions := w.sessions[sid := s]))
  {
  }

  lemma {:induction false} PollWellFormed(m: Mode, w: World, sid: nat, b: seq<Src>)
    requires WellFormed(m, w) && Enabled(m, w, Poll(sid, b))
    ensures WellFormed(m, Step(m, w, Poll(sid, b)))
  {
    var s := w.sessions[sid];
    PollFacts(w.logs, s.pos, b);
    PollIsBatch(w.logs, s.pos, b);
    ReplaceSession(m, w, sid, StartBatch(m, s, b));
  }

  lemma {:induction false} CommitWellFormed(m: Mode, w: World, e: Event)
    requires WellFormed(m, w) && Enabled(m, w, e) && (e.CommitOk? || e.CommitDeferred?)
    ensures WellFormed(m, Step(m, w, e))
  {
    var s := w.sessions[e.sid];
    CommitStaysInLogs(w, m, s, s.phase.batch);
    var w' := Step(m, w, e);
    ReplaceSession(m, w.(committed := w'.committed), e.sid, w'.sessions[e.sid]);
  }

  lemma {:induction false} DbWellFormed(m: Mode, w: World, db: Db, q: Posting)
    requires WellFormed(m, w) && db.postings == w.db.postings + [q]
    requires InLogs(w.logs, q.src) && w.logs[q.src.part][q.src.off].msg == q.msg
    ensures WellFormed(m, w.(db := db))
  {
  }

  /** What a committed apply transaction adds to the postings. */
  lemma {:induction false} ApplyTxAppends(m: Mode, db: Db, r: Record, src: Src)
    ensures ApplyTx(m, db, r, src).Applied? ==>
              exists id :: ApplyTx(m, db, r, src).db.postings == db.postings + [Posting(id, r.msg, src)]
  {
  }

  lemma {:induction false} ApplyWellFormed(m: Mode, w: World, e: Event)
    requires WellFormed(m, w) && Enabled(m, w, e) && (e.Apply? || e.ApplyFault?)
    ensures WellFormed(m, Step(m, w, e))
  {
    var s := w.sessions[e.sid];
    var src := s.phase.batch[s.phase.done];
    var w' := Step(m, w, e);
    var w1 := w.(db := w'.db);
    if w'.db != w.db {
      var r := w.logs[src.part][src.off];
      ApplyTxAppends(m, w.db, r, src);
      var id :| w'.db.postings == w.db.postings + [Posting(id, r.msg, src)];
      DbWellFormed(m, w, w'.db, Posting(id, r.msg, src));
    }
    assert WellFormed(m, w1) && SessionOk(m, w.logs, AfterApply(m, s));
    ReplaceSession(m, w1, e.sid, AfterApply(m, s));
    assert w' == w1.(sessions := w.sessions[e.sid := AfterApply(m, s)]) || w' == w1.(sessions := w.sessions - {e.sid});
  }

  lemma {:induction false} StepWellFormed(m: Mode, w: World, e: Event)
    requires WellFormed(m, w) && Enabled(m, w, e)
    ensures WellFormed(m, Step(m, w, e))
  {
    match e
    case Produce(p, r) => ProduceWellFormed(m, w, p, r);
    case Poll(sid, b) => PollWellFormed(m, w, sid, b);
    case CommitOk(_) => CommitWellFormed(m, w, e);
    case CommitDeferred(_, _) => CommitWellFormed(m, w, e);
    case Apply(_) => ApplyWellFormed(m, w, e);
    case ApplyFault(_, _) => ApplyWellFormed(m, w, e);
    case _ =>
  }

  // ---------------------------------------------------------------- runs

  ghost predicate ValidRun(m: Mode, w: World, es: seq<Event>)
    requires WellFormed(m, w)
    decreases |es|
  {
    es == [] || (Enabled(m, w, es[0]) && (StepWellFormed(m, w, es[0]); ValidRun(m, Step(m, w, es[0]), es[1..])))
  }

  ghost function Exec(m: Mode, w: World, es: seq<Event>): (r: World)
    requires WellFormed(m, w) && ValidRun(m, w, es)
    ensures WellFormed(m, r)
    decreases |es|
  {
    if es == [] then w else
      StepWellFormed(m, w, es[0]);
      Exec(m, Step(m, w, es[0]), es[1..])
  }

  /** Empty tables, no sessions, nothing committed; the topics may already hold records. */
  ghost predicate Initial(w: World) {
    && w.db == Db({}, [], [], 0)
    && w.sessions == map[]
    && |w.committed| == |w.logs|
    && forall p | 0 <= p < |w.logs| :: w.committed[p] == 0
  }

  // ---------------------------------------------------------------- modes C and D: one effect per message

  ghost predicate OncePerMessage(db: Db) {
    && (forall i | 0 <= i < |db.postings| :: db.postings[i].id == Derived(db.postings[i].msg) && db.postings[i].msg in db.inbox)
    && (forall x <- db.inbox :: exists i :: 0 <= i < |db.postings| && db.postings[i].msg == x)
    && (forall i, j | 0 <= i < j < |db.postings| :: db.postings[i].msg != db.postings[j].msg)
    && |db.postings| == |db.inbox|
  }

  lemma {:induction false} OnceExtends(db: Db, db': Db, q: Posting)
    requires OncePerMessage(db) && q.msg !in db.inbox && q.id == Derived(q.msg)
    requires db'.inbox == db.inbox + {q.msg} && db'.postings == db.postings + [q]
    ensures !HasPosting(db, q.id) && OncePerMessage(db')
  {
    forall x <- db'.inbox ensures exists i :: 0 <= i < |db'.postings| && db'.postings[i].msg == x {
      if x == q.msg {
        assert db'.postings[|db.postings|].msg == x;
      } else {
        var i :| 0 <= i < |db.postings| && db.postings[i].msg == x;
        assert db'.postings[i].msg == x;
      }
    }
  }

  lemma {:induction false} ApplyKeepsOnce(m: Mode, db: Db, r: Record, src: Src)
    requires Dedup(m) && OncePerMessage(db)
    ensures ApplyTx(m, db, r, src).Failed? <==> !Applicable(r)
    ensures ApplyTx(m, db, r, src).Applied? ==> OncePerMessage(ApplyTx(m, db, r, src).db)
  {
    if r.msg !in db.inbox {
      var q := Posting(Derived(r.msg), r.msg, src);
      OnceExtends(db, Db(db.inbox + {r.msg}, db.postings + [q], db.entries, db.minted), q);
      var tx := ApplyTx(m, db, r, src);
      if tx.Applied? {
        OnceExtends(db, tx.db, q);
      }
    }
  }

  lemma {:induction false} StepKeepsOnce(m: Mode, w: World, e: Event)
    requires Dedup(m) && WellFormed(m, w) && Enabled(m, w, e) && OncePerMessage(w.db)
    ensures OncePerMessage(Step(m, w, e).db)
  {
    if e.Apply? || e.ApplyFault? {
      var s := w.sessions[e.sid];
      var src := s.phase.batch[s.phase.done];
      ApplyKeepsOnce(m, w.db, w.logs[src.part][src.off], src);
    }
  }

  /** Under every interleaving of sessions, faults, redeliveries and lost commits, modes C and D book each
      message id at most once, the inbox is exactly the set of booked ids, and the two tables agree in number. */
  lemma {:induction false} ExactlyOneEffectPerMessage(m: Mode, w: World, es: seq<Event>)
    requires Dedup(m) && WellFormed(m, w) && OncePerMessage(w.db) && ValidRun(m, w, es)
    ensures OncePerMessage(Exec(m, w, es).db)
    decreases |es|
  {
    if es != [] {
      StepWellFormed(m, w, es[0]);
      StepKeepsOnce(m, w, es[0]);
      ExactlyOneEffectPerMessage(m, Step(m, w, es[0]), es[1..]);
    }
  }

  // ---------------------------------------------------------------- modes B, C and D: nothing below a committed offset is missing

  /** The record at s has its effect: its own posting in mode B, a posting of its message id in C and D. */
  ghost predicate Booked(m: Mode, w: World, s: Src)
    requires InLogs(w.logs, s)
  {
    exists i :: 0 <= i < |w.db.postings| && w.db.postings[i].msg == w.logs[s.part][s.off].msg &&
                (Dedup(m) || w.db.postings[i].src == s)
  }

  ghost function PendingOf(s: Session): seq<Src> {
    match s.phase
    case Applying(b, d) => if d <= |b| then b[d..] else []
    case _ => []
  }

  ghost predicate SessionCovered(m: Mode, w: World, s: Session)
    requires SessionOk(m, w.logs, s)
  {
    forall p, i | 0 <= p < |w.logs| && 0 <= i < s.pos[p] :: Src(p, i) in PendingOf(s) || Booked(m, w, Src(p, i))
  }

  ghost predicate NothingLost(m: Mode, w: World)
    requires WellFormed(m, w)
  {
    && (forall p, i | 0 <= p < |w.logs| && 0 <= i < w.committed[p] :: Booked(m, w, Src(p, i)))
    && (forall sid <- w.sessions :: SessionCovered(m, w, w.sessions[sid]))
  }

  ghost predicate InboxBacked(m: Mode, db: Db) {
    Dedup(m) ==> forall x <- db.inbox :: exists i :: 0 <= i < |db.postings| && db.postings[i].msg == x
  }

  /** Postings are append-only and so are logs, so an effect once booked stays booked. */
  lemma {:induction false} BookedGrows(m: Mode, w: World, w': World, s: Src)
    requires InLogs(w.logs, s) && InLogs(w'.logs, s) && w.logs[s.part][s.off] == w'.logs[s.part][s.off]
    requires w.db.postings <= w'.db.postings && Booked(m, w, s)
    ensures Booked(m, w', s)
  {
    var i :| 0 <= i < |w.db.postings| && w.db.postings[i].msg == w.logs[s.part][s.off].msg &&
             (Dedup(m) || w.db.postings[i].src == s);
    assert w'.db.postings[i] == w.db.postings[i];
  }

  ghost predicate Extends(w: World, w': World) {
    && |w.logs| == |w'.logs| && w.db.postings <= w'.db.postings
    && forall p | 0 <= p < |w.logs| :: w.logs[p] <= w'.logs[p]
  }

  lemma {:induction false} CoveredGrows(m: Mode, w: World, w': World, s: Session)
    requires SessionOk(m, w.logs, s) && SessionOk(m, w'.logs, s) && Extends(w, w') && SessionCovered(m, w, s)
    ensures SessionCovered(m, w', s)
  {
    forall p, i | 0 <= p < |w'.logs| && 0 <= i < s.pos[p] ensures Src(p, i) in PendingOf(s) || Booked(m, w', Src(p, i)) {
      if Src(p, i) !in PendingOf(s) {
        BookedGrows(m, w, w', Src(p, i));
      }
    }
  }

  lemma {:induction false} StepExtends(m: Mode, w: World, e: Event)
    requires WellFormed(m, w) && Enabled(m, w, e)
    ensures Extends(w, Step(m, w, e))
    ensures forall sid <- w.sessions :: sid in Step(m, w, e).sessions && (e.Produce? || e.Regress? || sid != e.sid) ==> Step(m, w, e).sessions[sid] == w.sessions[sid]
  {
    var w' := Step(m, w, e);
    assert w.db.postings <= w'.db.postings by {
      if e.Apply? || e.ApplyFault? {
        var src := w.sessions[e.sid].phase.batch[w.sessions[e.sid].phase.done];
        ApplyTxAppends(m, w.db, w.logs[src.part][src.off], src);
      }
    }
    assert |w.logs| == |w'.logs| && forall p | 0 <= p < |w.logs| :: w.logs[p] <= w'.logs[p];
  }

  /** Everything that did not touch the event's own session or the offsets carries over. */
  lemma {:induction false} OthersCovered(m: Mode, w: World, e: Event, sid: nat)
    requires WellFormed(m, w) && Enabled(m, w, e) && NothingLost(m, w)
    requires sid in w.sessions && sid in Step(m, w, e).sessions && (e.Produce? || e.Regress? || sid != e.sid)
    ensures WellFormed(m, Step(m, w, e)) && SessionCovered(m, Step(m, w, e), Step(m, w, e).sessions[sid])
  {
    StepWellFormed(m, w, e);
    StepExtends(m, w, e);
    CoveredGrows(m, w, Step(m, w, e), w.sessions[sid]);
  }

  /** A successful or suppressed apply leaves the record booked. */
  lemma {:induction false} ApplyBooks(m: Mode, w: World, sid: nat)
    requires m != AtMostOnce && WellFormed(m, w) && Enabled(m, w, Apply(sid)) && InboxBacked(m, w.db)
    ensures WellFormed(m, Step(m, w, Apply(sid)))
    ensures var w' := Step(m, w, Apply(sid)); var s := w.sessions[sid]; sid in w'.sessions ==>
              w'.sessions[sid] == AfterApply(m, s) && Booked(m, w', s.phase.batch[s.phase.done])
  {
    var e := Apply(sid);
    StepWellFormed(m, w, e);
    var s := w.sessions[sid];
    var src := s.phase.batch[s.phase.done];
    var w' := Step(m, w, e);
    var tx := ApplyTx(m, w.db, w.logs[src.part][src.off], src);
    if tx.Applied? {
      assert w'.db.postings[|w.db.postings|] == Posting(if Dedup(m) then Derived(w.logs[src.part][src.off].msg) else Minted(w.db.minted), w.logs[src.part][src.off].msg, src);
    }
  }

  lemma {:induction false} PollCovered(m: Mode, w: World, sid: nat, b: seq<Src>)
    requires m != AtMostOnce && WellFormed(m, w) && Enabled(m, w, Poll(sid, b)) && NothingLost(m, w)
    ensures WellFormed(m, Step(m, w, Poll(sid, b)))
    ensures var w' := Step(m, w, Poll(sid, b)); SessionCovered(m, w', w'.sessions[sid])
  {
    StepWellFormed(m, w, Poll(sid, b));
    var w' := Step(m, w, Poll(sid, b));
    var s, s' := w.sessions[sid], w'.sessions[sid];
    PollFacts(w.logs, s.pos, b);
    assert SessionCovered(m, w, s) && PendingOf(s) == [] && PendingOf(s') == b;
    forall p, i | 0 <= p < |w'.logs| && 0 <= i < s'.pos[p] ensures Src(p, i) in PendingOf(s') || Booked(m, w', Src(p, i)) {
      if i < s.pos[p] {
        BookedGrows(m, w, w', Src(p, i));
      }
    }
  }

  /** A session whose pending list loses only a record that is now booked stays covered. */
  lemma {:induction false} PendingShrinks(m: Mode, w: World, w': World, s: Session, s': Session, x: Src)
    requires SessionOk(m, w.logs, s) && SessionOk(m, w'.logs, s') && Extends(w, w') && SessionCovered(m, w, s)
    requires s'.pos == s.pos && InLogs(w'.logs, x) && Booked(m, w', x)
    requires forall y <- PendingOf(s) :: y == x || y in PendingOf(s')
    ensures SessionCovered(m, w', s')
  {
    forall p, i | 0 <= p < |w'.logs| && 0 <= i < s'.pos[p] ensures Src(p, i) in PendingOf(s') || Booked(m, w', Src(p, i)) {
      if Src(p, i) !in PendingOf(s) {
        BookedGrows(m, w, w', Src(p, i));
      }
    }
  }

  lemma {:induction false} ApplyPending(m: Mode, s: Session)
    requires m != AtMostOnce && s.phase.Applying? && s.phase.done < |s.phase.batch|
    ensures PendingOf(s) == [s.phase.batch[s.phase.done]] + PendingOf(AfterApply(m, s))
  {
  }

  lemma {:induction false} ApplyCovered(m: Mode, w: World, sid: nat)
    requires m != AtMostOnce && WellFormed(m, w) && Enabled(m, w, Apply(sid)) && NothingLost(m, w) && InboxBacked(m, w.db)
    requires sid in Step(m, w, Apply(sid)).sessions
    ensures WellFormed(m, Step(m, w, Apply(sid)))
    ensures var w' := Step(m, w, Apply(sid)); SessionCovered(m, w', w'.sessions[sid])
  {
    ApplyBooks(m, w, sid);
    StepExtends(m, w, Apply(sid));
    var w' := Step(m, w, Apply(sid));
    var s := w.sessions[sid];
    var x := s.phase.batch[s.phase.done];
    ApplyPending(m, s);
    PendingShrinks(m, w, w', s, AfterApply(m, s), x);
  }

  lemma {:induction false} OwnSessionCovered(m: Mode, w: World, e: Event)
    requires m != AtMostOnce && WellFormed(m, w) && Enabled(m, w, e) && NothingLost(m, w) && InboxBacked(m, w.db)
    requires !e.Produce? && !e.Regress? && e.sid in Step(m, w, e).sessions
    ensures WellFormed(m, Step(m, w, e)) && SessionCovered(m, Step(m, w, e), Step(m, w, e).sessions[e.sid])
  {
    StepWellFormed(m, w, e);
    if e.Poll? {
      PollCovered(m, w, e.sid, e.polled);
    } else if e.Apply? {
      ApplyCovered(m, w, e.sid);
    } else {
      var w' := Step(m, w, e);
      var s' := w'.sessions[e.sid];
      if e.CommitOk? || e.CommitDeferred? {
        assert SessionCovered(m, w, w.sessions[e.sid]) && PendingOf(w.sessions[e.sid]) == [];
      }
      forall p, i | 0 <= p < |w'.logs| && 0 <= i < s'.pos[p] ensures Booked(m, w', Src(p, i)) {
        BookedGrows(m, w, w', Src(p, i));
      }
    }
  }

  /** A commit moves an offset only over records its session has already booked. */
  lemma {:induction false} CommitCovered(m: Mode, w: World, e: Event, p: nat, i: nat)
    requires m != AtMostOnce && WellFormed(m, w) && Enabled(m, w, e) && NothingLost(m, w)
    requires p < |w.logs| && w.committed[p] <= i < Step(m, w, e).committed[p]
    ensures InLogs(w.logs, Src(p, i)) && Booked(m, w, Src(p, i))
  {
    var s := w.sessions[e.sid];
    CommitReachesPosition(w.logs, w.committed, s.pos, s.phase.batch, p);
    assert PendingOf(s) == [] && SessionCovered(m, w, s);
  }

  lemma {:induction false} OffsetsCovered(m: Mode, w: World, e: Event, p: nat, i: nat)
    requires m != AtMostOnce && WellFormed(m, w) && Enabled(m, w, e) && NothingLost(m, w)
    requires p < |w.logs| && i < Step(m, w, e).committed[p]
    ensures WellFormed(m, Step(m, w, e)) && Booked(m, Step(m, w, e), Src(p, i))
  {
    StepWellFormed(m, w, e);
    StepExtends(m, w, e);
    var w' := Step(m, w, e);
    if i >= w.committed[p] {
      CommitCovered(m, w, e, p, i);
    }
    BookedGrows(m, w, w', Src(p, i));
  }

  lemma {:induction false} StepLosesNothing(m: Mode, w: World, e: Event)
    requires m != AtMostOnce && WellFormed(m, w) && Enabled(m, w, e) && NothingLost(m, w) && InboxBacked(m, w.db)
    ensures WellFormed(m, Step(m, w, e)) && NothingLost(m, Step(m, w, e)) && InboxBacked(m, Step(m, w, e).db)
  {
    StepWellFormed(m, w, e);
    var w' := Step(m, w, e);
    forall p, i | 0 <= p < |w'.logs| && 0 <= i < w'.committed[p] ensures Booked(m, w', Src(p, i)) {
      OffsetsCovered(m, w, e, p, i);
    }
    forall sid <- w'.sessions ensures SessionCovered(m, w', w'.sessions[sid]) {
      if e.Produce? || e.Regress? || sid != e.sid {
        OthersCovered(m, w, e, sid);
      } else {
        OwnSessionCovered(m, w, e);
      }
    }
    StepKeepsBacking(m, w, e);
  }

  lemma {:induction false} StepKeepsBacking(m: Mode, w: World, e: Event)
    requires WellFormed(m, w) && Enabled(m, w, e) && InboxBacked(m, w.db)
    ensures InboxBacked(m, Step(m, w, e).db)
  {
    var w' := Step(m, w, e);
    if Dedup(m) && w'.db != w.db {
      forall x <- w'.db.inbox ensures exists i :: 0 <= i < |w'.db.postings| && w'.db.postings[i].msg == x {
        if x in w.db.inbox {
          var i :| 0 <= i < |w.db.postings| && w.db.postings[i].msg == x;
          assert w'.db.postings[i].msg == x;
        } else {
          assert w'.db.postings[|w.db.postings|].msg == x;
        }
      }
    }
  }

  /** Modes B, C and D never lose: whatever faults occurred, every record below a committed offset is booked,
      and so is every record a live session has moved past without still holding it. */
  lemma {:induction false} CommittedIsBooked(m: Mode, w: World, es: seq<Event>)
    requires m != AtMostOnce && WellFormed(m, w) && NothingLost(m, w) && InboxBacked(m, w.db) && ValidRun(m, w, es)
    ensures NothingLost(m, Exec(m, w, es)) && InboxBacked(m, Exec(m, w, es).db)
    decreases |es|
  {
    if es != [] {
      StepLosesNothing(m, w, es[0]);
      CommittedIsBooked(m, Step(m, w, es[0]), es[1..]);
    }
  }
}
