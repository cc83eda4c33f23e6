/** What the delivery modes promise over whole runs, from empty tables. */
module DeliveryGuarantees {
  import opened Books
  import opened Delivery
  import opened Money

  // ---------------------------------------------------------------- zero-sum in every mode

  lemma {:induction false} StepKeepsBalance(m: Mode, w: World, e: Event)
    requires WellFormed(m, w) && Enabled(m, w, e) && Balanced(w.db.entries)
    ensures Balanced(Step(m, w, e).db.entries)
  {
    if Step(m, w, e).db != w.db {
      var s := w.sessions[e.sid];
      var src := s.phase.batch[s.phase.done];
      ApplyKeepsBalance(m, w.db, w.logs[src.part][src.off], src);
    }
  }

  lemma {:induction false} ApplyKeepsBalance(m: Mode, db: Db, r: Record, src: Src)
    requires Balanced(db.entries) && ApplyTx(m, db, r, src).Applied?
    ensures Balanced(ApplyTx(m, db, r, src).db.entries)
  {
    var id := if Dedup(m) then Derived(r.msg) else Minted(db.minted);
    var amt := New(r.minor, r.currency).value;
    var x, y := Entry(id, r.account, amt), Entry(id, Suspense(r.currency), Neg(amt));
    PairBalanced(x, y);
    BalancedConcat(db.entries, [x, y]);
  }

  /** Per-currency zero-sum holds in every reachable state of every mode, duplicated effects included. */
  lemma {:induction false} EveryModeBalances(m: Mode, w: World, es: seq<Event>)
    requires WellFormed(m, w) && Balanced(w.db.entries) && ValidRun(m, w, es)
    ensures Balanced(Exec(m, w, es).db.entries)
    decreases |es|
  {
    if es != [] {
      StepWellFormed(m, w, es[0]);
      StepKeepsBalance(m, w, es[0]);
      EveryModeBalances(m, Step(m, w, es[0]), es[1..]);
    }
  }

  // ---------------------------------------------------------------- modes C and D, end to end

  lemma {:induction false} InitialFacts(m: Mode, w: World)
    requires Initial(w)
    ensures WellFormed(m, w) && OncePerMessage(w.db) && NothingLost(m, w) && InboxBacked(m, w.db) && Balanced(w.db.entries)
  {
  }

  ghost predicate CaughtUp(w: World) {
    |w.committed| == |w.logs| && forall p | 0 <= p < |w.logs| :: w.committed[p] == |w.logs[p]|
  }

  ghost predicate InSomeLog(w: World, msg: string) {
    exists p, i :: 0 <= p < |w.logs| && 0 <= i < |w.logs[p]| && w.logs[p][i].msg == msg
  }

  lemma {:induction false} CaughtUpBooksTheLogs(m: Mode, w: World)
    requires Dedup(m) && WellFormed(m, w) && OncePerMessage(w.db) && NothingLost(m, w) && CaughtUp(w)
    ensures forall msg :: msg in w.db.inbox <==> InSomeLog(w, msg)
  {
    forall msg ensures msg in w.db.inbox <==> InSomeLog(w, msg) {
      if msg in w.db.inbox {
        var k :| 0 <= k < |w.db.postings| && w.db.postings[k].msg == msg;
        var src := w.db.postings[k].src;
        assert InLogs(w.logs, src) && w.logs[src.part][src.off].msg == msg;
      }
      if InSomeLog(w, msg) {
        var p, i :| 0 <= p < |w.logs| && 0 <= i < |w.logs[p]| && w.logs[p][i].msg == msg;
        assert Booked(m, w, Src(p, i));
      }
    }
  }

  /** Once modes C or D have committed every partition to its end, the booked message ids are exactly the
      ids in the logs, each booked exactly once, whatever happened on the way. */
  lemma {:induction false} ExactlyOnceWhenCaughtUp(m: Mode, w: World, es: seq<Event>)
    requires Dedup(m) && Initial(w) && WellFormed(m, w) && ValidRun(m, w, es) && CaughtUp(Exec(m, w, es))
    ensures OncePerMessage(Exec(m, w, es).db)
    ensures forall msg :: msg in Exec(m, w, es).db.inbox <==> InSomeLog(Exec(m, w, es), msg)
  {
    InitialFacts(m, w);
    ExactlyOneEffectPerMessage(m, w, es);
    CommittedIsBooked(m, w, es);
    CaughtUpBooksTheLogs(m, Exec(m, w, es));
  }

  /** In modes B, C and D every record below a committed offset has a posting carrying its message id. */
  lemma {:induction false} NeverLosesBelowCommitted(m: Mode, w: World, es: seq<Event>, s: Src)
    requires m != AtMostOnce && Initial(w) && WellFormed(m, w) && ValidRun(m, w, es)
    requires s.part < |Exec(m, w, es).logs| && s.off < Exec(m, w, es).committed[s.part]
    ensures var w' := Exec(m, w, es);
            exists k :: 0 <= k < |w'.db.postings| && w'.db.postings[k].msg == w'.logs[s.part][s.off].msg &&
                        (m == AtLeastOnce ==> w'.db.postings[k].src == s)
  {
    InitialFacts(m, w);
    CommittedIsBooked(m, w, es);
    assert Booked(m, Exec(m, w, es), s);
  }

  // ---------------------------------------------------------------- mode A

  ghost predicate Below(c: seq<nat>, d: seq<nat>) {
    |c| == |d| && forall p | 0 <= p < |c| :: c[p] <= d[p]
  }

  /** The run never has two live sessions and no step lowers a committed offset. */
  ghost predicate SteadyRun(m: Mode, w: World, es: seq<Event>)
    requires WellFormed(m, w) && ValidRun(m, w, es)
    decreases |es|
  {
    es == [] || (
      && (es[0].Join? ==> w.sessions == map[])
      && Below(w.committed, Step(m, w, es[0]).committed)
      && (StepWellFormed(m, w, es[0]); SteadyRun(m, Step(m, w, es[0]), es[1..])))
  }

  ghost predicate Distinct<T>(xs: seq<T>) {
    forall i, j | 0 <= i < j < |xs| :: xs[i] != xs[j]
  }

  ghost predicate PostedFrom(db: Db, s: Src) {
    exists i :: 0 <= i < |db.postings| && db.postings[i].src == s
  }

  ghost predicate AtMostOncePerRecord(db: Db) {
    forall i, j | 0 <= i < j < |db.postings| :: db.postings[i].src != db.postings[j].src
  }

  /** What sessions keep, lost commits or not: an uncommitted batch lies at or above the committed offsets, and a position
      is never below them. */
  ghost predicate PhaseOrderly(w: World, s: Session)
    requires WellFormed(AtMostOnce, w) && SessionOk(AtMostOnce, w.logs, s)
  {
    && Below(w.committed, s.pos)
    && match s.phase
       case Idle => true
       case Polled(b) => Distinct(b) && forall x <- b :: w.committed[x.part] <= x.off
       case Applying(b, d) => Distinct(b)
  }

  ghost predicate Orderly(w: World)
    requires WellFormed(AtMostOnce, w)
  {
    && (forall a <- w.sessions, b <- w.sessions :: a == b)
    && (forall sid <- w.sessions :: PhaseOrderly(w, w.sessions[sid]))
  }

  /** The session applies batch record k unless it stops first: no record from the next one up to it is malformed. */
  ghost predicate InReach(logs: seq<seq<Record>>, s: Session, k: nat)
    requires SessionOk(AtMostOnce, logs, s)
  {
    && s.phase.Applying? && s.phase.done <= k < |s.phase.batch|
    && forall j | s.phase.done <= j <= k :: Applicable(logs[s.phase.batch[j].part][s.phase.batch[j].off])
  }

  /** What the session may still book is committed and not booked yet. */
  ghost predicate RestFresh(w: World, s: Session)
    requires WellFormed(AtMostOnce, w) && SessionOk(AtMostOnce, w.logs, s)
  {
    forall k: nat | InReach(w.logs, s, k) :: s.phase.batch[k].off < w.committed[s.phase.batch[k].part] && !PostedFrom(w.db, s.phase.batch[k])
  }

  ghost predicate BookedBelow(w: World, c: seq<nat>) {
    forall i | 0 <= i < |w.db.postings| :: w.db.postings[i].src.part < |c| && w.db.postings[i].src.off < c[w.db.postings[i].src.part]
  }

  /** Mode A's invariant: one posting a record, all below the committed offsets, and the rest of a batch in hand too. */
  ghost predicate Safe(w: World)
    requires WellFormed(AtMostOnce, w)
  {
    && Orderly(w) && AtMostOncePerRecord(w.db) && BookedBelow(w, w.committed)
    && (forall sid <- w.sessions :: RestFresh(w, w.sessions[sid]))
  }

  lemma {:induction false} CommitLandsInSession(w: World, s: Session, b: seq<Src>)
    requires WellFormed(AtMostOnce, w) && SessionOk(AtMostOnce, w.logs, s) && BatchOf(w.logs, s.pos, b) && Below(w.committed, s.pos)
    ensures Below(CommitTo(w.committed, b), s.pos)
    ensures forall x <- b :: x.off < CommitTo(w.committed, b)[x.part]
  {
    forall p | 0 <= p < |w.logs| ensures CommitTo(w.committed, b)[p] <= s.pos[p] {
      CommitReachesPosition(w.logs, w.committed, s.pos, b, p);
    }
    forall x <- b ensures x.off < CommitTo(w.committed, b)[x.part] {
      CommitReachesPosition(w.logs, w.committed, s.pos, b, x.part);
    }
  }

  lemma {:induction false} CommitOrderly(w: World, e: Event)
    requires WellFormed(AtMostOnce, w) && Orderly(w) && (e.CommitOk? || e.CommitDeferred?) && Enabled(AtMostOnce, w, e)
    ensures WellFormed(AtMostOnce, Step(AtMostOnce, w, e)) && Orderly(Step(AtMostOnce, w, e))
  {
    StepWellFormed(AtMostOnce, w, e);
    var s := w.sessions[e.sid];
    assert PhaseOrderly(w, s);
    CommitLandsInSession(w, s, s.phase.batch);
  }

  lemma {:induction false} PollOrderly(w: World, sid: nat, b: seq<Src>)
    requires WellFormed(AtMostOnce, w) && Orderly(w) && Enabled(AtMostOnce, w, Poll(sid, b))
    ensures WellFormed(AtMostOnce, Step(AtMostOnce, w, Poll(sid, b))) && Orderly(Step(AtMostOnce, w, Poll(sid, b)))
  {
    StepWellFormed(AtMostOnce, w, Poll(sid, b));
    PollFacts(w.logs, w.sessions[sid].pos, b);
    assert PhaseOrderly(w, w.sessions[sid]);
  }

  /** What an apply leaves: the session moves on or ends, and at most its next record, an applicable one, is booked. */
  ghost predicate AppliedTo(w: World, sid: nat, w': World)
    requires WellFormed(AtMostOnce, w)
  {
    && sid in w.sessions && w.sessions[sid].phase.Applying? && w.sessions[sid].phase.done < |w.sessions[sid].phase.batch|
    && w'.logs == w.logs && w'.committed == w.committed
    && (w'.sessions == w.sessions[sid := AfterApply(AtMostOnce, w.sessions[sid])] || w'.sessions == w.sessions - {sid})
    && var src := w.sessions[sid].phase.batch[w.sessions[sid].phase.done];
       (w'.db.postings == w.db.postings && w'.sessions == w.sessions - {sid}) ||
       (Applicable(w.logs[src.part][src.off]) && exists q: Posting :: q.src == src && w'.db.postings == w.db.postings + [q])
  }

  lemma {:induction false} ApplyDoes(w: World, e: Event)
    requires WellFormed(AtMostOnce, w) && (e.Apply? || e.ApplyFault?) && Enabled(AtMostOnce, w, e)
    ensures AppliedTo(w, e.sid, Step(AtMostOnce, w, e))
  {
    var s := w.sessions[e.sid];
    var src := s.phase.batch[s.phase.done];
    ApplyTxAppends(AtMostOnce, w.db, w.logs[src.part][src.off], src);
  }

  lemma {:induction false} AppliedOrderly(w: World, sid: nat, w': World)
    requires WellFormed(AtMostOnce, w) && Orderly(w) && AppliedTo(w, sid, w') && WellFormed(AtMostOnce, w')
    ensures Orderly(w')
  {
    var s := w.sessions[sid];
    assert PhaseOrderly(w, s);
    forall id <- w'.sessions ensures PhaseOrderly(w', w'.sessions[id]) {
      assert id in w.sessions && PhaseOrderly(w, w.sessions[id]);
    }
  }

  /** Offsets that are no higher and longer logs leave a session orderly. */
  lemma {:induction false} OrderlyLower(w: World, w': World, s: Session)
    requires WellFormed(AtMostOnce, w) && SessionOk(AtMostOnce, w.logs, s) && PhaseOrderly(w, s)
    requires WellFormed(AtMostOnce, w') && SessionOk(AtMostOnce, w'.logs, s) && Below(w'.committed, w.committed)
    ensures PhaseOrderly(w', s)
  {
  }

  lemma {:induction false} OtherOrderly(w: World, e: Event)
    requires WellFormed(AtMostOnce, w) && Orderly(w) && Enabled(AtMostOnce, w, e) && (e.Join? ==> w.sessions == map[])
    requires e.Produce? || e.Join? || e.Abort? || e.Crash? || e.Regress?
    ensures WellFormed(AtMostOnce, Step(AtMostOnce, w, e)) && Orderly(Step(AtMostOnce, w, e))
  {
    StepWellFormed(AtMostOnce, w, e);
    var w' := Step(AtMostOnce, w, e);
    assert Below(w'.committed, w.committed);
    forall sid <- w'.sessions ensures PhaseOrderly(w', w'.sessions[sid]) {
      if sid in w.sessions {
        assert w'.sessions[sid] == w.sessions[sid] && PhaseOrderly(w, w.sessions[sid]);
        OrderlyLower(w, w', w.sessions[sid]);
      }
    }
  }

  /** Sessions one at a time stay orderly through every event, lost commits included. */
  lemma {:induction false} StepOrderly(w: World, e: Event)
    requires WellFormed(AtMostOnce, w) && Orderly(w) && Enabled(AtMostOnce, w, e) && (e.Join? ==> w.sessions == map[])
    ensures WellFormed(AtMostOnce, Step(AtMostOnce, w, e)) && Orderly(Step(AtMostOnce, w, e))
  {
    if e.CommitOk? || e.CommitDeferred? {
      CommitOrderly(w, e);
    } else if e.Poll? {
      PollOrderly(w, e.sid, e.polled);
    } else if e.Apply? || e.ApplyFault? {
      StepWellFormed(AtMostOnce, w, e);
      ApplyDoes(w, e);
      AppliedOrderly(w, e.sid, Step(AtMostOnce, w, e));
    } else {
      OtherOrderly(w, e);
    }
  }

  /** A commit that lands puts the whole batch below the committed offsets; none of it was booked. */
  lemma {:induction false} CommitFresh(w: World, e: Event)
    requires WellFormed(AtMostOnce, w) && Safe(w) && (e.CommitOk? || e.CommitDeferred?) && Enabled(AtMostOnce, w, e)
    ensures WellFormed(AtMostOnce, Step(AtMostOnce, w, e)) && e.sid in Step(AtMostOnce, w, e).sessions
    ensures RestFresh(Step(AtMostOnce, w, e), Step(AtMostOnce, w, e).sessions[e.sid])
  {
    StepWellFormed(AtMostOnce, w, e);
    var s := w.sessions[e.sid];
    var b := s.phase.batch;
    assert PhaseOrderly(w, s);
    CommitLandsInSession(w, s, b);
    forall k | 0 <= k < |b| ensures !PostedFrom(w.db, b[k]) {
      assert w.committed[b[k].part] <= b[k].off;
    }
  }

  /** A transaction that commits adds one posting for its record and nothing else. */
  lemma {:induction false} PostedFromGrows(db: Db, db': Db, q: Posting, x: Src)
    requires db'.postings == db.postings + [q]
    ensures PostedFrom(db', x) <==> PostedFrom(db, x) || x == q.src
  {
    if PostedFrom(db, x) {
      var i :| 0 <= i < |db.postings| && db.postings[i].src == x;
      assert db'.postings[i].src == x;
    }
    assert db'.postings[|db.postings|] == q;
  }

  /** Booking the next record of the batch leaves the rest of it unbooked. */
  lemma {:induction false} BookNext(w: World, db: Db, s: Session, q: Posting)
    requires WellFormed(AtMostOnce, w) && SessionOk(AtMostOnce, w.logs, s) && PhaseOrderly(w, s) && RestFresh(w, s)
    requires s.phase.Applying? && s.phase.done < |s.phase.batch| && q.src == s.phase.batch[s.phase.done]
    requires Applicable(w.logs[q.src.part][q.src.off])
    requires AtMostOncePerRecord(w.db) && BookedBelow(w, w.committed) && db.postings == w.db.postings + [q]
    ensures AtMostOncePerRecord(db) && BookedBelow(w.(db := db), w.committed)
    ensures forall k: nat | k != s.phase.done && InReach(w.logs, s, k) :: !PostedFrom(db, s.phase.batch[k])
  {
    assert InReach(w.logs, s, s.phase.done);
    forall k: nat | k != s.phase.done && InReach(w.logs, s, k) ensures !PostedFrom(db, s.phase.batch[k]) {
      PostedFromGrows(w.db, db, q, s.phase.batch[k]);
    }
  }

  /** Past an applicable record the session reaches what it reached before. */
  lemma {:induction false} ReachShrinks(logs: seq<seq<Record>>, s: Session, k: nat)
    requires SessionOk(AtMostOnce, logs, s) && s.phase.Applying? && s.phase.done < |s.phase.batch|
    requires Applicable(logs[s.phase.batch[s.phase.done].part][s.phase.batch[s.phase.done].off])
    requires SessionOk(AtMostOnce, logs, AfterApply(AtMostOnce, s)) && InReach(logs, AfterApply(AtMostOnce, s), k)
    ensures k > s.phase.done && InReach(logs, s, k)
  {
  }

  lemma {:induction false} AppliedSafe(w: World, sid: nat, w': World)
    requires WellFormed(AtMostOnce, w) && Safe(w) && AppliedTo(w, sid, w') && WellFormed(AtMostOnce, w') && Orderly(w')
    ensures Safe(w')
  {
    var s := w.sessions[sid];
    var src := s.phase.batch[s.phase.done];
    assert PhaseOrderly(w, s) && RestFresh(w, s);
    if w'.db.postings != w.db.postings {
      var q: Posting :| q.src == src && w'.db.postings == w.db.postings + [q];
      BookNext(w, w'.db, s, q);
      forall id <- w'.sessions ensures RestFresh(w', w'.sessions[id]) {
        assert id in w.sessions && id == sid;
        RestAfterBooking(w, w', s);
      }
    } else {
      assert forall id <- w'.sessions :: id in w.sessions && id == sid;
    }
  }

  lemma {:induction false} RestAfterBooking(w: World, w': World, s: Session)
    requires WellFormed(AtMostOnce, w) && SessionOk(AtMostOnce, w.logs, s) && RestFresh(w, s)
    requires s.phase.Applying? && s.phase.done < |s.phase.batch|
    requires Applicable(w.logs[s.phase.batch[s.phase.done].part][s.phase.batch[s.phase.done].off])
    requires WellFormed(AtMostOnce, w') && w'.logs == w.logs && w'.committed == w.committed
    requires SessionOk(AtMostOnce, w'.logs, AfterApply(AtMostOnce, s))
    requires forall k: nat | k != s.phase.done && InReach(w.logs, s, k) :: !PostedFrom(w'.db, s.phase.batch[k])
    ensures RestFresh(w', AfterApply(AtMostOnce, s))
  {
    forall k: nat | InReach(w'.logs, AfterApply(AtMostOnce, s), k) ensures k > s.phase.done && InReach(w.logs, s, k) {
      ReachShrinks(w.logs, s, k);
    }
  }

  /** Logs only grow, so what a session reaches does not change. */
  lemma {:induction false} ReachStays(w: World, e: Event, s: Session, k: nat)
    requires WellFormed(AtMostOnce, w) && Enabled(AtMostOnce, w, e) && SessionOk(AtMostOnce, w.logs, s)
    ensures SessionOk(AtMostOnce, Step(AtMostOnce, w, e).logs, s) && (InReach(Step(AtMostOnce, w, e).logs, s, k) <==> InReach(w.logs, s, k))
  {
    var logs := Step(AtMostOnce, w, e).logs;
    assert forall p | 0 <= p < |w.logs| :: |logs| == |w.logs| && w.logs[p] <= logs[p];
  }

  lemma {:induction false} StepSafe(w: World, e: Event)
    requires WellFormed(AtMostOnce, w) && Safe(w) && Enabled(AtMostOnce, w, e)
    requires e.Join? ==> w.sessions == map[]
    requires Below(w.committed, Step(AtMostOnce, w, e).committed)
    ensures WellFormed(AtMostOnce, Step(AtMostOnce, w, e)) && Safe(Step(AtMostOnce, w, e))
  {
    StepOrderly(w, e);
    if e.Apply? || e.ApplyFault? {
      ApplyDoes(w, e);
      AppliedSafe(w, e.sid, Step(AtMostOnce, w, e));
    } else {
      var w' := Step(AtMostOnce, w, e);
      assert w'.db == w.db;
      forall sid <- w'.sessions ensures RestFresh(w', w'.sessions[sid]) {
        if (e.CommitOk? || e.CommitDeferred?) && sid == e.sid {
          CommitFresh(w, e);
        } else if sid in w.sessions && w'.sessions[sid] == w.sessions[sid] {
          KeepsFresh(w, e, sid);
        }
      }
    }
  }

  lemma {:induction false} KeepsFresh(w: World, e: Event, sid: nat)
    requires WellFormed(AtMostOnce, w) && Safe(w) && Enabled(AtMostOnce, w, e) && sid in w.sessions
    requires WellFormed(AtMostOnce, Step(AtMostOnce, w, e)) && Step(AtMostOnce, w, e).db == w.db
    requires Below(w.committed, Step(AtMostOnce, w, e).committed)
    ensures SessionOk(AtMostOnce, Step(AtMostOnce, w, e).logs, w.sessions[sid]) && RestFresh(Step(AtMostOnce, w, e), w.sessions[sid])
  {
    var s, w' := w.sessions[sid], Step(AtMostOnce, w, e);
    assert RestFresh(w, s);
    ReachStays(w, e, s, 0);
    forall k: nat | InReach(w'.logs, s, k) ensures InReach(w.logs, s, k) {
      ReachStays(w, e, s, k);
    }
  }

  lemma {:induction false} SteadyRunSafe(w: World, es: seq<Event>)
    requires WellFormed(AtMostOnce, w) && Safe(w) && ValidRun(AtMostOnce, w, es) && SteadyRun(AtMostOnce, w, es)
    ensures Safe(Exec(AtMostOnce, w, es))
    decreases |es|
  {
    if es != [] {
      StepSafe(w, es[0]);
      SteadyRunSafe(Step(AtMostOnce, w, es[0]), es[1..]);
    }
  }

  /** While commits are durable and one session is live at a time, mode A books each record at most once --
      through deferred commits that skip a batch, lost acknowledgements, crashes and restarts. */
  lemma {:induction false} AtMostOnceWhileSteady(w: World, es: seq<Event>)
    requires Initial(w) && WellFormed(AtMostOnce, w) && ValidRun(AtMostOnce, w, es) && SteadyRun(AtMostOnce, w, es)
    ensures AtMostOncePerRecord(Exec(AtMostOnce, w, es).db)
  {
    SteadyRunSafe(w, es);
  }

  // ---------------------------------------------------------------- the hypothesis is needed

  ghost predicate Reaches(m: Mode, w: World, es: seq<Event>, w': World) {
    WellFormed(m, w) && ValidRun(m, w, es) && Exec(m, w, es) == w'
  }

  lemma {:induction false} ReachesOne(m: Mode, w: World, e: Event, w': World)
    requires WellFormed(m, w) && Enabled(m, w, e) && Step(m, w, e) == w'
    ensures Reaches(m, w, [e], w')
  {
    StepWellFormed(m, w, e);
    assert [e][1..] == [];
  }

  lemma {:induction false} ReachesAppend(m: Mode, w: World, a: seq<Event>, w1: World, b: seq<Event>, w2: World)
    requires Reaches(m, w, a, w1) && Reaches(m, w1, b, w2)
    ensures Reaches(m, w, a + b, w2)
    decreases |a|
  {
    if a == [] {
      assert a + b == b;
    } else {
      StepWellFormed(m, w, a[0]);
      ReachesAppend(m, Step(m, w, a[0]), a[1..], w1, b, w2);
      assert (a + b)[1..] == a[1..] + b;
    }
  }

  /** One process life in mode A: commit a batch, book its first record, die. */
  function Life(sid: nat, b: seq<Src>): seq<Event> {
    [Join(sid)] + [Poll(sid, b)] + [CommitOk(sid)] + [Apply(sid)] + [Crash(sid)]
  }

  lemma {:induction false} LifeCommits(w: World, sid: nat, b: seq<Src>)
    requires WellFormed(AtMostOnce, w) && w.sessions == map[] && b != [] && Consecutive(w.logs, w.committed, b)
    ensures forall s <- b :: s.part < |w.committed|
    ensures var to := CommitTo(w.committed, b);
            Reaches(AtMostOnce, w, [Join(sid)] + [Poll(sid, b)] + [CommitOk(sid)], w.(committed := to, sessions := map[sid := Session(to, Applying(b, 0))]))
  {
    var m := AtMostOnce;
    PollFacts(w.logs, w.committed, b);
    var to := CommitTo(w.committed, b);
    var w1 := w.(sessions := map[sid := Session(w.committed, Idle)]);
    var w2 := w.(sessions := map[sid := Session(to, Polled(b))]);
    var w3 := w.(committed := to, sessions := map[sid := Session(to, Applying(b, 0))]);
    ReachesOne(m, w, Join(sid), w1);
    ReachesOne(m, w1, Poll(sid, b), w2);
    ReachesAppend(m, w, [Join(sid)], w1, [Poll(sid, b)], w2);
    ReachesOne(m, w2, CommitOk(sid), w3);
    ReachesAppend(m, w, [Join(sid)] + [Poll(sid, b)], w2, [CommitOk(sid)], w3);
  }

  lemma {:induction false} LifeCommitsAndBooksOne(w: World, sid: nat, b: seq<Src>, r: Record, db: Db)
    requires WellFormed(AtMostOnce, w) && w.sessions == map[] && |b| >= 1
    requires Consecutive(w.logs, w.committed, b) && r == w.logs[b[0].part][b[0].off]
    requires ApplyTx(AtMostOnce, w.db, r, b[0]) == Applied(db)
    ensures forall s <- b :: s.part < |w.committed|
    ensures Reaches(AtMostOnce, w, Life(sid, b), w.(committed := CommitTo(w.committed, b), db := db))
  {
    var m := AtMostOnce;
    LifeCommits(w, sid, b);
    var to, life := CommitTo(w.committed, b), [Join(sid)] + [Poll(sid, b)] + [CommitOk(sid)];
    var w3 := w.(committed := to, sessions := map[sid := Session(to, Applying(b, 0))]);
    var w4 := w3.(db := db, sessions := map[sid := AfterApply(m, Session(to, Applying(b, 0)))]);
    ExecWellFormed(w, life, w3);
    ReachesOne(m, w3, Apply(sid), w4);
    ReachesAppend(m, w, life, w3, [Apply(sid)], w4);
    ExecWellFormed(w, life + [Apply(sid)], w4);
    ReachesOne(m, w4, Crash(sid), w.(committed := to, db := db));
    ReachesAppend(m, w, life + [Apply(sid)], w4, [Crash(sid)], w.(committed := to, db := db));
  }

  lemma {:induction false} ExecWellFormed(w: World, es: seq<Event>, w': World)
    requires Reaches(AtMostOnce, w, es, w')
    ensures WellFormed(AtMostOnce, w')
  {
  }

  const R0: Record := Record("m0", "acct", "USD", 100, true)
  const R1: Record := Record("m1", "acct", "USD", 200, true)
  const BOTH: seq<Src> := [Src(0, 0), Src(0, 1)]

  function FailoverStart(): World {
    World([[R0, R1]], [0], Db({}, [], [], 0), map[])
  }

  /** Two process lives with a failover between them that forgets the commit. */
  function FailoverRun(): seq<Event> {
    Life(1, BOTH) + [Regress([0])] + Life(2, BOTH)
  }

  lemma {:induction false} FailoverLife(w: World, sid: nat) returns (db: Db)
    requires w.logs == [[R0, R1]] && w.committed == [0] && w.sessions == map[] && WellFormed(AtMostOnce, w)
    requires !HasPosting(w.db, Minted(w.db.minted))
    ensures db.postings == w.db.postings + [Posting(Minted(w.db.minted), "m0", Src(0, 0))] && db.minted == w.db.minted + 1
    ensures Reaches(AtMostOnce, w, Life(sid, BOTH), w.(committed := [2], db := db))
  {
    var tx := ApplyTx(AtMostOnce, w.db, R0, Src(0, 0));
    assert Consecutive(w.logs, [1], BOTH[1..]) by {
      assert BOTH[1..] == [Src(0, 1)] && BOTH[1..][1..] == [];
    }
    assert CommitTo([0], BOTH) == [2] by {
      assert BOTH[1..] == [Src(0, 1)] && BOTH[1..][1..] == [];
      assert [0][0 := 1] == [1] && [1][0 := 2] == [2];
      assert CommitTo([1], [Src(0, 1)]) == CommitTo([2], []);
    }
    db := tx.db;
    LifeCommitsAndBooksOne(w, sid, BOTH, R0, db);
  }

  lemma {:induction false} FailoverReaches() returns (db: Db)
    ensures db.postings == [Posting(Minted(0), "m0", Src(0, 0)), Posting(Minted(1), "m0", Src(0, 0))]
    ensures Reaches(AtMostOnce, FailoverStart(), FailoverRun(), FailoverStart().(committed := [2], db := db))
  {
    var m, w := AtMostOnce, FailoverStart();
    var db1 := FailoverLife(w, 1);
    var w1, w2 := w.(committed := [2], db := db1), w.(db := db1);
    ReachesOne(m, w1, Regress([0]), w2);
    ReachesAppend(m, w, Life(1, BOTH), w1, [Regress([0])], w2);
    db := FailoverLife(w2, 2);
    ReachesAppend(m, w, Life(1, BOTH) + [Regress([0])], w2, Life(2, BOTH), w2.(committed := [2], db := db));
  }

  /** Mode A is not at-most-once when a coordinator failover forgets a commit: this run ends with record 0
      booked twice and record 1, below the committed offset, never booked.  The books still balance. */
  lemma {:induction false} FailoverLosesAndDuplicates(w: World, run: seq<Event>)
    requires w == FailoverStart() && run == FailoverRun()
    ensures Initial(w) && WellFormed(AtMostOnce, w) && ValidRun(AtMostOnce, w, run)
    ensures var w' := Exec(AtMostOnce, w, run);
            && w'.committed == [2]
            && (exists i, j :: 0 <= i < j < |w'.db.postings| && w'.db.postings[i].src == w'.db.postings[j].src == Src(0, 0))
            && !PostedFrom(w'.db, Src(0, 1))
            && Balanced(w'.db.entries)
  {
    var db := FailoverReaches();
    FailoverOutcome(Exec(AtMostOnce, w, run).db);
    EveryModeBalances(AtMostOnce, w, run);
  }

  lemma {:induction false} FailoverOutcome(db: Db)
    requires db.postings == [Posting(Minted(0), "m0", Src(0, 0)), Posting(Minted(1), "m0", Src(0, 0))]
    ensures exists i, j :: 0 <= i < j < |db.postings| && db.postings[i].src == db.postings[j].src == Src(0, 0)
    ensures !PostedFrom(db, Src(0, 1))
  {
    assert db.postings[0].src == db.postings[1].src == Src(0, 0);
  }
}
