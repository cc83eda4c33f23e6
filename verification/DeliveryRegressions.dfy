/** Mode A and lost commits: which states, and so which regressions of the committed offsets, are harmless, and why one
    session at a time. */
module DeliveryRegressions {
  import opened Books
  import opened Delivery
  import opened DeliveryGuarantees

  // ---------------------------------------------------------------- what postings come from

  /** Postings were made of applicable records, under ids already minted. */
  ghost predicate Sourced(w: World)
    requires WellFormed(AtMostOnce, w)
  {
    forall i | 0 <= i < |w.db.postings| ::
      var q := w.db.postings[i];
      Applicable(w.logs[q.src.part][q.src.off]) && (q.id.Minted? ==> q.id.n < w.db.minted)
  }

  lemma {:induction false} StepKeepsSourced(w: World, e: Event)
    requires WellFormed(AtMostOnce, w) && Sourced(w) && Enabled(AtMostOnce, w, e)
    ensures WellFormed(AtMostOnce, Step(AtMostOnce, w, e)) && Sourced(Step(AtMostOnce, w, e))
  {
    StepWellFormed(AtMostOnce, w, e);
    var w' := Step(AtMostOnce, w, e);
    if e.Apply? || e.ApplyFault? {
      var s := w.sessions[e.sid];
      var src := s.phase.batch[s.phase.done];
      AppliedIsSourced(w, src, ApplyTx(AtMostOnce, w.db, w.logs[src.part][src.off], src));
    }
  }

  lemma {:induction false} AppliedIsSourced(w: World, src: Src, tx: TxResult)
    requires WellFormed(AtMostOnce, w) && Sourced(w) && InLogs(w.logs, src)
    requires tx == ApplyTx(AtMostOnce, w.db, w.logs[src.part][src.off], src)
    ensures tx.Applied? ==>
              forall i | 0 <= i < |tx.db.postings| ::
                var q := tx.db.postings[i];
                InLogs(w.logs, q.src) && Applicable(w.logs[q.src.part][q.src.off]) && (q.id.Minted? ==> q.id.n < tx.db.minted)
  {
  }

  lemma {:induction false} RunKeepsSourced(w: World, es: seq<Event>)
    requires WellFormed(AtMostOnce, w) && Sourced(w) && ValidRun(AtMostOnce, w, es)
    ensures Sourced(Exec(AtMostOnce, w, es))
    decreases |es|
  {
    if es != [] {
      StepKeepsSourced(w, es[0]);
      RunKeepsSourced(Step(AtMostOnce, w, es[0]), es[1..]);
    }
  }

  // ---------------------------------------------------------------- what the future may do

  /** No steady future books a record twice. */
  ghost predicate AlwaysAtMostOnce(w: World)
    requires WellFormed(AtMostOnce, w)
  {
    forall es | ValidRun(AtMostOnce, w, es) && SteadyRun(AtMostOnce, w, es) :: AtMostOncePerRecord(Exec(AtMostOnce, w, es).db)
  }

  lemma {:induction false} AlwaysNow(w: World)
    requires WellFormed(AtMostOnce, w) && AlwaysAtMostOnce(w)
    ensures AtMostOncePerRecord(w.db)
  {
    var none: seq<Event> := [];
    assert ValidRun(AtMostOnce, w, none) && SteadyRun(AtMostOnce, w, none) && Exec(AtMostOnce, w, none) == w;
  }

  lemma {:induction false} AlwaysNext(w: World, e: Event)
    requires WellFormed(AtMostOnce, w) && AlwaysAtMostOnce(w) && Enabled(AtMostOnce, w, e)
    requires (e.Join? ==> w.sessions == map[]) && Below(w.committed, Step(AtMostOnce, w, e).committed)
    ensures WellFormed(AtMostOnce, Step(AtMostOnce, w, e)) && AlwaysAtMostOnce(Step(AtMostOnce, w, e))
  {
    StepWellFormed(AtMostOnce, w, e);
    var w' := Step(AtMostOnce, w, e);
    forall es | ValidRun(AtMostOnce, w', es) && SteadyRun(AtMostOnce, w', es) ensures AtMostOncePerRecord(Exec(AtMostOnce, w', es).db) {
      var run := [e] + es;
      assert run[0] == e && run[1..] == es;
      assert ValidRun(AtMostOnce, w, run) && SteadyRun(AtMostOnce, w, run);
      assert Exec(AtMostOnce, w, run) == Exec(AtMostOnce, w', es);
    }
  }

  lemma {:induction false} OneRecord(w: World, p: nat)
    requires WellFormed(AtMostOnce, w) && p < |w.logs| && w.committed[p] < |w.logs[p]|
    ensures var b := [Src(p, w.committed[p])];
            Consecutive(w.logs, w.committed, b) && CommitTo(w.committed, b) == w.committed[p := w.committed[p] + 1]
  {
    var b := [Src(p, w.committed[p])];
    assert b[1..] == [];
  }

  lemma {:induction false} AlwaysJoined(w: World)
    requires WellFormed(AtMostOnce, w) && AlwaysAtMostOnce(w) && w.sessions == map[]
    ensures var w' := w.(sessions := map[0 := Session(w.committed, Idle)]);
            WellFormed(AtMostOnce, w') && AlwaysAtMostOnce(w')
  {
    AlwaysNext(w, Join(0));
  }

  lemma {:induction false} AlwaysPolled(w: World, b: seq<Src>)
    requires WellFormed(AtMostOnce, w) && AlwaysAtMostOnce(w) && w.sessions == map[0 := Session(w.committed, Idle)]
    requires b != [] && Consecutive(w.logs, w.committed, b)
    ensures forall s <- b :: s.part < |w.committed|
    ensures var w' := w.(sessions := map[0 := Session(CommitTo(w.committed, b), Polled(b))]);
            WellFormed(AtMostOnce, w') && AlwaysAtMostOnce(w')
  {
    PollFacts(w.logs, w.committed, b);
    AlwaysNext(w, Poll(0, b));
    assert Step(AtMostOnce, w, Poll(0, b)) == w.(sessions := map[0 := Session(CommitTo(w.committed, b), Polled(b))]);
  }

  /** A life that joins, polls the next record of partition p and commits it. */
  lemma {:induction false} AlwaysCommitted(w: World, p: nat)
    requires WellFormed(AtMostOnce, w) && AlwaysAtMostOnce(w) && w.sessions == map[] && p < |w.logs| && w.committed[p] < |w.logs[p]|
    ensures var b, to := [Src(p, w.committed[p])], w.committed[p := w.committed[p] + 1];
            var w' := w.(committed := to, sessions := map[0 := Session(to, Applying(b, 0))]);
            WellFormed(AtMostOnce, w') && AlwaysAtMostOnce(w')
  {
    OneRecord(w, p);
    var b, to := [Src(p, w.committed[p])], w.committed[p := w.committed[p] + 1];
    var w1 := w.(sessions := map[0 := Session(w.committed, Idle)]);
    var w2 := w.(sessions := map[0 := Session(to, Polled(b))]);
    AlwaysJoined(w);
    AlwaysPolled(w1, b);
    assert w1.(sessions := map[0 := Session(CommitTo(w1.committed, b), Polled(b))]) == w2;
    assert Step(AtMostOnce, w2, CommitOk(0)) == w.(committed := to, sessions := map[0 := Session(to, Applying(b, 0))]);
    AlwaysNext(w2, CommitOk(0));
  }

  /** Lives that commit a record and die before booking it carry a partition's offset up to n. */
  lemma {:induction false} AlwaysSkipped(w: World, p: nat, n: nat)
    requires WellFormed(AtMostOnce, w) && AlwaysAtMostOnce(w) && w.sessions == map[] && p < |w.logs| && w.committed[p] <= n <= |w.logs[p]|
    ensures WellFormed(AtMostOnce, w.(committed := w.committed[p := n])) && AlwaysAtMostOnce(w.(committed := w.committed[p := n]))
    decreases n - w.committed[p]
  {
    if w.committed[p] == n {
      assert w.committed[p := n] == w.committed;
    } else {
      var b, to := [Src(p, w.committed[p])], w.committed[p := w.committed[p] + 1];
      AlwaysCommitted(w, p);
      AlwaysNext(w.(committed := to, sessions := map[0 := Session(to, Applying(b, 0))]), Crash(0));
      AlwaysSkipped(w.(committed := to), p, n);
      assert to[p := n] == w.committed[p := n];
    }
  }

  /** Applying a record always succeeds once it is in an applicable form: minted ids are fresh. */
  lemma {:induction false} Applies(w: World, s: Src)
    requires WellFormed(AtMostOnce, w) && Sourced(w) && InLogs(w.logs, s) && Applicable(w.logs[s.part][s.off])
    ensures var tx := ApplyTx(AtMostOnce, w.db, w.logs[s.part][s.off], s);
            tx.Applied? && exists q: Posting :: q.src == s && tx.db.postings == w.db.postings + [q]
  {
    assert !HasPosting(w.db, Minted(w.db.minted));
    ApplyTxAppends(AtMostOnce, w.db, w.logs[s.part][s.off], s);
  }

  lemma {:induction false} LastIsNew(db: Db, db': Db, q: Posting)
    requires AtMostOncePerRecord(db') && db'.postings == db.postings + [q]
    ensures !PostedFrom(db, q.src)
  {
    assert db'.postings[|db.postings|] == q;
    assert forall i | 0 <= i < |db.postings| :: db'.postings[i] == db.postings[i];
  }

  /** A session about to book a record that was booked already books it twice. */
  lemma {:induction false} NextIsFresh(w: World, sid: nat)
    requires WellFormed(AtMostOnce, w) && Sourced(w) && AlwaysAtMostOnce(w) && sid in w.sessions
    requires w.sessions[sid].phase.Applying? && InReach(w.logs, w.sessions[sid], w.sessions[sid].phase.done)
    ensures var s := w.sessions[sid];
            !PostedFrom(w.db, s.phase.batch[s.phase.done])
  {
    var s := w.sessions[sid];
    var src := s.phase.batch[s.phase.done];
    Applies(w, src);
    AlwaysNext(w, Apply(sid));
    AlwaysNow(Step(AtMostOnce, w, Apply(sid)));
    var q: Posting :| q.src == src && Step(AtMostOnce, w, Apply(sid)).db.postings == w.db.postings + [q];
    LastIsNew(w.db, Step(AtMostOnce, w, Apply(sid)).db, q);
  }

  // ---------------------------------------------------------------- what is necessary

  /** With nobody consuming, the next record of a partition cannot have been booked. */
  lemma {:induction false} AlwaysNextUnbooked(w: World, p: nat)
    requires WellFormed(AtMostOnce, w) && Sourced(w) && AlwaysAtMostOnce(w) && w.sessions == map[] && p < |w.logs| && w.committed[p] < |w.logs[p]|
    requires Applicable(w.logs[p][w.committed[p]])
    ensures !PostedFrom(w.db, Src(p, w.committed[p]))
  {
    AlwaysCommitted(w, p);
    var b, to := [Src(p, w.committed[p])], w.committed[p := w.committed[p] + 1];
    NextIsFresh(w.(committed := to, sessions := map[0 := Session(to, Applying(b, 0))]), 0);
  }

  /** Nor any record at or above its committed offset. */
  lemma {:induction false} AlwaysBelow(w: World, i: nat)
    requires WellFormed(AtMostOnce, w) && Sourced(w) && AlwaysAtMostOnce(w) && w.sessions == map[] && i < |w.db.postings|
    ensures w.db.postings[i].src.off < w.committed[w.db.postings[i].src.part]
  {
    var s := w.db.postings[i].src;
    if s.off >= w.committed[s.part] {
      AlwaysSkipped(w, s.part, s.off);
      AlwaysNextUnbooked(w.(committed := w.committed[s.part := s.off]), s.part);
    }
  }

  /** The same while a session lives: it may die at any moment. */
  lemma {:induction false} AlwaysBookedBelow(w: World)
    requires WellFormed(AtMostOnce, w) && Sourced(w) && AlwaysAtMostOnce(w) && Orderly(w)
    ensures BookedBelow(w, w.committed)
  {
    var w0 := w.(sessions := map[]);
    if w.sessions != map[] {
      var sid :| sid in w.sessions;
      AlwaysNext(w, Crash(sid));
      assert w.sessions - {sid} == map[];
    }
    assert w0 == w || WellFormed(AtMostOnce, w0);
    forall i | 0 <= i < |w.db.postings| ensures w.db.postings[i].src.part < |w.committed| && w.db.postings[i].src.off < w.committed[w.db.postings[i].src.part] {
      AlwaysBelow(w0, i);
    }
  }

  /** Whatever a live session may still book is committed and unbooked. */
  lemma {:induction false} AlwaysRestFresh(w: World, sid: nat, k: nat)
    requires WellFormed(AtMostOnce, w) && Sourced(w) && AlwaysAtMostOnce(w) && Orderly(w)
    requires sid in w.sessions && InReach(w.logs, w.sessions[sid], k)
    ensures var s := w.sessions[sid];
            s.phase.batch[k].off < w.committed[s.phase.batch[k].part] && !PostedFrom(w.db, s.phase.batch[k])
    decreases k - w.sessions[sid].phase.done
  {
    var s := w.sessions[sid];
    var src := s.phase.batch[s.phase.done];
    var w' := Step(AtMostOnce, w, Apply(sid));
    assert InReach(w.logs, s, s.phase.done);
    Applies(w, src);
    AlwaysNext(w, Apply(sid));
    StepKeepsSourced(w, Apply(sid));
    StepOrderly(w, Apply(sid));
    var q: Posting :| q.src == src && w'.db.postings == w.db.postings + [q];
    if k == s.phase.done {
      NextIsFresh(w, sid);
      AlwaysBookedBelow(w');
      assert w'.db.postings[|w.db.postings|].src == src;
    } else {
      AlwaysRestFresh(w', sid, k);
      PostedFromGrows(w.db, w'.db, q, s.phase.batch[k]);
    }
  }

  // ---------------------------------------------------------------- the exact condition

  /** With at most one session alive, every steady future books each record at most once if and only if none is booked
      twice already, every booked record lies below its committed offset, and so does every record the session may still
      book, none of them booked. */
  lemma {:induction false} AtMostOnceExactly(w: World)
    requires WellFormed(AtMostOnce, w) && Sourced(w) && Orderly(w)
    ensures AlwaysAtMostOnce(w) <==>
            && AtMostOncePerRecord(w.db) && BookedBelow(w, w.committed)
            && (forall sid <- w.sessions :: RestFresh(w, w.sessions[sid]))
  {
    if AlwaysAtMostOnce(w) {
      AlwaysNow(w);
      AlwaysBookedBelow(w);
      forall sid <- w.sessions ensures RestFresh(w, w.sessions[sid]) {
        forall k: nat | InReach(w.logs, w.sessions[sid], k)
          ensures var s := w.sessions[sid]; s.phase.batch[k].off < w.committed[s.phase.batch[k].part] && !PostedFrom(w.db, s.phase.batch[k])
        {
          AlwaysRestFresh(w, sid, k);
        }
      }
    }
    if Safe(w) {
      forall es | ValidRun(AtMostOnce, w, es) && SteadyRun(AtMostOnce, w, es) ensures AtMostOncePerRecord(Exec(AtMostOnce, w, es).db) {
        SteadyRunSafe(w, es);
      }
    }
  }

  /** Sessions come one at a time; commits may be lost at any moment. */
  ghost predicate LoneRun(w: World, es: seq<Event>)
    requires WellFormed(AtMostOnce, w) && ValidRun(AtMostOnce, w, es)
    decreases |es|
  {
    es == [] || (
      && (es[0].Join? ==> w.sessions == map[])
      && (StepWellFormed(AtMostOnce, w, es[0]); LoneRun(Step(AtMostOnce, w, es[0]), es[1..])))
  }

  /** Such runs keep the hypotheses of the condition, so it is exact after any of them, failovers included. */
  lemma {:induction false} LoneRunsAreOrderly(w: World, es: seq<Event>)
    requires WellFormed(AtMostOnce, w) && Sourced(w) && Orderly(w) && ValidRun(AtMostOnce, w, es) && LoneRun(w, es)
    ensures Sourced(Exec(AtMostOnce, w, es)) && Orderly(Exec(AtMostOnce, w, es))
    decreases |es|
  {
    if es != [] {
      StepKeepsSourced(w, es[0]);
      StepOrderly(w, es[0]);
      LoneRunsAreOrderly(Step(AtMostOnce, w, es[0]), es[1..]);
    }
  }

  /** The offsets forgotten leave every record that a live session may still book below them. */
  ghost predicate RestBelow(w: World, to: seq<nat>)
    requires WellFormed(AtMostOnce, w)
  {
    forall sid <- w.sessions, k: nat | InReach(w.logs, w.sessions[sid], k) ::
      var x := w.sessions[sid].phase.batch[k];
      x.part < |to| && x.off < to[x.part]
  }

  /** A commit lost while all is well is harmless if and only if what remains committed lies above everything booked and
      above everything the live session may still book from the batch it is applying.  A session that is idle, or has
      polled and not committed, adds nothing. */
  lemma {:induction false} HarmlessRegression(w: World, to: seq<nat>)
    requires WellFormed(AtMostOnce, w) && Sourced(w) && Safe(w) && Enabled(AtMostOnce, w, Regress(to))
    ensures WellFormed(AtMostOnce, Step(AtMostOnce, w, Regress(to)))
    ensures AlwaysAtMostOnce(Step(AtMostOnce, w, Regress(to))) <==> BookedBelow(w, to) && RestBelow(w, to)
    ensures (forall sid <- w.sessions :: !w.sessions[sid].phase.Applying?) ==> RestBelow(w, to)
  {
    StepKeepsSourced(w, Regress(to));
    StepOrderly(w, Regress(to));
    AtMostOnceExactly(Step(AtMostOnce, w, Regress(to)));
    assert forall sid <- w.sessions :: RestFresh(w, w.sessions[sid]);
  }

  // ---------------------------------------------------------------- one session at a time

  /** No step lowers a committed offset. */
  ghost predicate Durable(w: World, es: seq<Event>)
    requires WellFormed(AtMostOnce, w) && ValidRun(AtMostOnce, w, es)
    decreases |es|
  {
    es == [] || (Below(w.committed, Step(AtMostOnce, w, es[0]).committed)
                 && (StepWellFormed(AtMostOnce, w, es[0]); Durable(Step(AtMostOnce, w, es[0]), es[1..])))
  }

  ghost predicate Durably(w: World, es: seq<Event>, w': World) {
    Reaches(AtMostOnce, w, es, w') && Durable(w, es)
  }

  lemma {:induction false} DurableThen(w: World, e: Event, w1: World, es: seq<Event>, w2: World)
    requires WellFormed(AtMostOnce, w) && Enabled(AtMostOnce, w, e) && Step(AtMostOnce, w, e) == w1 && Below(w.committed, w1.committed)
    requires Durably(w1, es, w2)
    ensures Durably(w, [e] + es, w2)
  {
    StepWellFormed(AtMostOnce, w, e);
    assert ([e] + es)[1..] == es;
  }

  const ONE: seq<Src> := [Src(0, 0)]

  function TwoStart(): World {
    World([[R0]], [0], Db({}, [], [], 0), map[])
  }

  function TwoSessions(): seq<Event> {
    [Join(1)] + ([Poll(1, ONE)] + ([Join(2)] + ([Poll(2, ONE)] + ([CommitOk(1)] + ([CommitOk(2)] + ([Apply(1)] + ([Apply(2)] + [])))))))
  }

  lemma {:induction false} AppliesOne(w: World, sid: nat)
    requires w.logs == [[R0]] && WellFormed(AtMostOnce, w) && sid in w.sessions && w.sessions[sid] == Session([1], Applying(ONE, 0))
    requires !HasPosting(w.db, Minted(w.db.minted))
    ensures Enabled(AtMostOnce, w, Apply(sid))
    ensures var w' := Step(AtMostOnce, w, Apply(sid));
            && WellFormed(AtMostOnce, w') && w'.logs == w.logs && w'.committed == w.committed
            && w'.db.postings == w.db.postings + [Posting(Minted(w.db.minted), "m0", Src(0, 0))] && w'.db.minted == w.db.minted + 1
            && forall other | other in w.sessions && other != sid :: other in w'.sessions && w'.sessions[other] == w.sessions[other]
  {
    StepWellFormed(AtMostOnce, w, Apply(sid));
  }

  lemma {:induction false} TwoApplies(w: World, first: Event, second: Event) returns (w2: World)
    requires w.logs == [[R0]] && w.committed == [1] && w.db == Db({}, [], [], 0) && WellFormed(AtMostOnce, w)
    requires w.sessions == map[1 := Session([1], Applying(ONE, 0)), 2 := Session([1], Applying(ONE, 0))]
    requires first == Apply(1) && second == Apply(2)
    ensures Durably(w, [first] + ([second] + []), w2)
    ensures |w2.db.postings| == 2 && w2.db.postings[0].src == w2.db.postings[1].src == Src(0, 0)
  {
    AppliesOne(w, 1);
    var w1 := Step(AtMostOnce, w, first);
    AppliesOne(w1, 2);
    w2 := Step(AtMostOnce, w1, second);
    DurableThen(w1, second, w2, [], w2);
    DurableThen(w, first, w1, [second] + [], w2);
  }

  /** The worlds of that run up to the first apply. */
  function Two(committed: seq<nat>, sessions: map<nat, Session>): World {
    TwoStart().(committed := committed, sessions := sessions)
  }

  const IDLE: Session := Session([0], Idle)
  const POLLED: Session := Session([1], Polled(ONE))
  const APPLYING: Session := Session([1], Applying(ONE, 0))

  ghost predicate Stages(sessions: map<nat, Session>) {
    forall sid | sid in sessions :: sessions[sid] == IDLE || sessions[sid] == POLLED || sessions[sid] == APPLYING
  }

  lemma {:induction false} OneBatch()
    ensures CommitTo([0], ONE) == [1] && CommitTo([1], ONE) == [1]
  {
    assert ONE[1..] == [] && CommitTo([1], []) == [1];
    assert [0][0 := 1] == [1] && [1][0 := 1] == [1];
  }

  lemma {:induction false} StagesAreWellFormed(c: nat, sessions: map<nat, Session>)
    requires c <= 1 && Stages(sessions)
    ensures WellFormed(AtMostOnce, Two([c], sessions))
  {
    OneBatch();
  }

  lemma {:induction false} JoinThen(sessions: map<nat, Session>, sid: nat, es: seq<Event>, w: World)
    requires Stages(sessions) && sid !in sessions && Durably(Two([0], sessions[sid := IDLE]), es, w)
    ensures Durably(Two([0], sessions), [Join(sid)] + es, w)
  {
    StagesAreWellFormed(0, sessions);
    DurableThen(Two([0], sessions), Join(sid), Two([0], sessions[sid := IDLE]), es, w);
  }

  lemma {:induction false} PollThen(sessions: map<nat, Session>, sid: nat, es: seq<Event>, w: World)
    requires Stages(sessions) && sid in sessions && sessions[sid] == IDLE && Durably(Two([0], sessions[sid := POLLED]), es, w)
    ensures Durably(Two([0], sessions), [Poll(sid, ONE)] + es, w)
  {
    StagesAreWellFormed(0, sessions);
    OneBatch();
    assert ONE[1..] == [];
    DurableThen(Two([0], sessions), Poll(sid, ONE), Two([0], sessions[sid := POLLED]), es, w);
  }

  lemma {:induction false} CommitThen(c: nat, sessions: map<nat, Session>, sid: nat, es: seq<Event>, w: World)
    requires c <= 1 && Stages(sessions) && sid in sessions && sessions[sid] == POLLED && Durably(Two([1], sessions[sid := APPLYING]), es, w)
    ensures Durably(Two([c], sessions), [CommitOk(sid)] + es, w)
  {
    StagesAreWellFormed(c, sessions);
    OneBatch();
    DurableThen(Two([c], sessions), CommitOk(sid), Two([1], sessions[sid := APPLYING]), es, w);
  }

  lemma {:induction false} BothCommit(both: map<nat, Session>, es: seq<Event>, w: World)
    requires both == map[1 := POLLED, 2 := POLLED] && Durably(Two([1], both[1 := APPLYING][2 := APPLYING]), es, w)
    ensures Durably(Two([0], both), [CommitOk(1)] + ([CommitOk(2)] + es), w)
  {
    CommitThen(1, both[1 := APPLYING], 2, es, w);
    CommitThen(0, both, 1, [CommitOk(2)] + es, w);
  }

  lemma {:induction false} BothPoll(es: seq<Event>, w: World, both: map<nat, Session>)
    requires both == map[1 := POLLED, 2 := POLLED] && Durably(Two([0], both), es, w)
    ensures Durably(TwoStart(), [Join(1)] + ([Poll(1, ONE)] + ([Join(2)] + ([Poll(2, ONE)] + es))), w)
  {
    assert map[1 := POLLED, 2 := IDLE][2 := POLLED] == both;
    OnePolls(2, map[1 := POLLED], es, w);
    OnePolls(1, map[], [Join(2)] + ([Poll(2, ONE)] + es), w);
    assert Two([0], map[]) == TwoStart();
  }

  /** A session joins and polls. */
  lemma {:induction false} OnePolls(sid: nat, sessions: map<nat, Session>, es: seq<Event>, w: World)
    requires Stages(sessions) && sid !in sessions && Durably(Two([0], sessions[sid := POLLED]), es, w)
    ensures Durably(Two([0], sessions), [Join(sid)] + ([Poll(sid, ONE)] + es), w)
  {
    assert sessions[sid := IDLE][sid := POLLED] == sessions[sid := POLLED];
    PollThen(sessions[sid := IDLE], sid, es, w);
    JoinThen(sessions, sid, [Poll(sid, ONE)] + es, w);
  }

  lemma {:induction false} OneCommits()
    ensures Durably(TwoStart(), [Join(1)] + ([Poll(1, ONE)] + ([CommitOk(1)] + [])), Two([1], map[1 := APPLYING]))
  {
    var s1, s2, s3 := map[1 := IDLE], map[1 := POLLED], map[1 := APPLYING];
    assert s1[1 := POLLED] == s2 && s2[1 := APPLYING] == s3;
    var w := Two([1], s3);
    StagesAreWellFormed(1, s3);
    assert Durably(w, [], w);
    CommitThen(0, s2, 1, [], w);
    PollThen(s1, 1, [CommitOk(1)] + [], w);
    JoinThen(map[], 1, [Poll(1, ONE)] + ([CommitOk(1)] + []), w);
    assert Two([0], map[]) == TwoStart();
  }

  lemma {:induction false} OneMayBook(w: World)
    requires w == Two([1], map[1 := APPLYING])
    ensures WellFormed(AtMostOnce, w) && Sourced(w) && Safe(w) && BookedBelow(w, [0]) && !RestBelow(w, [0])
  {
    StagesAreWellFormed(1, w.sessions);
    assert w.db.postings == [] && w.sessions[1] == APPLYING;
    assert InReach(w.logs, APPLYING, 0);
  }

  /** Nothing is booked and the one session has committed its batch when the commit is lost: it books the record, and so
      does the session after it. */
  lemma {:induction false} LiveSessionDuplicates()
    ensures var w := Two([1], map[1 := APPLYING]);
            && Durably(TwoStart(), [Join(1)] + ([Poll(1, ONE)] + ([CommitOk(1)] + [])), w)
            && WellFormed(AtMostOnce, w) && Enabled(AtMostOnce, w, Regress([0])) && BookedBelow(w, [0])
            && WellFormed(AtMostOnce, Step(AtMostOnce, w, Regress([0]))) && !AlwaysAtMostOnce(Step(AtMostOnce, w, Regress([0])))
  {
    OneCommits();
    var w := Two([1], map[1 := APPLYING]);
    OneMayBook(w);
    HarmlessRegression(w, [0]);
  }

  /** Two live sessions book one record twice although no committed offset ever goes back. */
  lemma {:induction false} TwoSessionsDuplicate()
    ensures exists w :: Durably(TwoStart(), TwoSessions(), w) && !AtMostOncePerRecord(w.db)
  {
    var both := map[1 := POLLED, 2 := POLLED];
    var committed := both[1 := APPLYING][2 := APPLYING];
    StagesAreWellFormed(1, committed);
    var w := TwoApplies(Two([1], committed), Apply(1), Apply(2));
    BothCommit(both, [Apply(1)] + ([Apply(2)] + []), w);
    BothPoll([CommitOk(1)] + ([CommitOk(2)] + ([Apply(1)] + ([Apply(2)] + []))), w, both);
  }
}
