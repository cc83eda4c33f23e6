/** internal/ledger/consumer RunOnce as code, shown to be a run of the delivery machine. */
module Consumer {
  import opened Delivery
  import opened DeliveryGuarantees

  datatype CommitOutcome = Confirmed | Transient(landed: bool) | Fatal(landed: bool)
  datatype ApplyOutcome = Clean | DatabaseError(landed: bool)
  datatype Stats = Stats(polled: nat, applied: nat, duplicates: nat, failed: nat)

  /** One consumer process together with the broker and database state it acts on. */
  class Consumer {
    const mode: Mode
    const sid: nat
    var logs: seq<seq<Record>>
    var committed: seq<nat>
    var db: Db
    var pos: seq<nat>
    var live: bool
    ghost var phase: Phase

    ghost function Abs(): World
      reads this
    {
      World(logs, committed, db, if live then map[sid := Session(pos, phase)] else map[])
    }

    ghost predicate Valid()
      reads this
    {
      && WellFormed(mode, Abs())
      && |pos| == |logs| && |committed| == |logs|
      && (live ==> SessionOk(mode, logs, Session(pos, phase)))
    }

    constructor (mode: Mode, sid: nat, logs: seq<seq<Record>>, committed: seq<nat>, db: Db)
      requires WellFormed(mode, World(logs, committed, db, map[]))
      ensures Valid() && live && phase == Idle && this.mode == mode && this.sid == sid
      ensures Reaches(mode, World(logs, committed, db, map[]), [Join(sid)], Abs())
    {
      this.mode, this.sid, this.logs, this.committed, this.db := mode, sid, logs, committed, db;
      pos, live, phase := committed, true, Idle;
      new;
      ReachesOne(mode, World(logs, committed, db, map[]), Join(sid), Abs());
      StepWellFormed(mode, World(logs, committed, db, map[]), Join(sid));
    }

    method Poll(batch: seq<Src>)
      requires Valid() && live && phase == Idle && Consecutive(logs, pos, batch) && batch != []
      modifies this
      ensures Valid() && live && phase == (if mode == AtMostOnce then Polled(batch) else Applying(batch, 0))
      ensures logs == old(logs) && db == old(db) && committed == old(committed)
      ensures Reaches(mode, old(Abs()), [Event.Poll(sid, batch)], Abs())
    {
      PollFacts(logs, pos, batch);
      StepWellFormed(mode, Abs(), Event.Poll(sid, batch));
      ghost var w := Abs();
      pos := CommitTo(pos, batch);
      phase := if mode == AtMostOnce then Polled(batch) else Applying(batch, 0);
      ReachesOne(mode, w, Event.Poll(sid, batch), Abs());
    }

    /** Store the batch's offsets, unless the broker lost the request. */
    method StoreOffsets(batch: seq<Src>, confirmed: bool, landed: bool)
      requires Valid() && live && Committing(mode, Session(pos, phase)) && phase.batch == batch
      requires confirmed ==> landed
      modifies this
      ensures Valid() && live && logs == old(logs) && db == old(db) && pos == old(pos)
      ensures phase == (if mode == AtMostOnce && confirmed then Applying(batch, 0) else Idle)
      ensures Reaches(mode, old(Abs()), [if confirmed then CommitOk(sid) else CommitDeferred(sid, landed)], Abs())
    {
      ghost var w := Abs();
      ghost var e := if confirmed then CommitOk(sid) else CommitDeferred(sid, landed);
      StepWellFormed(mode, w, e);
      if confirmed {
        ConfirmedCommit(mode, w, sid, Session(pos, phase));
      } else {
        DeferredCommit(mode, w, sid, Session(pos, phase), landed);
      }
      if landed {
        committed := CommitTo(committed, batch);
      }
      phase := if mode == AtMostOnce && confirmed then Applying(batch, 0) else Idle;
      ReachesOne(mode, w, e, Abs());
    }

    /** The error that RunOnce returns ends the process. */
    method Die()
      requires Valid() && live
      modifies this
      ensures Valid() && !live && logs == old(logs) && db == old(db)
      ensures Reaches(mode, old(Abs()), [Crash(sid)], Abs())
    {
      ghost var w := Abs();
      StepWellFormed(mode, w, Crash(sid));
      live := false;
      ReachesOne(mode, w, Crash(sid), Abs());
    }

    /** Commit; on a transient error the session goes on, on any other it ends. */
    method Commit(batch: seq<Src>, outcome: CommitOutcome) returns (ghost run: seq<Event>)
      requires Valid() && live && Committing(mode, Session(pos, phase)) && phase.batch == batch
      modifies this
      ensures Valid() && logs == old(logs) && db == old(db)
      ensures live <==> !outcome.Fatal?
      ensures live ==> phase == (if mode == AtMostOnce && outcome.Confirmed? then Applying(batch, 0) else Idle)
      ensures Reaches(mode, old(Abs()), run, Abs())
    {
      ghost var w := Abs();
      StoreOffsets(batch, outcome.Confirmed?, outcome.Confirmed? || outcome.landed);
      run := [if outcome.Confirmed? then CommitOk(sid) else CommitDeferred(sid, outcome.landed)];
      if outcome.Fatal? {
        ghost var w1 := Abs();
        Die();
        ReachesAppend(mode, w, run, w1, [Crash(sid)], Abs());
        run := run + [Crash(sid)];
      }
    }

    /** One apply transaction; a duplicate is not an error, anything else that fails ends the session. */
    method ApplyNext(batch: seq<Src>, i: nat, fault: ApplyOutcome) returns (applied: bool, failed: bool, ghost e: Event)
      requires Valid() && live && phase == Applying(batch, i) && i < |batch|
      requires batch[i].part < |logs| && batch[i].off < |logs[batch[i].part]|
      modifies this
      ensures Valid() && logs == old(logs) && committed == old(committed) && pos == old(pos)
      ensures failed <==> !live
      ensures live ==> Session(pos, phase) == AfterApply(mode, Session(pos, Applying(batch, i)))
      ensures applied ==> !failed && |db.postings| == |old(db).postings| + 1
      ensures !applied && !failed ==> db == old(db)
      ensures failed <==> fault.DatabaseError? || ApplyTx(mode, old(db), logs[batch[i].part][batch[i].off], batch[i]).Failed?
      ensures failed && db != old(db) ==> fault == DatabaseError(true) && |db.postings| == |old(db).postings| + 1
      ensures Reaches(mode, old(Abs()), [e], Abs())
    {
      ghost var w := Abs();
      e := if fault.Clean? then Apply(sid) else ApplyFault(sid, fault.landed);
      StepWellFormed(mode, w, e);
      var tx := ApplyTx(mode, db, logs[batch[i].part][batch[i].off], batch[i]);
      if tx.Applied? && (fault.Clean? || fault.landed) {
        db := tx.db;
      }
      applied := fault.Clean? && tx.Applied?;
      failed := fault.DatabaseError? || tx.Failed?;
      live := !failed;
      if fault.Clean? {
        ApplyIs(mode, w, sid, Session(pos, phase));
      } else {
        FaultIs(mode, w, sid, Session(pos, phase), fault.landed);
      }
      phase := AfterApply(mode, Session(pos, phase)).phase;
      ReachesOne(mode, w, e, Abs());
    }

    /** The next record of a run under way. */
    method ApplyAfter(ghost w0: World, ghost past: seq<Event>, batch: seq<Src>, i: nat, fault: ApplyOutcome)
      returns (applied: bool, failed: bool, ghost run: seq<Event>)
      requires Valid() && live && phase == Applying(batch, i) && i < |batch| && Reaches(mode, w0, past, Abs())
      modifies this
      ensures Valid() && logs == old(logs) && pos == old(pos)
      ensures failed <==> !live
      ensures live ==> fault.Clean? && phase == AfterApply(mode, Session(pos, Applying(batch, i))).phase
      ensures |db.postings| == |old(db).postings| + (if applied || (failed && db != old(db)) then 1 else 0)
      ensures applied ==> live
      ensures failed && db != old(db) ==> fault == DatabaseError(true)
      ensures Reaches(mode, w0, run, Abs())
    {
      ghost var w := Abs();
      NextInLogs(mode, logs, Session(pos, phase));
      ghost var e;
      applied, failed, e := ApplyNext(batch, i, fault);
      ReachesAppend(mode, w0, past, w, [e], Abs());
      run := past + [e];
    }

    /** The record loop of RunOnce. */
    method ApplyAll(batch: seq<Src>, faults: seq<ApplyOutcome>) returns (st: Stats, ghost run: seq<Event>)
      requires Valid() && live && phase == Applying(batch, 0) && |faults| == |batch| > 0
      modifies this
      ensures Valid() && logs == old(logs)
      ensures live ==> phase == if mode == AtMostOnce then Idle else Applying(batch, |batch|)
      ensures st.polled == |batch| && st.failed == (if live then 0 else 1)
      ensures live ==> st.applied + st.duplicates == |batch| && |db.postings| == |old(db).postings| + st.applied
      ensures st.applied + st.duplicates <= |batch| && forall j | 0 <= j < st.applied + st.duplicates :: faults[j].Clean?
      ensures !live ==>
                && st.applied + st.duplicates < |batch|
                && (|db.postings| == |old(db).postings| + st.applied ||
                    (|db.postings| == |old(db).postings| + st.applied + 1 && faults[st.applied + st.duplicates] == DatabaseError(true)))
      ensures Reaches(mode, old(Abs()), run, Abs())
    {
      ghost var w0 := Abs();
      st, run := Stats(|batch|, 0, 0, 0), [];
      var i := 0;
      while i < |batch|
        invariant 0 <= i <= |batch| && Valid() && live && logs == old(logs)
        invariant phase == (if mode == AtMostOnce && i == |batch| then Idle else Applying(batch, i))
        invariant Reaches(mode, w0, run, Abs())
        invariant st.polled == |batch| && st.failed == 0 && st.applied + st.duplicates == i
        invariant |db.postings| == |old(db).postings| + st.applied
        invariant forall j | 0 <= j < i :: faults[j].Clean?
      {
        var applied, failed;
        applied, failed, run := ApplyAfter(w0, run, batch, i, faults[i]);
        if failed {
          st := st.(failed := 1);
          return;
        }
        st := if applied then st.(applied := st.applied + 1) else st.(duplicates := st.duplicates + 1);
        i := i + 1;
      }
    }

    /** RunOnce: poll, then commit-apply in mode A and apply-commit in the others.
        It is a run of the machine, its counters count what it booked, and ok means the session may poll again. */
    method RunOnce(batch: seq<Src>, commit: CommitOutcome, faults: seq<ApplyOutcome>) returns (st: Stats, ok: bool, ghost run: seq<Event>)
      requires Valid() && live && phase == Idle && Consecutive(logs, pos, batch) && |faults| == |batch|
      modifies this
      ensures Valid() && Reaches(mode, old(Abs()), run, Abs())
      ensures ok <==> live
      ensures ok ==> phase == Idle
      ensures st.polled == |batch| && st.failed <= 1 && (ok ==> st.failed == 0)
      ensures ok ==> |db.postings| == |old(db).postings| + st.applied
      ensures ok && (mode != AtMostOnce || commit.Confirmed?) ==> st.applied + st.duplicates == |batch|
      ensures ok && mode == AtMostOnce && !commit.Confirmed? ==> db == old(db)
    {
      st, run, ok := Stats(|batch|, 0, 0, 0), [], true;
      if batch == [] {
        return;
      }
      ghost var w0 := Abs();
      Poll(batch);
      run := [Event.Poll(sid, batch)];
      if mode == AtMostOnce {
        ghost var w := Abs();
        ghost var tail := Commit(batch, commit);
        ReachesAppend(mode, w0, run, w, tail, Abs());
        run := run + tail;
        if !commit.Confirmed? {
          ok := live;
          return;
        }
      }
      ghost var w1 := Abs();
      ghost var applies;
      st, applies := ApplyAll(batch, faults);
      ReachesAppend(mode, w0, run, w1, applies, Abs());
      run, ok := run + applies, live;
      if ok && mode != AtMostOnce {
        ghost var w2 := Abs();
        ghost var tail := Commit(batch, commit);
        ReachesAppend(mode, w0, run, w2, tail, Abs());
        run, ok := run + tail, live;
      }
    }
  }

  lemma {:induction false} ConfirmedCommit(m: Mode, w: World, sid: nat, s: Session)
    requires WellFormed(m, w) && w.sessions == map[sid := s] && Committing(m, s)
    ensures Enabled(m, w, CommitOk(sid)) && forall x <- s.phase.batch :: x.part < |w.committed|
    ensures Step(m, w, CommitOk(sid))
            == World(w.logs, CommitTo(w.committed, s.phase.batch), w.db,
                     map[sid := Session(s.pos, if m == AtMostOnce then Applying(s.phase.batch, 0) else Idle)])
  {
    assert sid in w.sessions && w.sessions[sid] == s;
    assert SessionOk(m, w.logs, s);
    assert w.sessions[sid := s.(phase := if m == AtMostOnce then Applying(s.phase.batch, 0) else Idle)]
        == map[sid := Session(s.pos, if m == AtMostOnce then Applying(s.phase.batch, 0) else Idle)];
  }

  lemma {:induction false} DeferredCommit(m: Mode, w: World, sid: nat, s: Session, landed: bool)
    requires WellFormed(m, w) && w.sessions == map[sid := s] && Committing(m, s)
    ensures Enabled(m, w, CommitDeferred(sid, landed)) && forall x <- s.phase.batch :: x.part < |w.committed|
    ensures Step(m, w, CommitDeferred(sid, landed))
            == World(w.logs, if landed then CommitTo(w.committed, s.phase.batch) else w.committed, w.db, map[sid := Session(s.pos, Idle)])
  {
    assert sid in w.sessions && w.sessions[sid] == s;
    assert SessionOk(m, w.logs, s);
    assert w.sessions[sid := s.(phase := Idle)] == map[sid := Session(s.pos, Idle)];
  }

  lemma {:induction false} NextInLogs(m: Mode, logs: seq<seq<Record>>, s: Session)
    requires SessionOk(m, logs, s) && s.phase.Applying? && s.phase.done < |s.phase.batch|
    ensures InLogs(logs, s.phase.batch[s.phase.done])
  {
  }

  lemma {:induction false} ApplyIs(m: Mode, w: World, sid: nat, s: Session)
    requires WellFormed(m, w) && w.sessions == map[sid := s] && s.phase.Applying? && s.phase.done < |s.phase.batch|
    ensures Enabled(m, w, Apply(sid))
    ensures InLogs(w.logs, s.phase.batch[s.phase.done])
    ensures var src := s.phase.batch[s.phase.done];
            var tx := ApplyTx(m, w.db, w.logs[src.part][src.off], src);
            Step(m, w, Apply(sid)) == World(w.logs, w.committed, if tx.Applied? then tx.db else w.db,
                                            if tx.Failed? then map[] else map[sid := AfterApply(m, s)])
  {
    assert sid in w.sessions && w.sessions[sid] == s;
    assert SessionOk(m, w.logs, s);
    assert w.sessions[sid := AfterApply(m, s)] == map[sid := AfterApply(m, s)] && w.sessions - {sid} == map[];
  }

  lemma {:induction false} FaultIs(m: Mode, w: World, sid: nat, s: Session, landed: bool)
    requires WellFormed(m, w) && w.sessions == map[sid := s] && s.phase.Applying? && s.phase.done < |s.phase.batch|
    ensures Enabled(m, w, ApplyFault(sid, landed))
    ensures InLogs(w.logs, s.phase.batch[s.phase.done])
    ensures var src := s.phase.batch[s.phase.done];
            var tx := ApplyTx(m, w.db, w.logs[src.part][src.off], src);
            Step(m, w, ApplyFault(sid, landed)) == World(w.logs, w.committed, if landed && tx.Applied? then tx.db else w.db, map[])
  {
    assert sid in w.sessions && w.sessions[sid] == s;
    assert SessionOk(m, w.logs, s);
    assert w.sessions - {sid} == map[];
  }
}
