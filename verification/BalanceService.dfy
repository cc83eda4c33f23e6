/** internal/ledger/balance's Service, statement by statement, with whatever other callers do in between. */
module BalanceService {
  import opened Options
  import opened Balance
  import opened BalanceGuarantees
  import opened Holds

  /** None of the events belongs to job j. */
  ghost predicate Leaves(j: nat, es: seq<Event>) {
    forall e | e in es && (e.ReadBalance? || e.ReadLast? || e.InsertCheckpoint? || e.Die?) :: e.job != j
  }

  lemma {:induction false} JobUntouched(l: Ledger, es: seq<Event>, j: nat)
    requires ValidRun(l, es) && Leaves(j, es) && j in l.jobs
    ensures j in Exec(l, es).jobs && Exec(l, es).jobs[j] == l.jobs[j]
    decreases |es|
  {
    if es != [] {
      assert es[0] in es;
      JobUntouched(Step(l, es[0]), es[1..], j);
    }
  }

  class Service {
    var ledger: Ledger
    var holds: seq<Hold>
    ghost var history: seq<Event>

    /** The ledger is what its history of statements produced. */
    ghost predicate Traced()
      reads this
    {
      ValidRun(Fresh(), history) && Exec(Fresh(), history) == ledger
    }

    constructor ()
      ensures Traced() && holds == []
    {
      ledger, holds, history := Fresh(), [], [];
    }

    function Available(a: string, asOf: int, now: int): int
      reads this
    {
      LedgerBalance(ledger, a, asOf) - Pending(holds, a, now)
    }

    /** What other connections make of the holds. */
    method OtherHolds(cs: seq<Change>)
      modifies this`holds
      ensures holds == After(old(holds), cs)
    {
      holds := After(holds, cs);
    }

    /** The ledger read, the hold total, and the insert, with whatever others post and hold between any two of them.  A call
        admits what was available as it looked; the account ends overdrawn exactly when the ledger's fall since the first
        read, the rise of the open holds since the second, and the new hold together exceed that. */
    method PlaceHold(a: string, minor: int, placedAt: int, asOf: int, posted: seq<Event>, held: seq<Change>, posted2: seq<Event>, held2: seq<Change>)
      returns (ok: bool)
      requires Traced() && ValidRun(ledger, posted) && ValidRun(Exec(ledger, posted), posted2)
      modifies this
      ensures Traced() && ledger == Exec(Exec(old(ledger), posted), posted2)
      ensures var seen := LedgerBalance(old(ledger), a, asOf) - Pending(After(old(holds), held), a, placedAt);
              ok <==> 0 < minor <= seen
      ensures holds == After(After(old(holds), held), held2) + if ok then [Hold(a, minor, placedAt, placedAt + HOLD_HOURS * 3600, None)] else []
      ensures ok ==>
                var atCheck, atInsert := After(old(holds), held), After(After(old(holds), held), held2);
                var seen := LedgerBalance(old(ledger), a, asOf) - Pending(atCheck, a, placedAt);
                var fall := LedgerBalance(old(ledger), a, asOf) - LedgerBalance(ledger, a, asOf);
                var rise := Pending(atInsert, a, placedAt) - Pending(atCheck, a, placedAt);
                && Available(a, asOf, placedAt) == seen - minor - fall - rise
                && (Available(a, asOf, placedAt) < 0 <==> minor + fall + rise > seen)
                && forall b, now | b != a || now >= placedAt + HOLD_HOURS * 3600 :: Pending(holds, b, now) == Pending(atInsert, b, now)
      ensures ok && posted + posted2 == [] && held2 == [] ==> Available(a, asOf, placedAt) >= 0
    {
      var balance := LedgerBalance(ledger, a, asOf);
      Others(posted);
      OtherHolds(held);
      var available := balance - Pending(holds, a, placedAt);
      ok := minor > 0 && available >= minor;
      Others(posted2);
      OtherHolds(held2);
      if ok {
        var h := Hold(a, minor, placedAt, placedAt + HOLD_HOURS * 3600, None);
        forall b, now ensures Pending(holds + [h], b, now) == Pending(holds, b, now) + (if Holds.Open(h, b, now) then h.minor else 0) {
          PendingSnoc(holds, h, b, now);
        }
        holds := holds + [h];
      }
    }

    /** First EOD phase: the UPDATE, row by row. */
    method ExpireDue(t: int) returns (count: nat)
      modifies this`holds
      ensures holds == ExpireAll(old(holds), t)
      ensures count == DueCount(old(holds), t)
    {
      var out: seq<Hold> := [];
      count := 0;
      for i := 0 to |holds|
        invariant holds == old(holds) && out == ExpireAll(holds[..i], t) && count == DueCount(holds[..i], t)
      {
        assert holds[..i + 1] == holds[..i] + [holds[i]] && holds[..i + 1][..i] == holds[..i];
        if Due(holds[i], t) {
          count := count + 1;
        }
        out := out + [Expire(holds[i], t)];
      }
      assert holds[..|holds|] == holds;
      holds := out;
    }

    method Do(e: Event)
      requires Traced() && Enabled(ledger, e)
      modifies this`ledger, this`history
      ensures Traced() && ledger == Step(old(ledger), e)
    {
      ThenRun(ledger, e, []);
      RunAppend(Fresh(), history, [e]);
      assert [e] + [] == [e];
      ledger, history := Step(ledger, e), history + [e];
    }

    /** Statements of other connections. */
    method Others(es: seq<Event>)
      requires Traced() && ValidRun(ledger, es)
      modifies this`ledger, this`history
      ensures Traced() && ledger == Exec(old(ledger), es)
    {
      for i := 0 to |es|
        invariant Traced() && ValidRun(ledger, es[i..]) && Exec(ledger, es[i..]) == Exec(old(ledger), es)
      {
        assert es[i..][0] == es[i] && es[i..][1..] == es[i + 1..];
        Do(es[i]);
      }
    }

    /** Checkpoint: the balance read, the watermark read and the insert, other callers' statements in between. */
    method WriteCheckpoint(j: nat, a: string, d: int, between: seq<Event>, after: seq<Event>) returns (inserted: bool)
      requires Traced() && j !in ledger.jobs && Leaves(j, between) && Leaves(j, after)
      requires ValidRun(Step(ledger, ReadBalance(j, a, d)), between)
      requires var marked := Exec(Step(ledger, ReadBalance(j, a, d)), between);
               Enabled(marked, ReadLast(j)) && ValidRun(Step(marked, ReadLast(j)), after)
      modifies this`ledger, this`history
      ensures Traced()
      ensures var marked := Exec(Step(old(ledger), ReadBalance(j, a, d)), between);
              var before := Exec(Step(marked, ReadLast(j)), after);
              && j in before.jobs && before.jobs[j] == Job(a, d, LedgerBalance(old(ledger), a, d), |old(ledger).entries|,
                                                           Plain(old(ledger).entries, a, d) - LedgerBalance(old(ledger), a, d),
                                                           Some((MaxEntryId(marked.entries, a, d), |marked.entries|)))
              && ledger == Step(before, InsertCheckpoint(j))
              && (inserted <==> !HasCheckpoint(before.checkpoints, a, d))
    {
      Do(ReadBalance(j, a, d));
      JobUntouched(ledger, between, j);
      Others(between);
      Do(ReadLast(j));
      JobUntouched(ledger, after, j);
      Others(after);
      inserted := !HasCheckpoint(ledger.checkpoints, a, d);
      Do(InsertCheckpoint(j));
    }
  }
}
