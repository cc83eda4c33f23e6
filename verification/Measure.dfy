/** internal/harness/ablation measure: what the ledger tables can say about loss and duplication. */
module Measure {
  import opened Books
  import opened Delivery
  import opened DeliveryGuarantees

  datatype Artefact = Artefact(exact: bool, applied: nat, duplicated: nat, lost: nat, effects: nat, invariantHeld: bool)
  datatype Report = Measured(art: Artefact) | Contaminated

  function Excess(a: nat, b: nat): nat {
    if a > b then a - b else 0
  }

  /** GlobalInvariant reads zero in every currency it lists. */
  ghost predicate InvariantHolds(db: Db) {
    forall i | 0 <= i < |db.entries| :: Drift(db.entries, db.entries[i].amount.currency) == 0
  }

  /** What measure reports of the tables, for a run that sent so many movements. */
  ghost function ReportOf(m: Mode, db: Db, sent: nat): Report {
    var inbox, postings := |db.inbox|, |db.postings|;
    if inbox > sent > 0 then Contaminated
    else if Dedup(m) then
      Measured(Artefact(true, inbox, Excess(postings, inbox), Excess(sent, inbox), postings, InvariantHolds(db)))
    else
      Measured(Artefact(false, if postings < sent then postings else sent, Excess(postings, sent), Excess(sent, postings), postings, InvariantHolds(db)))
  }

  method Measure(m: Mode, db: Db, sent: nat) returns (r: Report)
    ensures r == ReportOf(m, db, sent)
  {
    var inbox, postings := |db.inbox|, |db.postings|;
    if inbox > sent && sent > 0 {
      return Contaminated;
    }
    var held := true;
    for i := 0 to |db.entries|
      invariant held <==> forall j | 0 <= j < i :: Drift(db.entries, db.entries[j].amount.currency) == 0
    {
      if Drift(db.entries, db.entries[i].amount.currency) != 0 {
        held := false;
      }
    }
    if Dedup(m) {
      r := Measured(Artefact(true, inbox, Excess(postings, inbox), Excess(sent, inbox), postings, held));
    } else {
      r := Measured(Artefact(false, if postings < sent then postings else sent, Excess(postings, sent), Excess(sent, postings), postings, held));
    }
  }

  ghost function BookedIds(ps: seq<Posting>): set<string> {
    if ps == [] then {} else BookedIds(ps[..|ps| - 1]) + {ps[|ps| - 1].msg}
  }

  lemma {:induction false} BookedIdsAre(ps: seq<Posting>)
    ensures |BookedIds(ps)| <= |ps|
    ensures forall x :: x in BookedIds(ps) <==> exists i :: 0 <= i < |ps| && ps[i].msg == x
    decreases |ps|
  {
    if ps != [] {
      var init := ps[..|ps| - 1];
      BookedIdsAre(init);
      forall x ensures x in BookedIds(ps) <==> exists i :: 0 <= i < |ps| && ps[i].msg == x {
        if i :| 0 <= i < |ps| && ps[i].msg == x && i < |ps| - 1 {
          assert init[i].msg == x;
        }
        if x in BookedIds(init) {
          var i :| 0 <= i < |init| && init[i].msg == x;
          assert ps[i].msg == x;
        }
        assert ps[|ps| - 1].msg in BookedIds(ps);
      }
    }
  }

  /** The sent movements no posting carries. */
  ghost function TrueLost(db: Db, sent: set<string>): nat {
    |sent - BookedIds(db.postings)|
  }

  /** The postings beyond the first of their message id. */
  ghost function TrueDuplicates(db: Db): nat {
    BookedIdsAre(db.postings);
    |db.postings| - |BookedIds(db.postings)|
  }

  lemma {:induction false} LostIsTheRest(db: Db, sent: set<string>)
    requires BookedIds(db.postings) <= sent
    ensures TrueLost(db, sent) == |sent| - |BookedIds(db.postings)|
  {
  }

  /** All movements in the logs were sent by this run. */
  ghost predicate OnlySent(w: World, sent: set<string>) {
    forall p, i | 0 <= p < |w.logs| && 0 <= i < |w.logs[p]| :: w.logs[p][i].msg in sent
  }

  lemma {:induction false} BookedWereSent(m: Mode, w: World, sent: set<string>)
    requires WellFormed(m, w) && OnlySent(w, sent)
    ensures BookedIds(w.db.postings) <= sent
  {
    BookedIdsAre(w.db.postings);
    forall x <- BookedIds(w.db.postings) ensures x in sent {
      var i :| 0 <= i < |w.db.postings| && w.db.postings[i].msg == x;
      assert InLogs(w.logs, w.db.postings[i].src);
    }
  }

  lemma {:induction false} InboxIsBooked(db: Db)
    requires OncePerMessage(db)
    ensures BookedIds(db.postings) == db.inbox
  {
    BookedIdsAre(db.postings);
  }

  /** Modes C and D: after any run the report is never contaminated, and its applied, duplicated and lost figures are the truth. */
  lemma {:induction false} DedupModesReportTheTruth(m: Mode, w: World, es: seq<Event>, sent: set<string>)
    requires Dedup(m) && Initial(w) && WellFormed(m, w) && ValidRun(m, w, es) && OnlySent(Exec(m, w, es), sent)
    ensures var db := Exec(m, w, es).db;
            var r := ReportOf(m, db, |sent|);
            && r.Measured? && r.art.exact && r.art.invariantHeld
            && r.art.duplicated == 0 == TrueDuplicates(db)
            && r.art.lost == TrueLost(db, sent)
            && r.art.applied == |BookedIds(db.postings)|
            && r.art.effects == |db.postings| == r.art.applied + r.art.duplicated
  {
    var w' := Exec(m, w, es);
    InitialFacts(m, w);
    ExactlyOneEffectPerMessage(m, w, es);
    EveryModeBalances(m, w, es);
    BookedWereSent(m, w', sent);
    InboxIsBooked(w'.db);
    LostIsTheRest(w'.db, sent);
  }

  /** Modes A and B never touch the inbox. */
  lemma {:induction false} InboxUnused(m: Mode, w: World, es: seq<Event>)
    requires !Dedup(m) && WellFormed(m, w) && ValidRun(m, w, es)
    ensures Exec(m, w, es).db.inbox == w.db.inbox
    decreases |es|
  {
    if es != [] {
      StepWellFormed(m, w, es[0]);
      InboxUnused(m, Step(m, w, es[0]), es[1..]);
    }
  }

  /** Modes A and B: the report is net.  Loss minus duplication is right, neither figure overstates, and each is exact
      precisely when the run did not both lose and duplicate.  Only an inbox left by another run contaminates it. */
  lemma {:induction false} UndedupedModesReportTheNet(m: Mode, w: World, es: seq<Event>, sent: set<string>)
    requires !Dedup(m) && WellFormed(m, w) && ValidRun(m, w, es) && OnlySent(Exec(m, w, es), sent)
    ensures var db := Exec(m, w, es).db;
            var r := ReportOf(m, db, |sent|);
            && (r.Contaminated? <==> |w.db.inbox| > |sent| > 0)
            && (r.Measured? ==>
                  && !r.art.exact
                  && r.art.lost - r.art.duplicated == TrueLost(db, sent) - TrueDuplicates(db)
                  && r.art.lost <= TrueLost(db, sent) && r.art.duplicated <= TrueDuplicates(db)
                  && ((r.art.lost == TrueLost(db, sent) && r.art.duplicated == TrueDuplicates(db))
                      <==> (TrueLost(db, sent) == 0 || TrueDuplicates(db) == 0))
                  && r.art.effects == |db.postings| == r.art.applied + r.art.duplicated && r.art.applied + r.art.lost == |sent|
                  && r.art.applied >= |BookedIds(db.postings)|
                  && (r.art.applied == |BookedIds(db.postings)| <==> (TrueLost(db, sent) == 0 || TrueDuplicates(db) == 0)))
  {
    var w' := Exec(m, w, es);
    InboxUnused(m, w, es);
    BookedWereSent(m, w', sent);
    BookedIdsAre(w'.db.postings);
    LostIsTheRest(w'.db, sent);
  }
}
