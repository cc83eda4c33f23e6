/** Where the money goes: over every run of every mode, whose balance each movement changes, and by how much. */
module DeliveryMoney {
  import opened Books
  import opened Delivery
  import opened DeliveryGuarantees
  import opened Money

  // ---------------------------------------------------------------- balances

  /** An account's balance in one currency. */
  function Credit(es: seq<Entry>, a: string, c: string): int {
    if es == [] then 0 else
      var e := es[|es| - 1];
      Credit(es[..|es| - 1], a, c) + if e.account == a && e.amount.currency == c then e.amount.minor else 0
  }

  /** What one movement is worth to an account: its amount to the account it names, the opposite to its currency's suspense. */
  function Worth(r: Record, a: string, c: string): int {
    if r.currency != c then 0
    else (if r.account == a then r.minor else 0) - if a == "suspense/" + c then r.minor else 0
  }

  ghost predicate SourcesIn(logs: seq<seq<Record>>, ps: seq<Posting>) {
    forall i | 0 <= i < |ps| :: InLogs(logs, ps[i].src)
  }

  /** What the records that some postings stem from are worth to an account. */
  function Moved(logs: seq<seq<Record>>, ps: seq<Posting>, a: string, c: string): int
    requires SourcesIn(logs, ps)
  {
    if ps == [] then 0 else
      var src := ps[|ps| - 1].src;
      Moved(logs, ps[..|ps| - 1], a, c) + Worth(logs[src.part][src.off], a, c)
  }

  /** A record that parses, names a message and states an amount of a registered currency. */
  predicate Sound(r: Record) {
    r.parses && r.msg != "" && r.currency in REGISTRY && r.minor != MIN64
  }

  /** Postings of the records' own message ids, each on two entries under its id; balances are what they are worth. */
  ghost predicate Kept(logs: seq<seq<Record>>, db: Db) {
    && SourcesIn(logs, db.postings)
    && (forall a, c :: Credit(db.entries, a, c) == Moved(logs, db.postings, a, c))
    && (forall i | 0 <= i < |db.postings| :: FromRecord(logs, db.postings[i]))
    && |db.entries| == 2 * |db.postings|
    && (forall i | 0 <= i < |db.postings| :: db.entries[2 * i].posting == db.entries[2 * i + 1].posting == db.postings[i].id)
    && (forall i | 0 <= i < |db.entries| :: Built(db.entries[i].amount))
  }

  ghost predicate FromRecord(logs: seq<seq<Record>>, q: Posting)
    requires InLogs(logs, q.src)
  {
    Sound(logs[q.src.part][q.src.off]) && q.msg == logs[q.src.part][q.src.off].msg
  }

  // ---------------------------------------------------------------- one step

  lemma {:induction false} CreditTwo(es: seq<Entry>, x: Entry, y: Entry, a: string, c: string)
    ensures Credit(es + [x, y], a, c) == Credit(es, a, c)
                                         + (if x.account == a && x.amount.currency == c then x.amount.minor else 0)
                                         + (if y.account == a && y.amount.currency == c then y.amount.minor else 0)
  {
    assert (es + [x, y])[..|es| + 1] == es + [x];
    assert (es + [x])[..|es|] == es;
  }

  lemma {:induction false} MovedSnoc(logs: seq<seq<Record>>, ps: seq<Posting>, q: Posting, a: string, c: string)
    requires SourcesIn(logs, ps) && InLogs(logs, q.src)
    ensures SourcesIn(logs, ps + [q])
    ensures Moved(logs, ps + [q], a, c) == Moved(logs, ps, a, c) + Worth(logs[q.src.part][q.src.off], a, c)
  {
    assert (ps + [q])[..|ps|] == ps;
  }

  /** Longer logs hold the same records at the same places. */
  lemma {:induction false} MovedStays(logs: seq<seq<Record>>, more: seq<seq<Record>>, ps: seq<Posting>, a: string, c: string)
    requires SourcesIn(logs, ps) && |logs| == |more| && forall p | 0 <= p < |logs| :: logs[p] <= more[p]
    ensures SourcesIn(more, ps) && Moved(more, ps, a, c) == Moved(logs, ps, a, c)
    decreases |ps|
  {
    if ps != [] {
      MovedStays(logs, more, ps[..|ps| - 1], a, c);
    }
  }

  /** One posting of the record and its two entries, worth what the record is. */
  ghost predicate Adds(db: Db, r: Record, src: Src, db': Db, q: Posting, x: Entry, y: Entry) {
    && db'.postings == db.postings + [q] && q.src == src && q.msg == r.msg
    && db'.entries == db.entries + [x, y] && x.posting == y.posting == q.id && Built(x.amount) && Built(y.amount)
    && forall a, c :: Credit(db'.entries, a, c) == Credit(db.entries, a, c) + Worth(r, a, c)
  }

  /** What an apply transaction that commits adds: the named account up, the suspense account down, under one posting. */
  lemma {:induction false} TxMoves(m: Mode, db: Db, r: Record, src: Src, db': Db) returns (q: Posting, x: Entry, y: Entry)
    requires ApplyTx(m, db, r, src) == Applied(db')
    ensures Sound(r) && Adds(db, r, src, db', q, x, y)
  {
    q, x, y := db'.postings[|db.postings|], db'.entries[|db.entries|], db'.entries[|db.entries| + 1];
    NegIsExact(x.amount);
    assert db'.entries == db.entries + [x, y] && db'.postings == db.postings + [q];
    forall a, c ensures Credit(db'.entries, a, c) == Credit(db.entries, a, c) + Worth(r, a, c) {
      CreditTwo(db.entries, x, y, a, c);
    }
  }

  lemma {:induction false} KeptNext(logs: seq<seq<Record>>, db: Db, db': Db, src: Src, q: Posting, x: Entry, y: Entry)
    requires Kept(logs, db) && InLogs(logs, src) && Sound(logs[src.part][src.off]) && Adds(db, logs[src.part][src.off], src, db', q, x, y)
    ensures Kept(logs, db')
  {
    var n := |db.postings|;
    forall a, c ensures SourcesIn(logs, db'.postings) && Credit(db'.entries, a, c) == Moved(logs, db'.postings, a, c) {
      MovedSnoc(logs, db.postings, q, a, c);
      assert Credit(db.entries, a, c) == Moved(logs, db.postings, a, c);
    }
    forall i | 0 <= i < |db'.postings|
      ensures db'.entries[2 * i].posting == db'.entries[2 * i + 1].posting == db'.postings[i].id && FromRecord(logs, db'.postings[i])
    {
      assert i < n ==> db'.postings[i] == db.postings[i] && db'.entries[2 * i] == db.entries[2 * i];
    }
  }

  lemma {:induction false} TxKeeps(m: Mode, logs: seq<seq<Record>>, db: Db, src: Src, db': Db)
    requires Kept(logs, db) && InLogs(logs, src) && ApplyTx(m, db, logs[src.part][src.off], src) == Applied(db')
    ensures Kept(logs, db')
  {
    var q, x, y := TxMoves(m, db, logs[src.part][src.off], src, db');
    KeptNext(logs, db, db', src, q, x, y);
  }

  lemma {:induction false} DbAfter(m: Mode, w: World, e: Event) returns (src: Src)
    requires WellFormed(m, w) && Enabled(m, w, e) && Step(m, w, e).db != w.db
    ensures InLogs(w.logs, src) && Step(m, w, e).logs == w.logs && ApplyTx(m, w.db, w.logs[src.part][src.off], src) == Applied(Step(m, w, e).db)
  {
    src := w.sessions[e.sid].phase.batch[w.sessions[e.sid].phase.done];
  }

  lemma {:induction false} LogsKeep(logs: seq<seq<Record>>, more: seq<seq<Record>>, db: Db)
    requires Kept(logs, db) && |logs| == |more| && forall p | 0 <= p < |logs| :: logs[p] <= more[p]
    ensures Kept(more, db)
  {
    forall a, c ensures SourcesIn(more, db.postings) && Credit(db.entries, a, c) == Moved(more, db.postings, a, c) {
      MovedStays(logs, more, db.postings, a, c);
      assert Credit(db.entries, a, c) == Moved(logs, db.postings, a, c);
    }
    forall i | 0 <= i < |db.postings| ensures FromRecord(more, db.postings[i]) {
      assert FromRecord(logs, db.postings[i]);
    }
  }

  lemma {:induction false} StepKeeps(m: Mode, w: World, e: Event)
    requires WellFormed(m, w) && Enabled(m, w, e) && Kept(w.logs, w.db)
    ensures Kept(Step(m, w, e).logs, Step(m, w, e).db)
  {
    var w' := Step(m, w, e);
    if w'.db != w.db {
      var src := DbAfter(m, w, e);
      TxKeeps(m, w.logs, w.db, src, w'.db);
    } else {
      StepExtends(m, w, e);
      LogsKeep(w.logs, w'.logs, w.db);
    }
  }

  // ---------------------------------------------------------------- every run

  /** Every run of every mode, through faults, duplicates and lost commits: each account's balance in each currency is what
      the records behind the postings are worth to it -- their amounts where they name it, and on the currency's suspense
      account the opposite.  Every such record parsed and every posting has its two entries. */
  lemma {:induction false} BalancesFollowRecords(m: Mode, w: World, es: seq<Event>)
    requires WellFormed(m, w) && Kept(w.logs, w.db) && ValidRun(m, w, es)
    ensures Kept(Exec(m, w, es).logs, Exec(m, w, es).db)
    decreases |es|
  {
    if es != [] {
      StepWellFormed(m, w, es[0]);
      StepKeeps(m, w, es[0]);
      BalancesFollowRecords(m, Step(m, w, es[0]), es[1..]);
    }
  }

  /** The amounts of the records that name an account. */
  function Named(logs: seq<seq<Record>>, ps: seq<Posting>, a: string, c: string): int
    requires SourcesIn(logs, ps)
  {
    if ps == [] then 0 else
      var r := logs[ps[|ps| - 1].src.part][ps[|ps| - 1].src.off];
      Named(logs, ps[..|ps| - 1], a, c) + if r.account == a && r.currency == c then r.minor else 0
  }

  /** All amounts of a currency. */
  function InCurrency(logs: seq<seq<Record>>, ps: seq<Posting>, c: string): int
    requires SourcesIn(logs, ps)
  {
    if ps == [] then 0 else
      var r := logs[ps[|ps| - 1].src.part][ps[|ps| - 1].src.off];
      InCurrency(logs, ps[..|ps| - 1], c) + if r.currency == c then r.minor else 0
  }

  lemma {:induction false} MovedIs(logs: seq<seq<Record>>, ps: seq<Posting>, a: string, c: string)
    requires SourcesIn(logs, ps)
    ensures Moved(logs, ps, a, c) == Named(logs, ps, a, c) - if a == "suspense/" + c then InCurrency(logs, ps, c) else 0
    decreases |ps|
  {
    if ps != [] {
      MovedIs(logs, ps[..|ps| - 1], a, c);
    }
  }

  lemma {:induction false} StartKept(w: World)
    requires Initial(w)
    ensures Kept(w.logs, w.db)
  {
  }

  /** From empty tables: an account that is no suspense account holds exactly the amounts of the booked records naming it;
      the suspense account holds the opposite of everything booked in its currency, besides what names it. */
  lemma {:induction false} MoneyGoesToTheNamedAccount(m: Mode, w: World, es: seq<Event>, a: string, c: string)
    requires Initial(w) && WellFormed(m, w) && ValidRun(m, w, es)
    ensures var w' := Exec(m, w, es);
            && SourcesIn(w'.logs, w'.db.postings)
            && (a != "suspense/" + c ==> Credit(w'.db.entries, a, c) == Named(w'.logs, w'.db.postings, a, c))
            && (a == "suspense/" + c ==> Credit(w'.db.entries, a, c) == Named(w'.logs, w'.db.postings, a, c) - InCurrency(w'.logs, w'.db.postings, c))
  {
    StartKept(w);
    BalancesFollowRecords(m, w, es);
    var w' := Exec(m, w, es);
    assert Credit(w'.db.entries, a, c) == Moved(w'.logs, w'.db.postings, a, c);
    MovedIs(w'.logs, w'.db.postings, a, c);
  }

  // ---------------------------------------------------------------- modes C and D, caught up

  /** What some records are worth to an account. */
  function WorthOf(rs: seq<Record>, a: string, c: string): int {
    if rs == [] then 0 else WorthOf(rs[..|rs| - 1], a, c) + Worth(rs[|rs| - 1], a, c)
  }

  /** Every record, partition by partition. */
  function AllRecords(logs: seq<seq<Record>>): seq<Record> {
    if logs == [] then [] else AllRecords(logs[..|logs| - 1]) + logs[|logs| - 1]
  }

  ghost predicate Names(rs: seq<Record>, msg: string) {
    exists i :: 0 <= i < |rs| && rs[i].msg == msg
  }

  /** The first record of each message id. */
  ghost function FirstOnes(rs: seq<Record>): seq<Record> {
    if rs == [] then [] else
      var n := |rs| - 1;
      FirstOnes(rs[..n]) + if Names(rs[..n], rs[n].msg) then [] else [rs[n]]
  }

  ghost predicate DistinctIds(rs: seq<Record>) {
    forall i, j | 0 <= i < j < |rs| :: rs[i].msg != rs[j].msg
  }

  /** Records of one message id are deliveries of one movement. */
  ghost predicate Agree(rs: seq<Record>) {
    forall i, j | 0 <= i < |rs| && 0 <= j < |rs| && rs[i].msg == rs[j].msg ::
      rs[i].account == rs[j].account && rs[i].currency == rs[j].currency && rs[i].minor == rs[j].minor
  }

  lemma {:induction false} NamesIs(rs: seq<Record>, msg: string)
    ensures Names(rs, msg) <==> exists r :: r in rs && r.msg == msg
  {
    if Names(rs, msg) {
      var i :| 0 <= i < |rs| && rs[i].msg == msg;
      assert rs[i] in rs;
    }
  }

  lemma {:induction false} FirstOnesAre(rs: seq<Record>)
    ensures DistinctIds(FirstOnes(rs)) && (forall r | r in FirstOnes(rs) :: r in rs) && forall msg :: Names(FirstOnes(rs), msg) <==> Names(rs, msg)
    decreases |rs|
  {
    if rs != [] {
      var n := |rs| - 1;
      var front, ones := rs[..n], FirstOnes(rs[..n]);
      FirstOnesAre(front);
      assert rs == front + [rs[n]];
      assert Names(front, rs[n].msg) || forall i | 0 <= i < |ones| :: ones[i].msg != rs[n].msg by {
        assert Names(ones, rs[n].msg) <==> Names(front, rs[n].msg);
      }
      forall msg ensures Names(FirstOnes(rs), msg) <==> Names(rs, msg) {
        NamesIs(rs, msg);
        NamesIs(front, msg);
        NamesIs(ones, msg);
        NamesIs(FirstOnes(rs), msg);
        assert Names(ones, msg) <==> Names(front, msg);
      }
    }
  }

  lemma {:induction false} WorthSplit(rs: seq<Record>, i: nat, a: string, c: string)
    requires i < |rs|
    ensures WorthOf(rs, a, c) == WorthOf(rs[..i] + rs[i + 1..], a, c) + Worth(rs[i], a, c)
    decreases |rs|
  {
    var n := |rs| - 1;
    if i == n {
      assert rs[..i] + rs[i + 1..] == rs[..n];
    } else {
      WorthSplit(rs[..n], i, a, c);
      assert rs[..n][..i] + rs[..n][i + 1..] == (rs[..i] + rs[i + 1..])[..n - 1];
    }
  }

  ghost predicate SameWorth(xs: seq<Record>, ys: seq<Record>, a: string, c: string) {
    forall i, j | 0 <= i < |xs| && 0 <= j < |ys| && xs[i].msg == ys[j].msg :: Worth(xs[i], a, c) == Worth(ys[j], a, c)
  }

  /** Two lists with one record for each of the same ids are worth the same when those records are. */
  lemma {:induction false} OnePerId(xs: seq<Record>, ys: seq<Record>, a: string, c: string)
    requires DistinctIds(xs) && DistinctIds(ys) && (forall msg :: Names(xs, msg) <==> Names(ys, msg)) && SameWorth(xs, ys, a, c)
    ensures WorthOf(xs, a, c) == WorthOf(ys, a, c)
    decreases |xs|
  {
    if xs == [] {
      if ys != [] {
        assert Names(ys, ys[0].msg);
      }
    } else {
      var n := |xs| - 1;
      assert Names(xs, xs[n].msg);
      var j :| 0 <= j < |ys| && ys[j].msg == xs[n].msg;
      var rest := ys[..j] + ys[j + 1..];
      WithoutOne(xs, ys, j);
      assert SameWorth(xs[..n], rest, a, c);
      OnePerId(xs[..n], rest, a, c);
      WorthSplit(ys, j, a, c);
    }
  }

  lemma {:induction false} WithoutOne(xs: seq<Record>, ys: seq<Record>, j: nat)
    requires DistinctIds(xs) && DistinctIds(ys) && xs != [] && (forall msg :: Names(xs, msg) <==> Names(ys, msg))
    requires j < |ys| && ys[j].msg == xs[|xs| - 1].msg
    ensures var rest := ys[..j] + ys[j + 1..];
            && DistinctIds(xs[..|xs| - 1]) && DistinctIds(rest) && (forall msg :: Names(xs[..|xs| - 1], msg) <==> Names(rest, msg))
            && forall k | 0 <= k < |rest| :: rest[k] == ys[if k < j then k else k + 1]
  {
    var n, rest := |xs| - 1, ys[..j] + ys[j + 1..];
    forall msg ensures Names(xs[..n], msg) <==> Names(rest, msg) {
      NamesButLast(xs, msg);
      NamesBut(ys, j, msg);
      assert Names(xs, msg) <==> Names(ys, msg);
    }
  }

  lemma {:induction false} NamesBut(ys: seq<Record>, j: nat, msg: string)
    requires DistinctIds(ys) && j < |ys|
    ensures Names(ys[..j] + ys[j + 1..], msg) <==> Names(ys, msg) && msg != ys[j].msg
  {
    var rest := ys[..j] + ys[j + 1..];
    assert forall k | 0 <= k < |rest| :: rest[k] == ys[if k < j then k else k + 1];
    if Names(ys, msg) && msg != ys[j].msg {
      var i :| 0 <= i < |ys| && ys[i].msg == msg;
      assert rest[if i < j then i else i - 1] == ys[i];
    }
  }

  lemma {:induction false} NamesButLast(xs: seq<Record>, msg: string)
    requires DistinctIds(xs) && xs != []
    ensures Names(xs[..|xs| - 1], msg) <==> Names(xs, msg) && msg != xs[|xs| - 1].msg
  {
    var n := |xs| - 1;
    NamesBut(xs, n, msg);
    assert xs[..n] + xs[n + 1..] == xs[..n];
  }

  /** The records behind some postings. */
  ghost function Behind(logs: seq<seq<Record>>, ps: seq<Posting>): (rs: seq<Record>)
    requires SourcesIn(logs, ps)
    ensures |rs| == |ps| && forall i | 0 <= i < |ps| :: rs[i] == logs[ps[i].src.part][ps[i].src.off]
  {
    seq(|ps|, i requires 0 <= i < |ps| => logs[ps[i].src.part][ps[i].src.off])
  }

  lemma {:induction false} MovedIsWorth(logs: seq<seq<Record>>, ps: seq<Posting>, a: string, c: string)
    requires SourcesIn(logs, ps)
    ensures Moved(logs, ps, a, c) == WorthOf(Behind(logs, ps), a, c)
    decreases |ps|
  {
    if ps != [] {
      MovedIsWorth(logs, ps[..|ps| - 1], a, c);
      assert Behind(logs, ps)[..|ps| - 1] == Behind(logs, ps[..|ps| - 1]);
    }
  }

  lemma {:induction false} AllRecordsAre(logs: seq<seq<Record>>, r: Record)
    ensures r in AllRecords(logs) <==> exists p, i :: 0 <= p < |logs| && 0 <= i < |logs[p]| && logs[p][i] == r
    decreases |logs|
  {
    if logs != [] {
      var n := |logs| - 1;
      AllRecordsAre(logs[..n], r);
      if r in AllRecords(logs[..n]) {
        var p, i :| 0 <= p < n && 0 <= i < |logs[..n][p]| && logs[..n][p][i] == r;
        assert logs[p][i] == r;
      }
      if r in logs[n] {
        var i :| 0 <= i < |logs[n]| && logs[n][i] == r;
      }
      if p, i :| 0 <= p < |logs| && 0 <= i < |logs[p]| && logs[p][i] == r {
        assert p < n ==> logs[..n][p][i] == r;
      }
    }
  }

  lemma {:induction false} LogsName(w: World, msg: string)
    ensures Names(AllRecords(w.logs), msg) <==> InSomeLog(w, msg)
  {
    NamesIs(AllRecords(w.logs), msg);
    if r :| r in AllRecords(w.logs) && r.msg == msg {
      AllRecordsAre(w.logs, r);
      var p, i :| 0 <= p < |w.logs| && 0 <= i < |w.logs[p]| && w.logs[p][i] == r;
    }
    if InSomeLog(w, msg) {
      var p, i :| 0 <= p < |w.logs| && 0 <= i < |w.logs[p]| && w.logs[p][i].msg == msg;
      AllRecordsAre(w.logs, w.logs[p][i]);
    }
  }

  /** The booked records: one for each id of the logs. */
  lemma {:induction false} BehindAreTheLogs(m: Mode, w: World)
    requires Dedup(m) && WellFormed(m, w) && OncePerMessage(w.db) && Kept(w.logs, w.db)
    requires forall msg :: msg in w.db.inbox <==> InSomeLog(w, msg)
    ensures var rs := Behind(w.logs, w.db.postings);
            DistinctIds(rs) && (forall msg :: Names(rs, msg) <==> Names(AllRecords(w.logs), msg)) && forall i | 0 <= i < |rs| :: rs[i] in AllRecords(w.logs)
  {
    var rs := Behind(w.logs, w.db.postings);
    assert forall i | 0 <= i < |rs| :: FromRecord(w.logs, w.db.postings[i]) && rs[i].msg == w.db.postings[i].msg;
    forall msg ensures Names(rs, msg) <==> Names(AllRecords(w.logs), msg) {
      LogsName(w, msg);
      assert msg in w.db.inbox <==> Names(rs, msg) by {
        if msg in w.db.inbox {
          var k :| 0 <= k < |w.db.postings| && w.db.postings[k].msg == msg;
          assert rs[k].msg == msg;
        }
      }
    }
    forall i | 0 <= i < |rs| ensures rs[i] in AllRecords(w.logs) {
      AllRecordsAre(w.logs, rs[i]);
    }
  }

  /** Modes C and D, caught up, whatever happened on the way: when the records of one message id are deliveries of one
      movement, every account's balance is what the logs are worth to it, each message id once. */
  lemma {:induction false} CaughtUpBalances(m: Mode, w: World, es: seq<Event>, a: string, c: string)
    requires Dedup(m) && Initial(w) && WellFormed(m, w) && ValidRun(m, w, es)
    requires CaughtUp(Exec(m, w, es)) && Agree(AllRecords(Exec(m, w, es).logs))
    ensures Credit(Exec(m, w, es).db.entries, a, c) == WorthOf(FirstOnes(AllRecords(Exec(m, w, es).logs)), a, c)
  {
    var w' := Exec(m, w, es);
    StartKept(w);
    BalancesFollowRecords(m, w, es);
    ExactlyOnceWhenCaughtUp(m, w, es);
    BehindAreTheLogs(m, w');
    var rs, all := Behind(w'.logs, w'.db.postings), AllRecords(w'.logs);
    FirstOnesAre(all);
    forall i, j | 0 <= i < |rs| && 0 <= j < |FirstOnes(all)| && rs[i].msg == FirstOnes(all)[j].msg
      ensures Worth(rs[i], a, c) == Worth(FirstOnes(all)[j], a, c)
    {
      assert FirstOnes(all)[j] in FirstOnes(all);
    }
    OnePerId(rs, FirstOnes(all), a, c);
    MovedIsWorth(w'.logs, w'.db.postings, a, c);
    assert Credit(w'.db.entries, a, c) == Moved(w'.logs, w'.db.postings, a, c);
  }
}
