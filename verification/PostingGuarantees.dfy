/** Idempotency by constraint: what any number of concurrent Post calls leave behind. */
module PostingGuarantees {
  import opened Books
  import opened Money
  import opened Options
  import opened Posting

  /** The entry ids recorded for one posting, in table order. */
  function IdsOf(rows: seq<Row>, p: PostingId): seq<nat> {
    if rows == [] then []
    else IdsOf(rows[..|rows| - 1], p) + (if rows[|rows| - 1].entry.posting == p then [rows[|rows| - 1].id] else [])
  }

  function OutboxOf(outbox: seq<OutboxRow>, p: PostingId): seq<OutboxRow> {
    if outbox == [] then []
    else OutboxOf(outbox[..|outbox| - 1], p) + (if outbox[|outbox| - 1].posting == p then [outbox[|outbox| - 1]] else [])
  }

  function EntriesOf(rows: seq<Row>): (r: seq<Entry>)
    ensures |r| == |rows|
  {
    seq(|rows|, i requires 0 <= i < |rows| => rows[i].entry)
  }

  lemma {:induction false} IdsOfConcat(a: seq<Row>, b: seq<Row>, p: PostingId)
    ensures IdsOf(a + b, p) == IdsOf(a, p) + IdsOf(b, p)
    decreases |b|
  {
    if b == [] {
      assert a + b == a;
    } else {
      assert (a + b)[..|a + b| - 1] == a + b[..|b| - 1];
      IdsOfConcat(a, b[..|b| - 1], p);
    }
  }

  lemma {:induction false} IdsOfUniform(rows: seq<Row>, p: PostingId, q: PostingId)
    requires forall i | 0 <= i < |rows| :: rows[i].entry.posting == p
    ensures IdsOf(rows, q) == if p == q then seq(|rows|, i requires 0 <= i < |rows| => rows[i].id) else []
    decreases |rows|
  {
    if rows != [] {
      IdsOfUniform(rows[..|rows| - 1], p, q);
    }
  }

  // ---------------------------------------------------------------- the tables

  /** A visible claim is complete and agrees with the posting, its legs and its one outbox event. */
  ghost predicate ClaimOk(t: Tables, k: Key) {
    && k in t.claims && t.claims[k].response.Some?
    && var b := t.claims[k].body;
       var res := t.claims[k].response.value;
       && res.posting == PostingIdFor(k) && |res.entryIds| == |b.entries| >= 1
       && res.posting in t.postings && t.postings[res.posting] == Request(k, b)
       && IdsOf(t.rows, res.posting) == res.entryIds
       && OutboxOf(t.outbox, res.posting) == [OutboxRow(res.posting, b.entries[0].account, (b, res.entryIds))]
  }

  ghost predicate TablesOk(t: Tables) {
    && (forall k <- t.claims :: ClaimOk(t, k))
    && (forall p <- t.postings :: t.postings[p].key in t.claims && PostingIdFor(t.postings[p].key) == p)
    && (forall p | p !in t.postings :: IdsOf(t.rows, p) == [] && OutboxOf(t.outbox, p) == [])
    && Balanced(EntriesOf(t.rows))
  }

  lemma {:induction false} DriftOfLegs(r: Request, ids: seq<nat>, n: nat, c: string)
    requires |ids| == |r.body.entries| && Known(r.body.currency) && n <= |ids|
    ensures Drift(EntriesOf(Legs(r, ids))[..n], c) == if c == r.body.currency then Total(AmountsOf(r.body)[..n]) else 0
    decreases n
  {
    if n > 0 {
      DriftOfLegs(r, ids, n - 1, c);
      var es, xs := EntriesOf(Legs(r, ids)), AmountsOf(r.body);
      assert es[..n][..n - 1] == es[..n - 1] && xs[..n][..n - 1] == xs[..n - 1];
    }
  }

  /** The legs of a validated request net to zero in every currency. */
  lemma {:induction false} LegsBalanced(r: Request, ids: seq<nat>)
    requires Valid(r) && |ids| == |r.body.entries|
    ensures Balanced(EntriesOf(Legs(r, ids)))
  {
    forall c ensures Drift(EntriesOf(Legs(r, ids)), c) == 0 {
      DriftOfLegs(r, ids, |ids|, c);
      assert EntriesOf(Legs(r, ids))[..|ids|] == EntriesOf(Legs(r, ids));
      assert AmountsOf(r.body)[..|ids|] == AmountsOf(r.body);
    }
  }

  lemma {:induction false} PublishRows(t: Tables, r: Request, ids: seq<nat>, p: PostingId)
    requires |ids| == |r.body.entries| >= 1 && Known(r.body.currency)
    ensures IdsOf(Publish(t, r, ids).rows, p) == IdsOf(t.rows, p) + (if p == PostingIdFor(r.key) then ids else [])
  {
    var legs := Legs(r, ids);
    IdsOfConcat(t.rows, legs, p);
    IdsOfUniform(legs, PostingIdFor(r.key), p);
    assert seq(|legs|, i requires 0 <= i < |legs| => legs[i].id) == ids;
  }

  lemma {:induction false} PublishOutbox(t: Tables, r: Request, ids: seq<nat>, p: PostingId)
    requires |ids| == |r.body.entries| >= 1 && Known(r.body.currency)
    ensures OutboxOf(Publish(t, r, ids).outbox, p) == OutboxOf(t.outbox, p) +
              (if p == PostingIdFor(r.key) then [OutboxRow(p, r.body.entries[0].account, (r.body, ids))] else [])
  {
    var t' := Publish(t, r, ids);
    assert t'.outbox[..|t'.outbox| - 1] == t.outbox;
  }

  lemma {:induction false} PublishNewClaim(t: Tables, r: Request, ids: seq<nat>)
    requires |ids| == |r.body.entries| >= 1 && Known(r.body.currency)
    requires IdsOf(t.rows, PostingIdFor(r.key)) == [] && OutboxOf(t.outbox, PostingIdFor(r.key)) == []
    ensures ClaimOk(Publish(t, r, ids), r.key)
  {
    PublishRows(t, r, ids, PostingIdFor(r.key));
    PublishOutbox(t, r, ids, PostingIdFor(r.key));
  }

  lemma {:induction false} PublishOldClaim(t: Tables, r: Request, ids: seq<nat>, k: Key)
    requires |ids| == |r.body.entries| >= 1 && Known(r.body.currency)
    requires ClaimOk(t, k) && k != r.key && PostingIdFor(r.key) !in t.postings
    ensures ClaimOk(Publish(t, r, ids), k)
  {
    PublishRows(t, r, ids, PostingIdFor(k));
    PublishOutbox(t, r, ids, PostingIdFor(k));
  }

  lemma {:induction false} PublishKeepsClaims(t: Tables, r: Request, ids: seq<nat>)
    requires TablesOk(t) && |ids| == |r.body.entries| >= 1 && Known(r.body.currency)
    requires r.key !in t.claims && PostingIdFor(r.key) !in t.postings
    ensures forall k <- Publish(t, r, ids).claims :: ClaimOk(Publish(t, r, ids), k)
  {
    forall k <- Publish(t, r, ids).claims ensures ClaimOk(Publish(t, r, ids), k) {
      if k == r.key {
        PublishNewClaim(t, r, ids);
      } else {
        PublishOldClaim(t, r, ids, k);
      }
    }
  }

  lemma {:induction false} PublishKeepsTables(t: Tables, r: Request, ids: seq<nat>)
    requires TablesOk(t) && Valid(r) && |ids| == |r.body.entries| && r.key !in t.claims && PostingIdFor(r.key) !in t.postings
    ensures TablesOk(Publish(t, r, ids))
  {
    var t' := Publish(t, r, ids);
    PublishKeepsClaims(t, r, ids);
    forall p | p !in t'.postings ensures IdsOf(t'.rows, p) == [] && OutboxOf(t'.outbox, p) == [] {
      PublishRows(t, r, ids, p);
      PublishOutbox(t, r, ids, p);
    }
    PublishBalances(t, r, ids);
  }

  lemma {:induction false} PublishBalances(t: Tables, r: Request, ids: seq<nat>)
    requires Balanced(EntriesOf(t.rows)) && Valid(r) && |ids| == |r.body.entries|
    ensures Balanced(EntriesOf(Publish(t, r, ids).rows))
  {
    LegsBalanced(r, ids);
    assert EntriesOf(Publish(t, r, ids).rows) == EntriesOf(t.rows) + EntriesOf(Legs(r, ids));
    BalancedConcat(EntriesOf(t.rows), EntriesOf(Legs(r, ids)));
  }

  // ---------------------------------------------------------------- the calls

  ghost predicate CallOk(t: Tables, k: Call) {
    && |k.req.body.entries| >= 2 && Known(k.req.body.currency)
    && (HoldsKey(k.phase) ==> k.req.key !in t.claims)
    && (HoldsPosting(k.phase) ==> PostingIdFor(k.req.key) !in t.postings)
    && match k.phase
       case Ready => true
       case Claimed => true
       case Enveloped(ids) => |ids| <= |k.req.body.entries|
       case Outboxed(ids) => |ids| == |k.req.body.entries|
       case Completed(ids) => |ids| == |k.req.body.entries|
       case Replaying(a) => a == 0 && k.req.key in t.claims
       case Done(Success(res, _)) => k.req.key in t.claims && t.claims[k.req.key] == Claim(k.req.body, Some(res))
       case Done(BodyMismatch) => k.req.key in t.claims && t.claims[k.req.key].body != k.req.body
       case Done(Failed) => true
  }

  /** No two open transactions hold the same idempotency key or the same posting id. */
  ghost predicate Exclusive(calls: map<nat, Call>) {
    forall c <- calls, d <- calls | c != d ::
      && (HoldsKey(calls[c].phase) && HoldsKey(calls[d].phase) ==> calls[c].req.key != calls[d].req.key)
      && (HoldsPosting(calls[c].phase) && HoldsPosting(calls[d].phase) ==> PostingIdFor(calls[c].req.key) != PostingIdFor(calls[d].req.key))
  }

  ghost predicate AllValid(calls: map<nat, Call>) {
    forall c <- calls :: Valid(calls[c].req)
  }

  ghost predicate AllOk(t: Tables, calls: map<nat, Call>) {
    forall c <- calls :: CallOk(t, calls[c])
  }

  ghost predicate CallsOk(t: Tables, calls: map<nat, Call>) {
    Exclusive(calls) && AllOk(t, calls) && AllValid(calls)
  }

  ghost predicate Inv(s: State) {
    TablesOk(s.tables) && CallsOk(s.tables, s.calls)
  }

  /** A commit by one call disturbs no other call: what it publishes was reserved. */
  lemma {:induction false} OthersUndisturbed(t: Tables, calls: map<nat, Call>, c: nat, d: nat)
    requires Exclusive(calls) && c in calls && d in calls && c != d && calls[c].phase.Completed?
    requires CallOk(t, calls[c]) && CallOk(t, calls[d])
    ensures CallOk(Publish(t, calls[c].req, calls[c].phase.ids), calls[d])
  {
  }

  lemma {:induction false} ReleaseKeepsExclusive(calls: map<nat, Call>, c: nat, p: Phase)
    requires Exclusive(calls) && c in calls && !HoldsKey(p)
    ensures Exclusive(calls[c := calls[c].(phase := p)])
  {
  }

  lemma {:induction false} CommitterOk(t: Tables, k: Call, out: Outcome)
    requires CallOk(t, k) && k.phase.Completed?
    requires out == Failed || out == Success(Result(PostingIdFor(k.req.key), k.phase.ids), false)
    ensures CallOk(Publish(t, k.req, k.phase.ids), k.(phase := Done(out)))
  {
  }

  lemma {:induction false} CommitKeepsCalls(t: Tables, calls: map<nat, Call>, c: nat, out: Outcome)
    requires Exclusive(calls) && AllOk(t, calls) && c in calls && calls[c].phase.Completed?
    requires out == Failed || out == Success(Result(PostingIdFor(calls[c].req.key), calls[c].phase.ids), false)
    ensures CallOk(t, calls[c]) && AllOk(Publish(t, calls[c].req, calls[c].phase.ids), calls[c := calls[c].(phase := Done(out))])
  {
    var k := calls[c];
    assert CallOk(t, k);
    CommitterOk(t, k, out);
    var t' := Publish(t, k.req, k.phase.ids);
    forall d <- calls ensures CallOk(t', if d == c then k.(phase := Done(out)) else calls[d]) {
      if d != c {
        OthersUndisturbed(t, calls, c, d);
      }
    }
  }

  lemma {:induction false} CommitKeepsCallsOk(t: Tables, calls: map<nat, Call>, c: nat, out: Outcome)
    requires CallsOk(t, calls) && c in calls && calls[c].phase.Completed?
    requires out == Failed || out == Success(Result(PostingIdFor(calls[c].req.key), calls[c].phase.ids), false)
    ensures CallOk(t, calls[c]) && CallsOk(Publish(t, calls[c].req, calls[c].phase.ids), calls[c := calls[c].(phase := Done(out))])
  {
    CommitKeepsCalls(t, calls, c, out);
    ReleaseKeepsExclusive(calls, c, Done(out));
    assert AllValid(calls[c := calls[c].(phase := Done(out))]);
  }

  lemma {:induction false} CommitKeepsInv(s: State, c: nat, acked: bool)
    requires Inv(s) && Enabled(s, Commit(c, acked))
    ensures Inv(Step(s, Commit(c, acked)))
  {
    var k := s.calls[c];
    CommitKeepsCallsOk(s.tables, s.calls, c, NextPhase(s, Commit(c, acked)).outcome);
    assert Valid(k.req);
    PublishKeepsTables(s.tables, k.req, k.phase.ids);
  }

  /** Moving one call along inside unchanged tables. */
  lemma {:induction false} MoveKeepsCalls(s: State, c: nat, p: Phase)
    requires CallsOk(s.tables, s.calls) && c in s.calls && CallOk(s.tables, s.calls[c].(phase := p))
    requires HoldsKey(p) ==> HoldsKey(s.calls[c].phase) || !KeyBusy(s, c, s.calls[c].req.key)
    requires HoldsPosting(p) ==> HoldsPosting(s.calls[c].phase) || !PostingBusy(s, c, PostingIdFor(s.calls[c].req.key))
    ensures CallsOk(s.tables, Move(s, c, p).calls)
  {
    MoveKeepsExclusive(s, c, p);
    var calls := s.calls[c := s.calls[c].(phase := p)];
    assert AllOk(s.tables, calls) && AllValid(calls);
  }

  lemma {:induction false} MoveKeepsExclusive(s: State, c: nat, p: Phase)
    requires Exclusive(s.calls) && c in s.calls
    requires HoldsKey(p) ==> HoldsKey(s.calls[c].phase) || !KeyBusy(s, c, s.calls[c].req.key)
    requires HoldsPosting(p) ==> HoldsPosting(s.calls[c].phase) || !PostingBusy(s, c, PostingIdFor(s.calls[c].req.key))
    ensures Exclusive(Move(s, c, p).calls)
  {
    var s' := Move(s, c, p);
    forall a <- s'.calls, b <- s'.calls | a != b
      ensures HoldsKey(s'.calls[a].phase) && HoldsKey(s'.calls[b].phase) ==> s'.calls[a].req.key != s'.calls[b].req.key
      ensures HoldsPosting(s'.calls[a].phase) && HoldsPosting(s'.calls[b].phase) ==> PostingIdFor(s'.calls[a].req.key) != PostingIdFor(s'.calls[b].req.key)
    {
      if a == c {
        assert KeyBusy(s, c, s.calls[c].req.key) || !HoldsKey(s.calls[b].phase) || s.calls[b].req.key != s.calls[c].req.key;
        assert PostingBusy(s, c, PostingIdFor(s.calls[c].req.key)) || !HoldsPosting(s.calls[b].phase) || PostingIdFor(s.calls[b].req.key) != PostingIdFor(s.calls[c].req.key);
      } else if b == c {
        assert KeyBusy(s, c, s.calls[c].req.key) || !HoldsKey(s.calls[a].phase) || s.calls[a].req.key != s.calls[c].req.key;
        assert PostingBusy(s, c, PostingIdFor(s.calls[c].req.key)) || !HoldsPosting(s.calls[a].phase) || PostingIdFor(s.calls[a].req.key) != PostingIdFor(s.calls[c].req.key);
      }
    }
  }

  /** The reload loop never goes round: a visible claim already carries its response. */
  lemma {:induction false} ReplayIsFinal(s: State, c: nat)
    requires Inv(s) && Enabled(s, Reload(c))
    ensures var out := Replay(s.tables, s.calls[c].req, s.calls[c].phase.attempt);
            && out.Done? && CallOk(s.tables, s.calls[c].(phase := out))
            && out.outcome == (if s.tables.claims[s.calls[c].req.key].body == s.calls[c].req.body
                               then Success(s.tables.claims[s.calls[c].req.key].response.value, true) else BodyMismatch)
  {
    assert CallOk(s.tables, s.calls[c]) && ClaimOk(s.tables, s.calls[c].req.key);
  }

  lemma {:induction false} NextPhaseOk(s: State, e: Event)
    requires e.c in s.calls && CallOk(s.tables, s.calls[e.c]) && Enabled(s, e) && !e.Submit? && !e.Commit? && !e.Reload?
    ensures CallOk(s.tables, s.calls[e.c].(phase := NextPhase(s, e)))
  {
  }

  lemma {:induction false} SubmitKeepsCalls(t: Tables, calls: map<nat, Call>, c: nat, r: Request)
    requires CallsOk(t, calls) && c !in calls && Valid(r)
    ensures CallsOk(t, calls[c := Call(r, Ready)])
  {
    assert CallOk(t, Call(r, Ready));
    var calls' := calls[c := Call(r, Ready)];
    assert AllOk(t, calls') && AllValid(calls');
  }

  lemma {:induction false} MoveKeepsInv(s: State, e: Event)
    requires Inv(s) && Enabled(s, e) && !e.Commit? && !e.Submit?
    ensures Inv(Step(s, e))
  {
    assert CallOk(s.tables, s.calls[e.c]);
    if e.Reload? {
      ReplayIsFinal(s, e.c);
    } else {
      NextPhaseOk(s, e);
    }
    MoveKeepsCalls(s, e.c, NextPhase(s, e));
    assert Step(s, e).tables == s.tables && Step(s, e).calls == Move(s, e.c, NextPhase(s, e)).calls;
  }

  lemma {:induction false} StepKeepsInv(s: State, e: Event)
    requires Inv(s) && Enabled(s, e)
    ensures Inv(Step(s, e))
  {
    if e.Commit? {
      CommitKeepsInv(s, e.c, e.acked);
    } else if e.Submit? {
      SubmitKeepsCalls(s.tables, s.calls, e.c, e.req);
    } else {
      MoveKeepsInv(s, e);
    }
  }

  lemma {:induction false} RunKeepsInv(s: State, es: seq<Event>)
    requires Inv(s) && ValidRun(s, es)
    ensures Inv(Exec(s, es))
    decreases |es|
  {
    if es != [] {
      StepKeepsInv(s, es[0]);
      RunKeepsInv(Step(s, es[0]), es[1..]);
    }
  }

  lemma {:induction false} EmptyInv()
    ensures Inv(Empty())
  {
  }

  // ---------------------------------------------------------------- the promises

  /** N concurrent calls with one (principal, key), in any interleaving with any faults: at most one posting, one
      entry set and one outbox event exist for it, and the stored claim names exactly those rows. */
  lemma {:induction false} OneEffectPerKey(es: seq<Event>, k: Key)
    requires ValidRun(Empty(), es)
    ensures var t := Exec(Empty(), es).tables;
            var p := PostingIdFor(k);
            if k in t.claims then ClaimOk(t, k)
            else p in t.postings ==> t.postings[p].key != k
    ensures var t := Exec(Empty(), es).tables;
            |OutboxOf(t.outbox, PostingIdFor(k))| <= 1 && (PostingIdFor(k) !in t.postings ==> IdsOf(t.rows, PostingIdFor(k)) == [])
  {
    EmptyInv();
    RunKeepsInv(Empty(), es);
    var t := Exec(Empty(), es).tables;
    if PostingIdFor(k) in t.postings {
      assert ClaimOk(t, t.postings[PostingIdFor(k)].key);
    }
  }

  /** Every success for one key returns the same posting id and the same entry ids, whoever won the race, and all of
      them sent the same body; a call told BodyMismatch sent another body than the one that won. */
  lemma {:induction false} SameKeySameAnswer(es: seq<Event>, c: nat, d: nat)
    requires ValidRun(Empty(), es)
    requires c in Exec(Empty(), es).calls && d in Exec(Empty(), es).calls
    requires Exec(Empty(), es).calls[c].req.key == Exec(Empty(), es).calls[d].req.key
    requires Exec(Empty(), es).calls[c].phase.Done? && Exec(Empty(), es).calls[c].phase.outcome.Success?
    requires Exec(Empty(), es).calls[d].phase.Done?
    ensures var s := Exec(Empty(), es);
            var mine, other := s.calls[c].phase.outcome, s.calls[d].phase.outcome;
            && (other.Success? ==> other.result == mine.result && s.calls[d].req.body == s.calls[c].req.body)
            && (other.BodyMismatch? ==> s.calls[d].req.body != s.calls[c].req.body)
            && mine.result.entryIds == IdsOf(s.tables.rows, mine.result.posting)
  {
    EmptyInv();
    RunKeepsInv(Empty(), es);
    var s := Exec(Empty(), es);
    assert CallOk(s.tables, s.calls[c]) && CallOk(s.tables, s.calls[d]) && ClaimOk(s.tables, s.calls[c].req.key);
  }

  /** Zero-sum per currency in every reachable state of the write path. */
  lemma {:induction false} WritePathBalances(es: seq<Event>)
    requires ValidRun(Empty(), es)
    ensures Balanced(EntriesOf(Exec(Empty(), es).tables.rows))
  {
    EmptyInv();
    RunKeepsInv(Empty(), es);
  }

  /** The waits cannot deadlock: while any call is unfinished, some call can take a step that is not a rollback. */
  lemma {:induction false} NoDeadlock(s: State, c: nat)
    requires Inv(s) && c in s.calls && !s.calls[c].phase.Done?
    ensures exists e :: Enabled(s, e) && !e.Rollback? && !e.Submit?
  {
    var k := s.calls[c];
    assert CallOk(s.tables, k);
    match k.phase
    case Ready =>
      if k.req.key !in s.tables.claims && KeyBusy(s, c, k.req.key) {
        var d :| d in s.calls && d != c && s.calls[d].req.key == k.req.key && HoldsKey(s.calls[d].phase);
        HolderCanMove(s, d);
      } else {
        assert Enabled(s, ClaimKey(c));
      }
    case Replaying(_) => assert Enabled(s, Reload(c));
    case _ => HolderCanMove(s, c);
  }

  lemma {:induction false} HolderCanMove(s: State, c: nat)
    requires Inv(s) && c in s.calls && HoldsKey(s.calls[c].phase)
    ensures exists e :: Enabled(s, e) && !e.Rollback? && !e.Submit?
  {
    var k := s.calls[c];
    if k.phase.Claimed? {
      var p := PostingIdFor(k.req.key);
      if p !in s.tables.postings && PostingBusy(s, c, p) {
        var d :| d in s.calls && d != c && PostingIdFor(s.calls[d].req.key) == p && HoldsPosting(s.calls[d].phase);
        PostingHolderCanMove(s, d);
      } else {
        assert Enabled(s, InsertEnvelope(c));
      }
    } else {
      PostingHolderCanMove(s, c);
    }
  }

  lemma {:induction false} PostingHolderCanMove(s: State, c: nat)
    requires Inv(s) && c in s.calls && HoldsPosting(s.calls[c].phase)
    ensures exists e :: Enabled(s, e) && !e.Rollback? && !e.Submit?
  {
    var k := s.calls[c];
    assert CallOk(s.tables, k);
    match k.phase
    case Enveloped(ids) =>
      if |ids| < |k.req.body.entries| {
        assert Enabled(s, InsertLeg(c));
      } else {
        assert Enabled(s, InsertOutbox(c));
      }
    case Outboxed(_) => assert Enabled(s, Complete(c));
    case Completed(_) => assert Enabled(s, Commit(c, true));
  }

  // ---------------------------------------------------------------- derived posting ids

  /** The joined text is ambiguous: two different pairs share a posting id, so the second to arrive can never post. */
  lemma {:induction false} PostingIdsCollide()
    ensures Key("a/b", "c") != Key("a", "b/c") && PostingIdFor(Key("a/b", "c")) == PostingIdFor(Key("a", "b/c"))
  {
    assert "a/b" + "/" + "c" == "a" + "/" + "b/c";
    assert Key("a/b", "c").principal[1] == '/';
  }

  /** p followed by a slash opens q. */
  predicate Opens(p: string, q: string) {
    p + "/" <= q
  }

  /** The ids of two pairs, the first with the shorter principal, are equal exactly when the pairs are, or when the second
      principal is the first, a slash and a rest, and the first key is that rest, a slash and the second key. */
  lemma {:induction false} SameIdExactlyWhen(j: Key, k: Key)
    requires |j.principal| <= |k.principal|
    ensures PostingIdFor(j) == PostingIdFor(k) <==>
            j == k || (Opens(j.principal, k.principal) && j.idem == k.principal[|j.principal| + 1..] + "/" + k.idem)
  {
    var n := |j.principal|;
    var s, t := j.principal + "/" + j.idem, k.principal + "/" + k.idem;
    assert s[..n] == j.principal && s[n] == '/' && s[n + 1..] == j.idem;
    if |k.principal| == n {
      assert t[..n] == k.principal && t[n + 1..] == k.idem;
    } else {
      assert t[..n] == k.principal[..n] && t[n] == k.principal[n];
      assert t[n + 1..] == k.principal[n + 1..] + "/" + k.idem;
      assert s == s[..n] + [s[n]] + s[n + 1..] && t == t[..n] + [t[n]] + t[n + 1..];
      assert Opens(j.principal, k.principal) <==> k.principal[..n] == j.principal && k.principal[n] == '/' by {
        assert (j.principal + "/")[..n] == j.principal && |j.principal + "/"| == n + 1;
        assert k.principal[..n + 1] == k.principal[..n] + [k.principal[n]];
      }
    }
  }

  /** No two requests of listed principals with one posting id, unless their keys are one. */
  ghost predicate CollisionFree(allowed: set<string>) {
    forall j: Key, k: Key | j.principal in allowed && k.principal in allowed && j.idem != "" && k.idem != "" ::
      PostingIdFor(j) == PostingIdFor(k) ==> j == k
  }

  /** An allow-list is free of collisions if and only if no member followed by a slash opens another. */
  lemma {:induction false} AllowListIsCollisionFree(allowed: set<string>)
    ensures CollisionFree(allowed) <==> forall p, q | p in allowed && q in allowed :: !Opens(p, q)
  {
    forall p, q | p in allowed && q in allowed && Opens(p, q) ensures !CollisionFree(allowed) {
      var j, k := Key(p, q[|p| + 1..] + "/" + "x"), Key(q, "x");
      SameIdExactlyWhen(j, k);
    }
    if forall p, q | p in allowed && q in allowed :: !Opens(p, q) {
      forall j: Key, k: Key | j.principal in allowed && k.principal in allowed && PostingIdFor(j) == PostingIdFor(k) ensures j == k {
        if |j.principal| <= |k.principal| {
          SameIdExactlyWhen(j, k);
        } else {
          SameIdExactlyWhen(k, j);
        }
      }
    }
  }

  /** With slash-free principals, as in the service's default allow-list, the derivation is injective. */
  lemma {:induction false} SlashFreeIdsAreDistinct(j: Key, k: Key)
    requires '/' !in j.principal && '/' !in k.principal
    ensures PostingIdFor(j) == PostingIdFor(k) <==> j == k
  {
    forall p: string, q: string | '/' !in q ensures !Opens(p, q) {
      assert (p + "/")[|p|] == '/';
      assert |q| > |p| ==> q[..|p| + 1][|p|] == q[|p|];
    }
    if |j.principal| <= |k.principal| {
      SameIdExactlyWhen(j, k);
    } else {
      SameIdExactlyWhen(k, j);
    }
  }

  /** Whatever keys collide, at most one of them ever holds a claim. */
  lemma {:induction false} CollidingKeysNeverBothPost(es: seq<Event>, j: Key, k: Key)
    requires ValidRun(Empty(), es) && PostingIdFor(j) == PostingIdFor(k)
    requires j in Exec(Empty(), es).tables.claims && k in Exec(Empty(), es).tables.claims
    ensures j == k
  {
    EmptyInv();
    RunKeepsInv(Empty(), es);
    var t := Exec(Empty(), es).tables;
    assert ClaimOk(t, j) && ClaimOk(t, k);
  }
}
