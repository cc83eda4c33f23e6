/** Post as one call with no other transaction open: the statements in order, and what they add up to. */
module PostingService {
  import opened Money
  import opened Posting

  function Consecutive(first: nat, n: nat): (r: seq<nat>)
    ensures |r| == n
  {
    seq(n, i requires 0 <= i < n => first + i)
  }

  function StoredAnswer(claim: Claim, b: Body): Outcome {
    if claim.body != b then BodyMismatch
    else if claim.response.Some? then Success(claim.response.value, true)
    else Failed
  }

  /** The whole of Post on tables nobody else is writing. */
  function PostAlone(t: Tables, nextEntry: nat, r: Request): (Tables, Outcome)
    requires |r.body.entries| >= 1 && Known(r.body.currency)
  {
    if r.key in t.claims then (t, StoredAnswer(t.claims[r.key], r.body))
    else if PostingIdFor(r.key) in t.postings then (t, Failed)
    else
      var ids := Consecutive(nextEntry, |r.body.entries|);
      (Publish(t, r, ids), Success(Result(PostingIdFor(r.key), ids), false))
  }

  ghost predicate Quiet(s: State) {
    forall d <- s.calls :: !HoldsKey(s.calls[d].phase)
  }

  lemma {:induction false} RunSnoc(s: State, es: seq<Event>, e: Event)
    requires ValidRun(s, es) && Enabled(Exec(s, es), e)
    ensures ValidRun(s, es + [e]) && Exec(s, es + [e]) == Step(Exec(s, es), e)
    decreases |es|
  {
    if es == [] {
      assert ([e])[1..] == [];
      assert es + [e] == [e];
    } else {
      RunSnoc(Step(s, es[0]), es[1..], e);
      assert (es + [e])[1..] == es[1..] + [e];
    }
  }

  class Service {
    var st: State
    ghost var history: seq<Event>

    /** The service's state is what its history of statements produced from empty tables. */
    ghost predicate Traced()
      reads this
    {
      ValidRun(Empty(), history) && Exec(Empty(), history) == st
    }

    constructor ()
      ensures Traced() && st == Empty()
    {
      st, history := Empty(), [];
    }

    method Do(e: Event)
      requires Traced() && Enabled(st, e)
      modifies this
      ensures Traced() && st == Step(old(st), e)
    {
      RunSnoc(Empty(), history, e);
      st, history := Step(st, e), history + [e];
    }

    /** One statement of a call under way: the call moves on; only COMMIT touches the tables. */
    method Execute(e: Event)
      requires Traced() && Enabled(st, e) && !e.Submit?
      modifies this
      ensures Traced() && st.nextEntry == old(st).nextEntry + (if e.InsertLeg? then 1 else 0)
      ensures st.tables == if e.Commit? then Publish(old(st).tables, old(st).calls[e.c].req, old(st).calls[e.c].phase.ids) else old(st).tables
      ensures st.calls == old(st).calls[e.c := old(st).calls[e.c].(phase := NextPhase(old(st), e))]
    {
      Do(e);
    }

    /** The legs, one INSERT at a time, each id drawn from the shared sequence. */
    method InsertLegs(c: nat)
      requires Traced() && c in st.calls && st.calls[c].phase == Enveloped([])
      modifies this
      ensures Traced() && st.tables == old(st).tables
      ensures st.calls == old(st).calls[c := old(st).calls[c].(phase := Enveloped(Consecutive(old(st).nextEntry, |old(st).calls[c].req.body.entries|)))]
    {
      var k := st.calls[c];
      for i := 0 to |k.req.body.entries|
        invariant Traced() && st.tables == old(st).tables && st.nextEntry == old(st).nextEntry + i
        invariant st.calls == old(st).calls[c := k.(phase := Enveloped(Consecutive(old(st).nextEntry, i)))]
      {
        assert Consecutive(old(st).nextEntry, i + 1) == Consecutive(old(st).nextEntry, i) + [old(st).nextEntry + i];
        Execute(InsertLeg(c));
      }
    }

    /** Outbox row, stored response, COMMIT. */
    method Finish(c: nat, ids: seq<nat>)
      requires Traced() && c in st.calls && st.calls[c].phase == Enveloped(ids)
      requires |ids| == |st.calls[c].req.body.entries| >= 1 && Known(st.calls[c].req.body.currency)
      modifies this
      ensures Traced() && st.tables == Publish(old(st).tables, old(st).calls[c].req, ids)
      ensures st.calls == old(st).calls[c := old(st).calls[c].(phase := Done(Success(Result(PostingIdFor(old(st).calls[c].req.key), ids), false)))]
    {
      Execute(InsertOutbox(c));
      Execute(Complete(c));
      Execute(Commit(c, true));
    }

    /** replay's bounded reload loop. */
    method ReplayLoop(c: nat)
      requires Traced() && c in st.calls && st.calls[c].phase == Replaying(0) && st.calls[c].req.key in st.tables.claims
      modifies this
      ensures Traced() && st.tables == old(st).tables
      ensures st.calls == old(st).calls[c := old(st).calls[c].(phase := Done(StoredAnswer(old(st).tables.claims[old(st).calls[c].req.key], old(st).calls[c].req.body)))]
    {
      var k := st.calls[c];
      while st.calls[c].phase.Replaying?
        invariant Traced() && st.tables == old(st).tables && c in st.calls
        invariant st.calls == old(st).calls[c := st.calls[c]] && st.calls[c].req == k.req
        invariant st.calls[c].phase.Replaying? ==> st.calls[c].phase.attempt < ATTEMPTS
        invariant st.calls[c].phase.Replaying? || st.calls[c].phase == Done(StoredAnswer(st.tables.claims[k.req.key], k.req.body))
        decreases if st.calls[c].phase.Replaying? then ATTEMPTS - st.calls[c].phase.attempt else -1
      {
        Execute(Reload(c));
      }
    }

    /** BEGIN and the claim INSERT. */
    method Enter(c: nat, r: Request)
      requires Traced() && Quiet(st) && c !in st.calls && Valid(r)
      modifies this
      ensures Traced() && st.tables == old(st).tables && st.nextEntry == old(st).nextEntry
      ensures st.calls == old(st).calls[c := Call(r, if r.key in old(st).tables.claims then Replaying(0) else Claimed)]
      ensures !PostingBusy(st, c, PostingIdFor(r.key))
    {
      Do(Submit(c, r));
      assert !KeyBusy(st, c, r.key);
      Execute(ClaimKey(c));
    }

    /** Everything after the envelope. */
    method WriteLegs(c: nat, r: Request)
      requires Traced() && c in st.calls && st.calls[c] == Call(r, Enveloped([]))
      requires |r.body.entries| >= 1 && Known(r.body.currency)
      modifies this
      ensures var ids := Consecutive(old(st).nextEntry, |r.body.entries|);
              && Traced() && st.tables == Publish(old(st).tables, r, ids)
              && st.calls == old(st).calls[c := Call(r, Done(Success(Result(PostingIdFor(r.key), ids), false)))]
    {
      InsertLegs(c);
      Finish(c, st.calls[c].phase.ids);
    }

    /** The envelope, and everything after it if its id is free. */
    method Write(c: nat, r: Request)
      requires Traced() && c in st.calls && st.calls[c] == Call(r, Claimed) && r.key !in st.tables.claims
      requires |r.body.entries| >= 1 && Known(r.body.currency) && !PostingBusy(st, c, PostingIdFor(r.key))
      modifies this
      ensures Traced() && st.tables == PostAlone(old(st).tables, old(st).nextEntry, r).0
      ensures st.calls == old(st).calls[c := Call(r, Done(PostAlone(old(st).tables, old(st).nextEntry, r).1))]
    {
      Execute(InsertEnvelope(c));
      if st.calls[c].phase.Enveloped? {
        WriteLegs(c, r);
      }
    }

    /** A key already claimed: the stored answer. */
    method RunStored(c: nat, r: Request) returns (out: Outcome)
      requires Traced() && Quiet(st) && c !in st.calls && Valid(r) && r.key in st.tables.claims
      modifies this
      ensures Traced() && st.tables == PostAlone(old(st).tables, old(st).nextEntry, r).0
      ensures out == PostAlone(old(st).tables, old(st).nextEntry, r).1
      ensures st.calls == old(st).calls[c := Call(r, Done(out))]
    {
      Enter(c, r);
      ReplayLoop(c);
      out := st.calls[c].phase.outcome;
    }

    method RunFresh(c: nat, r: Request) returns (out: Outcome)
      requires Traced() && Quiet(st) && c !in st.calls && Valid(r) && r.key !in st.tables.claims
      modifies this
      ensures Traced() && st.tables == PostAlone(old(st).tables, old(st).nextEntry, r).0
      ensures out == PostAlone(old(st).tables, old(st).nextEntry, r).1
      ensures st.calls == old(st).calls[c := Call(r, Done(out))]
    {
      Enter(c, r);
      Write(c, r);
      out := st.calls[c].phase.outcome;
    }

    /** Post on a valid request. */
    method Run(c: nat, r: Request) returns (out: Outcome)
      requires Traced() && Quiet(st) && c !in st.calls && Valid(r)
      modifies this
      ensures Traced() && st.tables == PostAlone(old(st).tables, old(st).nextEntry, r).0
      ensures out == PostAlone(old(st).tables, old(st).nextEntry, r).1
      ensures st.calls == old(st).calls[c := Call(r, Done(out))]
    {
      if r.key in st.tables.claims {
        out := RunStored(c, r);
      } else {
        out := RunFresh(c, r);
      }
    }

    method Post(c: nat, r: Request) returns (v: Verdict, out: Outcome)
      requires Traced() && Quiet(st) && c !in st.calls
      modifies this
      ensures Traced() && Quiet(st)
      ensures v == Accepted <==> Valid(r)
      ensures !Valid(r) ==> st == old(st) && out == Failed
      ensures Valid(r) ==> (st.tables, out) == PostAlone(old(st).tables, old(st).nextEntry, r)
      ensures Valid(r) ==> st.calls == old(st).calls[c := Call(r, Done(out))]
    {
      v := Validate(r);
      out := Failed;
      if v == Accepted {
        out := Run(c, r);
      }
    }
  }
}
