/** internal/ledger/posting over internal/ledger/store: N concurrent Post calls as interleaved SQL statements.

    Each call runs its own transaction.  Its rows become visible only at COMMIT; an
    insert that meets another transaction's uncommitted primary key waits for it. */
module Posting {
  import opened Options
  import opened Books
  import opened Money

  datatype EntryRequest = EntryRequest(account: string, minor: Int64)

  /** The hashed part of a request.  SHA-256 over canonical JSON is taken as injective, so the body stands for its hash. */
  datatype Body = Body(kind: string, currency: string, businessDate: int, valueDate: int, postedAt: int,
                       reverses: Option<string>, entries: seq<EntryRequest>)

  datatype Key = Key(principal: string, idem: string)
  datatype Request = Request(key: Key, body: Body)

  const KINDS: set<string> := {"transfer", "interest", "fee", "reversal"}

  /** PostingIDFor: UUIDv5 of the joined text, taken as injective in that text -- though not in the pair. */
  function PostingIdFor(k: Key): PostingId {
    Keyed(k.principal + "/" + k.idem)
  }

  // ---------------------------------------------------------------- Validate

  datatype Verdict = Accepted | MissingKey | UnknownKind | TooFew | BadAmount | SumFailed | NotBalanced

  function AmountsOf(b: Body): (r: seq<Amount>)
    requires Known(b.currency)
    ensures |r| == |b.entries|
    ensures forall i | 0 <= i < |r| :: r[i] == Amount(b.entries[i].minor, b.currency, ScaleOf(b.currency))
  {
    seq(|b.entries|, i requires 0 <= i < |b.entries| => Amount(b.entries[i].minor, b.currency, ScaleOf(b.currency)))
  }

  ghost predicate AmountsUsable(b: Body) {
    Known(b.currency) && forall i | 0 <= i < |b.entries| :: b.entries[i].minor != MIN64
  }

  /** The true integer sum is zero, and so is the code's: no running total leaves int64. */
  ghost predicate ZeroSum(b: Body) {
    AmountsUsable(b) && PrefixesFit(AmountsOf(b)) && Total(AmountsOf(b)) == 0
  }

  ghost predicate Valid(r: Request) {
    r.key.idem != "" && r.body.kind in KINDS && |r.body.entries| >= 2 && ZeroSum(r.body)
  }

  method Validate(r: Request) returns (v: Verdict)
    ensures v == Accepted <==> Valid(r)
    ensures v == MissingKey <==> r.key.idem == ""
    ensures v == UnknownKind <==> r.key.idem != "" && r.body.kind !in KINDS
    ensures v == TooFew <==> r.key.idem != "" && r.body.kind in KINDS && |r.body.entries| < 2
    ensures v == BadAmount ==> !AmountsUsable(r.body)
    ensures v == SumFailed ==> AmountsUsable(r.body) && !PrefixesFit(AmountsOf(r.body))
    ensures v == NotBalanced ==> AmountsUsable(r.body) && PrefixesFit(AmountsOf(r.body)) && Total(AmountsOf(r.body)) != 0
  {
    if r.key.idem == "" {
      return MissingKey;
    }
    if r.body.kind !in KINDS {
      return UnknownKind;
    }
    var es := r.body.entries;
    if |es| < 2 {
      return TooFew;
    }
    var amounts: seq<Amount> := [];
    for i := 0 to |es|
      invariant |amounts| == i && (i > 0 ==> Known(r.body.currency))
      invariant forall j | 0 <= j < i :: es[j].minor != MIN64 && amounts[j] == Amount(es[j].minor, r.body.currency, ScaleOf(r.body.currency))
    {
      var a := New(es[i].minor, r.body.currency);
      if a.Err? {
        return BadAmount;
      }
      amounts := amounts + [a.value];
    }
    assert amounts == AmountsOf(r.body);
    var sum := Money.Sum(amounts);
    if sum.Err? {
      return SumFailed;
    }
    return if sum.value.minor == 0 then Accepted else NotBalanced;
  }

  // ---------------------------------------------------------------- tables and transactions

  /** What a caller gets back and what the claim row stores. */
  datatype Result = Result(posting: PostingId, entryIds: seq<nat>)

  /** `response` is '{}' until CompleteIdempotency has run in the same transaction. */
  datatype Claim = Claim(body: Body, response: Option<Result>)
  datatype Row = Row(id: nat, entry: Entry)
  datatype OutboxRow = OutboxRow(posting: PostingId, partitionKey: string, payload: (Body, seq<nat>))
  datatype Tables = Tables(claims: map<Key, Claim>, postings: map<PostingId, Request>, rows: seq<Row>, outbox: seq<OutboxRow>)

  datatype Outcome = Success(result: Result, replayed: bool) | BodyMismatch | Failed

  /** Where one Post call stands; everything from Claimed to Completed is inside its open transaction. */
  datatype Phase =
    | Ready
    | Claimed
    | Enveloped(ids: seq<nat>)
    | Outboxed(ids: seq<nat>)
    | Completed(ids: seq<nat>)
    | Replaying(attempt: nat)
    | Done(outcome: Outcome)

  datatype Call = Call(req: Request, phase: Phase)
  datatype State = State(tables: Tables, calls: map<nat, Call>, nextEntry: nat)

  const ATTEMPTS: nat := 50

  predicate HoldsKey(p: Phase) {
    p.Claimed? || HoldsPosting(p)
  }

  predicate HoldsPosting(p: Phase) {
    p.Enveloped? || p.Outboxed? || p.Completed?
  }

  datatype Event =
    | Submit(c: nat, req: Request)
    | ClaimKey(c: nat)
    | InsertEnvelope(c: nat)
    | InsertLeg(c: nat)
    | InsertOutbox(c: nat)
    | Complete(c: nat)
    | Commit(c: nat, acked: bool)   // the commit may land although the caller sees an error
    | Rollback(c: nat)              // any error, cancellation or crash inside the transaction
    | Reload(c: nat)

  ghost predicate KeyBusy(s: State, c: nat, k: Key) {
    exists d :: d in s.calls && d != c && s.calls[d].req.key == k && HoldsKey(s.calls[d].phase)
  }

  ghost predicate PostingBusy(s: State, c: nat, p: PostingId) {
    exists d :: d in s.calls && d != c && PostingIdFor(s.calls[d].req.key) == p && HoldsPosting(s.calls[d].phase)
  }

  ghost predicate Enabled(s: State, e: Event) {
    match e
    case Submit(c, r) => c !in s.calls && Valid(r)
    case _ =>
      e.c in s.calls &&
      var k := s.calls[e.c];
      match e
      case ClaimKey(c) => k.phase.Ready? && (k.req.key !in s.tables.claims ==> !KeyBusy(s, c, k.req.key))
      case InsertEnvelope(c) => k.phase.Claimed? && (PostingIdFor(k.req.key) !in s.tables.postings ==> !PostingBusy(s, c, PostingIdFor(k.req.key)))
      case InsertLeg(c) => k.phase.Enveloped? && |k.phase.ids| < |k.req.body.entries|
      case InsertOutbox(c) => k.phase.Enveloped? && |k.phase.ids| == |k.req.body.entries| >= 1
      case Complete(c) => k.phase.Outboxed?
      case Commit(c, _) => k.phase.Completed? && |k.phase.ids| == |k.req.body.entries| && |k.phase.ids| >= 1 && Known(k.req.body.currency)
      case Rollback(c) => k.phase.Ready? || HoldsKey(k.phase) || k.phase.Replaying?
      case Reload(c) => k.phase.Replaying?
      case Submit(_, _) => false
  }

  function Move(s: State, c: nat, p: Phase): State
    requires c in s.calls
  {
    s.(calls := s.calls[c := s.calls[c].(phase := p)])
  }

  function Legs(r: Request, ids: seq<nat>): (rows: seq<Row>)
    requires |ids| == |r.body.entries| && Known(r.body.currency)
    ensures |rows| == |ids|
    ensures forall i | 0 <= i < |ids| :: rows[i] == Row(ids[i], Entry(PostingIdFor(r.key), r.body.entries[i].account, AmountsOf(r.body)[i]))
  {
    seq(|ids|, i requires 0 <= i < |ids| => Row(ids[i], Entry(PostingIdFor(r.key), r.body.entries[i].account, AmountsOf(r.body)[i])))
  }

  /** Everything one transaction makes visible at COMMIT. */
  function Publish(t: Tables, r: Request, ids: seq<nat>): Tables
    requires |ids| == |r.body.entries| >= 1 && Known(r.body.currency)
  {
    var pid := PostingIdFor(r.key);
    Tables(t.claims[r.key := Claim(r.body, Some(Result(pid, ids)))],
           t.postings[pid := r],
           t.rows + Legs(r, ids),
           t.outbox + [OutboxRow(pid, r.body.entries[0].account, (r.body, ids))])
  }

  /** replay: one look at the stored claim. */
  function Replay(t: Tables, r: Request, attempt: nat): Phase {
    if r.key !in t.claims then Done(Failed)
    else if t.claims[r.key].body != r.body then Done(BodyMismatch)
    else if t.claims[r.key].response.Some? then Done(Success(t.claims[r.key].response.value, true))
    else if attempt + 1 < ATTEMPTS then Replaying(attempt + 1)
    else Done(Failed)
  }

  /** The phase a call moves to when its statement executes. */
  function NextPhase(s: State, e: Event): Phase
    requires Enabled(s, e) && !e.Submit?
  {
    var k := s.calls[e.c];
    match e
    case ClaimKey(_) => if k.req.key in s.tables.claims then Replaying(0) else Claimed
    case InsertEnvelope(_) => if PostingIdFor(k.req.key) in s.tables.postings then Done(Failed) else Enveloped([])
    case InsertLeg(_) => Enveloped(k.phase.ids + [s.nextEntry])
    case InsertOutbox(_) => Outboxed(k.phase.ids)
    case Complete(_) => Completed(k.phase.ids)
    case Commit(_, acked) => if acked then Done(Success(Result(PostingIdFor(k.req.key), k.phase.ids), false)) else Done(Failed)
    case Rollback(_) => Done(Failed)
    case Reload(_) => Replay(s.tables, k.req, k.phase.attempt)
  }

  function Step(s: State, e: Event): State
    requires Enabled(s, e)
  {
    if e.Submit? then s.(calls := s.calls[e.c := Call(e.req, Ready)])
    else
      var s1 := Move(s, e.c, NextPhase(s, e));
      if e.InsertLeg? then s1.(nextEntry := s.nextEntry + 1)
      else if e.Commit? then s1.(tables := Publish(s.tables, s.calls[e.c].req, s.calls[e.c].phase.ids))
      else s1
  }

  ghost predicate ValidRun(s: State, es: seq<Event>)
    decreases |es|
  {
    es == [] || (Enabled(s, es[0]) && ValidRun(Step(s, es[0]), es[1..]))
  }

  ghost function Exec(s: State, es: seq<Event>): State
    requires ValidRun(s, es)
    decreases |es|
  {
    if es == [] then s else Exec(Step(s, es[0]), es[1..])
  }

  function Empty(): State {
    State(Tables(map[], map[], [], []), map[], 1)
  }
}
