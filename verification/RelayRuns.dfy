/** Two runs in which a younger row is relayed before an elder one of its partition. */
module RelayRuns {
  import opened Relay
  import opened RelayGuarantees

  ghost predicate Reaches(w: World, es: seq<Event>, w': World) {
    ValidRun(w, es) && Exec(w, es) == w'
  }

  lemma {:induction false} ThenRun(w: World, e: Event, w1: World, es: seq<Event>, w2: World)
    requires Enabled(w, e) && Step(w, e) == w1 && Reaches(w1, es, w2)
    ensures Reaches(w, [e] + es, w2)
  {
    assert ([e] + es)[1..] == es;
  }

  /** Claimed, taken by the one partition, marked. */
  function Relayed(es: seq<Event>): seq<Event> {
    [Claim(500)] + ([Land(0)] + ([Mark] + es))
  }

  lemma {:induction false} ClaimsOne(w: World, r: Row)
    requires w.flight.Resting? && |w.logs| == 1 && Unsent(w.outbox) == [r] && r.part == 0
    ensures Step(w, Claim(500)) == w.(flight := Flying([r], [[r.id]]))
  {
    assert [r][..0] == [];
    assert To([r], 0) == [r.id];
    assert Shares([r], 1) == [[r.id]];
  }

  lemma {:induction false} LandsAndMarks(w: World, r: Row, es: seq<Event>, w': World)
    requires w.flight == Flying([r], [[r.id]]) && |w.logs| == 1
    requires Reaches(World(MarkSent(w.outbox, {r.id}), [w.logs[0] + [r.id]], Resting), es, w')
    ensures Reaches(w, [Land(0)] + ([Mark] + es), w')
  {
    var w1 := World(w.outbox, [w.logs[0] + [r.id]], Flying([r], [[]]));
    assert IdsOf([r]) == {r.id} by {
      assert [r][0] == r;
    }
    ThenRun(w1, Mark, World(MarkSent(w.outbox, {r.id}), [w.logs[0] + [r.id]], Resting), es, w');
    assert w.flight.left[0][1..] == [];
    assert w.flight.left[0 := w.flight.left[0][1..]] == [[]];
    assert w.logs[0 := w.logs[0] + [r.id]] == [w.logs[0] + [r.id]];
    ThenRun(w, Land(0), w1, [Mark] + es, w');
  }

  lemma {:induction false} Relays(w: World, r: Row, es: seq<Event>, w': World)
    requires w.flight.Resting? && |w.logs| == 1 && Unsent(w.outbox) == [r] && r.part == 0
    requires Reaches(World(MarkSent(w.outbox, {r.id}), [w.logs[0] + [r.id]], Resting), es, w')
    ensures Reaches(w, Relayed(es), w')
  {
    ClaimsOne(w, r);
    var w1 := w.(flight := Flying([r], [[r.id]]));
    LandsAndMarks(w1, r, es, w');
    ThenRun(w, Claim(500), w1, [Land(0)] + ([Mark] + es), w');
  }

  /** Two unsent rows of the one partition, the first one's id drawn first. */
  ghost predicate Pair(e: Row, y: Row) {
    e.id < y.id && e.part == y.part == 0 && !e.sent && !y.sent
  }

  function Sent(r: Row): Row {
    r.(sent := true)
  }

  /** Both rows sent, the younger one first. */
  function Disordered(e: Row, y: Row): World {
    World([Sent(e), Sent(y)], [[y.id, e.id]], Resting)
  }

  lemma {:induction false} FirstsOfTwo(x: nat, y: nat)
    requires x != y
    ensures Firsts([x, y]) == [x, y]
  {
    assert [x, y][..1] == [x] && [x][..0] == [];
    assert Firsts([x]) == [x];
  }

  lemma {:induction false} ToOfTwo(a: Row, b: Row)
    requires a.part == b.part == 0
    ensures To([a, b], 0) == [a.id, b.id]
  {
    assert [a, b][..1] == [a] && [a][..0] == [];
    assert To([a], 0) == [a.id];
  }

  lemma {:induction false} DisorderedIs(e: Row, y: Row)
    requires Pair(e, y)
    ensures !InOutboxOrder(Disordered(e, y))
  {
    var w := Disordered(e, y);
    FirstsOfTwo(y.id, e.id);
    ToOfTwo(Sent(e), Sent(y));
    assert Firsts(w.logs[0])[0] != To(w.outbox, 0)[0];
  }

  lemma {:induction false} PlacedAlone(r: Row)
    requires !r.sent
    ensures Place([], r) == [r] && Unsent([r]) == [r]
  {
    assert [r][..0] == [];
  }

  lemma {:induction false} PlacedBefore(e: Row, y: Row)
    requires e.id < y.id
    ensures Place([y], e) == [e, y]
  {
    assert [y][..0] == [];
    assert Place([], e) == [e];
  }

  /** The elder row, placed before the sent younger one, is relayed after it. */
  lemma {:induction false} ElderFollows(e: Row, y: Row)
    requires Pair(e, y)
    ensures Reaches(World([e, Sent(y)], [[y.id]], Resting), Relayed([]), Disordered(e, y))
  {
    var w := World([e, Sent(y)], [[y.id]], Resting);
    PlacedAlone(e);
    assert w.outbox[..1] == [e];
    assert Unsent(w.outbox) == Unsent([e]) + [];
    assert MarkSent(w.outbox, {e.id}) == [Sent(e), Sent(y)];
    assert [y.id] + [e.id] == [y.id, e.id];
    Relays(w, e, [], Disordered(e, y));
  }

  /** The elder row commits after the younger one was relayed. */
  lemma {:induction false} LateVisibilityBreaksOrder(w: World, e: Row, y: Row)
    requires w == World([], [[]], Resting) && Pair(e, y)
    ensures Reaches(w, [Post(y)] + Relayed([Post(e)] + Relayed([])), Disordered(e, y))
    ensures !InOutboxOrder(Disordered(e, y))
  {
    DisorderedIs(e, y);
    PlacedAlone(y);
    PlacedBefore(e, Sent(y));
    ElderFollows(e, y);
    var w1, w2 := World([y], [[]], Resting), World([Sent(y)], [[y.id]], Resting);
    ThenRun(w2, Post(e), World([e, Sent(y)], [[y.id]], Resting), Relayed([]), Disordered(e, y));
    assert MarkSent(w1.outbox, {y.id}) == w2.outbox && [] + [y.id] == [y.id];
    Relays(w1, y, [Post(e)] + Relayed([]), Disordered(e, y));
    ThenRun(w, Post(y), w1, Relayed([Post(e)] + Relayed([])), Disordered(e, y));
  }

  /** The elder row commits between the claim of the younger one and its produce, when nothing has been logged at all. */
  lemma {:induction false} CommitDuringClaimBreaksOrder(w: World, e: Row, y: Row)
    requires w == World([], [[]], Resting) && Pair(e, y)
    ensures Reaches(w, [Post(y)] + ([Claim(500)] + ([Post(e)] + ([Land(0)] + ([Mark] + Relayed([]))))), Disordered(e, y))
    ensures !InOutboxOrder(Disordered(e, y))
  {
    DisorderedIs(e, y);
    PlacedAlone(y);
    PlacedBefore(e, y);
    ElderFollows(e, y);
    var f := Flying([y], [[y.id]]);
    var w1, w2, w3 := World([y], [[]], Resting), World([y], [[]], f), World([e, y], [[]], f);
    assert MarkSent(w3.outbox, {y.id}) == [e, Sent(y)] && [] + [y.id] == [y.id];
    LandsAndMarks(w3, y, Relayed([]), Disordered(e, y));
    ThenRun(w2, Post(e), w3, [Land(0)] + ([Mark] + Relayed([])), Disordered(e, y));
    ClaimsOne(w1, y);
    ThenRun(w1, Claim(500), w2, [Post(e)] + ([Land(0)] + ([Mark] + Relayed([]))), Disordered(e, y));
    ThenRun(w, Post(y), w1, [Claim(500)] + ([Post(e)] + ([Land(0)] + ([Mark] + Relayed([])))), Disordered(e, y));
  }
}
