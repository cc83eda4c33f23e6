/** The entries table shared by both ingress paths, and the drift query over it. */
module Books {
  import opened Money

  /** The consumer derives ids from message ids (modes C, D) or mints them (A, B);
      the posting service derives them from the text principal + "/" + key. */
  datatype PostingId = Derived(msg: string) | Minted(n: nat) | Keyed(text: string)

  datatype Entry = Entry(posting: PostingId, account: string, amount: Amount)

  /** GlobalInvariant's sum(amount_minor) for one currency; SQL sums are unbounded. */
  function Drift(es: seq<Entry>, c: string): int {
    if es == [] then 0
    else Drift(es[..|es| - 1], c) + (if es[|es| - 1].amount.currency == c then es[|es| - 1].amount.minor else 0)
  }

  ghost predicate Balanced(es: seq<Entry>) {
    forall c :: Drift(es, c) == 0
  }

  lemma {:induction false} DriftConcat(a: seq<Entry>, b: seq<Entry>, c: string)
    ensures Drift(a + b, c) == Drift(a, c) + Drift(b, c)
    decreases |b|
  {
    if b == [] {
      assert a + b == a;
    } else {
      assert (a + b)[..|a + b| - 1] == a + b[..|b| - 1];
      DriftConcat(a, b[..|b| - 1], c);
    }
  }

  lemma {:induction false} BalancedConcat(a: seq<Entry>, b: seq<Entry>)
    requires Balanced(a) && Balanced(b)
    ensures Balanced(a + b)
  {
    forall c ensures Drift(a + b, c) == 0 {
      DriftConcat(a, b, c);
    }
  }

  /** One amount booked against suspense nets to nothing, in its own currency and every other. */
  lemma {:induction false} PairBalanced(x: Entry, y: Entry)
    requires Built(x.amount) && y.amount == Neg(x.amount)
    ensures Balanced([x, y])
  {
    NegIsExact(x.amount);
    forall c ensures Drift([x, y], c) == 0 {
      assert [x, y][..1] == [x] && [x][..0] == [];
      assert Drift([x], c) == if x.amount.currency == c then x.amount.minor else 0;
    }
  }
}
