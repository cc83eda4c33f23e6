/** What the labels of one-sided breaks say: whose record is missing, or where the same money is. */
module GrainLabels {
  import opened Options
  import opened Dates
  import opened Text
  import opened Sorting
  import opened Classify
  import DayCount
  import opened Ingest
  import opened Grains
  import opened GrainGuarantees

  // ---------------------------------------------------------------- the same money elsewhere

  function Apart(a: Movement, b: Movement): nat {
    DayCount.Abs(a.businessDate - b.businessDate)
  }

  /** The same account, currency and amount on another date, at most two days away. */
  predicate Elsewhere(m: Movement, w: Movement) {
    && w.accountId == m.accountId && w.currency == m.currency && w.amount == m.amount
    && (w.businessDate - m.businessDate == -2 || w.businessDate - m.businessDate == -1
        || w.businessDate - m.businessDate == 1 || w.businessDate - m.businessDate == 2)
  }

  /** No such money in the window is nearer, nor as near with a lesser id. */
  ghost predicate Nearest(m: Movement, ws: seq<Movement>, w: Movement) {
    && w in ws && Elsewhere(m, w)
    && forall v | v in ws && Elsewhere(m, v) :: Apart(m, w) < Apart(m, v) || (Apart(m, w) == Apart(m, v) && StrLe(w.txnId, v.txnId))
  }

  lemma {:induction false} CandidatesAre(m: Movement, ws: seq<Movement>, w: Movement)
    ensures w in Candidates(m, ws) <==> w in ws && Elsewhere(m, w)
    decreases |ws|
  {
    if ws != [] {
      Snoc(ws);
      CandidatesAre(m, ws[..|ws| - 1], w);
    }
  }

  lemma {:induction false} NearerIsTotal(m: Movement)
    ensures Total(Nearer(m))
  {
    var le := Nearer(m);
    forall a, b ensures le(a, b) || le(b, a) {
      StrLeTotal(a.txnId, b.txnId);
    }
    forall a, b, c | le(a, b) && le(b, c) ensures le(a, c) {
      if StrLe(a.txnId, b.txnId) && StrLe(b.txnId, c.txnId) {
        StrLeTransitive(a.txnId, b.txnId, c.txnId);
      }
    }
  }

  /** The match is the nearest such money; there is none exactly when the window has no such money. */
  lemma {:induction false} MatchIsNearest(m: Movement, ws: seq<Movement>)
    ensures var found := FindTimingMatch(m, ws);
            if found.Some? then Nearest(m, ws, found.value) else forall w | w in ws :: !Elsewhere(m, w)
  {
    var le, cs := Nearer(m), Candidates(m, ws);
    var found := Sort(cs, le);
    NearerIsTotal(m);
    SortSorts(cs, le);
    SortPermutes(cs, le);
    forall w ensures w in cs <==> w in ws && Elsewhere(m, w) {
      CandidatesAre(m, ws, w);
    }
    if found != [] {
      SameElements(found, cs, found[0]);
      forall v | v in ws && Elsewhere(m, v) ensures le(found[0], v) {
        SameElements(cs, found, v);
        var i :| 0 <= i < |found| && found[i] == v;
        assert le(v, v);
      }
    } else {
      assert |cs| == 0;
    }
  }

  // ---------------------------------------------------------------- one-sided breaks

  function Opposite(side: Side): Side {
    if side == OnLegacy then OnShadow else OnLegacy
  }

  /** A break on a record that only `side` has: only its amount is present, and the delta is legacy less shadow. */
  function Alone(m: Movement, side: Side, c: Classification, sig: Label): Break {
    if side == OnLegacy
    then Break(Transaction, m.businessDate, m.currency, Some(m.accountId), Some(m.txnId), Some(m.amount), None, m.amount, c, sig)
    else Break(Transaction, m.businessDate, m.currency, Some(m.accountId), Some(m.txnId), None, Some(m.amount), 0 - m.amount, c, sig)
  }

  /** An id the other window does not hold, given the match found there. */
  lemma {:induction false} OneSidedByMatch(m: Movement, side: Side, other: seq<Movement>, found: Option<Movement>)
    requires FindFirst(other, m.txnId) == None && found == FindTimingMatch(m, other)
    ensures OneSidedBreak(m, side, other) == if found.None? then Alone(m, side, Defect, MissingOn(Opposite(side)))
                                             else Alone(m, side, Timing, TimingDays(found.value.businessDate - m.businessDate))
  {
  }

  lemma {:induction false} NotFound(ms: seq<Movement>, id: string)
    requires forall w | w in ms :: w.txnId != id
    ensures FindFirst(ms, id) == None
  {
  }

  /** Missing there when the window has no such money nearby, and otherwise timing, by the signed offset to the nearest. */
  ghost predicate AloneIs(b: Break, m: Movement, side: Side, window: seq<Movement>) {
    if forall w | w in window :: !Elsewhere(m, w) then b == Alone(m, side, Defect, MissingOn(Opposite(side)))
    else exists w :: Nearest(m, window, w) && b == Alone(m, side, Timing, TimingDays(w.businessDate - m.businessDate))
  }

  lemma {:induction false} AloneByMatch(m: Movement, side: Side, window: seq<Movement>, found: Option<Movement>, b: Break)
    requires if found.Some? then Nearest(m, window, found.value) else forall w | w in window :: !Elsewhere(m, w)
    requires b == if found.None? then Alone(m, side, Defect, MissingOn(Opposite(side)))
                  else Alone(m, side, Timing, TimingDays(found.value.businessDate - m.businessDate))
    ensures AloneIs(b, m, side, window)
  {
  }

  /** An id the other window does not hold. */
  lemma {:induction false} OneSidedWithoutId(m: Movement, side: Side, other: seq<Movement>)
    requires forall w | w in other :: w.txnId != m.txnId
    ensures AloneIs(OneSidedBreak(m, side, other), m, side, other)
  {
    var found := FindTimingMatch(m, other);
    NotFound(other, m.txnId);
    MatchIsNearest(m, other);
    OneSidedByMatch(m, side, other, found);
    AloneByMatch(m, side, other, found, OneSidedBreak(m, side, other));
  }

  lemma {:induction false} InGathered<K>(ks: seq<K>, f: K -> Option<Break>, b: Break)
    ensures b in Gather(ks, f) <==> exists k :: k in ks && f(k) == Some(b)
    decreases |ks|
  {
    if ks != [] {
      Snoc(ks);
      InGathered(ks[..|ks| - 1], f, b);
    }
  }

  lemma {:induction false} ComesFrom(l: seq<Movement>, s: seq<Movement>, lw: seq<Movement>, sw: seq<Movement>, fees: set<nat>, b: Break) returns (id: string)
    requires b in TransactionBreaks(l, s, lw, sw, fees)
    ensures TxnBreakAt(l, s, lw, sw, fees)(id) == Some(b)
  {
    var ks, f := SortedKeys(l, s, TxnId(), StrLe), TxnBreakAt(l, s, lw, sw, fees);
    InGathered(ks, f, b);
    id :| id in ks && f(id) == Some(b);
  }

  /** What the side of a day that has the record shows, the other side's window at hand. */
  ghost predicate MissingFrom(day: seq<Movement>, lacks: seq<Movement>, window: seq<Movement>, side: Side, b: Break) {
    exists m ::
      && m in day && (forall x | x in lacks :: x.txnId != m.txnId) && (forall w | w in window :: w.txnId != m.txnId && !Elsewhere(m, w))
      && b == Alone(m, side, Defect, MissingOn(Opposite(side)))
  }

  lemma {:induction false} OneSidedIsMissing(m: Movement, side: Side, other: seq<Movement>, b: Break)
    requires b == OneSidedBreak(m, side, other)
    ensures b.signature.MissingOn? ==>
              (forall w | w in other :: w.txnId != m.txnId && !Elsewhere(m, w)) && b == Alone(m, side, Defect, MissingOn(Opposite(side)))
  {
    if forall w | w in other :: w.txnId != m.txnId {
      OneSidedWithoutId(m, side, other);
    }
  }

  lemma {:induction false} MissingIsOneSided(left: Option<Movement>, right: Option<Movement>, lw: seq<Movement>, sw: seq<Movement>, fees: set<nat>, b: Break)
    requires TxnBreak(left, right, lw, sw, fees) == Some(b) && b.signature.MissingOn?
    ensures (left.Some? && right.None? && b == OneSidedBreak(left.value, OnLegacy, sw)) ||
            (left.None? && right.Some? && b == OneSidedBreak(right.value, OnShadow, lw))
  {
  }

  lemma {:induction false} FoundFacts(ms: seq<Movement>, id: string, found: Option<Movement>)
    requires found == Find(ms, id)
    ensures found.Some? ==> found.value in ms && found.value.txnId == id
    ensures found.None? ==> forall m | m in ms :: m.txnId != id
  {
  }

  /** Every break that says a record is missing on a side: the other side of the day has it and states it alone; the side's
      day and window hold no movement of its id, and its window no such money on a date nearby. */
  lemma {:induction false} MissingMeansMissing(l: seq<Movement>, s: seq<Movement>, lw: seq<Movement>, sw: seq<Movement>, fees: set<nat>, b: Break)
    requires b in TransactionBreaks(l, s, lw, sw, fees) && b.signature.MissingOn?
    ensures if b.signature.side == OnShadow then MissingFrom(l, s, sw, OnLegacy, b) else MissingFrom(s, l, lw, OnShadow, b)
  {
    var id := ComesFrom(l, s, lw, sw, fees, b);
    MissingAt(l, s, lw, sw, fees, b, id, Find(l, id), Find(s, id));
  }

  lemma {:induction false} MissingAt(l: seq<Movement>, s: seq<Movement>, lw: seq<Movement>, sw: seq<Movement>, fees: set<nat>, b: Break,
                                     id: string, left: Option<Movement>, right: Option<Movement>)
    requires left == Find(l, id) && right == Find(s, id) && TxnBreak(left, right, lw, sw, fees) == Some(b) && b.signature.MissingOn?
    ensures if b.signature.side == OnShadow then MissingFrom(l, s, sw, OnLegacy, b) else MissingFrom(s, l, lw, OnShadow, b)
  {
    FoundFacts(l, id, left);
    FoundFacts(s, id, right);
    MissingIsOneSided(left, right, lw, sw, fees, b);
    if left.Some? {
      OneSidedIsMissing(left.value, OnLegacy, sw, b);
    } else {
      OneSidedIsMissing(right.value, OnShadow, lw, b);
    }
  }

  /** The day's breaks about an id are exactly this one, or none. */
  ghost predicate Shows(l: seq<Movement>, s: seq<Movement>, lw: seq<Movement>, sw: seq<Movement>, fees: set<nat>, id: string, b: Option<Break>) {
    About(TransactionBreaks(l, s, lw, sw, fees), id) == if b.Some? then [b.value] else []
  }

  lemma {:induction false} OneBreakAt(l: seq<Movement>, s: seq<Movement>, lw: seq<Movement>, sw: seq<Movement>, fees: set<nat>, id: string,
                                      left: Option<Movement>, right: Option<Movement>, b: Option<Break>)
    requires left == Find(l, id) && right == Find(s, id) && b == TxnBreak(left, right, lw, sw, fees)
    ensures Shows(l, s, lw, sw, fees, id, b)
  {
    var ks, f := SortedKeys(l, s, TxnId(), StrLe), TxnBreakAt(l, s, lw, sw, fees);
    KeysCover(l, s, TxnId(), StrLe);
    BreaksNameKeys(l, s, lw, sw, fees, ks);
    AboutGathered(ks, f, id);
    KeyIfBreak(l, s, lw, sw, fees, id, left, right);
  }

  lemma {:induction false} KeyIfBreak(l: seq<Movement>, s: seq<Movement>, lw: seq<Movement>, sw: seq<Movement>, fees: set<nat>, id: string,
                                      left: Option<Movement>, right: Option<Movement>)
    requires left == Find(l, id) && right == Find(s, id)
    ensures TxnBreak(left, right, lw, sw, fees).Some? ==> id in SortedKeys(l, s, TxnId(), StrLe)
  {
    FoundFacts(l, id, left);
    FoundFacts(s, id, right);
    IdsCover(l, s);
    BreakNamesId(left, right, lw, sw, fees, id);
  }

  lemma {:induction false} BreaksNameKeys(l: seq<Movement>, s: seq<Movement>, lw: seq<Movement>, sw: seq<Movement>, fees: set<nat>, ks: seq<string>)
    ensures var f := TxnBreakAt(l, s, lw, sw, fees); forall k | k in ks && f(k).Some? :: f(k).value.txnId == Some(k)
  {
    var f := TxnBreakAt(l, s, lw, sw, fees);
    forall k | k in ks && f(k).Some? ensures f(k).value.txnId == Some(k) {
      BreakNamesId(Find(l, k), Find(s, k), lw, sw, fees, k);
    }
  }

  /** Conversely, a movement whose id the other side's day and window lack gives exactly one break. */
  lemma {:induction false} LegacyAlone(l: seq<Movement>, s: seq<Movement>, lw: seq<Movement>, sw: seq<Movement>, fees: set<nat>, m: Movement) returns (b: Break)
    requires Find(l, m.txnId) == Some(m) && forall x | x in s || x in sw :: x.txnId != m.txnId
    ensures Shows(l, s, lw, sw, fees, m.txnId, Some(b)) && AloneIs(b, m, OnLegacy, sw)
  {
    FoundFacts(s, m.txnId, Find(s, m.txnId));
    b := OneSidedBreak(m, OnLegacy, sw);
    OneSidedWithoutId(m, OnLegacy, sw);
    OneBreakAt(l, s, lw, sw, fees, m.txnId, Some(m), None, Some(b));
  }

  lemma {:induction false} ShadowAlone(l: seq<Movement>, s: seq<Movement>, lw: seq<Movement>, sw: seq<Movement>, fees: set<nat>, m: Movement) returns (b: Break)
    requires Find(s, m.txnId) == Some(m) && forall x | x in l || x in lw :: x.txnId != m.txnId
    ensures Shows(l, s, lw, sw, fees, m.txnId, Some(b)) && AloneIs(b, m, OnShadow, lw)
  {
    FoundFacts(l, m.txnId, Find(l, m.txnId));
    b := OneSidedBreak(m, OnShadow, lw);
    OneSidedWithoutId(m, OnShadow, lw);
    OneBreakAt(l, s, lw, sw, fees, m.txnId, None, Some(m), Some(b));
  }

  /** What two records of one id and date say: nothing when the amounts agree, else both amounts and their difference. */
  ghost predicate MatchedIs(b: Option<Break>, x: Movement, y: Movement, fees: set<nat>) {
    if x.amount == y.amount then b == None else
      var (c, rule) := ClassifyMatched(x.amount, y.amount, fees);
      b == Some(Break(Transaction, x.businessDate, x.currency, Some(x.accountId), Some(x.txnId), Some(x.amount), Some(y.amount),
                      x.amount - y.amount, c, Matched(rule)))
  }

  lemma {:induction false} BothMatched(x: Movement, y: Movement, lw: seq<Movement>, sw: seq<Movement>, fees: set<nat>, b: Option<Break>)
    requires x.businessDate == y.businessDate && b == TxnBreak(Some(x), Some(y), lw, sw, fees)
    ensures MatchedIs(b, x, y, fees)
  {
  }

  /** An id on both sides of the day: silent exactly when the amounts agree, else one break with both and their difference. */
  lemma {:induction false} BothPresent(l: seq<Movement>, s: seq<Movement>, lw: seq<Movement>, sw: seq<Movement>, fees: set<nat>, x: Movement, y: Movement)
    returns (b: Option<Break>)
    requires Find(l, x.txnId) == Some(x) && Find(s, x.txnId) == Some(y) && x.businessDate == y.businessDate
    ensures Shows(l, s, lw, sw, fees, x.txnId, b) && MatchedIs(b, x, y, fees)
  {
    b := TxnBreak(Some(x), Some(y), lw, sw, fees);
    BothMatched(x, y, lw, sw, fees, b);
    OneBreakAt(l, s, lw, sw, fees, x.txnId, Some(x), Some(y), b);
  }

  // ---------------------------------------------------------------- account-days and control totals

  /** A movement of an account, dated d, of exactly the size of a difference. */
  ghost predicate WholeMovementOf(ms: seq<Movement>, d: Day, account: string, delta: int) {
    exists m :: m in ms && m.businessDate == d && m.accountId == account && (m.amount == delta || m.amount == 0 - delta)
  }

  lemma {:induction false} WholeIs(shadow: seq<Movement>, d: Day, account: string, delta: int)
    ensures ExplainedWhole(delta, OnDate(shadow, d), account) <==> delta != 0 && WholeMovementOf(shadow, d, account, delta)
  {
    var ms := OnDate(shadow, d);
    if m :| m in shadow && m.businessDate == d && m.accountId == account && (m.amount == delta || m.amount == 0 - delta) {
      assert m in ms;
      var i :| 0 <= i < |ms| && ms[i] == m;
    }
    if ExplainedWhole(delta, ms, account) {
      var i :| 0 <= i < |ms| && ms[i].accountId == account && DayCount.Abs(ms[i].amount) == DayCount.Abs(delta);
      assert ms[i] in ms;
    }
  }

  /** What an account-day break says: both nets and their difference; nothing on the side whose net is zero, as timing; and
      otherwise the label of the two nets, a whole movement of the shadow's day going before what is unexplained. */
  ghost predicate AccountDaySays(b: Break, d: Day, account: string, currency: string, lv: int, rv: int, shadow: seq<Movement>, fees: set<nat>) {
    && lv != rv && b.date == d && b.currency == currency && b.account == Some(account) && b.txnId == None && b.grain == AccountDay
    && b.legacy == Some(lv) && b.shadow == Some(rv) && b.delta == lv - rv
    && (if rv == 0 then (b.classification, b.signature) == (Timing, NothingOn(OnShadow))
        else if lv == 0 then (b.classification, b.signature) == (Timing, NothingOn(OnLegacy))
        else
          var (c, rule) := ClassifyMatched(lv, rv, fees);
          (b.classification, b.signature) == if c == Defect && WholeMovementOf(shadow, d, account, lv - rv) then (ModelDifference, WholeMovement) else (c, Matched(rule)))
  }

  /** Every account-day break speaks of an account-currency with movements that day, and says this of its two nets. */
  lemma {:induction false} AccountDayBreaksSay(legacy: seq<Movement>, shadow: seq<Movement>, d: Day, fees: set<nat>, b: Break)
    requires b in AccountDayBreaks(legacy, shadow, d, fees)
    ensures exists k: AccountKey :: AccountDaySays(b, d, k.0, k.1, Net(legacy, OfAccount(d, k)), Net(shadow, OfAccount(d, k)), shadow, fees)
  {
    var ks := SortedKeys(OnDate(legacy, d), OnDate(shadow, d), AccountOf(), AccountKeyLe);
    InGathered(ks, AccountDayBreakAt(legacy, shadow, d, fees), b);
    var k :| k in ks && AccountDayBreakAt(legacy, shadow, d, fees)(k) == Some(b);
    AccountDayIs(d, k, Net(legacy, OfAccount(d, k)), Net(shadow, OfAccount(d, k)), shadow, fees);
  }

  lemma {:induction false} AccountDayIs(d: Day, k: AccountKey, lv: int, rv: int, shadow: seq<Movement>, fees: set<nat>)
    ensures var b := AccountDayBreak(d, k, lv, rv, shadow, fees);
            (b == None <==> lv == rv) && (b.Some? ==> AccountDaySays(b.value, d, k.0, k.1, lv, rv, shadow, fees))
  {
    WholeIs(shadow, d, k.0, lv - rv);
    LabelsAre(lv, rv, fees);
  }

  /** A control-total break: a currency's two nets, their difference and the label of the nets, fees aside. */
  lemma {:induction false} ControlTotalBreaksSay(legacy: seq<Movement>, shadow: seq<Movement>, d: Day, b: Break)
    requires b in ControlTotalBreaks(legacy, shadow, d)
    ensures exists c: string ::
              var lv, rv := Net(legacy, OfCurrency(d, c)), Net(shadow, OfCurrency(d, c));
              && lv != rv && b.date == d && b.currency == c && b.account == None && b.txnId == None && b.grain == ControlTotal
              && b.legacy == Some(lv) && b.shadow == Some(rv) && b.delta == lv - rv
              && (b.classification, b.signature) == (ClassifyMatched(lv, rv, {}).0, Matched(ClassifyMatched(lv, rv, {}).1))
  {
    var ks := SortedKeys(OnDate(legacy, d), OnDate(shadow, d), CurrencyOf(), StrLe);
    InGathered(ks, ControlTotalBreakAt(legacy, shadow, d), b);
    var c :| c in ks && ControlTotalBreakAt(legacy, shadow, d)(c) == Some(b);
  }
}
