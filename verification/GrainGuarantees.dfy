/** The three grains are views of one difference: what they report adds up, and silence means agreement. */
module GrainGuarantees {
  import opened Options
  import opened Dates
  import opened Text
  import opened Sorting
  import opened Classify
  import opened Ingest
  import opened Grains

  // ---------------------------------------------------------------- sums over keys

  function SumOver<K>(ks: seq<K>, g: K -> int): int {
    if ks == [] then 0 else SumOver(ks[..|ks| - 1], g) + g(ks[|ks| - 1])
  }

  function SumBreaks(bs: seq<Break>, value: Break -> int): int {
    if bs == [] then 0 else SumBreaks(bs[..|bs| - 1], value) + value(bs[|bs| - 1])
  }

  lemma {:induction false} SumDifference<K>(ks: seq<K>, g: K -> int, a: K -> int, b: K -> int)
    requires forall k | k in ks :: g(k) == a(k) - b(k)
    ensures SumOver(ks, g) == SumOver(ks, a) - SumOver(ks, b)
    decreases |ks|
  {
    if ks != [] {
      Snoc(ks);
      SumDifference(ks[..|ks| - 1], g, a, b);
    }
  }

  /** Σ over the breaks is Σ over the keys. */
  lemma {:induction false} GatherSum<K>(ks: seq<K>, break_: K -> Option<Break>, value: Break -> int, g: K -> int)
    requires forall k | k in ks :: g(k) == match break_(k) case None => 0 case Some(b) => value(b)
    ensures SumBreaks(Gather(ks, break_), value) == SumOver(ks, g)
    decreases |ks|
  {
    if ks != [] {
      var front, last := ks[..|ks| - 1], ks[|ks| - 1];
      Snoc(ks);
      GatherSum(front, break_, value, g);
      var bs := Gather(front, break_);
      if break_(last).Some? {
        assert (bs + [break_(last).value])[..|bs|] == bs;
      } else {
        assert Gather(ks, break_) == bs;
      }
    }
  }

  // ---------------------------------------------------------------- partition

  function NetAt<K>(ms: seq<Movement>, part: K -> Movement -> bool): K -> int {
    (k: K) => Net(ms, part(k))
  }

  function AmountAt<K>(m: Movement, part: K -> Movement -> bool): K -> int {
    (k: K) => if part(k)(m) then m.amount else 0
  }

  lemma {:induction false} SumZero<K>(ks: seq<K>, g: K -> int)
    requires forall k | k in ks :: g(k) == 0
    ensures SumOver(ks, g) == 0
    decreases |ks|
  {
    if ks != [] {
      Snoc(ks);
      SumZero(ks[..|ks| - 1], g);
    }
  }

  lemma {:induction false} SumSingle<K>(ks: seq<K>, g: K -> int, at: K)
    requires NoDuplicates(ks) && at in ks && forall k | k in ks && k != at :: g(k) == 0
    ensures SumOver(ks, g) == g(at)
    decreases |ks|
  {
    var front, last := ks[..|ks| - 1], ks[|ks| - 1];
    Snoc(ks);
    if last == at {
      forall k | k in front ensures g(k) == 0 {
        assert k != at && k in ks;
      }
      SumZero(front, g);
    } else {
      SumSingle(front, g, at);
    }
  }

  lemma {:induction false} SumStep<K>(ks: seq<K>, ms: seq<Movement>, part: K -> Movement -> bool)
    requires ms != []
    ensures SumOver(ks, NetAt(ms, part)) == SumOver(ks, NetAt(ms[..|ms| - 1], part)) + SumOver(ks, AmountAt(ms[|ms| - 1], part))
    decreases |ks|
  {
    if ks != [] {
      SumStep(ks[..|ks| - 1], ms, part);
    }
  }

  /** Movements split by key: when every qualifying movement falls under exactly one key, the parts add up to the whole. */
  lemma {:induction false} Partition<K>(ms: seq<Movement>, ks: seq<K>, whole: Movement -> bool, part: K -> Movement -> bool, key: Movement -> K)
    requires NoDuplicates(ks) && forall m | m in ms && whole(m) :: key(m) in ks
    requires forall m, k | m in ms && k in ks :: part(k)(m) <==> whole(m) && key(m) == k
    ensures SumOver(ks, NetAt(ms, part)) == Net(ms, whole)
    decreases |ms|
  {
    if ms == [] {
      SumZero(ks, NetAt(ms, part));
    } else {
      var front, m := ms[..|ms| - 1], ms[|ms| - 1];
      Snoc(ms);
      Partition(front, ks, whole, part, key);
      SumStep(ks, ms, part);
      if whole(m) {
        SumSingle(ks, AmountAt(m, part), key(m));
      } else {
        SumZero(ks, AmountAt(m, part));
      }
    }
  }

  lemma {:induction false} NetAgrees(ms: seq<Movement>, p: Movement -> bool, q: Movement -> bool)
    requires forall m | m in ms :: p(m) == q(m)
    ensures Net(ms, p) == Net(ms, q)
    decreases |ms|
  {
    if ms != [] {
      Snoc(ms);
      NetAgrees(ms[..|ms| - 1], p, q);
    }
  }

  lemma {:induction false} NetNone(ms: seq<Movement>, p: Movement -> bool)
    requires forall m | m in ms :: !p(m)
    ensures Net(ms, p) == 0
    decreases |ms|
  {
    if ms != [] {
      Snoc(ms);
      NetNone(ms[..|ms| - 1], p);
    }
  }

  lemma {:induction false} KeysCover<K(!new)>(left: seq<Movement>, right: seq<Movement>, key: Movement -> K, le: (K, K) -> bool)
    ensures NoDuplicates(SortedKeys(left, right, key, le))
    ensures forall m | m in left || m in right :: key(m) in SortedKeys(left, right, key, le)
    ensures forall k | k in SortedKeys(left, right, key, le) :: exists m :: (m in left || m in right) && key(m) == k
  {
    var all := KeysOf(left, key) + KeysOf(right, key);
    SortKeepsDistinct(Distinct(all), le);
    forall m | m in left || m in right ensures key(m) in all {
      if m in left {
        var i :| 0 <= i < |left| && left[i] == m;
        assert all[i] == key(m);
      } else {
        var i :| 0 <= i < |right| && right[i] == m;
        assert all[|left| + i] == key(m);
      }
    }
    forall k | k in all ensures exists m :: (m in left || m in right) && key(m) == k {
      var i :| 0 <= i < |all| && all[i] == k;
      if i < |left| {
        assert left[i] in left && key(left[i]) == k;
      } else {
        assert right[i - |left|] in right && key(right[i - |left|]) == k;
      }
    }
  }

  // ---------------------------------------------------------------- conservation

  /** A break's delta if it is in currency c. */
  function InCurrency(c: string): Break -> int {
    (b: Break) => if b.currency == c then b.delta else 0
  }

  function AccountPart(d: Day, c: string): AccountKey -> Movement -> bool {
    (k: AccountKey) => (m: Movement) => k.1 == c && m.businessDate == d && (m.accountId, m.currency) == k
  }

  function CurrencyPart(d: Day, c: string): string -> Movement -> bool {
    (k: string) => (m: Movement) => k == c && m.businessDate == d && m.currency == k
  }

  /** The true difference of the two books on a day in a currency. */
  function Difference(legacy: seq<Movement>, shadow: seq<Movement>, d: Day, c: string): int {
    Net(legacy, OfCurrency(d, c)) - Net(shadow, OfCurrency(d, c))
  }

  function Minus<K>(a: K -> int, b: K -> int): K -> int {
    (k: K) => a(k) - b(k)
  }

  lemma {:induction false} AccountPartNet(ms: seq<Movement>, d: Day, c: string, k: AccountKey)
    ensures NetAt(ms, AccountPart(d, c))(k) == if k.1 == c then Net(ms, OfAccount(d, k)) else 0
  {
    if k.1 == c {
      NetAgrees(ms, AccountPart(d, c)(k), OfAccount(d, k));
    } else {
      NetNone(ms, AccountPart(d, c)(k));
    }
  }

  lemma {:induction false} CurrencyPartNet(ms: seq<Movement>, d: Day, c: string, k: string)
    ensures NetAt(ms, CurrencyPart(d, c))(k) == if k == c then Net(ms, OfCurrency(d, k)) else 0
  {
    if k == c {
      NetAgrees(ms, CurrencyPart(d, c)(k), OfCurrency(d, k));
    } else {
      NetNone(ms, CurrencyPart(d, c)(k));
    }
  }

  /** The account-day deltas of a currency add up to the difference of the books. */
  lemma {:induction false} AccountDaysConserve(legacy: seq<Movement>, shadow: seq<Movement>, d: Day, c: string, fees: set<nat>)
    ensures SumBreaks(AccountDayBreaks(legacy, shadow, d, fees), InCurrency(c)) == Difference(legacy, shadow, d, c)
  {
    var ks := SortedKeys(OnDate(legacy, d), OnDate(shadow, d), AccountOf(), AccountKeyLe);
    KeysCover(OnDate(legacy, d), OnDate(shadow, d), AccountOf(), AccountKeyLe);
    var a, b := NetAt(legacy, AccountPart(d, c)), NetAt(shadow, AccountPart(d, c));
    forall k | k in ks
      ensures Minus(a, b)(k) == match AccountDayBreakAt(legacy, shadow, d, fees)(k) case None => 0 case Some(x) => InCurrency(c)(x)
    {
      AccountPartNet(legacy, d, c, k);
      AccountPartNet(shadow, d, c, k);
    }
    GatherSum(ks, AccountDayBreakAt(legacy, shadow, d, fees), InCurrency(c), Minus(a, b));
    SumDifference(ks, Minus(a, b), a, b);
    Partition(legacy, ks, OfCurrency(d, c), AccountPart(d, c), AccountOf());
    Partition(shadow, ks, OfCurrency(d, c), AccountPart(d, c), AccountOf());
  }

  lemma {:induction false} CurrencyWorth(legacy: seq<Movement>, shadow: seq<Movement>, d: Day, c: string, k: string)
    ensures Minus(NetAt(legacy, CurrencyPart(d, c)), NetAt(shadow, CurrencyPart(d, c)))(k)
            == match ControlTotalBreakAt(legacy, shadow, d)(k) case None => 0 case Some(x) => InCurrency(c)(x)
  {
    CurrencyPartNet(legacy, d, c, k);
    CurrencyPartNet(shadow, d, c, k);
  }

  /** So does the control total. */
  lemma {:induction false} ControlTotalConserves(legacy: seq<Movement>, shadow: seq<Movement>, d: Day, c: string)
    ensures SumBreaks(ControlTotalBreaks(legacy, shadow, d), InCurrency(c)) == Difference(legacy, shadow, d, c)
  {
    var ks := SortedKeys(OnDate(legacy, d), OnDate(shadow, d), CurrencyOf(), StrLe);
    KeysCover(OnDate(legacy, d), OnDate(shadow, d), CurrencyOf(), StrLe);
    var a, b := NetAt(legacy, CurrencyPart(d, c)), NetAt(shadow, CurrencyPart(d, c));
    forall k | k in ks
      ensures Minus(a, b)(k) == match ControlTotalBreakAt(legacy, shadow, d)(k) case None => 0 case Some(x) => InCurrency(c)(x)
    {
      CurrencyWorth(legacy, shadow, d, c, k);
    }
    GatherSum(ks, ControlTotalBreakAt(legacy, shadow, d), InCurrency(c), Minus(a, b));
    SumDifference(ks, Minus(a, b), a, b);
    Partition(legacy, ks, OfCurrency(d, c), CurrencyPart(d, c), CurrencyOf());
    Partition(shadow, ks, OfCurrency(d, c), CurrencyPart(d, c), CurrencyOf());
  }

  // ---------------------------------------------------------------- the transaction grain

  ghost predicate UniqueIds(ms: seq<Movement>) {
    forall i, j | 0 <= i < j < |ms| :: ms[i].txnId != ms[j].txnId
  }

  ghost predicate CurrenciesAgree(legacy: seq<Movement>, shadow: seq<Movement>) {
    forall l, s | l in legacy && s in shadow && l.txnId == s.txnId :: l.currency == s.currency
  }

  lemma {:induction false} DayKeepsUnique(ms: seq<Movement>, d: Day)
    requires UniqueIds(ms)
    ensures UniqueIds(OnDate(ms, d))
    decreases |ms|
  {
    if ms != [] {
      var front := ms[..|ms| - 1];
      DayKeepsUnique(front, d);
      forall m | m in OnDate(front, d) ensures m.txnId != ms[|ms| - 1].txnId {
        var i :| 0 <= i < |front| && front[i] == m;
        assert ms[i] == m;
      }
      var dated := OnDate(front, d);
      assert forall i | 0 <= i < |dated| :: dated[i] in dated;
    }
  }

  lemma {:induction false} FoundIs(ms: seq<Movement>, m: Movement)
    requires UniqueIds(ms) && m in ms
    ensures Find(ms, m.txnId) == Some(m) && FindFirst(ms, m.txnId) == Some(m)
  {
    var i :| 0 <= i < |ms| && ms[i] == m;
    var x, y := Find(ms, m.txnId).value, FindFirst(ms, m.txnId).value;
    var j :| 0 <= j < |ms| && ms[j] == x;
    var k :| 0 <= k < |ms| && ms[k] == y;
    assert i == j && i == k;
  }

  function InCur(c: string): Movement -> bool {
    (m: Movement) => m.currency == c
  }

  function TxnPart(c: string): string -> Movement -> bool {
    (id: string) => (m: Movement) => m.currency == c && m.txnId == id
  }

  /** What a movement, if any, contributes to currency c. */
  function Worth(m: Option<Movement>, c: string): int {
    if m.Some? && m.value.currency == c then m.value.amount else 0
  }

  lemma {:induction false} TxnPartNet(ms: seq<Movement>, c: string, id: string)
    requires UniqueIds(ms)
    ensures Net(ms, TxnPart(c)(id)) == Worth(Find(ms, id), c)
    decreases |ms|
  {
    if ms != [] {
      var front, last := ms[..|ms| - 1], ms[|ms| - 1];
      TxnPartNet(front, c, id);
      if last.txnId == id {
        forall m | m in front ensures m.txnId != id {
          var i :| 0 <= i < |front| && front[i] == m;
          assert ms[i] == m;
        }
        NetNone(front, TxnPart(c)(id));
      } else {
        assert !TxnPart(c)(id)(last) && Find(ms, id) == Find(front, id);
      }
    }
  }

  lemma {:induction false} NetOnDate(ms: seq<Movement>, d: Day, c: string)
    ensures Net(OnDate(ms, d), InCur(c)) == Net(ms, OfCurrency(d, c))
    decreases |ms|
  {
    if ms != [] {
      var front, last := ms[..|ms| - 1], ms[|ms| - 1];
      NetOnDate(front, d, c);
      var dated := OnDate(front, d);
      if last.businessDate == d {
        assert (dated + [last])[..|dated|] == dated;
      } else {
        assert OnDate(ms, d) == dated;
      }
    }
  }

  /** A timing break found by id: both amounts are recorded and the delta is zero. */
  predicate TimingById(b: Break) {
    b.signature.TimingDays? && b.legacy.Some? && b.shadow.Some?
  }

  /** The delta of a break in currency c, with a by-id timing break restored to its signed amount on the day. */
  function Restored(legacyDay: seq<Movement>, c: string): Break -> int {
    (b: Break) =>
      if b.currency != c then 0
      else if !TimingById(b) || b.txnId.None? then b.delta
      else if Find(legacyDay, b.txnId.value).Some? then b.legacy.value
      else 0 - b.shadow.value
  }

  ghost predicate Comparable(legacy: seq<Movement>, shadow: seq<Movement>) {
    UniqueIds(legacy) && UniqueIds(shadow) && CurrenciesAgree(legacy, shadow)
  }

  lemma {:induction false} RestoredBreak(l: seq<Movement>, right: Option<Movement>, legacy: seq<Movement>, shadow: seq<Movement>,
                                         d: Day, c: string, fees: set<nat>, id: string)
    requires var left := Find(l, id);
             && (left.Some? ==> left.value.businessDate == d)
             && (right.Some? ==> right.value.businessDate == d && right.value.txnId == id)
             && (left.Some? && right.Some? ==> left.value.currency == right.value.currency)
    ensures Worth(Find(l, id), c) - Worth(right, c)
            == match TxnBreak(Find(l, id), right, legacy, shadow, fees) case None => 0 case Some(b) => Restored(l, c)(b)
  {
  }

  lemma {:induction false} TxnKeyWorth(legacy: seq<Movement>, shadow: seq<Movement>, d: Day, c: string, fees: set<nat>, id: string)
    requires Comparable(legacy, shadow)
    ensures var l, s := OnDate(legacy, d), OnDate(shadow, d);
            Minus(NetAt(l, TxnPart(c)), NetAt(s, TxnPart(c)))(id)
            == match TxnBreakAt(l, s, legacy, shadow, fees)(id) case None => 0 case Some(b) => Restored(l, c)(b)
  {
    DayKeepsUnique(legacy, d);
    DayKeepsUnique(shadow, d);
    TxnPartNet(OnDate(legacy, d), c, id);
    TxnPartNet(OnDate(shadow, d), c, id);
    RestoredBreak(OnDate(legacy, d), Find(OnDate(shadow, d), id), legacy, shadow, d, c, fees, id);
  }

  /** The transaction deltas of a currency, each by-id timing break restored, add up to the difference of the books. */
  lemma {:induction false} TransactionsConserve(legacy: seq<Movement>, shadow: seq<Movement>, d: Day, c: string, fees: set<nat>)
    requires Comparable(legacy, shadow)
    ensures var l, s := OnDate(legacy, d), OnDate(shadow, d);
            SumBreaks(TransactionBreaks(l, s, legacy, shadow, fees), Restored(l, c)) == Difference(legacy, shadow, d, c)
  {
    var l, s := OnDate(legacy, d), OnDate(shadow, d);
    var ks := SortedKeys(l, s, TxnId(), StrLe);
    KeysCover(l, s, TxnId(), StrLe);
    var a, b := NetAt(l, TxnPart(c)), NetAt(s, TxnPart(c));
    forall k | k in ks
      ensures Minus(a, b)(k) == match TxnBreakAt(l, s, legacy, shadow, fees)(k) case None => 0 case Some(x) => Restored(l, c)(x)
    {
      TxnKeyWorth(legacy, shadow, d, c, fees, k);
    }
    GatherSum(ks, TxnBreakAt(l, s, legacy, shadow, fees), Restored(l, c), Minus(a, b));
    SumDifference(ks, Minus(a, b), a, b);
    Partition(l, ks, InCur(c), TxnPart(c), TxnId());
    Partition(s, ks, InCur(c), TxnPart(c), TxnId());
    NetOnDate(legacy, d, c);
    NetOnDate(shadow, d, c);
  }

  /** Conservation: for every date and currency the three grains report the same money. */
  lemma {:induction false} GrainsConserve(legacy: seq<Movement>, shadow: seq<Movement>, d: Day, c: string, fees: set<nat>)
    requires Comparable(legacy, shadow)
    ensures var accounts := SumBreaks(AccountDayBreaks(legacy, shadow, d, fees), InCurrency(c));
            var total := SumBreaks(ControlTotalBreaks(legacy, shadow, d), InCurrency(c));
            var l := OnDate(legacy, d);
            var txns := SumBreaks(TransactionBreaks(l, OnDate(shadow, d), legacy, shadow, fees), Restored(l, c));
            accounts == total == txns
  {
    AccountDaysConserve(legacy, shadow, d, c, fees);
    ControlTotalConserves(legacy, shadow, d, c);
    TransactionsConserve(legacy, shadow, d, c, fees);
  }

  // ---------------------------------------------------------------- completeness

  lemma {:induction false} GatherEmpty<K>(ks: seq<K>, break_: K -> Option<Break>)
    ensures Gather(ks, break_) == [] <==> forall k | k in ks :: break_(k).None?
    decreases |ks|
  {
    if ks != [] {
      Snoc(ks);
      GatherEmpty(ks[..|ks| - 1], break_);
    }
  }

  ghost predicate HasTwin(ms: seq<Movement>, m: Movement) {
    exists x :: x in ms && x.txnId == m.txnId && x.amount == m.amount && x.businessDate == m.businessDate
  }

  /** The two sides hold the same id-to-(amount, date) map. */
  ghost predicate SameBook(legacy: seq<Movement>, shadow: seq<Movement>) {
    (forall l | l in legacy :: HasTwin(shadow, l)) && (forall s | s in shadow :: HasTwin(legacy, s))
  }

  function DayBreaks(legacy: seq<Movement>, shadow: seq<Movement>, d: Day, fees: set<nat>): seq<Break> {
    TransactionBreaks(OnDate(legacy, d), OnDate(shadow, d), legacy, shadow, fees)
  }

  /** Both sides hold the id with one amount. */
  ghost predicate Agreed(l: seq<Movement>, s: seq<Movement>, id: string) {
    Find(l, id).Some? && Find(s, id).Some? && Find(l, id).value.amount == Find(s, id).value.amount
  }

  lemma {:induction false} QuietId(l: seq<Movement>, s: seq<Movement>, legacy: seq<Movement>, shadow: seq<Movement>, id: string, d: Day, fees: set<nat>)
    requires Find(l, id).Some? || Find(s, id).Some?
    requires forall m | m in l || m in s :: m.businessDate == d
    ensures TxnBreak(Find(l, id), Find(s, id), legacy, shadow, fees).None? <==> Agreed(l, s, id)
  {
  }

  /** Asking every key is asking every movement. */
  lemma {:induction false} IdsCover(l: seq<Movement>, s: seq<Movement>)
    ensures forall id :: id in SortedKeys(l, s, TxnId(), StrLe) <==> exists m :: (m in l || m in s) && m.txnId == id
  {
    var ks := SortedKeys(l, s, TxnId(), StrLe);
    KeysCover(l, s, TxnId(), StrLe);
    forall m: Movement ensures TxnId()(m) == m.txnId {
    }
    forall id ensures id in ks <==> exists m :: (m in l || m in s) && m.txnId == id {
      if id in ks {
        var m :| (m in l || m in s) && TxnId()(m) == id;
        assert m.txnId == id;
      }
      if m :| (m in l || m in s) && m.txnId == id {
        assert TxnId()(m) in ks;
      }
    }
  }

  /** No key gives a break exactly when no movement's id does. */
  lemma {:induction false} QuietIff(l: seq<Movement>, s: seq<Movement>, f: string -> Option<Break>, p: string -> bool)
    requires forall id | id in SortedKeys(l, s, TxnId(), StrLe) :: f(id).None? <==> p(id)
    ensures Gather(SortedKeys(l, s, TxnId(), StrLe), f) == [] <==> forall m | m in l || m in s :: p(m.txnId)
  {
    IdsCover(l, s);
    GatherEmpty(SortedKeys(l, s, TxnId(), StrLe), f);
  }

  ghost function AgreedAt(l: seq<Movement>, s: seq<Movement>): string -> bool {
    id => Agreed(l, s, id)
  }

  lemma {:induction false} QuietKeys(legacy: seq<Movement>, shadow: seq<Movement>, d: Day, fees: set<nat>, f: string -> Option<Break>, p: string -> bool)
    requires f == TxnBreakAt(OnDate(legacy, d), OnDate(shadow, d), legacy, shadow, fees) && p == AgreedAt(OnDate(legacy, d), OnDate(shadow, d))
    ensures forall id | id in SortedKeys(OnDate(legacy, d), OnDate(shadow, d), TxnId(), StrLe) :: f(id).None? <==> p(id)
  {
    forall id | id in SortedKeys(OnDate(legacy, d), OnDate(shadow, d), TxnId(), StrLe) ensures f(id).None? <==> p(id) {
      QuietKey(legacy, shadow, id, d, fees);
    }
  }

  lemma {:induction false} AgreedOver(l: seq<Movement>, s: seq<Movement>, p: string -> bool)
    requires p == AgreedAt(l, s)
    ensures (forall m | m in l || m in s :: p(m.txnId)) <==> forall m | m in l || m in s :: Agreed(l, s, m.txnId)
  {
  }

  /** On one day, silence means each id dated that day agrees on both sides. */
  lemma {:induction false} QuietDay(legacy: seq<Movement>, shadow: seq<Movement>, d: Day, fees: set<nat>)
    ensures var l, s := OnDate(legacy, d), OnDate(shadow, d);
            DayBreaks(legacy, shadow, d, fees) == [] <==>
            forall m | m in l || m in s :: Agreed(l, s, m.txnId)
  {
    var l, s := OnDate(legacy, d), OnDate(shadow, d);
    var f, p := TxnBreakAt(l, s, legacy, shadow, fees), AgreedAt(l, s);
    QuietKeys(legacy, shadow, d, fees, f, p);
    QuietIff(l, s, f, p);
    AgreedOver(l, s, p);
  }

  lemma {:induction false} QuietKey(legacy: seq<Movement>, shadow: seq<Movement>, id: string, d: Day, fees: set<nat>)
    requires id in SortedKeys(OnDate(legacy, d), OnDate(shadow, d), TxnId(), StrLe)
    ensures TxnBreakAt(OnDate(legacy, d), OnDate(shadow, d), legacy, shadow, fees)(id).None? <==> Agreed(OnDate(legacy, d), OnDate(shadow, d), id)
  {
    var l, s := OnDate(legacy, d), OnDate(shadow, d);
    IdsCover(l, s);
    QuietId(l, s, legacy, shadow, id, d, fees);
  }

  /** Completeness over the window: no date has a transaction break exactly when both sides hold the same book. */
  lemma {:induction false} SilenceMeansAgreement(legacy: seq<Movement>, shadow: seq<Movement>, fees: set<nat>)
    requires UniqueIds(legacy) && UniqueIds(shadow)
    ensures (forall d: Day :: DayBreaks(legacy, shadow, d, fees) == []) <==> SameBook(legacy, shadow)
  {
    if forall d: Day :: DayBreaks(legacy, shadow, d, fees) == [] {
      forall l | l in legacy ensures HasTwin(shadow, l) {
        AgreesOn(legacy, shadow, l, l.businessDate, fees);
      }
      forall s | s in shadow ensures HasTwin(legacy, s) {
        AgreesOn(legacy, shadow, s, s.businessDate, fees);
      }
    }
    if SameBook(legacy, shadow) {
      forall d: Day ensures DayBreaks(legacy, shadow, d, fees) == [] {
        SameBookIsQuiet(legacy, shadow, d, fees);
      }
    }
  }

  lemma {:induction false} AgreesOn(legacy: seq<Movement>, shadow: seq<Movement>, m: Movement, d: Day, fees: set<nat>)
    requires UniqueIds(legacy) && UniqueIds(shadow) && DayBreaks(legacy, shadow, d, fees) == []
    requires (m in legacy || m in shadow) && m.businessDate == d
    ensures m in legacy ==> HasTwin(shadow, m)
    ensures m in shadow ==> HasTwin(legacy, m)
  {
    var l, s := OnDate(legacy, d), OnDate(shadow, d);
    QuietDay(legacy, shadow, d, fees);
    DayKeepsUnique(legacy, d);
    DayKeepsUnique(shadow, d);
    var x, y := Find(l, m.txnId).value, Find(s, m.txnId).value;
    if m in legacy {
      FoundIs(l, m);
      assert y in shadow && y.amount == m.amount;
    }
    if m in shadow {
      FoundIs(s, m);
      assert x in legacy && x.amount == m.amount;
    }
  }

  lemma {:induction false} SameBookIsQuiet(legacy: seq<Movement>, shadow: seq<Movement>, d: Day, fees: set<nat>)
    requires UniqueIds(legacy) && UniqueIds(shadow) && SameBook(legacy, shadow)
    ensures DayBreaks(legacy, shadow, d, fees) == []
  {
    forall m | m in OnDate(legacy, d) || m in OnDate(shadow, d) ensures Agreed(OnDate(legacy, d), OnDate(shadow, d), m.txnId) {
      SameBookAgrees(legacy, shadow, m, d);
    }
    QuietDay(legacy, shadow, d, fees);
  }

  lemma {:induction false} SameBookAgrees(legacy: seq<Movement>, shadow: seq<Movement>, m: Movement, d: Day)
    requires UniqueIds(legacy) && UniqueIds(shadow) && SameBook(legacy, shadow)
    requires (m in legacy || m in shadow) && m.businessDate == d
    ensures Agreed(OnDate(legacy, d), OnDate(shadow, d), m.txnId)
  {
    if m in legacy {
      var o :| o in shadow && o.txnId == m.txnId && o.amount == m.amount && o.businessDate == d;
      FoundOnBoth(legacy, shadow, m, o, d);
    } else {
      var o :| o in legacy && o.txnId == m.txnId && o.amount == m.amount && o.businessDate == d;
      FoundOnBoth(legacy, shadow, o, m, d);
    }
  }

  lemma {:induction false} FoundOnBoth(legacy: seq<Movement>, shadow: seq<Movement>, l: Movement, s: Movement, d: Day)
    requires UniqueIds(legacy) && UniqueIds(shadow) && l in legacy && s in shadow && l.businessDate == s.businessDate == d
    ensures Find(OnDate(legacy, d), l.txnId) == Some(l) && Find(OnDate(shadow, d), s.txnId) == Some(s)
  {
    DayKeepsUnique(legacy, d);
    DayKeepsUnique(shadow, d);
    FoundIs(OnDate(legacy, d), l);
    FoundIs(OnDate(shadow, d), s);
  }

  // ---------------------------------------------------------------- timing pairs

  /** The breaks naming an id. */
  function About(bs: seq<Break>, id: string): seq<Break> {
    if bs == [] then [] else About(bs[..|bs| - 1], id) + if bs[|bs| - 1].txnId == Some(id) then [bs[|bs| - 1]] else []
  }

  lemma {:induction false} AboutGathered(ks: seq<string>, break_: string -> Option<Break>, id: string)
    requires NoDuplicates(ks) && forall k | k in ks && break_(k).Some? :: break_(k).value.txnId == Some(k)
    ensures About(Gather(ks, break_), id) == if id in ks && break_(id).Some? then [break_(id).value] else []
    decreases |ks|
  {
    if ks != [] {
      var front, last := ks[..|ks| - 1], ks[|ks| - 1];
      Snoc(ks);
      AboutGathered(front, break_, id);
      var bs := Gather(front, break_);
      if break_(last).Some? {
        assert (bs + [break_(last).value])[..|bs|] == bs;
      } else {
        assert Gather(ks, break_) == bs;
      }
      assert last !in front;
    }
  }

  lemma {:induction false} BreakNamesId(left: Option<Movement>, right: Option<Movement>, lw: seq<Movement>, sw: seq<Movement>, fees: set<nat>, id: string)
    requires left.Some? ==> left.value.txnId == id
    requires right.Some? ==> right.value.txnId == id
    ensures var b := TxnBreak(left, right, lw, sw, fees); b.Some? ==> b.value.txnId == Some(id) && (left.Some? || right.Some?)
  {
  }

  lemma {:induction false} OneSidedById(m: Movement, side: Side, other: seq<Movement>, x: Movement)
    requires FindFirst(other, m.txnId) == Some(x)
    ensures OneSidedBreak(m, side, other) ==
            Break(Transaction, m.businessDate, m.currency, Some(m.accountId), Some(m.txnId),
                  Some(if side.OnLegacy? then m.amount else x.amount), Some(if side.OnLegacy? then x.amount else m.amount),
                  0, Timing, TimingDays(x.businessDate - m.businessDate))
  {
  }

  /** What one date reports about one id. */
  lemma {:induction false} ReportOn(legacy: seq<Movement>, shadow: seq<Movement>, d: Day, id: string, fees: set<nat>)
    ensures var l, s := OnDate(legacy, d), OnDate(shadow, d);
            var b := TxnBreak(Find(l, id), Find(s, id), legacy, shadow, fees);
            About(DayBreaks(legacy, shadow, d, fees), id) == if b.Some? then [b.value] else []
  {
    var l, s := OnDate(legacy, d), OnDate(shadow, d);
    var ks := SortedKeys(l, s, TxnId(), StrLe);
    KeysCover(l, s, TxnId(), StrLe);
    var f := TxnBreakAt(l, s, legacy, shadow, fees);
    forall k | k in ks && f(k).Some? ensures f(k).value.txnId == Some(k) {
      BreakNamesId(Find(l, k), Find(s, k), legacy, shadow, fees, k);
    }
    AboutGathered(ks, f, id);
    BreakNamesId(Find(l, id), Find(s, id), legacy, shadow, fees, id);
    assert Find(l, id).Some? ==> TxnId()(Find(l, id).value) in ks;
    assert Find(s, id).Some? ==> TxnId()(Find(s, id).value) in ks;
  }

  /** A movement dated differently on the two sides gives exactly two breaks over all dates, one on each date, both
      timing, with opposite offsets, no delta and both amounts. */
  lemma {:induction false} TimingPair(legacy: seq<Movement>, shadow: seq<Movement>, l: Movement, s: Movement, d: Day, fees: set<nat>)
    requires UniqueIds(legacy) && UniqueIds(shadow) && l in legacy && s in shadow
    requires l.txnId == s.txnId && l.businessDate != s.businessDate
    ensures var offset := s.businessDate - l.businessDate;
            About(DayBreaks(legacy, shadow, d, fees), l.txnId) ==
            if d == l.businessDate then
              [Break(Transaction, d, l.currency, Some(l.accountId), Some(l.txnId), Some(l.amount), Some(s.amount), 0, Timing, TimingDays(offset))]
            else if d == s.businessDate then
              [Break(Transaction, d, s.currency, Some(s.accountId), Some(s.txnId), Some(l.amount), Some(s.amount), 0, Timing, TimingDays(0 - offset))]
            else []
  {
    ReportOn(legacy, shadow, d, l.txnId, fees);
    FoundIs(legacy, l);
    FoundIs(shadow, s);
    FoundOnDate(legacy, l, d);
    FoundOnDate(shadow, s, d);
    OneSidedById(l, OnLegacy, shadow, s);
    OneSidedById(s, OnShadow, legacy, l);
  }

  lemma {:induction false} FoundOnDate(ms: seq<Movement>, m: Movement, d: Day)
    requires UniqueIds(ms) && m in ms
    ensures Find(OnDate(ms, d), m.txnId) == if m.businessDate == d then Some(m) else None
  {
    DayKeepsUnique(ms, d);
    if m.businessDate == d {
      FoundIs(OnDate(ms, d), m);
    } else if Find(OnDate(ms, d), m.txnId).Some? {
      FoundIs(ms, Find(OnDate(ms, d), m.txnId).value);
      FoundIs(ms, m);
    }
  }
}
