/** reconcile.grains: the three movement grains that compare a legacy book with its shadow. */
module Grains {
  import opened Options
  import opened Dates
  import opened Text
  import opened Sorting
  import opened Classify
  import DayCount
  import opened Ingest

  datatype Grain = Transaction | AccountDay | ControlTotal
  datatype Side = OnLegacy | OnShadow

  /** The signature of a break. */
  datatype Label = Matched(rule: Signature) | TimingDays(offset: int) | MissingOn(side: Side) | NothingOn(side: Side) | WholeMovement

  datatype Break = Break(grain: Grain, date: Day, currency: string, account: Option<string>, txnId: Option<string>,
                         legacy: Option<int>, shadow: Option<int>, delta: int, classification: Classification, signature: Label)

  // ---------------------------------------------------------------- keys

  /** Each element once, at its first occurrence. */
  function Distinct<K(==,!new)>(s: seq<K>): (r: seq<K>)
    ensures forall k :: k in r <==> k in s
    ensures NoDuplicates(r)
  {
    if s == [] then [] else
      var r, last := Distinct(s[..|s| - 1]), s[|s| - 1];
      assert s == s[..|s| - 1] + [last];
      if last in r then r else r + [last]
  }

  function KeysOf<K>(ms: seq<Movement>, key: Movement -> K): (r: seq<K>)
    ensures |r| == |ms| && forall i | 0 <= i < |ms| :: r[i] == key(ms[i])
  {
    seq(|ms|, i requires 0 <= i < |ms| => key(ms[i]))
  }

  /** sorted(set(left) | set(right)). */
  function SortedKeys<K(==,!new)>(left: seq<Movement>, right: seq<Movement>, key: Movement -> K, le: (K, K) -> bool): seq<K> {
    Sort(Distinct(KeysOf(left, key) + KeysOf(right, key)), le)
  }

  function OnDate(ms: seq<Movement>, d: Day): (r: seq<Movement>)
    ensures forall m :: m in r <==> m in ms && m.businessDate == d
  {
    if ms == [] then [] else
      assert ms == ms[..|ms| - 1] + [ms[|ms| - 1]];
      OnDate(ms[..|ms| - 1], d) + if ms[|ms| - 1].businessDate == d then [ms[|ms| - 1]] else []
  }

  /** The breaks of the keys that have one, in key order. */
  function Gather<K>(ks: seq<K>, break_: K -> Option<Break>): seq<Break> {
    if ks == [] then [] else
      Gather(ks[..|ks| - 1], break_) + match break_(ks[|ks| - 1]) case None => [] case Some(b) => [b]
  }

  lemma {:induction false} GatherNext<K>(ks: seq<K>, break_: K -> Option<Break>, i: nat)
    requires i < |ks|
    ensures Gather(ks[..i + 1], break_) == Gather(ks[..i], break_) + match break_(ks[i]) case None => [] case Some(b) => [b]
  {
    assert ks[..i + 1][..i] == ks[..i];
  }

  // ---------------------------------------------------------------- transaction grain

  /** {m.txn_id: m for m in ms}: the last movement of an id. */
  function Find(ms: seq<Movement>, id: string): (r: Option<Movement>)
    ensures r.Some? ==> r.value in ms && r.value.txnId == id
    ensures r.None? ==> forall m | m in ms :: m.txnId != id
  {
    if ms == [] then None
    else if ms[|ms| - 1].txnId == id then Some(ms[|ms| - 1])
    else
      assert ms == ms[..|ms| - 1] + [ms[|ms| - 1]];
      Find(ms[..|ms| - 1], id)
  }

  /** next(m for m in ms if m.txn_id == id): the first movement of an id. */
  function FindFirst(ms: seq<Movement>, id: string): (r: Option<Movement>)
    ensures r.Some? ==> r.value in ms && r.value.txnId == id
    ensures r.None? ==> forall m | m in ms :: m.txnId != id
  {
    if ms == [] then None
    else if ms[0].txnId == id then Some(ms[0])
    else
      assert ms == [ms[0]] + ms[1..];
      FindFirst(ms[1..], id)
  }

  const TIMING_WINDOW_DAYS := 2

  function DaysApart(a: Movement, b: Movement): nat {
    if a.businessDate < b.businessDate then b.businessDate - a.businessDate else a.businessDate - b.businessDate
  }

  /** The same money on another date within the ageing window. */
  predicate SameMoney(a: Movement, m: Movement) {
    && m.accountId == a.accountId && m.currency == a.currency && m.amount == a.amount
    && m.businessDate != a.businessDate && DaysApart(a, m) <= TIMING_WINDOW_DAYS
  }

  function Candidates(a: Movement, ms: seq<Movement>): seq<Movement> {
    if ms == [] then [] else Candidates(a, ms[..|ms| - 1]) + if SameMoney(a, ms[|ms| - 1]) then [ms[|ms| - 1]] else []
  }

  function Nearer(a: Movement): (Movement, Movement) -> bool {
    (x, y) => DaysApart(a, x) < DaysApart(a, y) || (DaysApart(a, x) == DaysApart(a, y) && StrLe(x.txnId, y.txnId))
  }

  /** find_timing_match: nearest date first, then id. */
  function FindTimingMatch(a: Movement, ms: seq<Movement>): Option<Movement> {
    var found := Sort(Candidates(a, ms), Nearer(a));
    if found == [] then None else Some(found[0])
  }

  function ClassifyOneSided(absent: Side, m: Movement, other: seq<Movement>): (Classification, Label) {
    match FindTimingMatch(m, other)
    case Some(x) => (Timing, TimingDays(x.businessDate - m.businessDate))
    case None => (Defect, MissingOn(absent))
  }

  function MatchedBreak(l: Movement, r: Movement, fees: set<nat>): Option<Break> {
    if l.amount == r.amount && l.businessDate == r.businessDate then None
    else if l.businessDate != r.businessDate then
      Some(Break(Transaction, l.businessDate, l.currency, Some(l.accountId), Some(l.txnId), Some(l.amount), Some(r.amount),
                 l.amount - r.amount, Timing, TimingDays(r.businessDate - l.businessDate)))
    else
      var (c, s) := ClassifyMatched(l.amount, r.amount, fees);
      Some(Break(Transaction, l.businessDate, l.currency, Some(l.accountId), Some(l.txnId), Some(l.amount), Some(r.amount),
                 l.amount - r.amount, c, Matched(s)))
  }

  /** A record on one side of the day: a timing difference when the other side's window holds its id, else one-sided. */
  function OneSidedBreak(present: Movement, side: Side, other: seq<Movement>): Break {
    var mine, minus := Some(present.amount), 0 - present.amount;
    match FindFirst(other, present.txnId)
    case Some(x) =>
      Break(Transaction, present.businessDate, present.currency, Some(present.accountId), Some(present.txnId),
            if side.OnLegacy? then mine else Some(x.amount), if side.OnLegacy? then Some(x.amount) else mine,
            0, Timing, TimingDays(x.businessDate - present.businessDate))
    case None =>
      var (c, sig) := ClassifyOneSided(if side.OnLegacy? then OnShadow else OnLegacy, present, other);
      Break(Transaction, present.businessDate, present.currency, Some(present.accountId), Some(present.txnId),
            if side.OnLegacy? then mine else None, if side.OnLegacy? then None else mine,
            if side.OnLegacy? then present.amount else minus, c, sig)
  }

  function TxnBreak(left: Option<Movement>, right: Option<Movement>, lw: seq<Movement>, sw: seq<Movement>, fees: set<nat>): Option<Break> {
    match (left, right)
    case (Some(l), Some(r)) => MatchedBreak(l, r, fees)
    case (Some(l), None) => Some(OneSidedBreak(l, OnLegacy, sw))
    case (None, Some(r)) => Some(OneSidedBreak(r, OnShadow, lw))
    case (None, None) => None
  }

  function TxnId(): Movement -> string {
    (m: Movement) => m.txnId
  }

  function TxnBreakAt(legacy: seq<Movement>, shadow: seq<Movement>, lw: seq<Movement>, sw: seq<Movement>, fees: set<nat>): string -> Option<Break> {
    id => TxnBreak(Find(legacy, id), Find(shadow, id), lw, sw, fees)
  }

  function TransactionBreaks(legacy: seq<Movement>, shadow: seq<Movement>, lw: seq<Movement>, sw: seq<Movement>, fees: set<nat>): seq<Break> {
    Gather(SortedKeys(legacy, shadow, TxnId(), StrLe), TxnBreakAt(legacy, shadow, lw, sw, fees))
  }

  method IndexById(ms: seq<Movement>) returns (index: map<string, Movement>)
    ensures forall id :: id in index <==> Find(ms, id).Some?
    ensures forall id | id in index :: Find(ms, id) == Some(index[id])
  {
    index := map[];
    for i := 0 to |ms|
      invariant forall id :: id in index <==> Find(ms[..i], id).Some?
      invariant forall id | id in index :: Find(ms[..i], id) == Some(index[id])
    {
      assert ms[..i + 1][..i] == ms[..i];
      index := index[ms[i].txnId := ms[i]];
    }
    assert ms[..|ms|] == ms;
  }

  method TransactionGrain(legacy: seq<Movement>, shadow: seq<Movement>, lw: seq<Movement>, sw: seq<Movement>, fees: set<nat>)
    returns (breaks: seq<Break>)
    ensures breaks == TransactionBreaks(legacy, shadow, lw, sw, fees)
  {
    var byLegacy := IndexById(legacy);
    var byShadow := IndexById(shadow);
    var ids := SortedKeys(legacy, shadow, TxnId(), StrLe);
    breaks := [];
    for i := 0 to |ids|
      invariant breaks == Gather(ids[..i], TxnBreakAt(legacy, shadow, lw, sw, fees))
    {
      var left := if ids[i] in byLegacy then Some(byLegacy[ids[i]]) else None;
      var right := if ids[i] in byShadow then Some(byShadow[ids[i]]) else None;
      var b := TxnBreak(left, right, lw, sw, fees);
      assert b == TxnBreakAt(legacy, shadow, lw, sw, fees)(ids[i]);
      GatherNext(ids, TxnBreakAt(legacy, shadow, lw, sw, fees), i);
      if b.Some? {
        breaks := breaks + [b.value];
      }
    }
    assert ids[..|ids|] == ids;
  }

  // ---------------------------------------------------------------- account-day and control-total grains

  /** The net of the movements that qualify. */
  function Net(ms: seq<Movement>, live: Movement -> bool): int {
    if ms == [] then 0 else Net(ms[..|ms| - 1], live) + if live(ms[|ms| - 1]) then ms[|ms| - 1].amount else 0
  }

  type AccountKey = (string, string)

  function AccountOf(): Movement -> AccountKey {
    (m: Movement) => (m.accountId, m.currency)
  }

  function CurrencyOf(): Movement -> string {
    (m: Movement) => m.currency
  }

  function OfAccount(d: Day, k: AccountKey): Movement -> bool {
    (m: Movement) => m.businessDate == d && (m.accountId, m.currency) == k
  }

  function OfCurrency(d: Day, c: string): Movement -> bool {
    (m: Movement) => m.businessDate == d && m.currency == c
  }

  predicate AccountKeyLe(a: AccountKey, b: AccountKey) {
    if a.0 == b.0 then StrLe(a.1, b.1) else StrLe(a.0, b.0)
  }

  /** explain_whole_movement: some movement of the account has exactly the size of the delta. */
  predicate ExplainedWhole(delta: int, ms: seq<Movement>, account: string) {
    delta != 0 && exists i | 0 <= i < |ms| :: ms[i].accountId == account && DayCount.Abs(ms[i].amount) == DayCount.Abs(delta)
  }

  function AccountDayBreak(d: Day, k: AccountKey, lv: int, rv: int, shadow: seq<Movement>, fees: set<nat>): Option<Break> {
    if lv == rv then None else
      var (c, sig) :=
        if lv == 0 || rv == 0 then (Timing, NothingOn(if rv == 0 then OnShadow else OnLegacy))
        else
          var (c, s) := ClassifyMatched(lv, rv, fees);
          if s.Unexplained? && ExplainedWhole(lv - rv, OnDate(shadow, d), k.0) then (ModelDifference, WholeMovement)
          else (c, Matched(s));
      Some(Break(AccountDay, d, k.1, Some(k.0), None, Some(lv), Some(rv), lv - rv, c, sig))
  }

  function ControlTotalBreak(d: Day, currency: string, lv: int, rv: int): Option<Break> {
    if lv == rv then None else
      var (c, s) := ClassifyMatched(lv, rv, {});
      Some(Break(ControlTotal, d, currency, None, None, Some(lv), Some(rv), lv - rv, c, Matched(s)))
  }

  function AccountDayBreakAt(legacy: seq<Movement>, shadow: seq<Movement>, d: Day, fees: set<nat>): AccountKey -> Option<Break> {
    k => AccountDayBreak(d, k, Net(legacy, OfAccount(d, k)), Net(shadow, OfAccount(d, k)), shadow, fees)
  }

  function ControlTotalBreakAt(legacy: seq<Movement>, shadow: seq<Movement>, d: Day): string -> Option<Break> {
    c => ControlTotalBreak(d, c, Net(legacy, OfCurrency(d, c)), Net(shadow, OfCurrency(d, c)))
  }

  function AccountDayBreaks(legacy: seq<Movement>, shadow: seq<Movement>, d: Day, fees: set<nat>): seq<Break> {
    Gather(SortedKeys(OnDate(legacy, d), OnDate(shadow, d), AccountOf(), AccountKeyLe), AccountDayBreakAt(legacy, shadow, d, fees))
  }

  function ControlTotalBreaks(legacy: seq<Movement>, shadow: seq<Movement>, d: Day): seq<Break> {
    Gather(SortedKeys(OnDate(legacy, d), OnDate(shadow, d), CurrencyOf(), StrLe), ControlTotalBreakAt(legacy, shadow, d))
  }

  ghost predicate Seen(ms: seq<Movement>, live: Movement -> bool) {
    exists j | 0 <= j < |ms| :: live(ms[j])
  }

  /** The totals of some movements: a key where one qualifies for it, with the net of those that do. */
  ghost predicate Totals<K(!new)>(out: map<K, int>, ms: seq<Movement>, of: K -> (Movement -> bool)) {
    forall k :: (k in out <==> Seen(ms, of(k))) && Net(ms, of(k)) == (if k in out then out[k] else 0)
  }

  lemma {:induction false} NetSnoc(ms: seq<Movement>, m: Movement, live: Movement -> bool)
    ensures Net(ms + [m], live) == Net(ms, live) + (if live(m) then m.amount else 0)
    ensures Seen(ms + [m], live) <==> Seen(ms, live) || live(m)
  {
    assert (ms + [m])[..|ms|] == ms;
    assert (ms + [m])[|ms|] == m && forall j | 0 <= j < |ms| :: (ms + [m])[j] == ms[j];
  }

  lemma {:induction false} TotalsNext<K(!new)>(out: map<K, int>, ms: seq<Movement>, of: K -> (Movement -> bool), m: Movement, key: K)
    requires Totals(out, ms, of) && forall k :: of(k)(m) <==> k == key
    ensures Totals(out[key := (if key in out then out[key] else 0) + m.amount], ms + [m], of)
  {
    var next := out[key := (if key in out then out[key] else 0) + m.amount];
    forall k ensures (k in next <==> Seen(ms + [m], of(k))) && Net(ms + [m], of(k)) == (if k in next then next[k] else 0) {
      NetSnoc(ms, m, of(k));
      assert k in out <==> Seen(ms, of(k));
    }
  }

  lemma {:induction false} TotalsSkip<K(!new)>(out: map<K, int>, ms: seq<Movement>, of: K -> (Movement -> bool), m: Movement)
    requires Totals(out, ms, of) && forall k :: !of(k)(m)
    ensures Totals(out, ms + [m], of)
  {
    forall k ensures (k in out <==> Seen(ms + [m], of(k))) && Net(ms + [m], of(k)) == (if k in out then out[k] else 0) {
      NetSnoc(ms, m, of(k));
      assert k in out <==> Seen(ms, of(k));
    }
  }

  function AccountsOn(d: Day): AccountKey -> (Movement -> bool) {
    k => OfAccount(d, k)
  }

  function CurrenciesOn(d: Day): string -> (Movement -> bool) {
    c => OfCurrency(d, c)
  }

  lemma {:induction false} AccountOnDay(d: Day, m: Movement, of: AccountKey -> (Movement -> bool))
    requires of == AccountsOn(d)
    ensures if m.businessDate == d then forall k :: of(k)(m) <==> k == (m.accountId, m.currency) else forall k :: !of(k)(m)
  {
  }

  method AccountTotals(ms: seq<Movement>, d: Day) returns (out: map<AccountKey, int>)
    ensures forall k :: k in out <==> k in KeysOf(OnDate(ms, d), AccountOf())
    ensures forall k | k in out :: out[k] == Net(ms, OfAccount(d, k))
    ensures forall k | k !in out :: Net(ms, OfAccount(d, k)) == 0
  {
    out := map[];
    ghost var of := AccountsOn(d);
    for i := 0 to |ms|
      invariant Totals(out, ms[..i], of)
    {
      assert ms[..i + 1] == ms[..i] + [ms[i]];
      AccountOnDay(d, ms[i], of);
      if ms[i].businessDate == d {
        var key := (ms[i].accountId, ms[i].currency);
        TotalsNext(out, ms[..i], of, ms[i], key);
        out := out[key := (if key in out then out[key] else 0) + ms[i].amount];
      } else {
        TotalsSkip(out, ms[..i], of, ms[i]);
      }
    }
    assert ms[..|ms|] == ms;
    AccountsSeen(ms, d, out);
  }

  lemma {:induction false} AccountsSeen(ms: seq<Movement>, d: Day, out: map<AccountKey, int>)
    requires Totals(out, ms, AccountsOn(d))
    ensures forall k :: k in out <==> k in KeysOf(OnDate(ms, d), AccountOf())
    ensures forall k :: Net(ms, OfAccount(d, k)) == if k in out then out[k] else 0
  {
    KeysOnDate(ms, d, AccountOf());
    forall k ensures (k in out <==> Seen(ms, OfAccount(d, k))) && Net(ms, OfAccount(d, k)) == (if k in out then out[k] else 0) {
      assert AccountsOn(d)(k) == OfAccount(d, k);
    }
  }

  lemma {:induction false} CurrencyOnDay(d: Day, m: Movement, of: string -> (Movement -> bool))
    requires of == CurrenciesOn(d)
    ensures if m.businessDate == d then forall k :: of(k)(m) <==> k == m.currency else forall k :: !of(k)(m)
  {
  }

  method CurrencyTotals(ms: seq<Movement>, d: Day) returns (out: map<string, int>)
    ensures forall c :: c in out <==> c in KeysOf(OnDate(ms, d), CurrencyOf())
    ensures forall c | c in out :: out[c] == Net(ms, OfCurrency(d, c))
    ensures forall c | c !in out :: Net(ms, OfCurrency(d, c)) == 0
  {
    out := map[];
    ghost var of := CurrenciesOn(d);
    for i := 0 to |ms|
      invariant Totals(out, ms[..i], of)
    {
      assert ms[..i + 1] == ms[..i] + [ms[i]];
      CurrencyOnDay(d, ms[i], of);
      if ms[i].businessDate == d {
        var key := ms[i].currency;
        TotalsNext(out, ms[..i], of, ms[i], key);
        out := out[key := (if key in out then out[key] else 0) + ms[i].amount];
      } else {
        TotalsSkip(out, ms[..i], of, ms[i]);
      }
    }
    assert ms[..|ms|] == ms;
    CurrenciesSeen(ms, d, out);
  }

  lemma {:induction false} CurrenciesSeen(ms: seq<Movement>, d: Day, out: map<string, int>)
    requires Totals(out, ms, CurrenciesOn(d))
    ensures forall c :: c in out <==> c in KeysOf(OnDate(ms, d), CurrencyOf())
    ensures forall c :: Net(ms, OfCurrency(d, c)) == if c in out then out[c] else 0
  {
    KeysOnDate(ms, d, CurrencyOf());
    forall c ensures (c in out <==> Seen(ms, OfCurrency(d, c))) && Net(ms, OfCurrency(d, c)) == (if c in out then out[c] else 0) {
      assert CurrenciesOn(d)(c) == OfCurrency(d, c);
    }
  }

  lemma {:induction false} KeysOnDate<K(!new)>(ms: seq<Movement>, d: Day, key: Movement -> K)
    ensures forall k :: k in KeysOf(OnDate(ms, d), key) <==> exists j | 0 <= j < |ms| :: ms[j].businessDate == d && key(ms[j]) == k
  {
    var dated := OnDate(ms, d);
    forall k ensures k in KeysOf(dated, key) <==> exists j | 0 <= j < |ms| :: ms[j].businessDate == d && key(ms[j]) == k {
      if k in KeysOf(dated, key) {
        var i :| 0 <= i < |dated| && key(dated[i]) == k;
        assert dated[i] in dated;
      }
      if j :| 0 <= j < |ms| && ms[j].businessDate == d && key(ms[j]) == k {
        assert ms[j] in dated;
        var i :| 0 <= i < |dated| && dated[i] == ms[j];
        assert KeysOf(dated, key)[i] == k;
      }
    }
  }

  method AccountDayGrain(legacy: seq<Movement>, shadow: seq<Movement>, d: Day, fees: set<nat>) returns (breaks: seq<Break>)
    ensures breaks == AccountDayBreaks(legacy, shadow, d, fees)
  {
    var left := AccountTotals(legacy, d);
    var right := AccountTotals(shadow, d);
    var keys := SortedKeys(OnDate(legacy, d), OnDate(shadow, d), AccountOf(), AccountKeyLe);
    breaks := [];
    for i := 0 to |keys|
      invariant breaks == Gather(keys[..i], AccountDayBreakAt(legacy, shadow, d, fees))
    {
      var lv := if keys[i] in left then left[keys[i]] else 0;
      var rv := if keys[i] in right then right[keys[i]] else 0;
      var b := AccountDayBreak(d, keys[i], lv, rv, shadow, fees);
      assert b == AccountDayBreakAt(legacy, shadow, d, fees)(keys[i]);
      GatherNext(keys, AccountDayBreakAt(legacy, shadow, d, fees), i);
      if b.Some? {
        breaks := breaks + [b.value];
      }
    }
    assert keys[..|keys|] == keys;
  }

  method ControlTotalGrain(legacy: seq<Movement>, shadow: seq<Movement>, d: Day) returns (breaks: seq<Break>)
    ensures breaks == ControlTotalBreaks(legacy, shadow, d)
  {
    var left := CurrencyTotals(legacy, d);
    var right := CurrencyTotals(shadow, d);
    var keys := SortedKeys(OnDate(legacy, d), OnDate(shadow, d), CurrencyOf(), StrLe);
    breaks := [];
    for i := 0 to |keys|
      invariant breaks == Gather(keys[..i], ControlTotalBreakAt(legacy, shadow, d))
    {
      var lv := if keys[i] in left then left[keys[i]] else 0;
      var rv := if keys[i] in right then right[keys[i]] else 0;
      var b := ControlTotalBreak(d, keys[i], lv, rv);
      assert b == ControlTotalBreakAt(legacy, shadow, d)(keys[i]);
      GatherNext(keys, ControlTotalBreakAt(legacy, shadow, d), i);
      if b.Some? {
        breaks := breaks + [b.value];
      }
    }
    assert keys[..|keys|] == keys;
  }

  /** all_grains for one date, the whole window given as the two sides. */
  method AllGrains(legacy: seq<Movement>, shadow: seq<Movement>, d: Day, fees: set<nat>) returns (breaks: seq<Break>)
    ensures breaks == TransactionBreaks(OnDate(legacy, d), OnDate(shadow, d), legacy, shadow, fees)
                      + AccountDayBreaks(legacy, shadow, d, fees) + ControlTotalBreaks(legacy, shadow, d)
  {
    var a := TransactionGrain(OnDate(legacy, d), OnDate(shadow, d), legacy, shadow, fees);
    var b := AccountDayGrain(legacy, shadow, d, fees);
    var c := ControlTotalGrain(legacy, shadow, d);
    return a + b + c;
  }
}
