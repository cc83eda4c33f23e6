/** legacy_sim.extracts: the end-of-day TXN file -- header, sorted detail rows, trailer with per-currency totals. */
module Extracts {
  import opened Options
  import opened Dates
  import opened DateText
  import opened Sorting
  import opened Text

  const MAGIC := "SHADOWBOOK"

  datatype Txn = Txn(txnId: string, accountId: string, currency: string, amount: int, postedAt: Instant,
                     valueDate: Day, businessDate: Day, kind: string, counterparty: string, trueHundredths: Option<int>)

  /** One (currency, amount) pair: a row's contribution, or an item of the control-total dictionary in insertion order. */
  datatype Item = Item(currency: string, total: int)

  /** scale_of: a currency outside the registry raises. */
  function ScaleOf(currency: string): Option<nat> {
    if currency == "USD" || currency == "EUR" then Some(2) else if currency == "JPY" then Some(0) else None
  }

  // ---------------------------------------------------------------- orders

  /** key=lambda t: (t.posted_at, t.txn_id). */
  predicate RowLe(a: Txn, b: Txn) {
    a.postedAt < b.postedAt || (a.postedAt == b.postedAt && StrLe(a.txnId, b.txnId))
  }

  /** Tuple ordering of dict items. */
  predicate ItemLe(a: Item, b: Item) {
    if a.currency == b.currency then a.total <= b.total else StrLe(a.currency, b.currency)
  }

  lemma {:induction false} RowLeTotal()
    ensures Total(RowLe)
  {
    forall a: Txn, b: Txn ensures RowLe(a, b) || RowLe(b, a) {
      StrLeTotal(a.txnId, b.txnId);
    }
    forall a: Txn, b: Txn, c: Txn | RowLe(a, b) && RowLe(b, c) ensures RowLe(a, c) {
      if a.postedAt == b.postedAt == c.postedAt {
        StrLeTransitive(a.txnId, b.txnId, c.txnId);
      }
    }
  }

  // ---------------------------------------------------------------- control totals

  /** out[currency] = out.get(currency, 0) + minor, on an insertion-ordered dictionary. */
  function AddTo(items: seq<Item>, x: Item): (r: seq<Item>)
    ensures forall k | 0 <= k < |r| :: r[k].currency == x.currency || exists j | 0 <= j < |items| :: items[j].currency == r[k].currency
  {
    if items == [] then [x]
    else if items[0].currency == x.currency then [Item(x.currency, items[0].total + x.total)] + items[1..]
    else [items[0]] + AddTo(items[1..], x)
  }

  /** _control_total over rows in order. */
  function ControlTotal(rows: seq<Item>): seq<Item> {
    if rows == [] then [] else AddTo(ControlTotal(rows[..|rows| - 1]), rows[|rows| - 1])
  }

  /** The mapping an item list stands for. */
  function AsMap(items: seq<Item>): map<string, int> {
    if items == [] then map[] else AsMap(items[..|items| - 1])[items[|items| - 1].currency := items[|items| - 1].total]
  }

  ghost predicate UniqueKeys(items: seq<Item>) {
    forall i, j | 0 <= i < j < |items| :: items[i].currency != items[j].currency
  }

  function Row(t: Txn): Item {
    Item(t.currency, t.amount)
  }

  function Rows(ts: seq<Txn>): (r: seq<Item>)
    ensures |r| == |ts| && forall i | 0 <= i < |ts| :: r[i] == Row(ts[i])
  {
    seq(|ts|, i requires 0 <= i < |ts| => Row(ts[i]))
  }

  // ---------------------------------------------------------------- rendering

  function ItemText(it: Item): string {
    it.currency + ":" + IntText(it.total)
  }

  function ItemTexts(items: seq<Item>): (r: seq<string>)
    ensures |r| == |items| && forall i | 0 <= i < |items| :: r[i] == ItemText(items[i])
  {
    seq(|items|, i requires 0 <= i < |items| => ItemText(items[i]))
  }

  /** Trailer.render. */
  function TrailerText(count: int, items: seq<Item>): string {
    Join(["TRL", IntText(count), Join(ItemTexts(Sort(items, ItemLe)), ';')], '|')
  }

  /** f"{n:03d}": the sign takes one of the three places. */
  function Width3(n: int): string {
    if n < 0 then "-" + Pad(NatText(-n), 2) else Pad(NatText(n), 3)
  }

  function HeaderText(extractType: string, date: Day, sequence: int, seed: int): string {
    Join(["HDR", MAGIC, extractType, Compact(date), Width3(sequence), IntText(seed)], '|')
  }

  /** A detail row's fields, given the texts of its scale and dates. */
  function DetailFields(t: Txn, scale: string, at: string, business: string, value: string): seq<string> {
    ["DTL", t.txnId, t.accountId, t.currency, IntText(t.amount), scale, at, business, value, t.kind]
  }

  /** _txn_detail; None where scale_of raises. */
  function Detail(t: Txn): Option<string> {
    match ScaleOf(t.currency)
    case None => None
    case Some(scale) => 
      Some(Join(DetailFields(t, IntText(scale), IsoMillis(t.postedAt), Iso(t.businessDate), Iso(t.valueDate)), '|'))
  }

  /** The lines of a generator that raises at the first row it cannot render. */
  function Collect(ts: seq<Txn>, text: Txn -> Option<string>): (r: Option<seq<string>>)
    ensures r.Some? <==> forall i | 0 <= i < |ts| :: text(ts[i]).Some?
    ensures r.Some? ==> |r.value| == |ts| && forall i | 0 <= i < |ts| :: r.value[i] == text(ts[i]).value
  {
    if ts == [] then Some([]) else
      match Collect(ts[..|ts| - 1], text)
      case None => None
      case Some(lines) =>
        match text(ts[|ts| - 1])
        case None => None
        case Some(line) => Some(lines + [line])
  }

  /** Lines joined and closed by a newline. */
  function Document(lines: seq<string>): string {
    Join(lines, '\n') + "\n"
  }

  /** The bytes of a TXN extract. */
  function Extract(ts: seq<Txn>, date: Day, seed: int, sequence: int): Option<string> {
    var ordered := Sort(ts, RowLe);
    match Collect(ordered, Detail)
    case None => None
    case Some(details) =>
      Some(Document([HeaderText("TXN", date, sequence, seed)] + details
                    + [TrailerText(|ordered|, ControlTotal(Rows(ordered)))]))
  }

  method DetailLines(ts: seq<Txn>, text: Txn -> Option<string>) returns (r: Option<seq<string>>)
    ensures r == Collect(ts, text)
  {
    var lines := [];
    for i := 0 to |ts|
      invariant Collect(ts[..i], text) == Some(lines)
    {
      var line := text(ts[i]);
      if line.None? {
        return None;
      }
      assert ts[..i + 1][..i] == ts[..i];
      lines := lines + [line.value];
    }
    assert ts[..|ts|] == ts;
    return Some(lines);
  }

  method ControlTotalOf(rows: seq<Item>) returns (r: seq<Item>)
    ensures r == ControlTotal(rows)
  {
    r := [];
    for i := 0 to |rows|
      invariant r == ControlTotal(rows[..i])
    {
      assert rows[..i + 1][..i] == rows[..i];
      r := AddTo(r, rows[i]);
    }
    assert rows[..|rows|] == rows;
  }

  /** render_txn_extract; None where it raises. */
  method RenderTxnExtract(ts: seq<Txn>, date: Day, seed: int, sequence: int) returns (r: Option<string>)
    ensures r == Extract(ts, date, seed, sequence)
  {
    var ordered := Sort(ts, RowLe);
    var details := DetailLines(ordered, Detail);
    if details.None? {
      return None;
    }
    var total := ControlTotalOf(Rows(ordered));
    return Some(Document([HeaderText("TXN", date, sequence, seed)] + details.value + [TrailerText(|ordered|, total)]));
  }

  /** body.rstrip("\n"). */
  function Stripped(body: string): string {
    if body != "" && body[|body| - 1] == '\n' then Stripped(body[..|body| - 1]) else body
  }

  /** max(1, int(n * keep_fraction)), the fraction taken as a rational. */
  function Kept(n: nat, num: int, den: int): (k: nat)
    requires den > 0
    ensures k >= 1
  {
    if n * num / den < 1 then 1 else n * num / den
  }

  /** truncate_extract: detail rows cut short, the trailer left claiming the original count. */
  function TruncateExtract(body: string, num: int, den: int): string
    requires den > 0
  {
    var lines := Split(Stripped(body), '\n');
    var details := if |lines| < 2 then [] else lines[1..|lines| - 1];
    Document([lines[0]] + Upto(details, Kept(|details|, num, den)) + [lines[|lines| - 1]])
  }

  /** s[:k]. */
  function Upto<T>(s: seq<T>, k: nat): seq<T> {
    if k < |s| then s[..k] else s
  }

  // ---------------------------------------------------------------- facts about the pieces

  lemma {:induction false} AddToKeepsKeys(items: seq<Item>, x: Item)
    requires UniqueKeys(items)
    ensures UniqueKeys(AddTo(items, x))
    decreases |items|
  {
    if items != [] && items[0].currency != x.currency {
      AddToKeepsKeys(items[1..], x);
    }
  }

  lemma {:induction false} ControlTotalKeys(rows: seq<Item>)
    ensures UniqueKeys(ControlTotal(rows))
    decreases |rows|
  {
    if rows != [] {
      ControlTotalKeys(rows[..|rows| - 1]);
      AddToKeepsKeys(ControlTotal(rows[..|rows| - 1]), rows[|rows| - 1]);
    }
  }

  ghost predicate Consistent(items: seq<Item>) {
    forall i, j | 0 <= i < |items| && 0 <= j < |items| && items[i].currency == items[j].currency :: items[i] == items[j]
  }

  lemma {:induction false} MapHolds(items: seq<Item>, c: string)
    ensures c in AsMap(items) ==> Item(c, AsMap(items)[c]) in items
    decreases |items|
  {
    if items != [] {
      MapHolds(items[..|items| - 1], c);
    }
  }

  lemma {:induction false} ItemIsMapped(items: seq<Item>, i: nat)
    requires Consistent(items) && i < |items|
    ensures items[i].currency in AsMap(items) && AsMap(items)[items[i].currency] == items[i].total
    decreases |items|
  {
    if i < |items| - 1 {
      ItemIsMapped(items[..|items| - 1], i);
    }
  }

  /** Sorting the items changes the text, not the mapping. */
  lemma {:induction false} SortKeepsMap(items: seq<Item>)
    requires UniqueKeys(items)
    ensures AsMap(Sort(items, ItemLe)) == AsMap(items)
  {
    var s := Sort(items, ItemLe);
    SortPermutes(items, ItemLe);
    forall i | 0 <= i < |s| ensures s[i] in items {
      SameElements(s, items, s[i]);
    }
    SubMap(s, items);
    forall i | 0 <= i < |items| ensures items[i] in s {
      SameElements(items, s, items[i]);
    }
    SubMap(items, s);
  }

  lemma {:induction false} SubMap(s: seq<Item>, t: seq<Item>)
    requires Consistent(t) && forall i | 0 <= i < |s| :: s[i] in t
    ensures forall c | c in AsMap(s) :: c in AsMap(t) && AsMap(t)[c] == AsMap(s)[c]
  {
    forall c | c in AsMap(s) ensures c in AsMap(t) && AsMap(t)[c] == AsMap(s)[c] {
      MapHolds(s, c);
      var i :| 0 <= i < |t| && t[i] == Item(c, AsMap(s)[c]);
      ItemIsMapped(t, i);
    }
  }

  /** FR-S6: the bytes do not depend on the order the transactions were handed over in. */
  lemma {:induction false} BytesAreDeterministic(s: seq<Txn>, t: seq<Txn>, date: Day, seed: int, sequence: int)
    requires multiset(s) == multiset(t)
    requires forall i, j | 0 <= i < |s| && 0 <= j < |s| && s[i].postedAt == s[j].postedAt && s[i].txnId == s[j].txnId :: s[i] == s[j]
    ensures Sort(s, RowLe) == Sort(t, RowLe)
    ensures Extract(s, date, seed, sequence) == Extract(t, date, seed, sequence)
  {
    RowLeTotal();
    forall i, j | 0 <= i < |s| && 0 <= j < |s| && RowLe(s[i], s[j]) && RowLe(s[j], s[i]) ensures s[i] == s[j] {
      StrLeTotal(s[i].txnId, s[j].txnId);
    }
    SortIsCanonical(s, t, RowLe);
  }
}
