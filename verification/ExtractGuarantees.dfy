/** What the reconciler learns from a file the legacy core wrote, whatever happened to it on the way. */
module ExtractGuarantees {
  import opened Options
  import opened Dates
  import opened DateText
  import opened Text
  import opened Sorting
  import opened Extracts
  import opened Ingest

  // ---------------------------------------------------------------- lines

  /** A line that survives newline splitting. */
  ghost predicate Solid(line: string) {
    line != "" && '\n' !in line
  }

  lemma {:induction false} NonEmptyKeeps(lines: seq<string>)
    requires forall i | 0 <= i < |lines| :: lines[i] != ""
    ensures NonEmpty(lines) == lines
    decreases |lines|
  {
    if lines != [] {
      NonEmptyKeeps(lines[..|lines| - 1]);
      Snoc(lines);
    }
  }

  lemma {:induction false} LinesOfDocument(lines: seq<string>)
    requires lines != [] && forall i | 0 <= i < |lines| :: Solid(lines[i])
    ensures Lines(Document(lines)) == lines
  {
    var closed := lines + [""];
    JoinSnoc(lines, "", '\n');
    assert Document(lines) == Join(closed, '\n');
    SplitJoin(closed, '\n');
    assert closed[..|closed| - 1] == lines;
    NonEmptyKeeps(lines);
  }

  // ---------------------------------------------------------------- header and rows

  lemma {:induction false} MinusReads(s: string)
    requires Digits(s)
    ensures ParseInt("-" + s) == Some(0 - NatValue(s))
  {
    assert ("-" + s)[1..] == s && ("-" + s)[0] == '-' && !IsDigit('-');
  }

  lemma {:induction false} Width3Reads(n: int)
    ensures ParseInt(Width3(n)) == Some(n)
  {
    if n < 0 {
      PadValue(NatText(-n), 2);
      NatRoundTrip(-n);
      MinusReads(Pad(NatText(-n), 2));
    } else {
      PadValue(NatText(n), 3);
      NatRoundTrip(n);
    }
  }

  lemma {:induction false} Width3Free(n: int, c: char)
    requires !IsDigit(c) && c != '-'
    ensures c !in Width3(n)
  {
    if n < 0 {
      FieldFree(-n, 2, c);
    } else {
      FieldFree(n, 3, c);
    }
  }

  /** Splitting a header or a row gives its fields back, on one solid line. */
  lemma {:induction false} FieldsRead(fields: seq<string>)
    requires |fields| > 1 && fields[0] != "" && Free(fields, '|') && Free(fields, '\n')
    ensures var line := Join(fields, '|'); Split(line, '|') == fields && Solid(line) && line[0] == fields[0][0]
  {
    SplitJoin(fields, '|');
    JoinFree(fields, '|', '\n');
    SplitHead(fields, '|');
  }

  /** The header reads back whenever its year has four digits. */
  lemma {:induction false} HeaderReads(date: Day, sequence: int, seed: int)
    requires YearOf(date) >= 1000
    ensures var h := HeaderText("TXN", date, sequence, seed);
            Solid(h) && !IsTrailer(h) && HeaderOf(h) == Ok(Header("TXN", date, sequence))
  {
    CompactRoundTrip(date);
    DateTextFree(date, '|');
    DateTextFree(date, '\n');
    HeaderLineReads(date, sequence, seed, Compact(date));
  }

  lemma {:induction false} HeaderLineReads(date: Day, sequence: int, seed: int, compact: string)
    requires ParseCompact(compact) == Some(date) && '|' !in compact && '\n' !in compact
    ensures var h := Join(["HDR", Extracts.MAGIC, "TXN", compact, Width3(sequence), IntText(seed)], '|');
            Solid(h) && !IsTrailer(h) && HeaderOf(h) == Ok(Header("TXN", date, sequence))
  {
    Width3Reads(sequence);
    Width3Free(sequence, '|');
    Width3Free(sequence, '\n');
    IntTextFree(seed, '|');
    IntTextFree(seed, '\n');
    FreeSix("HDR", Extracts.MAGIC, "TXN", compact, Width3(sequence), IntText(seed), '|');
    FreeSix("HDR", Extracts.MAGIC, "TXN", compact, Width3(sequence), IntText(seed), '\n');
    var fields := ["HDR", Extracts.MAGIC, "TXN", compact, Width3(sequence), IntText(seed)];
    FieldsRead(fields);
    HeaderFields(Join(fields, '|'), fields, date, sequence);
  }

  lemma {:induction false} HeaderFields(h: string, fields: seq<string>, date: Day, sequence: int)
    requires Split(h, '|') == fields && |fields| == 6 && fields[0] == "HDR" && fields[1] == Ingest.MAGIC && fields[2] == "TXN"
    requires ParseCompact(fields[3]) == Some(date) && ParseInt(fields[4]) == Some(sequence)
    ensures HeaderOf(h) == Ok(Header("TXN", date, sequence))
  {
  }

  /** The fields of a transaction may hold anything but the two separators; its currency is a registered one. */
  ghost predicate Clean(t: Txn) {
    && ScaleOf(t.currency).Some?
    && '|' !in t.txnId + t.accountId + t.kind && '\n' !in t.txnId + t.accountId + t.kind
  }

  function ToMovement(t: Txn): Movement {
    Movement(t.txnId, t.accountId, t.currency, t.amount, t.businessDate, t.valueDate, t.kind)
  }

  function Moves(ts: seq<Txn>): (r: seq<Movement>)
    ensures |r| == |ts| && forall i | 0 <= i < |ts| :: r[i] == ToMovement(ts[i])
  {
    seq(|ts|, i requires 0 <= i < |ts| => ToMovement(ts[i]))
  }

  lemma {:induction false} FreeTen(f0: string, f1: string, f2: string, f3: string, f4: string, f5: string, f6: string,
                                   f7: string, f8: string, f9: string, c: char)
    requires c !in f0 && c !in f1 && c !in f2 && c !in f3 && c !in f4
    requires c !in f5 && c !in f6 && c !in f7 && c !in f8 && c !in f9
    ensures Free([f0, f1, f2, f3, f4, f5, f6, f7, f8, f9], c)
  {
  }

  lemma {:induction false} FreeSix(f0: string, f1: string, f2: string, f3: string, f4: string, f5: string, c: char)
    requires c !in f0 && c !in f1 && c !in f2 && c !in f3 && c !in f4 && c !in f5
    ensures Free([f0, f1, f2, f3, f4, f5], c)
  {
  }

  lemma {:induction false} RowReads(t: Txn, scale: string, at: string, business: string, value: string)
    requires Clean(t) && ParseIso(business) == Some(t.businessDate) && ParseIso(value) == Some(t.valueDate)
    requires '|' !in scale && '|' !in at && '|' !in business && '|' !in value
    requires '\n' !in scale && '\n' !in at && '\n' !in business && '\n' !in value
    ensures var line := Join(DetailFields(t, scale, at, business, value), '|');
            Solid(line) && !IsTrailer(line) && RowOf(line) == Ok(Some(ToMovement(t)))
  {
    IntTextFree(t.amount, '|');
    IntTextFree(t.amount, '\n');
    FreeTen("DTL", t.txnId, t.accountId, t.currency, IntText(t.amount), scale, at, business, value, t.kind, '|');
    FreeTen("DTL", t.txnId, t.accountId, t.currency, IntText(t.amount), scale, at, business, value, t.kind, '\n');
    var fields := DetailFields(t, scale, at, business, value);
    FieldsRead(fields);
    IntRoundTrip(t.amount);
    RowFields(Join(fields, '|'), fields, t);
  }

  lemma {:induction false} RowFields(line: string, f: seq<string>, t: Txn)
    requires Split(line, '|') == f && |f| == 10 && f[0] == "DTL" && f[1] == t.txnId && f[2] == t.accountId
    requires f[3] == t.currency && ParseInt(f[4]) == Some(t.amount) && f[9] == t.kind
    requires ParseIso(f[7]) == Some(t.businessDate) && ParseIso(f[8]) == Some(t.valueDate)
    ensures RowOf(line) == Ok(Some(ToMovement(t)))
  {
  }

  /** A detail row reads back as the movement it came from. */
  lemma {:induction false} DetailReads(t: Txn)
    requires Clean(t)
    ensures Detail(t).Some?
    ensures var line := Detail(t).value; Solid(line) && !IsTrailer(line) && RowOf(line) == Ok(Some(ToMovement(t)))
  {
    var scale := ScaleOf(t.currency).value;
    IsoRoundTrip(t.businessDate);
    IsoRoundTrip(t.valueDate);
    TextsFree(t, scale, '|');
    TextsFree(t, scale, '\n');
    RowReads(t, IntText(scale), IsoMillis(t.postedAt), Iso(t.businessDate), Iso(t.valueDate));
  }

  lemma {:induction false} TextsFree(t: Txn, scale: nat, c: char)
    requires c == '|' || c == '\n'
    ensures c !in IntText(scale) && c !in IsoMillis(t.postedAt) && c !in Iso(t.businessDate) && c !in Iso(t.valueDate)
  {
    IntTextFree(scale, c);
    IsoMillisFree(t.postedAt, c);
    DateTextFree(t.businessDate, c);
    DateTextFree(t.valueDate, c);
  }

  lemma {:induction false} RowsRead(ts: seq<Txn>, text: Txn -> Option<string>, read: string -> Outcome<Option<Movement>>)
    requires forall i | 0 <= i < |ts| :: text(ts[i]).Some? && read(text(ts[i]).value) == Ok(Some(ToMovement(ts[i])))
    ensures Collect(ts, text).Some? && RowsOf(Collect(ts, text).value, read) == Ok(Moves(ts))
    decreases |ts|
  {
    if ts != [] {
      var front := ts[..|ts| - 1];
      RowsRead(front, text, read);
      var lines := Collect(ts, text).value;
      assert lines[..|lines| - 1] == Collect(front, text).value;
      assert Moves(ts) == Moves(front) + [ToMovement(ts[|ts| - 1])];
    }
  }

  ghost predicate AllClean(ts: seq<Txn>) {
    forall i | 0 <= i < |ts| :: Clean(ts[i])
  }

  lemma {:induction false} DetailsRead(ts: seq<Txn>)
    requires AllClean(ts)
    ensures var d := Collect(ts, Detail); d.Some? && |d.value| == |ts|
                                          && (forall i | 0 <= i < |ts| :: Solid(d.value[i]) && !IsTrailer(d.value[i]))
                                          && Movements("TXN", d.value) == Ok(Moves(ts))
  {
    forall i | 0 <= i < |ts|
      ensures Detail(ts[i]).Some?
      ensures var line := Detail(ts[i]).value; Solid(line) && !IsTrailer(line) && RowOf(line) == Ok(Some(ToMovement(ts[i])))
    {
      DetailReads(ts[i]);
    }
    RowsRead(ts, Detail, RowOf);
  }

  // ---------------------------------------------------------------- the trailer

  ghost predicate CleanItem(it: Item) {
    && it.currency != ""
    && '|' !in it.currency && '\n' !in it.currency && ':' !in it.currency && ';' !in it.currency
  }

  lemma {:induction false} SegmentReads(it: Item)
    requires CleanItem(it)
    ensures var s := ItemText(it);
            Segment(s) == Ok((it.currency, it.total)) && s != "" && '|' !in s && '\n' !in s && ';' !in s
  {
    var s := ItemText(it);
    IndexOfFirst(it.currency, IntText(it.total), ':');
    assert s == it.currency + [':'] + IntText(it.total);
    assert s[..|it.currency|] == it.currency && s[|it.currency| + 1..] == IntText(it.total);
    IntRoundTrip(it.total);
    IntTextFree(it.total, '|');
    IntTextFree(it.total, '\n');
    IntTextFree(it.total, ';');
  }

  lemma {:induction false} SegmentsRead(items: seq<Item>)
    requires forall i | 0 <= i < |items| :: CleanItem(items[i])
    ensures Segments(ItemTexts(items)) == Ok(AsMap(items))
    decreases |items|
  {
    if items != [] {
      var front := items[..|items| - 1];
      SegmentsRead(front);
      assert ItemTexts(items)[..|items| - 1] == ItemTexts(front);
      SegmentReads(items[|items| - 1]);
    }
  }

  lemma {:induction false} ControlTotalReads(items: seq<Item>)
    requires forall i | 0 <= i < |items| :: CleanItem(items[i])
    ensures var field := Join(ItemTexts(items), ';');
            ControlTotalField(field) == Ok(AsMap(items)) && '|' !in field && '\n' !in field
  {
    var texts := ItemTexts(items);
    forall i | 0 <= i < |items| ensures texts[i] != "" && '|' !in texts[i] && '\n' !in texts[i] && ';' !in texts[i] {
      SegmentReads(items[i]);
    }
    JoinFree(texts, ';', '|');
    JoinFree(texts, ';', '\n');
    SegmentsRead(items);
    if items != [] {
      SplitJoin(texts, ';');
    }
  }

  /** A trailer reads back as its count and its mapping. */
  lemma {:induction false} TrailerReads(count: int, items: seq<Item>)
    requires UniqueKeys(items) && forall i | 0 <= i < |items| :: CleanItem(items[i])
    ensures var t := TrailerText(count, items);
            Solid(t) && IsTrailer(t) && TrailerOf(t) == Ok((count, AsMap(items)))
  {
    var sorted := Sort(items, ItemLe);
    SortPermutes(items, ItemLe);
    forall i | 0 <= i < |sorted| ensures CleanItem(sorted[i]) {
      SameElements(sorted, items, sorted[i]);
    }
    SortKeepsMap(items);
    ControlTotalReads(sorted);
    TrailerLineReads(count, Join(ItemTexts(sorted), ';'), AsMap(items));
  }

  lemma {:induction false} TrailerLineReads(count: int, field: string, total: map<string, int>)
    requires ControlTotalField(field) == Ok(total) && '|' !in field && '\n' !in field
    ensures var t := Join(["TRL", IntText(count), field], '|');
            Solid(t) && IsTrailer(t) && TrailerOf(t) == Ok((count, total))
  {
    var fields := ["TRL", IntText(count), field];
    IntRoundTrip(count);
    IntTextFree(count, '|');
    IntTextFree(count, '\n');
    FieldsRead(fields);
    SplitHead(fields, '|');
  }

  // ---------------------------------------------------------------- totals

  lemma {:induction false} AsMapCons(a: Item, rest: seq<Item>)
    ensures AsMap([a] + rest) == map[a.currency := a.total] + AsMap(rest)
    decreases |rest|
  {
    if rest == [] {
      assert [a] + rest == [a] && [a][..0] == [];
    } else {
      AsMapCons(a, rest[..|rest| - 1]);
      assert ([a] + rest)[..|rest|] == [a] + rest[..|rest| - 1];
    }
  }

  lemma {:induction false} AddPast(a: Item, rest: seq<Item>, added: seq<Item>, x: Item)
    requires a.currency != x.currency && AsMap(added) == Bump(AsMap(rest), x.currency, x.total)
    ensures AsMap([a] + added) == Bump(AsMap([a] + rest), x.currency, x.total)
  {
    AsMapCons(a, rest);
    AsMapCons(a, added);
  }

  lemma {:induction false} AddHere(a: Item, rest: seq<Item>, x: int)
    requires forall k | 0 <= k < |rest| :: rest[k].currency != a.currency
    ensures AsMap([Item(a.currency, a.total + x)] + rest) == Bump(AsMap([a] + rest), a.currency, x)
  {
    MapHolds(rest, a.currency);
    AsMapCons(a, rest);
    AsMapCons(Item(a.currency, a.total + x), rest);
  }

  lemma {:induction false} AddToMap(items: seq<Item>, x: Item)
    requires UniqueKeys(items)
    ensures AsMap(AddTo(items, x)) == Bump(AsMap(items), x.currency, x.total)
    decreases |items|
  {
    if items == [] {
      assert [x][..0] == [];
    } else {
      assert items == [items[0]] + items[1..];
      if items[0].currency == x.currency {
        HeadIsAlone(items);
        AddHere(items[0], items[1..], x.total);
      } else {
        AddToMap(items[1..], x);
        AddPast(items[0], items[1..], AddTo(items[1..], x), x);
      }
    }
  }

  lemma {:induction false} HeadIsAlone(items: seq<Item>)
    requires UniqueKeys(items) && items != []
    ensures forall k | 0 <= k < |items[1..]| :: items[1..][k].currency != items[0].currency
  {
  }

  /** The writer's control total and the reader's totals are the same mapping. */
  lemma {:induction false} TotalsAgree(ts: seq<Txn>)
    ensures AsMap(ControlTotal(Rows(ts))) == Totals(Moves(ts))
    decreases |ts|
  {
    if ts != [] {
      var front := ts[..|ts| - 1];
      TotalsAgree(front);
      assert Rows(ts)[..|ts| - 1] == Rows(front) && Moves(ts)[..|ts| - 1] == Moves(front);
      ControlTotalKeys(Rows(front));
      AddToMap(ControlTotal(Rows(front)), Row(ts[|ts| - 1]));
    }
  }

  lemma {:induction false} ControlTotalIsClean(ts: seq<Txn>)
    requires AllClean(ts)
    ensures forall k | 0 <= k < |ControlTotal(Rows(ts))| :: CleanItem(ControlTotal(Rows(ts))[k])
    decreases |ts|
  {
    if ts != [] {
      var front := ts[..|ts| - 1];
      ControlTotalIsClean(front);
      assert Rows(ts)[..|ts| - 1] == Rows(front);
      KnownIsClean(Row(ts[|ts| - 1]));
    }
  }

  lemma {:induction false} KnownIsClean(it: Item)
    requires ScaleOf(it.currency).Some?
    ensures CleanItem(it)
  {
  }

  // ---------------------------------------------------------------- whole files

  /** The file a core writes for the claimed transactions, holding the detail lines given. */
  function FileOf(date: Day, sequence: int, seed: int, details: seq<string>, claimed: seq<Txn>): string {
    Document([HeaderText("TXN", date, sequence, seed)] + details + [TrailerText(|claimed|, ControlTotal(Rows(claimed)))])
  }

  /** Reading a header, any rows and a trailer, each readable. */
  lemma {:induction false} FramedReads(h: string, head: Header, details: seq<string>, ms: seq<Movement>, t: string,
                                       count: int, total: map<string, int>)
    requires Solid(h) && HeaderOf(h) == Ok(head) && Solid(t) && IsTrailer(t) && TrailerOf(t) == Ok((count, total))
    requires (forall i | 0 <= i < |details| :: Solid(details[i])) && Movements(head.extractType, details) == Ok(ms)
    ensures var body := Document([h] + details + [t]);
            Parse(body) == Ok(IngestResult(head.extractType, head.businessDate, head.sequence,
                                           StatusFor(|ms|, Totals(ms), count, total), |ms|, count, Totals(ms), total, ms, body))
  {
    var lines := [h] + details + [t];
    LinesOfDocument(lines);
    assert Middle(lines) == details;
  }

  /** The verdict on a file whose rows may have changed since its trailer was written: the movements are exactly the
      rows present, and the status compares their number and their per-currency totals with the claim. */
  lemma {:induction false} VerdictOnRows(rows: seq<Txn>, claimed: seq<Txn>, date: Day, sequence: int, seed: int)
    requires AllClean(rows) && AllClean(claimed) && YearOf(date) >= 1000
    ensures Collect(rows, Detail).Some?
    ensures var body := FileOf(date, sequence, seed, Collect(rows, Detail).value, claimed);
            Parse(body) == Ok(IngestResult("TXN", date, sequence,
                                           if |rows| < |claimed| then Truncated
                                           else if |rows| == |claimed| && Totals(Moves(rows)) == Totals(Moves(claimed)) then Accepted
                                           else TrailerMismatch,
                                           |rows|, |claimed|, Totals(Moves(rows)), Totals(Moves(claimed)), Moves(rows), body))
  {
    DetailsRead(rows);
    HeaderReads(date, sequence, seed);
    var items := ControlTotal(Rows(claimed));
    ControlTotalKeys(Rows(claimed));
    ControlTotalIsClean(claimed);
    TotalsAgree(claimed);
    TrailerReads(|claimed|, items);
    FramedReads(HeaderText("TXN", date, sequence, seed), Header("TXN", date, sequence), Collect(rows, Detail).value,
                Moves(rows), TrailerText(|claimed|, items), |claimed|, AsMap(items));
  }

  lemma {:induction false} SortKeepsClean(ts: seq<Txn>)
    requires AllClean(ts)
    ensures AllClean(Sort(ts, RowLe)) && SortedBy(Sort(ts, RowLe), RowLe) && multiset(Sort(ts, RowLe)) == multiset(ts)
  {
    var s := Sort(ts, RowLe);
    RowLeTotal();
    SortPermutes(ts, RowLe);
    SortSorts(ts, RowLe);
    forall i | 0 <= i < |s| ensures Clean(s[i]) {
      SameElements(s, ts, s[i]);
    }
  }

  /** Round trip: every list of clean transactions renders, and the file is accepted as exactly their sorted movements. */
  lemma {:induction false} RoundTrip(ts: seq<Txn>, date: Day, seed: int, sequence: int)
    requires AllClean(ts) && YearOf(date) >= 1000
    ensures var e := Extract(ts, date, seed, sequence);
            var sorted := Sort(ts, RowLe);
            && SortedBy(sorted, RowLe) && multiset(sorted) == multiset(ts)
            && e.Some?
            && Parse(e.value) == Ok(IngestResult("TXN", date, sequence, Accepted, |ts|, |ts|, Totals(Moves(sorted)),
                                                 Totals(Moves(sorted)), Moves(sorted), e.value))
  {
    SortKeepsClean(ts);
    VerdictOnRows(Sort(ts, RowLe), Sort(ts, RowLe), date, sequence, seed);
  }

  /** The rows whose mark is set, in order. */
  function Keep<T>(s: seq<T>, mask: seq<bool>): (r: seq<T>)
    requires |s| == |mask|
    ensures |r| <= |s| && (false in mask ==> |r| < |s|)
    ensures forall x | x in r :: x in s
  {
    if s == [] then [] else
      var n := |s| - 1;
      assert mask == mask[..n] + [mask[n]];
      Keep(s[..n], mask[..n]) + if mask[n] then [s[n]] else []
  }

  /** Deleting any non-empty set of detail rows marks the file truncated, and what is left is still read exactly. */
  lemma {:induction false} MissingRowsAreNoticed(ts: seq<Txn>, mask: seq<bool>, date: Day, seed: int, sequence: int)
    requires AllClean(ts) && YearOf(date) >= 1000 && |mask| == |ts| && false in mask
    ensures var sorted := Sort(ts, RowLe);
            var kept := Keep(sorted, mask);
            && Collect(kept, Detail).Some?
            && var r := Parse(FileOf(date, sequence, seed, Collect(kept, Detail).value, sorted));
               r.Ok? && r.value.status == Truncated && r.value.movements == Moves(kept) && r.value.declaredCount == |ts|
  {
    SortKeepsClean(ts);
    var kept := Keep(Sort(ts, RowLe), mask);
    assert forall i | 0 <= i < |kept| :: kept[i] in kept;
    VerdictOnRows(kept, Sort(ts, RowLe), date, sequence, seed);
  }

  /** A file cut after any number of whole rows, its trailer never written, is truncated too. */
  lemma {:induction false} MissingTrailerIsNoticed(rows: seq<Txn>, date: Day, seed: int, sequence: int)
    requires AllClean(rows) && YearOf(date) >= 1000
    ensures Collect(rows, Detail).Some?
    ensures var body := Document([HeaderText("TXN", date, sequence, seed)] + Collect(rows, Detail).value);
            Parse(body) == Ok(IngestResult("TXN", date, sequence, Truncated, |rows|, -1, Totals(Moves(rows)), map[], Moves(rows), body))
  {
    DetailsRead(rows);
    HeaderReads(date, sequence, seed);
    HeadlessReads(HeaderText("TXN", date, sequence, seed), Header("TXN", date, sequence), Collect(rows, Detail).value, Moves(rows));
  }

  lemma {:induction false} HeadlessReads(h: string, head: Header, details: seq<string>, ms: seq<Movement>)
    requires Solid(h) && !IsTrailer(h) && HeaderOf(h) == Ok(head)
    requires (forall i | 0 <= i < |details| :: Solid(details[i]) && !IsTrailer(details[i])) && Movements(head.extractType, details) == Ok(ms)
    ensures var body := Document([h] + details);
            Parse(body) == Ok(IngestResult(head.extractType, head.businessDate, head.sequence, Truncated, |ms|, -1, Totals(ms), map[], ms, body))
  {
    var lines := [h] + details;
    LinesOfDocument(lines);
    assert lines[1..] == details;
  }

  lemma {:induction false} LastCharacter(lines: seq<string>)
    requires lines != [] && Solid(lines[|lines| - 1])
    ensures var text := Join(lines, '\n'); text != "" && text[|text| - 1] != '\n'
  {
    if |lines| > 1 {
      Snoc(lines);
      JoinSnoc(lines[..|lines| - 1], lines[|lines| - 1], '\n');
    }
  }

  lemma {:induction false} StrippedClosed(text: string)
    requires text != "" && text[|text| - 1] != '\n'
    ensures Stripped(text + "\n") == text
  {
    assert (text + "\n")[..|text|] == text;
  }

  lemma {:induction false} TruncateDocument(h: string, details: seq<string>, t: string, num: int, den: int)
    requires Solid(h) && Solid(t) && (forall i | 0 <= i < |details| :: Solid(details[i])) && den > 0
    ensures TruncateExtract(Document([h] + details + [t]), num, den) == Document([h] + Upto(details, Kept(|details|, num, den)) + [t])
  {
    var lines := [h] + details + [t];
    LastCharacter(lines);
    StrippedClosed(Join(lines, '\n'));
    SplitJoin(lines, '\n');
    assert lines[1..|lines| - 1] == details;
  }

  lemma {:induction false} CollectPrefix(ts: seq<Txn>, k: nat, text: Txn -> Option<string>)
    requires k <= |ts| && Collect(ts, text).Some?
    ensures Collect(ts[..k], text) == Some(Collect(ts, text).value[..k])
  {
    assert Collect(ts[..k], text).Some?;
    assert Collect(ts[..k], text).value == Collect(ts, text).value[..k];
  }

  /** The truncated file is the one holding the first rows only. */
  lemma {:induction false} TruncatedExtract(ts: seq<Txn>, date: Day, seed: int, sequence: int, num: int, den: int)
    requires AllClean(ts) && YearOf(date) >= 1000 && den > 0
    ensures var e, rows := Extract(ts, date, seed, sequence), Sort(ts, RowLe);
            && e.Some? && Collect(Upto(rows, Kept(|ts|, num, den)), Detail).Some?
            && TruncateExtract(e.value, num, den)
               == FileOf(date, sequence, seed, Collect(Upto(rows, Kept(|ts|, num, den)), Detail).value, rows)
  {
    var rows := Sort(ts, RowLe);
    SortKeepsClean(ts);
    DetailsRead(rows);
    HeaderReads(date, sequence, seed);
    ControlTotalKeys(Rows(rows));
    ControlTotalIsClean(rows);
    TrailerReads(|rows|, ControlTotal(Rows(rows)));
    TruncateDocument(HeaderText("TXN", date, sequence, seed), Collect(rows, Detail).value,
                     TrailerText(|rows|, ControlTotal(Rows(rows))), num, den);
    if Kept(|ts|, num, den) < |ts| {
      CollectPrefix(rows, Kept(|ts|, num, den), Detail);
    }
  }

  /** The file is marked truncated, with these movements, against this many declared. */
  ghost predicate MarkedTruncated(body: string, ms: seq<Movement>, declared: int) {
    var r := Parse(body);
    r.Ok? && r.value.status == Truncated && r.value.movements == ms && r.value.declaredCount == declared
  }

  lemma {:induction false} FirstRowsOnly(rows: seq<Txn>, k: nat, date: Day, seed: int, sequence: int, body: string)
    requires AllClean(rows) && YearOf(date) >= 1000 && k < |rows| && Collect(rows[..k], Detail).Some?
    requires body == FileOf(date, sequence, seed, Collect(rows[..k], Detail).value, rows)
    ensures MarkedTruncated(body, Moves(rows[..k]), |rows|)
  {
    VerdictOnRows(rows[..k], rows, date, sequence, seed);
  }

  /** The truncation scenario: the file is marked truncated exactly when a row was cut, and is otherwise the same bytes. */
  lemma {:induction false} TruncationIsNoticed(ts: seq<Txn>, date: Day, seed: int, sequence: int, num: int, den: int, k: nat)
    requires AllClean(ts) && YearOf(date) >= 1000 && den > 0 && k == Kept(|ts|, num, den)
    ensures var e := Extract(ts, date, seed, sequence);
            && e.Some?
            && if k < |ts| then MarkedTruncated(TruncateExtract(e.value, num, den), Moves(Sort(ts, RowLe)[..k]), |ts|)
               else TruncateExtract(e.value, num, den) == e.value
  {
    TruncatedExtract(ts, date, seed, sequence, num, den);
    var body := TruncateExtract(Extract(ts, date, seed, sequence).value, num, den);
    if k < |ts| {
      SortKeepsClean(ts);
      FirstRowsOnly(Sort(ts, RowLe), k, date, seed, sequence, body);
    }
  }

  // ---------------------------------------------------------------- redelivery

  /** The inbox after a run of deliveries. */
  function SeenAfter(rs: seq<IngestResult>): map<Key, string> {
    if rs == [] then map[] else SeenAfter(rs[..|rs| - 1])[KeyOf(rs[|rs| - 1]) := rs[|rs| - 1].body]
  }

  /** The latest delivery of an identity is the last one, and the inbox holds exactly its bytes. */
  lemma {:induction false} InboxHoldsTheLatest(rs: seq<IngestResult>, key: Key)
    ensures key in SeenAfter(rs) <==> exists i | 0 <= i < |rs| :: KeyOf(rs[i]) == key
    ensures forall i | 0 <= i < |rs| && KeyOf(rs[i]) == key && (forall j | i < j < |rs| :: KeyOf(rs[j]) != key) :: SeenAfter(rs)[key] == rs[i].body
    decreases |rs|
  {
    if rs != [] {
      var front := rs[..|rs| - 1];
      InboxHoldsTheLatest(front, key);
      assert forall i | 0 <= i < |front| :: front[i] == rs[i];
    }
  }

  /** After any run of deliveries: late can only be the first of its identity, a duplicate is exactly a repeat of the
      bytes delivered last, and a corrected file keeps its own status. */
  lemma {:induction false} OfferVerdict(rs: seq<IngestResult>, r: IngestResult, on: Day, last: nat)
    ensures (forall i | 0 <= i < |rs| :: KeyOf(rs[i]) != KeyOf(r))
            ==> Offered(SeenAfter(rs), r, on) == if on > r.businessDate then r.(status := Late) else r
    ensures last < |rs| && KeyOf(rs[last]) == KeyOf(r) && (forall j | last < j < |rs| :: KeyOf(rs[j]) != KeyOf(r))
            ==> Offered(SeenAfter(rs), r, on) == if r.body == rs[last].body then r.(status := Duplicate) else r
  {
    InboxHoldsTheLatest(rs, KeyOf(r));
  }
}
