/** A file cut short at any byte: the reader accepts it only when nothing that matters is missing. */
module ExtractCuts {
  import opened Options
  import opened Dates
  import opened Text
  import opened Sorting
  import opened Extracts
  import opened Ingest
  import opened ExtractGuarantees

  // ---------------------------------------------------------------- cutting numbers

  /** A number loses value with every digit cut from its end. */
  lemma {:induction false} NatPrefix(n: nat, p: nat)
    requires 0 < p < |NatText(n)|
    ensures Digits(NatText(n)[..p]) && NatValue(NatText(n)[..p]) < n
    decreases n
  {
    var high := NatText(n / 10);
    assert n >= 10;
    assert NatText(n)[..p] == high[..p];
    if p == |high| {
      assert high[..p] == high;
      NatRoundTrip(n / 10);
    } else {
      NatPrefix(n / 10, p);
    }
  }

  lemma {:induction false} IntPrefix(n: int, p: nat)
    requires p < |IntText(n)|
    ensures ParseInt(IntText(n)[..p]) != Some(n)
  {
    var s := IntText(n)[..p];
    if n >= 0 {
      if p > 0 {
        NatPrefix(n, p);
      }
    } else if p > 1 {
      NatPrefix(-n, p - 1);
      assert s == "-" + NatText(-n)[..p - 1];
      MinusReads(NatText(-n)[..p - 1]);
    } else if p == 1 {
      assert s == "-" && s[1..] == "" && !IsDigit(s[0]);
    }
  }

  // ---------------------------------------------------------------- cutting joined text

  /** Where a cut after n characters falls: in which part, and how far into it. */
  function Cut(parts: seq<string>, n: nat): (r: (nat, nat))
    requires parts != []
    ensures r.0 < |parts|
    decreases |parts|
  {
    if |parts| == 1 || n <= |parts[0]| then (0, n) else
      var rest := Cut(parts[1..], n - |parts[0]| - 1);
      (rest.0 + 1, rest.1)
  }

  /** The parts left by a cut: whole ones, then one cut short. */
  function Left(parts: seq<string>, k: nat, m: nat): (r: seq<string>)
    requires k < |parts| && m <= |parts[k]|
    ensures |r| == k + 1
  {
    parts[..k] + [parts[k][..m]]
  }

  /** The parts left join to the text left, and only a cut past the last character leaves every part whole. */
  ghost predicate CutOk(parts: seq<string>, k: nat, m: nat, n: nat, c: char) {
    && k < |parts| && m <= |parts[k]| && n <= |Join(parts, c)| && Join(parts, c)[..n] == Join(Left(parts, k, m), c)
    && (k == |parts| - 1 && m == |parts[k]| <==> n == |Join(parts, c)|)
  }

  lemma {:induction false} CutJoin(parts: seq<string>, n: nat, c: char)
    requires parts != [] && n <= |Join(parts, c)|
    ensures CutOk(parts, Cut(parts, n).0, Cut(parts, n).1, n, c)
    decreases |parts|
  {
    if |parts| == 1 {
      CutAlone(parts, n, c);
    } else if n <= |parts[0]| {
      CutMore(parts, n, c);
    } else {
      JoinLength(parts, c);
      CutJoin(parts[1..], n - |parts[0]| - 1, c);
      CutMore(parts, n, c);
    }
  }

  lemma {:induction false} CutMore(parts: seq<string>, n: nat, c: char)
    requires |parts| > 1
    requires n > |parts[0]| ==> CutOk(parts[1..], Cut(parts[1..], n - |parts[0]| - 1).0, Cut(parts[1..], n - |parts[0]| - 1).1, n - |parts[0]| - 1, c)
    ensures CutOk(parts, Cut(parts, n).0, Cut(parts, n).1, n, c)
  {
    var a, rest := parts[0], parts[1..];
    CutUnfolds(parts, n);
    assert parts == [a] + rest;
    if n <= |a| {
      CutFirst(a, rest, n, c);
    } else {
      CutStep(a, rest, Cut(rest, n - |a| - 1).0, Cut(rest, n - |a| - 1).1, n - |a| - 1, c);
    }
  }

  lemma {:induction false} CutUnfolds(parts: seq<string>, n: nat)
    requires parts != []
    ensures Cut(parts, n) == if |parts| == 1 || n <= |parts[0]| then (0, n)
                             else (Cut(parts[1..], n - |parts[0]| - 1).0 + 1, Cut(parts[1..], n - |parts[0]| - 1).1)
  {
  }

  lemma {:induction false} JoinLength(parts: seq<string>, c: char)
    requires |parts| > 1
    ensures |Join(parts, c)| == |parts[0]| + 1 + |Join(parts[1..], c)|
  {
  }

  lemma {:induction false} CutAlone(parts: seq<string>, n: nat, c: char)
    requires |parts| == 1 && n <= |Join(parts, c)|
    ensures CutOk(parts, Cut(parts, n).0, Cut(parts, n).1, n, c)
  {
    assert Left(parts, 0, n) == [parts[0][..n]];
  }

  lemma {:induction false} CutFirst(a: string, rest: seq<string>, n: nat, c: char)
    requires rest != [] && n <= |a|
    ensures CutOk([a] + rest, 0, n, n, c)
  {
    JoinCons(a, rest, c);
    assert (a + [c] + Join(rest, c))[..n] == a[..n];
    assert Left([a] + rest, 0, n) == [a[..n]];
  }

  lemma {:induction false} CutStep(a: string, rest: seq<string>, k: nat, m: nat, i: nat, c: char)
    requires CutOk(rest, k, m, i, c)
    ensures CutOk([a] + rest, k + 1, m, |a| + 1 + i, c)
  {
    JoinCons(a, rest, c);
    CutPast(a, c, Join(rest, c), i);
    JoinCons(a, Left(rest, k, m), c);
    assert Left([a] + rest, k + 1, m) == [a] + Left(rest, k, m);
  }

  lemma {:induction false} CutPast(a: string, c: char, b: string, i: nat)
    requires i <= |b|
    ensures (a + [c] + b)[..|a| + 1 + i] == a + [c] + b[..i]
  {
  }

  lemma {:induction false} JoinCons(a: string, parts: seq<string>, c: char)
    requires parts != []
    ensures Join([a] + parts, c) == a + [c] + Join(parts, c)
  {
    assert ([a] + parts)[1..] == parts;
  }

  lemma {:induction false} LeftFree(parts: seq<string>, k: nat, m: nat, c: char)
    requires k < |parts| && m <= |parts[k]| && Free(parts, c)
    ensures Free(Left(parts, k, m), c)
  {
  }

  // ---------------------------------------------------------------- cutting a control total

  /** Cutting a segment leaves no colon, no digits, or a different number. */
  lemma {:induction false} SegmentCut(it: Item, m: nat)
    requires CleanItem(it) && m < |ItemText(it)|
    ensures var s := Segment(ItemText(it)[..m]); s.Ok? ==> s.value.0 == it.currency && s.value.1 != it.total
  {
    var part, cur, total := ItemText(it)[..m], it.currency, IntText(it.total);
    if m <= |cur| {
      assert part == cur[..m];
    } else {
      var p := m - |cur| - 1;
      assert part == cur + [':'] + total[..p];
      IndexOfFirst(cur, total[..p], ':');
      assert part[..|cur|] == cur && part[|cur| + 1..] == total[..p];
      IntPrefix(it.total, p);
    }
  }

  lemma {:induction false} SegmentsSnoc(front: seq<string>, m: map<string, int>, last: string)
    requires Segments(front) == Ok(m)
    ensures Segments(front + [last]) == match Segment(last)
                                        case Raised(e) => Raised(e)
                                        case Ok(item) => Ok(m[item.0 := item.1])
  {
    assert (front + [last])[..|front|] == front;
  }

  lemma {:induction false} SegmentsCut(items: seq<Item>, k: nat, m: nat)
    requires UniqueKeys(items) && (forall i | 0 <= i < |items| :: CleanItem(items[i]))
    requires k < |items| && m <= |ItemText(items[k])| && (k < |items| - 1 || m < |ItemText(items[k])|)
    ensures Segments(Left(ItemTexts(items), k, m)) != Ok(AsMap(items))
  {
    var part := ItemText(items[k])[..m];
    SegmentsRead(items[..k]);
    assert ItemTexts(items[..k]) == ItemTexts(items)[..k];
    SegmentsSnoc(ItemTexts(items[..k]), AsMap(items[..k]), part);
    if m < |ItemText(items[k])| {
      SegmentCut(items[k], m);
      ItemIsMapped(items, k);
    } else {
      var last := |items| - 1;
      assert part == ItemText(items[k]);
      SegmentReads(items[k]);
      ItemIsMapped(items, last);
      MapHolds(items[..k], items[last].currency);
      assert items[last].currency !in AsMap(items[..k])[items[k].currency := items[k].total];
    }
  }

  /** A control-total field cut anywhere does not read as the same mapping. */
  lemma {:induction false} FieldCut(items: seq<Item>, j: nat)
    requires UniqueKeys(items) && (forall i | 0 <= i < |items| :: CleanItem(items[i]))
    requires j < |Join(ItemTexts(items), ';')|
    ensures ControlTotalField(Join(ItemTexts(items), ';')[..j]) != Ok(AsMap(items))
  {
    var texts := ItemTexts(items);
    forall i | 0 <= i < |items| ensures ';' !in texts[i] {
      SegmentReads(items[i]);
    }
    CutJoin(texts, j, ';');
    var (k, m) := Cut(texts, j);
    LeftFree(texts, k, m, ';');
    SplitJoin(Left(texts, k, m), ';');
    SegmentsCut(items, k, m);
    ItemIsMapped(items, 0);
  }

  // ---------------------------------------------------------------- cutting a trailer

  /** Of the cuts that leave a trailer recognisable, only the one that drops the separator of an empty total is harmless. */
  lemma {:induction false} TrailerCut(count: nat, field: string, total: map<string, int>, m: nat)
    requires '|' !in field && ControlTotalField(field) == Ok(total) && (field == "" <==> total == map[])
    requires forall j | 0 <= j < |field| :: ControlTotalField(field[..j]) != Ok(total)
    requires 4 <= m < |Join(["TRL", IntText(count), field], '|')|
    ensures var t := Join(["TRL", IntText(count), field], '|');
            TrailerOf(t[..m]) == Ok((count, total)) <==> field == "" && m == |t| - 1
  {
    var c := NatText(count);
    TrailerSlice(c, field, m);
    if m <= 4 + |c| {
      CountCut(count, m - 4);
    } else {
      FieldLeft(count, field[..m - 5 - |c|]);
    }
  }

  lemma {:induction false} TrailerSlice(c: string, field: string, m: nat)
    requires 4 <= m <= |Join(["TRL", c, field], '|')|
    ensures var t := Join(["TRL", c, field], '|');
            && |t| == 5 + |c| + |field|
            && t[..m] == "TRL" + ['|'] + if m <= 4 + |c| then c[..m - 4] else c + ['|'] + field[..m - 5 - |c|]
  {
    JoinCons("TRL", [c, field], '|');
    JoinCons(c, [field], '|');
    if m <= 4 + |c| {
      assert ("TRL" + ['|'] + (c + ['|'] + field))[..m] == "TRL" + ['|'] + c[..m - 4];
    } else {
      assert ("TRL" + ['|'] + (c + ['|'] + field))[..m] == "TRL" + ['|'] + (c + ['|'] + field[..m - 5 - |c|]);
    }
  }

  lemma {:induction false} FieldLeft(count: nat, cut: string)
    requires '|' !in cut
    ensures TrailerOf("TRL" + ['|'] + (NatText(count) + ['|'] + cut))
            == match ControlTotalField(cut) case Raised(e) => Raised(e) case Ok(total) => Ok((count, total))
  {
    IntTextFree(count, '|');
    ThreeFields(NatText(count), cut);
    IntRoundTrip(count);
  }

  /** Cut inside the count, a trailer has no field left or claims something else. */
  lemma {:induction false} CountCut(count: nat, n: nat)
    requires n <= |NatText(count)|
    ensures var read := TrailerOf("TRL" + ['|'] + NatText(count)[..n]);
            if n == |NatText(count)| then read == Ok((count, map[])) else forall total :: read != Ok((count, total))
  {
    var c := NatText(count);
    IntTextFree(count, '|');
    TwoFields(c[..n]);
    IntRoundTrip(count);
    if n < |c| {
      IntPrefix(count, n);
    } else {
      assert c[..n] == c;
    }
  }

  lemma {:induction false} TwoFields(a: string)
    requires '|' !in a
    ensures Split("TRL" + ['|'] + a, '|') == ["TRL", a]
  {
    SplitFirst("TRL", a, '|');
  }

  lemma {:induction false} ThreeFields(a: string, b: string)
    requires '|' !in a && '|' !in b
    ensures Split("TRL" + ['|'] + (a + ['|'] + b), '|') == ["TRL", a, b]
  {
    SplitFirst("TRL", a + ['|'] + b, '|');
    SplitFirst(a, b, '|');
  }

  // ---------------------------------------------------------------- cutting a file

  ghost predicate Accepts(body: string) {
    Parse(body).Ok? && Parse(body).value.status == Accepted
  }

  ghost predicate Plain(lines: seq<string>) {
    forall i | 0 <= i < |lines| :: Solid(lines[i]) && !IsTrailer(lines[i])
  }

  lemma {:induction false} NonEmptySnoc(lines: seq<string>, last: string)
    requires forall i | 0 <= i < |lines| :: lines[i] != ""
    ensures NonEmpty(lines + [last]) == lines + if last != "" then [last] else []
  {
    assert (lines + [last])[..|lines|] == lines;
    NonEmptyKeeps(lines);
  }

  ghost predicate NoTrailer(lines: seq<string>) {
    lines == [] || !IsTrailer(lines[|lines| - 1])
  }

  /** A cut before the trailer leaves no trailer. */
  lemma {:induction false} CutBeforeTrailer(lines: seq<string>, n: nat)
    requires lines != [] && Plain(lines) && n <= |Join(lines, '\n')|
    ensures NoTrailer(Lines(Join(lines, '\n')[..n]))
  {
    CutJoin(lines, n, '\n');
    LeftHasNoTrailer(lines, Cut(lines, n).0, Cut(lines, n).1);
  }

  lemma {:induction false} LeftHasNoTrailer(lines: seq<string>, k: nat, m: nat)
    requires Plain(lines) && k < |lines| && m <= |lines[k]|
    ensures NoTrailer(Lines(Join(Left(lines, k, m), '\n')))
  {
    LeftFree(lines, k, m, '\n');
    SplitJoin(Left(lines, k, m), '\n');
    NonEmptySnoc(lines[..k], lines[k][..m]);
    PrefixIsNoTrailer(lines[k], m);
  }

  lemma {:induction false} PrefixIsNoTrailer(line: string, m: nat)
    requires !IsTrailer(line) && m <= |line|
    ensures !IsTrailer(line[..m])
  {
    assert forall i | 0 <= i < m :: line[..m][i] == line[i];
  }

  lemma {:induction false} CutInTrailer(lines: seq<string>, t: string, j: nat)
    requires lines != [] && Plain(lines) && Solid(t) && j <= |t|
    ensures Lines(Join(lines, '\n') + ['\n'] + t[..j]) == lines + if j > 0 then [t[..j]] else []
  {
    JoinSnoc(lines, t[..j], '\n');
    SplitJoin(lines + [t[..j]], '\n');
    NonEmptySnoc(lines, t[..j]);
  }

  /** The lines left by a cut, counted from the start of the trailer. */
  lemma {:induction false} CutLines(lines: seq<string>, t: string, n: nat)
    requires lines != [] && Plain(lines) && Solid(t) && n < |Document(lines + [t])|
    ensures var body, j := Document(lines + [t]), n - |Join(lines, '\n')| - 1;
            && |body| - n == |t| + 1 - j
            && if j < 4 then NoTrailer(Lines(body[..n])) else Lines(body[..n]) == lines + [t[..j]]
  {
    var start := Join(lines, '\n');
    var body := Document(lines + [t]);
    JoinSnoc(lines, t, '\n');
    assert body == start + ['\n'] + t + ['\n'];
    if n <= |start| {
      assert body[..n] == start[..n];
      CutBeforeTrailer(lines, n);
    } else {
      var j := n - |start| - 1;
      assert body[..n] == start + ['\n'] + t[..j];
      CutInTrailer(lines, t, j);
    }
  }

  lemma {:induction false} NeverAccepted(body: string)
    requires NoTrailer(Lines(body))
    ensures !Accepts(body)
  {
  }

  lemma {:induction false} AcceptedIff(body: string, h: string, head: Header, details: seq<string>, ms: seq<Movement>, t: string)
    requires Lines(body) == [h] + details + [t] && HeaderOf(h) == Ok(head) && IsTrailer(t)
    requires Movements(head.extractType, details) == Ok(ms)
    ensures Accepts(body) <==> TrailerOf(t) == Ok((|ms|, Totals(ms)))
    ensures Accepts(body) ==> Parse(body).value.movements == ms
  {
    assert Middle(Lines(body)) == details;
  }

  lemma {:induction false} TrailerTextCut(count: nat, items: seq<Item>, m: nat)
    requires UniqueKeys(items) && (forall i | 0 <= i < |items| :: CleanItem(items[i]))
    requires 4 <= m <= |TrailerText(count, items)|
    ensures var t := TrailerText(count, items);
            && IsTrailer(t[..m])
            && (TrailerOf(t[..m]) == Ok((count, AsMap(items))) <==> m == |t| || (AsMap(items) == map[] && m == |t| - 1))
  {
    var t := TrailerText(count, items);
    TrailerReads(count, items);
    assert t[..m][..4] == t[..4];
    if m == |t| {
      assert t[..m] == t;
    } else {
      SortedItemsStayClean(items);
      SortKeepsMap(items);
      SortedFieldCut(Sort(items, ItemLe));
      TrailerCut(count, Join(ItemTexts(Sort(items, ItemLe)), ';'), AsMap(items), m);
    }
  }

  lemma {:induction false} SortedItemsStayClean(items: seq<Item>)
    requires UniqueKeys(items) && (forall i | 0 <= i < |items| :: CleanItem(items[i]))
    ensures UniqueKeys(Sort(items, ItemLe)) && forall i | 0 <= i < |items| :: CleanItem(Sort(items, ItemLe)[i])
  {
    var s := Sort(items, ItemLe);
    SortPermutes(items, ItemLe);
    forall i | 0 <= i < |s| ensures CleanItem(s[i]) {
      SameElements(s, items, s[i]);
    }
    SortKeepsKeys(items);
  }

  lemma {:induction false} InsertKeepsKeys(s: seq<Item>, x: Item)
    requires UniqueKeys(s) && forall i | 0 <= i < |s| :: s[i].currency != x.currency
    ensures UniqueKeys(Insert(s, x, ItemLe))
    decreases |s|
  {
    if s != [] && !ItemLe(s[|s| - 1], x) {
      var front := s[..|s| - 1];
      InsertKeepsKeys(front, x);
      var r := Insert(front, x, ItemLe);
      InsertPermutes(front, x, ItemLe);
      assert multiset(front + [x]) == multiset(r);
      forall i | 0 <= i < |r| ensures r[i].currency != s[|s| - 1].currency {
        SameElements(r, front + [x], r[i]);
      }
    }
  }

  lemma {:induction false} SortKeepsKeys(s: seq<Item>)
    requires UniqueKeys(s)
    ensures UniqueKeys(Sort(s, ItemLe))
    decreases |s|
  {
    if s != [] {
      var front := s[..|s| - 1];
      var r := Sort(front, ItemLe);
      SortKeepsKeys(front);
      SortPermutes(front, ItemLe);
      forall i | 0 <= i < |r| ensures r[i].currency != s[|s| - 1].currency {
        SameElements(r, front, r[i]);
      }
      InsertKeepsKeys(r, s[|s| - 1]);
    }
  }

  lemma {:induction false} SortedFieldCut(items: seq<Item>)
    requires UniqueKeys(items) && (forall i | 0 <= i < |items| :: CleanItem(items[i]))
    ensures var field := Join(ItemTexts(items), ';');
            && '|' !in field && ControlTotalField(field) == Ok(AsMap(items)) && (field == "" <==> AsMap(items) == map[])
            && forall j | 0 <= j < |field| :: ControlTotalField(field[..j]) != Ok(AsMap(items))
  {
    var field := Join(ItemTexts(items), ';');
    ControlTotalReads(items);
    forall j | 0 <= j < |field| ensures ControlTotalField(field[..j]) != Ok(AsMap(items)) {
      FieldCut(items, j);
    }
    if items != [] {
      ItemIsMapped(items, 0);
      SegmentReads(items[0]);
    }
  }

  /** cut ends j characters into the trailer. */
  ghost predicate CutLeaves(body: string, cut: string, h: string, details: seq<string>, t: string, j: int) {
    && cut <= body && j <= |t|
    && if j < 4 then NoTrailer(Lines(cut)) else Lines(cut) == [h] + details + [t[..j]]
  }

  lemma {:induction false} CutVerdict(body: string, cut: string, h: string, head: Header, details: seq<string>, ms: seq<Movement>, items: seq<Item>, j: int)
    requires HeaderOf(h) == Ok(head) && Movements(head.extractType, details) == Ok(ms)
    requires UniqueKeys(items) && (forall i | 0 <= i < |items| :: CleanItem(items[i])) && AsMap(items) == Totals(ms)
    requires CutLeaves(body, cut, h, details, TrailerText(|ms|, items), j)
    ensures Accepts(cut) <==> j >= 4 && (j == |TrailerText(|ms|, items)| || (Totals(ms) == map[] && j == |TrailerText(|ms|, items)| - 1))
    ensures Accepts(cut) ==> Parse(cut).value.movements == ms
  {
    if j < 4 {
      NeverAccepted(cut);
    } else {
      TrailerTextCut(|ms|, items, j);
      AcceptedIff(cut, h, head, details, ms, TrailerText(|ms|, items)[..j]);
    }
  }

  /** A file as its parts. */
  ghost predicate Framed(body: string, h: string, head: Header, details: seq<string>, ms: seq<Movement>, items: seq<Item>) {
    && Plain([h] + details) && HeaderOf(h) == Ok(head) && Movements(head.extractType, details) == Ok(ms)
    && UniqueKeys(items) && (forall i | 0 <= i < |items| :: CleanItem(items[i])) && AsMap(items) == Totals(ms)
    && body == Document([h] + details + [TrailerText(|ms|, items)])
  }

  lemma {:induction false} ShortestTrailer(count: nat, items: seq<Item>)
    ensures |TrailerText(count, items)| >= 6
  {
    var field := Join(ItemTexts(Sort(items, ItemLe)), ';');
    JoinCons("TRL", [IntText(count), field], '|');
    JoinCons(IntText(count), [field], '|');
  }

  lemma {:induction false} FileCut(body: string, h: string, head: Header, details: seq<string>, ms: seq<Movement>, items: seq<Item>, n: nat)
    requires Framed(body, h, head, details, ms, items) && n < |body|
    ensures Accepts(body[..n]) <==> n == |body| - 1 || (Totals(ms) == map[] && n == |body| - 2)
    ensures Accepts(body[..n]) ==> Parse(body[..n]).value.movements == ms
  {
    var j := n - |Join([h] + details, '\n')| - 1;
    assert CutLeaves(body, body[..n], h, details, TrailerText(|ms|, items), j) && |body| - n == |TrailerText(|ms|, items)| + 1 - j by {
      TrailerReads(|ms|, items);
      CutLines([h] + details, TrailerText(|ms|, items), n);
    }
    ShortestTrailer(|ms|, items);
    CutVerdict(body, body[..n], h, head, details, ms, items, j);
  }

  lemma {:induction false} NoRowsNoTotals(ts: seq<Txn>)
    ensures Totals(Moves(ts)) == map[] <==> ts == []
  {
    if ts != [] {
      assert Moves(ts)[|ts| - 1].currency in Totals(Moves(ts));
    }
  }

  /** The first n characters of a file are accepted exactly when they lack only the final newline, or, for a day without
      transactions, that and the separator before the empty control total; the movements read are then all of them. */
  lemma {:induction false} CutIsNoticed(ts: seq<Txn>, date: Day, seed: int, sequence: int, n: nat)
    requires AllClean(ts) && YearOf(date) >= 1000
    ensures var e := Extract(ts, date, seed, sequence);
            && e.Some?
            && (n < |e.value| ==>
                  && (Accepts(e.value[..n]) <==> n == |e.value| - 1 || (ts == [] && n == |e.value| - 2))
                  && (Accepts(e.value[..n]) ==> Parse(e.value[..n]).value.movements == Moves(Sort(ts, RowLe))))
  {
    var h, details, items := ExtractParts(ts, date, seed, sequence);
    NoRowsNoTotals(Sort(ts, RowLe));
    var body := Extract(ts, date, seed, sequence).value;
    if n < |body| {
      FileCut(body, h, Header("TXN", date, sequence), details, Moves(Sort(ts, RowLe)), items, n);
    }
  }

  lemma {:induction false} ExtractParts(ts: seq<Txn>, date: Day, seed: int, sequence: int)
    returns (h: string, details: seq<string>, items: seq<Item>)
    requires AllClean(ts) && YearOf(date) >= 1000
    ensures Extract(ts, date, seed, sequence).Some?
    ensures Framed(Extract(ts, date, seed, sequence).value, h, Header("TXN", date, sequence), details, Moves(Sort(ts, RowLe)), items)
  {
    var rows := Sort(ts, RowLe);
    SortKeepsClean(ts);
    DetailsRead(rows);
    HeaderReads(date, sequence, seed);
    h, details, items := HeaderText("TXN", date, sequence, seed), Collect(rows, Detail).value, ControlTotal(Rows(rows));
    FrameParts(h, Header("TXN", date, sequence), details, rows);
  }

  lemma {:induction false} FrameParts(h: string, head: Header, details: seq<string>, rows: seq<Txn>)
    requires AllClean(rows) && Plain([h]) && Plain(details)
    requires HeaderOf(h) == Ok(head) && Movements(head.extractType, details) == Ok(Moves(rows))
    ensures var items := ControlTotal(Rows(rows));
            Framed(Document([h] + details + [TrailerText(|rows|, items)]), h, head, details, Moves(rows), items)
  {
    ControlTotalKeys(Rows(rows));
    ControlTotalIsClean(rows);
    TotalsAgree(rows);
    assert [h][0] == h;
  }
}
