/** The extract column by column: what every field of a line says, and which lines the reader takes. */
module ExtractColumns {
  import opened Options
  import opened Dates
  import opened DateText
  import opened Text
  import opened Extracts
  import opened Ingest
  import opened ExtractGuarantees

  // ---------------------------------------------------------------- digits

  /** Numbers print most significant digit first, in the characters from '0'. */
  lemma {:induction false} TwoDigits(n: nat)
    requires n < 100
    ensures |Field(n, 2)| == 2 && Field(n, 2)[0] as int == '0' as int + n / 10 && Field(n, 2)[1] as int == '0' as int + n % 10
  {
    if n < 10 {
      assert Pad(NatText(n), 2) == Pad("0" + NatText(n), 2) == "0" + NatText(n);
    } else {
      assert NatText(n) == NatText(n / 10) + [DigitChar(n % 10)];
    }
  }

  lemma {:induction false} LastDigit(n: nat)
    ensures NatText(n) != [] && NatText(n)[|NatText(n)| - 1] as int == '0' as int + n % 10
    ensures n >= 10 ==> NatText(n)[..|NatText(n)| - 1] == NatText(n / 10)
  {
  }

  // ---------------------------------------------------------------- instants

  /** YYYY-MM-DDTHH:MM:SS.mmm as microseconds. */
  function ParseInstant(s: string): Option<int> {
    if |s| == 23 && s[10] == 'T' && s[13] == ':' && s[16] == ':' && s[19] == '.'
       && Digits(s[11..13]) && Digits(s[14..16]) && Digits(s[17..19]) && Digits(s[20..]) && ParseIso(s[..10]).Some? then
      Some(((((ParseIso(s[..10]).value * 24 + NatValue(s[11..13])) * 60 + NatValue(s[14..16])) * 60 + NatValue(s[17..19])) * 1000 + NatValue(s[20..])) * 1000)
    else None
  }

  lemma {:induction false} InstantSlices(d: string, h: string, m: string, s: string, ms: string)
    requires |d| == 10 && |h| == |m| == |s| == 2 && |ms| == 3
    ensures var t := d + "T" + (h + ":" + m + ":" + s + "." + ms);
            && |t| == 23 && t[10] == 'T' && t[13] == ':' && t[16] == ':' && t[19] == '.'
            && t[..10] == d && t[11..13] == h && t[14..16] == m && t[17..19] == s && t[20..] == ms
  {
  }

  lemma {:induction false} InstantOf(d: string, h: string, m: string, s: string, ms: string, day: int)
    requires |d| == 10 && |h| == |m| == |s| == 2 && |ms| == 3
    requires ParseIso(d) == Some(day) && Digits(h) && Digits(m) && Digits(s) && Digits(ms)
    ensures ParseInstant(d + "T" + (h + ":" + m + ":" + s + "." + ms))
            == Some(((((day * 24 + NatValue(h)) * 60 + NatValue(m)) * 60 + NatValue(s)) * 1000 + NatValue(ms)) * 1000)
  {
    InstantSlices(d, h, m, s, ms);
  }

  lemma {:induction false} ClockParts(ms: nat)
    requires ms < 86_400_000
    ensures ms / 3_600_000 < 100 && ms == ((ms / 3_600_000 * 60 + ms / 60_000 % 60) * 60 + ms / 1000 % 60) * 1000 + ms % 1000
  {
    assert ms / 60_000 == (ms / 1000) / 60 && ms / 3_600_000 == (ms / 1000) / 60 / 60;
  }

  lemma {:induction false} ClockReads(ms: nat)
    requires ms < 86_400_000
    ensures var h, m, s, f := Field(ms / 3_600_000, 2), Field(ms / 60_000 % 60, 2), Field(ms / 1000 % 60, 2), Field(ms % 1000, 3);
            && |h| == |m| == |s| == 2 && |f| == 3 && Digits(h) && Digits(m) && Digits(s) && Digits(f)
            && ((NatValue(h) * 60 + NatValue(m)) * 60 + NatValue(s)) * 1000 + NatValue(f) == ms
  {
    ClockParts(ms);
    FieldReads(ms / 3_600_000, 2);
    FieldReads(ms / 60_000 % 60, 2);
    FieldReads(ms / 1000 % 60, 2);
    FieldReads(ms % 1000, 3);
  }

  lemma {:induction false} ClockText(ms: nat) returns (h: string, m: string, s: string, f: string)
    requires ms < 86_400_000
    ensures Clock(ms) == h + ":" + m + ":" + s + "." + f
    ensures |h| == |m| == |s| == 2 && |f| == 3 && Digits(h) && Digits(m) && Digits(s) && Digits(f)
    ensures ((NatValue(h) * 60 + NatValue(m)) * 60 + NatValue(s)) * 1000 + NatValue(f) == ms
  {
    h, m, s, f := Field(ms / 3_600_000, 2), Field(ms / 60_000 % 60, 2), Field(ms / 1000 % 60, 2), Field(ms % 1000, 3);
    ClockReads(ms);
  }

  /** The text of a day and a millisecond of it reads back. */
  lemma {:induction false} DayAndClock(d: string, h: string, m: string, s: string, f: string, day: int, ms: int)
    requires |d| == 10 && |h| == |m| == |s| == 2 && |f| == 3 && ParseIso(d) == Some(day) && Digits(h) && Digits(m) && Digits(s) && Digits(f)
    requires ((NatValue(h) * 60 + NatValue(m)) * 60 + NatValue(s)) * 1000 + NatValue(f) == ms
    ensures ParseInstant(d + "T" + (h + ":" + m + ":" + s + "." + f)) == Some((day * 86_400_000 + ms) * 1000)
  {
    InstantOf(d, h, m, s, f, day);
    Places(day, NatValue(h), NatValue(m), NatValue(s), NatValue(f), ms);
  }

  lemma {:induction false} Places(day: int, h: int, m: int, s: int, f: int, ms: int)
    requires ((h * 60 + m) * 60 + s) * 1000 + f == ms
    ensures ((((day * 24 + h) * 60 + m) * 60 + s) * 1000 + f) * 1000 == (day * 86_400_000 + ms) * 1000
  {
  }

  /** The milliseconds an instant prints, in microseconds. */
  predicate Printed(at: int, v: int) {
    v == (at / DAY_MICROS * 86_400_000 + at % DAY_MICROS / 1000) * 1000
  }

  lemma {:induction false} TextReads(at: Instant) returns (v: int)
    ensures ParseInstant(IsoMillis(at)) == Some(v) && Printed(at, v)
  {
    var day: Day, ms := at / DAY_MICROS, at % DAY_MICROS / 1000;
    var h, m, s, f := ClockText(ms);
    IsoRoundTrip(day);
    IsoLength(day);
    DayAndClock(Iso(day), h, m, s, f, day, ms);
    v := (day * 86_400_000 + ms) * 1000;
  }

  /** A whole number of milliseconds, the last one up to the instant. */
  predicate ToTheMillisecond(read: Option<int>, at: int) {
    read.Some? && read.value <= at < read.value + 1000 && read.value % 1000 == 0
  }

  /** An instant reads back to its millisecond. */
  lemma {:induction false} InstantReads(at: Instant)
    ensures ToTheMillisecond(ParseInstant(IsoMillis(at)), at)
  {
    var v := TextReads(at);
    MillisOf(at, v);
  }

  lemma {:induction false} MillisOf(at: int, v: int)
    requires Printed(at, v)
    ensures ToTheMillisecond(Some(v), at)
  {
    var q, r := at / DAY_MICROS, at % DAY_MICROS;
    assert at == q * DAY_MICROS + r && q * DAY_MICROS == (q * 86_400_000) * 1000;
  }

  lemma {:induction false} IsoLength(n: Day)
    ensures |Iso(n)| == 10
  {
    DateFieldsRead(n);
  }

  // ---------------------------------------------------------------- what the writer writes

  /** Ten columns: ids, currency, amount, the currency's exponent, when it was posted, its business date, its value date, and
      its kind. */
  ghost predicate Columns(f: seq<string>, t: Txn) {
    && |f| == 10 && f[0] == "DTL" && f[1] == t.txnId && f[2] == t.accountId && f[3] == t.currency
    && ParseInt(f[4]) == Some(t.amount) && ParseInt(f[5]) == Some(if t.currency == "JPY" then 0 else 2)
    && ToTheMillisecond(ParseInstant(f[6]), t.postedAt)
    && ParseIso(f[7]) == Some(t.businessDate) && ParseIso(f[8]) == Some(t.valueDate) && f[9] == t.kind
  }

  lemma {:induction false} ColumnsRead(f: seq<string>, t: Txn, scale: nat)
    requires |f| == 10 && f[0] == "DTL" && f[1] == t.txnId && f[2] == t.accountId && f[3] == t.currency && f[4] == IntText(t.amount)
    requires ScaleOf(t.currency) == Some(scale) && f[5] == IntText(scale) && f[6] == IsoMillis(t.postedAt)
    requires f[7] == Iso(t.businessDate) && f[8] == Iso(t.valueDate) && f[9] == t.kind
    ensures Columns(f, t)
  {
    InstantReads(t.postedAt);
    IsoRoundTrip(t.businessDate);
    IsoRoundTrip(t.valueDate);
    IntRoundTrip(t.amount);
    IntRoundTrip(scale);
  }

  /** A clean row is written as its columns. */
  lemma {:induction false} DetailColumns(t: Txn) returns (f: seq<string>)
    requires Clean(t)
    ensures Detail(t).Some? && f == Split(Detail(t).value, '|') && Columns(f, t)
  {
    var scale := ScaleOf(t.currency).value;
    TextsFree(t, scale, '|');
    ColumnsAre(t, IntText(scale), IsoMillis(t.postedAt), Iso(t.businessDate), Iso(t.valueDate));
    f := Split(Detail(t).value, '|');
    ColumnsRead(f, t, scale);
  }

  lemma {:induction false} ColumnsAre(t: Txn, scale: string, at: string, business: string, value: string)
    requires Clean(t) && '|' !in scale && '|' !in at && '|' !in business && '|' !in value
    ensures var f := Split(Join(DetailFields(t, scale, at, business, value), '|'), '|');
            && |f| == 10 && f[0] == "DTL" && f[1] == t.txnId && f[2] == t.accountId && f[3] == t.currency && f[4] == IntText(t.amount)
            && f[5] == scale && f[6] == at && f[7] == business && f[8] == value && f[9] == t.kind
  {
    IntTextFree(t.amount, '|');
    FreeTen(t, scale, at, business, value);
    SplitJoin(DetailFields(t, scale, at, business, value), '|');
  }

  lemma {:induction false} FreeTen(t: Txn, scale: string, at: string, business: string, value: string)
    requires Clean(t) && '|' !in scale && '|' !in at && '|' !in business && '|' !in value && '|' !in IntText(t.amount)
    ensures Free(DetailFields(t, scale, at, business, value), '|')
  {
  }

  /** The header has six columns: its tag, the magic, the type, the date, the sequence number and the seed. */
  lemma {:induction false} HeaderColumns(kind: string, date: Day, sequence: int, seed: int)
    requires '|' !in kind
    ensures var f := Split(HeaderText(kind, date, sequence, seed), '|');
            && |f| == 6 && f[0] == "HDR" && f[1] == "SHADOWBOOK" && f[2] == kind && f[3] == Compact(date)
            && ParseInt(f[4]) == Some(sequence) && ParseInt(f[5]) == Some(seed)
  {
    var f := ["HDR", Extracts.MAGIC, kind, Compact(date), Width3(sequence), IntText(seed)];
    Width3Reads(sequence);
    Width3Free(sequence, '|');
    IntTextFree(seed, '|');
    IntRoundTrip(seed);
    DateTextFree(date, '|');
    FreeSix("HDR", Extracts.MAGIC, kind, Compact(date), Width3(sequence), IntText(seed), '|');
    SplitJoin(f, '|');
  }

  /** A sequence number is padded to three places. */
  lemma {:induction false} SequenceWidth(n: nat)
    requires n < 1000
    ensures |Width3(n)| == 3
  {
    ShortText(n);
    PadValue(NatText(n), 3);
  }

  // ---------------------------------------------------------------- what the reader takes

  /** A header of any columns: six, tagged and with the magic, or a format error; then its date and number, or a value error. */
  lemma {:induction false} HeaderTaken(f: seq<string>)
    requires f != [] && Free(f, '|')
    ensures var r := HeaderOf(Join(f, '|'));
            if |f| == 6 && f[0] == "HDR" && f[1] == "SHADOWBOOK" then
              (if ParseCompact(f[3]).Some? && ParseInt(f[4]).Some? then r == Ok(Header(f[2], ParseCompact(f[3]).value, ParseInt(f[4]).value))
               else r == Raised(ValueError))
            else r == Raised(FormatError)
  {
    SplitJoin(f, '|');
  }

  /** A row of any columns: tagged, or a format error; ten of them with a number and two dates, or a value error; any other
      number of columns is a row cut off, and passed over. */
  lemma {:induction false} RowTaken(f: seq<string>)
    requires f != [] && Free(f, '|')
    ensures var r := RowOf(Join(f, '|'));
            if f[0] != "DTL" then r == Raised(FormatError)
            else if |f| < 10 || |f| > 10 then r == Ok(None)
            else if ParseInt(f[4]).None? || ParseIso(f[7]).None? || ParseIso(f[8]).None? then r == Raised(ValueError)
            else r == Ok(Some(Movement(f[1], f[2], f[3], ParseInt(f[4]).value, ParseIso(f[7]).value, ParseIso(f[8]).value, f[9])))
  {
    SplitJoin(f, '|');
  }

  /** A control-total segment: a currency, a colon and a number. */
  lemma {:induction false} SegmentTaken(currency: string, rest: string)
    requires ':' !in currency
    ensures var r := Segment(currency + [':'] + rest);
            if currency == "" || rest == "" then r == Raised(FormatError)
            else if ParseInt(rest).None? then r == Raised(ValueError)
            else r == Ok((currency, ParseInt(rest).value))
    ensures Segment(currency) == Raised(FormatError)
  {
    IndexOfFirst(currency, rest, ':');
    var s := currency + [':'] + rest;
    assert s[..|currency|] == currency && s[|currency| + 1..] == rest;
  }

  /** What int() takes here: digits, or a minus sign and digits. */
  lemma {:induction false} NumbersTaken(s: string)
    ensures ParseInt(s).Some? <==> Digits(s) || (|s| >= 2 && s[0] == '-' && Digits(s[1..]))
    ensures Digits(s) ==> ParseInt(s) == Some(NatValue(s)) && ParseInt("-" + s) == Some(0 - NatValue(s))
  {
    if Digits(s) {
      assert ("-" + s)[1..] == s && ("-" + s)[0] == '-';
    }
  }

  /** Which dates are read: ten characters, two dashes, and a day of the calendar. */
  lemma {:induction false} DatesTaken(y: string, m: string, d: string, c: char, e: char)
    requires |y| == 4 && |m| == |d| == 2
    ensures var s := y + [c] + m + [e] + d;
            ParseIso(s).Some? <==>
            && c == e == '-' && Digits(y) && Digits(m) && Digits(d)
            && 1 <= NatValue(y) <= 9999 && 1 <= NatValue(m) <= 12 && 1 <= NatValue(d) <= DaysInMonth(NatValue(y), NatValue(m))
  {
    var s := y + [c] + m + [e] + d;
    assert |s| == 10 && s[4] == c && s[7] == e && s[..4] == y && s[5..7] == m && s[8..] == d;
  }
}
