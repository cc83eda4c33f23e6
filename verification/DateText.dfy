/** Dates on the wire: full-date of section 5.6 of RFC 3339, the compact form of the extract header, and instants. */
module DateText {
  import opened Options
  import opened Dates
  import opened Text

  /** A fixed-width decimal field. */
  function Field(n: nat, width: nat): string {
    Pad(NatText(n), width)
  }

  lemma {:induction false} FieldReads(n: nat, width: nat)
    requires (width == 2 && n < 100) || (width == 3 && n < 1000) || (width == 4 && n < 10000)
    ensures var f := Field(n, width); |f| == width && Digits(f) && NatValue(f) == n
  {
    ShortText(n);
    PadValue(NatText(n), width);
    NatRoundTrip(n);
  }

  function FromFields(year: string, month: string, day: string): (r: Option<Day>)
    requires Digits(year) && Digits(month) && Digits(day)
  {
    var d := Date(NatValue(year), NatValue(month), NatValue(day));
    if MIN_YEAR <= d.year <= MAX_YEAR && Valid(d) then OrdinalInRange(d); Some(Ordinal(d)) else None
  }

  lemma {:induction false} OrdinalInRange(d: Date)
    requires Valid(d) && MIN_YEAR <= d.year <= MAX_YEAR
    ensures YearStart(MIN_YEAR) < Ordinal(d) <= YearStart(MAX_YEAR + 1)
  {
    InsideTheYear(d);
    if MIN_YEAR < d.year {
      YearsIncrease(MIN_YEAR, d.year);
    }
    if d.year < MAX_YEAR {
      YearsIncrease(d.year + 1, MAX_YEAR + 1);
    }
  }

  /** date.isoformat(). */
  function Iso(n: Day): string {
    YearOfDay(n);
    var d := Civil(n);
    Field(d.year, 4) + "-" + Field(d.month, 2) + "-" + Field(d.day, 2)
  }

  /** date.fromisoformat on YYYY-MM-DD. */
  function ParseIso(s: string): Option<Day> {
    if |s| == 10 && s[4] == '-' && s[7] == '-' && Digits(s[..4]) && Digits(s[5..7]) && Digits(s[8..]) then
      FromFields(s[..4], s[5..7], s[8..])
    else None
  }

  /** date.strftime("%Y%m%d"): the year is not padded. */
  function Compact(n: Day): string {
    YearOfDay(n);
    var d := Civil(n);
    NatText(d.year) + Field(d.month, 2) + Field(d.day, 2)
  }

  /** strptime(s, "%Y%m%d") on eight digits. */
  function ParseCompact(s: string): Option<Day> {
    if |s| == 8 && Digits(s) then FromFields(s[..4], s[4..6], s[6..]) else None
  }

  lemma {:induction false} DateFieldsRead(n: Day)
    ensures var d := Civil(n); MIN_YEAR <= d.year <= MAX_YEAR
                               && |Field(d.year, 4)| == 4 && |Field(d.month, 2)| == 2 && |Field(d.day, 2)| == 2
                               && Digits(Field(d.year, 4)) && Digits(Field(d.month, 2)) && Digits(Field(d.day, 2))
                               && FromFields(Field(d.year, 4), Field(d.month, 2), Field(d.day, 2)) == Some(n)
  {
    var d := Civil(n);
    YearOfDay(n);
    FieldReads(d.year, 4);
    FieldReads(d.month, 2);
    FieldReads(d.day, 2);
    OrdinalOfCivil(n);
  }

  lemma {:induction false} IsoSlices(y: string, m: string, d: string)
    requires |y| == 4 && |m| == 2 && |d| == 2
    ensures var s := y + "-" + m + "-" + d;
            |s| == 10 && s[4] == '-' && s[7] == '-' && s[..4] == y && s[5..7] == m && s[8..] == d
  {
  }

  lemma {:induction false} IsoRoundTrip(n: Day)
    ensures ParseIso(Iso(n)) == Some(n)
  {
    DateFieldsRead(n);
    var d := Civil(n);
    IsoSlices(Field(d.year, 4), Field(d.month, 2), Field(d.day, 2));
  }

  /** The header's date reads back exactly when the year has four digits. */
  lemma {:induction false} CompactRoundTrip(n: Day)
    ensures ParseCompact(Compact(n)) == Some(n) <==> YearOf(n) >= 1000
  {
    DateFieldsRead(n);
    var d := Civil(n);
    var s := Compact(n);
    ShortText(d.year);
    if d.year >= 1000 {
      assert s[..4] == Field(d.year, 4) && s[4..6] == Field(d.month, 2) && s[6..] == Field(d.day, 2);
    }
  }

  lemma {:induction false} DateTextFree(n: Day, c: char)
    requires !IsDigit(c) && c != '-'
    ensures c !in Iso(n) && c !in Compact(n)
  {
    YearOfDay(n);
    var d := Civil(n);
    FieldFree(d.year, 4, c);
    FieldFree(d.month, 2, c);
    FieldFree(d.day, 2, c);
  }

  // ---------------------------------------------------------------- instants

  const DAY_MICROS: int := 86_400_000_000

  /** A naive wall-clock datetime in microseconds; its day is at / DAY_MICROS. */
  type Instant = at: int | YearStart(MIN_YEAR) < at / DAY_MICROS <= YearStart(MAX_YEAR + 1) witness DAY_MICROS

  /** HH:MM:SS.mmm of a millisecond of the day. */
  function Clock(ms: nat): string {
    Field(ms / 3_600_000, 2) + ":" + Field(ms / 60_000 % 60, 2) + ":" + Field(ms / 1000 % 60, 2) + "." + Field(ms % 1000, 3)
  }

  /** datetime.isoformat(timespec="milliseconds"): sub-millisecond digits are dropped. */
  function IsoMillis(at: Instant): string {
    Iso(at / DAY_MICROS) + "T" + Clock(at % DAY_MICROS / 1000)
  }

  lemma {:induction false} FieldFree(n: nat, width: nat, c: char)
    requires !IsDigit(c)
    ensures c !in Field(n, width)
  {
    PadValue(NatText(n), width);
  }

  lemma {:induction false} ClockFree(ms: nat, c: char)
    requires !IsDigit(c) && c != ':' && c != '.'
    ensures c !in Clock(ms)
  {
    FieldFree(ms / 3_600_000, 2, c);
    FieldFree(ms / 60_000 % 60, 2, c);
    FieldFree(ms / 1000 % 60, 2, c);
    FieldFree(ms % 1000, 3, c);
  }

  lemma {:induction false} IsoMillisFree(at: Instant, c: char)
    requires !IsDigit(c) && c != '-' && c != 'T' && c != ':' && c != '.'
    ensures c !in IsoMillis(at)
  {
    DateTextFree(at / DAY_MICROS, c);
    ClockFree(at % DAY_MICROS / 1000, c);
  }
}
