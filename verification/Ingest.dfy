/** reconcile.ingest: reading an extract, including the ones that arrive wrong. */
module Ingest {
  import opened Options
  import opened Dates
  import opened DateText
  import opened Text

  const MAGIC := "SHADOWBOOK"

  datatype Movement = Movement(txnId: string, accountId: string, currency: string, amount: int,
                               businessDate: Day, valueDate: Day, kind: string)

  datatype Status = Accepted | TrailerMismatch | Truncated | Duplicate | Late

  /** The body stands for its SHA-256, taken as injective. */
  datatype IngestResult = IngestResult(extractType: string, businessDate: Day, sequence: int, status: Status,
                                       recordCount: int, declaredCount: int,
                                       controlTotal: map<string, int>, declaredControlTotal: map<string, int>,
                                       movements: seq<Movement>, body: string)

  /** ExtractFormatError, and the ValueError of int() and of the date readers. */
  datatype Error = FormatError | ValueError
  datatype Outcome<+T> = Ok(value: T) | Raised(error: Error)

  // ---------------------------------------------------------------- control totals

  /** One segment `CUR:total`, split at its first colon. */
  function Segment(part: string): Outcome<(string, int)> {
    if ':' !in part then Raised(FormatError) else
      var i := IndexOf(part, ':');
      if i == 0 || i + 1 == |part| then Raised(FormatError) else
        match ParseInt(part[i + 1..])
        case None => Raised(ValueError)
        case Some(total) => Ok((part[..i], total))
  }

  /** Segments in order; a later one overwrites an earlier one of the same currency. */
  function Segments(parts: seq<string>): Outcome<map<string, int>> {
    if parts == [] then Ok(map[]) else
      match Segments(parts[..|parts| - 1])
      case Raised(e) => Raised(e)
      case Ok(m) =>
        match Segment(parts[|parts| - 1])
        case Raised(e) => Raised(e)
        case Ok(item) => Ok(m[item.0 := item.1])
  }

  function ControlTotalField(field: string): Outcome<map<string, int>> {
    if field == "" then Ok(map[]) else Segments(Split(field, ';'))
  }

  method ParseControlTotal(field: string) returns (r: Outcome<map<string, int>>)
    ensures r == ControlTotalField(field)
  {
    if field == "" {
      return Ok(map[]);
    }
    var parts := Split(field, ';');
    var out: map<string, int> := map[];
    for i := 0 to |parts|
      invariant Segments(parts[..i]) == Ok(out)
    {
      assert parts[..i + 1][..i] == parts[..i];
      var item := Segment(parts[i]);
      if item.Raised? {
        FirstErrorWins(parts, i + 1);
        return Raised(item.error);
      }
      out := out[item.value.0 := item.value.1];
    }
    assert parts[..|parts|] == parts;
    return Ok(out);
  }

  lemma {:induction false} FirstErrorWins(parts: seq<string>, i: nat)
    requires i <= |parts| && Segments(parts[..i]).Raised?
    ensures Segments(parts) == Segments(parts[..i])
    decreases |parts|
  {
    if i < |parts| {
      var front := parts[..|parts| - 1];
      assert front[..i] == parts[..i];
      FirstErrorWins(front, i);
    } else {
      assert parts[..i] == parts;
    }
  }

  // ---------------------------------------------------------------- rows

  /** One detail line: a movement, nothing for a row cut off mid-write, or an error. */
  function RowOf(line: string): Outcome<Option<Movement>> {
    var f := Split(line, '|');
    if f[0] != "DTL" then Raised(FormatError)
    else if |f| != 10 then Ok(None)
    else
      match (ParseInt(f[4]), ParseIso(f[7]), ParseIso(f[8]))
      case (Some(amount), Some(business), Some(value)) => Ok(Some(Movement(f[1], f[2], f[3], amount, business, value, f[9])))
      case _ => Raised(ValueError)
  }

  /** The movements of the lines in order, stopping at the first error. */
  function RowsOf(lines: seq<string>, read: string -> Outcome<Option<Movement>>): Outcome<seq<Movement>> {
    if lines == [] then Ok([]) else
      match RowsOf(lines[..|lines| - 1], read)
      case Raised(e) => Raised(e)
      case Ok(ms) =>
        match read(lines[|lines| - 1])
        case Raised(e) => Raised(e)
        case Ok(None) => Ok(ms)
        case Ok(Some(m)) => Ok(ms + [m])
  }

  function Movements(extractType: string, lines: seq<string>): Outcome<seq<Movement>> {
    if extractType != "TXN" then Ok([]) else RowsOf(lines, RowOf)
  }

  lemma {:induction false} FirstRowErrorWins(lines: seq<string>, i: nat, read: string -> Outcome<Option<Movement>>)
    requires i <= |lines| && RowsOf(lines[..i], read).Raised?
    ensures RowsOf(lines, read) == RowsOf(lines[..i], read)
    decreases |lines|
  {
    if i < |lines| {
      var front := lines[..|lines| - 1];
      assert front[..i] == lines[..i];
      FirstRowErrorWins(front, i, read);
    } else {
      assert lines[..i] == lines;
    }
  }

  method ReadRows(lines: seq<string>, read: string -> Outcome<Option<Movement>>) returns (r: Outcome<seq<Movement>>)
    ensures r == RowsOf(lines, read)
  {
    var out: seq<Movement> := [];
    for i := 0 to |lines|
      invariant RowsOf(lines[..i], read) == Ok(out)
    {
      assert lines[..i + 1][..i] == lines[..i];
      var row := read(lines[i]);
      if row.Raised? {
        FirstRowErrorWins(lines, i + 1, read);
        return Raised(row.error);
      }
      if row.value.Some? {
        out := out + [row.value.value];
      }
    }
    assert lines[..|lines|] == lines;
    return Ok(out);
  }

  // ---------------------------------------------------------------- totals

  function Get(m: map<string, int>, c: string): int {
    if c in m then m[c] else 0
  }

  /** out[currency] = out.get(currency, 0) + minor. */
  function Bump(m: map<string, int>, c: string, minor: int): map<string, int> {
    m[c := Get(m, c) + minor]
  }

  function Totals(ms: seq<Movement>): map<string, int> {
    if ms == [] then map[] else Bump(Totals(ms[..|ms| - 1]), ms[|ms| - 1].currency, ms[|ms| - 1].amount)
  }

  method TotalsOf(ms: seq<Movement>) returns (r: map<string, int>)
    ensures r == Totals(ms)
  {
    r := map[];
    for i := 0 to |ms|
      invariant r == Totals(ms[..i])
    {
      assert ms[..i + 1][..i] == ms[..i];
      r := Bump(r, ms[i].currency, ms[i].amount);
    }
    assert ms[..|ms|] == ms;
  }

  // ---------------------------------------------------------------- the file

  /** [ln for ln in body.split("\n") if ln]. */
  function NonEmpty(lines: seq<string>): seq<string> {
    if lines == [] then []
    else NonEmpty(lines[..|lines| - 1]) + if lines[|lines| - 1] != "" then [lines[|lines| - 1]] else []
  }

  function Lines(body: string): seq<string> {
    NonEmpty(Split(body, '\n'))
  }

  datatype Header = Header(extractType: string, businessDate: Day, sequence: int)

  function HeaderOf(line: string): Outcome<Header> {
    var h := Split(line, '|');
    if |h| != 6 || h[0] != "HDR" || h[1] != MAGIC then Raised(FormatError)
    else
      match (ParseCompact(h[3]), ParseInt(h[4]))
      case (Some(date), Some(sequence)) => Ok(Header(h[2], date, sequence))
      case _ => Raised(ValueError)
  }

  predicate IsTrailer(line: string) {
    "TRL|" <= line
  }

  /** The declared count and totals. */
  function TrailerOf(line: string): Outcome<(int, map<string, int>)> {
    var t := Split(line, '|');
    if |t| < 2 then Raised(ValueError) else
      match ParseInt(t[1])
      case None => Raised(ValueError)
      case Some(count) =>
        match ControlTotalField(if |t| > 2 then t[2] else "")
        case Raised(e) => Raised(e)
        case Ok(total) => Ok((count, total))
  }

  /** What the trailer's claims make of the rows found. */
  function StatusFor(found: int, totals: map<string, int>, declared: int, declaredTotals: map<string, int>): Status {
    if found < declared then Truncated
    else if found > declared then TrailerMismatch
    else if totals != declaredTotals then TrailerMismatch
    else Accepted
  }

  function Middle(lines: seq<string>): seq<string> {
    if |lines| < 2 then [] else lines[1..|lines| - 1]
  }

  function Parse(body: string): Outcome<IngestResult> {
    var lines := Lines(body);
    if lines == [] then Raised(FormatError) else
      match HeaderOf(lines[0])
      case Raised(e) => Raised(e)
      case Ok(h) =>
        var last := lines[|lines| - 1];
        if !IsTrailer(last) then
          match Movements(h.extractType, lines[1..])
          case Raised(e) => Raised(e)
          case Ok(ms) => Ok(IngestResult(h.extractType, h.businessDate, h.sequence, Truncated, |ms|, -1, Totals(ms), map[], ms, body))
        else
          match TrailerOf(last)
          case Raised(e) => Raised(e)
          case Ok((count, total)) =>
            match Movements(h.extractType, Middle(lines))
            case Raised(e) => Raised(e)
            case Ok(ms) =>
              Ok(IngestResult(h.extractType, h.businessDate, h.sequence, StatusFor(|ms|, Totals(ms), count, total),
                              |ms|, count, Totals(ms), total, ms, body))
  }

  // ---------------------------------------------------------------- the inbox

  datatype Key = Key(extractType: string, businessDate: Day, sequence: int)

  function KeyOf(r: IngestResult): Key {
    Key(r.extractType, r.businessDate, r.sequence)
  }

  /** What the inbox makes of one delivery, given the bytes last recorded for its identity. */
  function Offered(seen: map<Key, string>, r: IngestResult, receivedOn: Day): IngestResult {
    if KeyOf(r) in seen && seen[KeyOf(r)] == r.body then r.(status := Duplicate)
    else if KeyOf(r) !in seen && receivedOn > r.businessDate then r.(status := Late)
    else r
  }

  class ExtractInbox {
    var seen: map<Key, string>

    constructor ()
      ensures seen == map[]
    {
      seen := map[];
    }

    /** Records the delivery; a byte-identical repeat changes nothing. */
    method Offer(result: IngestResult, receivedOn: Day) returns (r: IngestResult)
      modifies this
      ensures r == Offered(old(seen), result, receivedOn)
      ensures seen == old(seen)[KeyOf(result) := result.body]
    {
      var key := KeyOf(result);
      if key in seen && seen[key] == result.body {
        assert seen == seen[key := result.body];
        return result.(status := Duplicate);
      }
      var first := key !in seen;
      seen := seen[key := result.body];
      if first && receivedOn > result.businessDate {
        return result.(status := Late);
      }
      return result;
    }
  }
}
