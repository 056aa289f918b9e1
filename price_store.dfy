/**
 * The price script's output file: the expected header, reading the last
 * written timestamp back, choosing where the next run resumes and whether
 * it appends or rewrites, and the rows a run writes.
 */
module PriceStore {
  import opened Wrappers
  import opened Calendar
  import opened CsvStore
  import opened HourlyAggregate
  import opened SeriesMerge

  /** The seven column names of the current schema (with the Solar column). */
  const ExpectedColumns: Record := [
    Text("timestamp_unix"), Text("datetime_utc"), Text("net_load_mw_avg"),
    Text("renewable_generation_mw_avg"), Text("solar_mw_avg"),
    Text("residual_load_mw_avg"), Text("day_ahead_price_eur_mwh")]

  /** One written row: `[ts, isoformat, net, renewables, solar, residual, price]`. */
  function RenderRow(row: MergedRow): (r: Record)
    ensures |r| == |ExpectedColumns|
    ensures RowTimestamp(r) == Some(row.ts)
    ensures r[2] == Number(row.load.netLoad) && r[3] == Number(row.load.renewables) && r[4] == Number(row.load.solar)
    ensures r[5] == Number(row.load.residualLoad) && r[6] == Number(row.price)
    ensures r[1] == IsoTime(row.ts)
  {
    var r := [Text(Decimal(row.ts)), IsoTime(row.ts), Number(row.load.netLoad), Number(row.load.renewables),
      Number(row.load.solar), Number(row.load.residualLoad), Number(row.price)];
    RowTimestampOfWritten(row.ts, r[1..]);
    assert r == [Text(Decimal(row.ts))] + r[1..];
    r
  }

  /**
   * A written record of hour `t`: the seven columns, `t` and its ISO time
   * in front, then the load record held for `t` and the price held for `t`.
   */
  predicate HoldsHour(load: map<int, HourlyRecord>, prices: map<int, real>, r: Record) {
    |r| == |ExpectedColumns| && RowTimestamp(r).Some?
    && var t := RowTimestamp(r).value;
    t in load && t in prices && r[1] == IsoTime(t)
    && r[2] == Number(load[t].netLoad) && r[3] == Number(load[t].renewables) && r[4] == Number(load[t].solar)
    && r[5] == Number(load[t].residualLoad) && r[6] == Number(prices[t])
  }

  /** A merged row carrying the values the two maps hold for its hour renders as a record of that hour. */
  lemma RenderedHoldsHour(load: map<int, HourlyRecord>, prices: map<int, real>, row: MergedRow)
    requires row.ts in load && row.ts in prices && row.load == load[row.ts] && row.price == prices[row.ts]
    ensures HoldsHour(load, prices, RenderRow(row))
  {
  }

  function Rendered(rows: seq<MergedRow>): (r: seq<Record>)
    ensures |r| == |rows| && forall i :: 0 <= i < |rows| ==> r[i] == RenderRow(rows[i])
  {
    if rows == [] then [] else Rendered(rows[..|rows| - 1]) + [RenderRow(rows[|rows| - 1])]
  }

  /**
   * `get_last_timestamp`: `int()` of the first cell of the last record after
   * the header; None when the file is missing, its header record is missing
   * or empty, no record follows it, the last record is empty, or its first
   * cell is not an integer.
   */
  function LastTimestampOf(file: File): (r: Option<int>)
    ensures file.None? || |file.value| < 2 || file.value[0] == [] ==> r.None?
    ensures r.Some? ==> file.Some? && |file.value| >= 2 && r == RowTimestamp(file.value[|file.value| - 1])
  {
    match HeaderOf(file)
    case None => None
    case Some(header) =>
      var records := file.value;
      if header == [] || |records| < 2 || records[|records| - 1] == [] then None
      else RowTimestamp(records[|records| - 1])
  }

  /** The reading loop of `get_last_timestamp`: keep the last record seen, then parse it. */
  method GetLastTimestamp(file: File) returns (r: Option<int>)
    ensures r == LastTimestampOf(file)
  {
    if file.None? || file.value == [] || file.value[0] == [] {
      return None;
    }
    var records := file.value;
    var lastRow: Option<Record> := None;
    var i := 1;
    while i < |records|
      invariant 1 <= i <= |records|
      invariant lastRow == if i == 1 then None else Some(records[i - 1])
    {
      lastRow := Some(records[i]);
      i := i + 1;
    }
    if lastRow.Some? && lastRow.value != [] {
      r := RowTimestamp(lastRow.value);
    } else {
      r := None;
    }
  }

  /** Where the fetch starts and whether rows are appended (mode 'a') or the file rewritten (mode 'w'). */
  datatype Resume = Resume(start: int, append: bool)

  /**
   * The start-up decision: with the expected header and a non-zero last
   * timestamp, append from one hour after it; otherwise (missing file,
   * another header, no readable last row, or a last timestamp of 0, which
   * Python treats as false) rewrite from 2024-01-01T00:00Z.
   */
  function ResumePoint(file: File): (r: Resume)
    ensures r.append <==> HeaderOf(file) == Some(ExpectedColumns) && LastTimestampOf(file).Some? && LastTimestampOf(file).value != 0
    ensures r.append ==> r.start == LastTimestampOf(file).value + SecondsPerHour
    ensures !r.append ==> r.start == Start2024()
  {
    var lastTs := if HeaderOf(file) == Some(ExpectedColumns) then LastTimestampOf(file) else None;
    if lastTs.Some? && lastTs.value != 0 then Resume(lastTs.value + SecondsPerHour, true)
    else Resume(Start2024(), false)
  }

  /**
   * The file after a run that writes `rows`: appended after the existing
   * records, or a fresh header followed by the rows.
   */
  function Written(file: File, rows: seq<MergedRow>, append: bool): (r: File)
    ensures r.Some?
    ensures append ==> RecordsOf(file) <= r.value && |r.value| == |RecordsOf(file)| + |rows|
    ensures !append ==> |r.value| == 1 + |rows| && r.value[0] == ExpectedColumns
    ensures forall i :: 0 <= i < |rows| ==> r.value[|r.value| - |rows| + i] == RenderRow(rows[i])
  {
    if append then Some(RecordsOf(file) + Rendered(rows)) else Some([ExpectedColumns] + Rendered(rows))
  }

  /** Rows that each carry the values two maps hold for their hour. */
  predicate FromMaps(load: map<int, HourlyRecord>, prices: map<int, real>, rows: seq<MergedRow>) {
    forall i :: 0 <= i < |rows| ==>
      rows[i].ts in load && rows[i].ts in prices && rows[i].load == load[rows[i].ts] && rows[i].price == prices[rows[i].ts]
  }

  /** Writing such rows adds, at the end of the file, one record per row holding its hour's values. */
  lemma WrittenHoldsHours(file: File, rows: seq<MergedRow>, load: map<int, HourlyRecord>, prices: map<int, real>, append: bool)
    requires FromMaps(load, prices, rows)
    ensures var out := Written(file, rows, append).value;
      |rows| <= |out| && forall j :: |out| - |rows| <= j < |out| ==> HoldsHour(load, prices, out[j])
  {
    var out := Written(file, rows, append).value;
    forall j | |out| - |rows| <= j < |out|
      ensures HoldsHour(load, prices, out[j])
    {
      WrittenHoldsHourAt(file, rows, load, prices, append, j - (|out| - |rows|));
    }
  }

  lemma WrittenHoldsHourAt(file: File, rows: seq<MergedRow>, load: map<int, HourlyRecord>, prices: map<int, real>, append: bool, i: int)
    requires FromMaps(load, prices, rows) && 0 <= i < |rows|
    ensures var out := Written(file, rows, append).value;
      HoldsHour(load, prices, out[|out| - |rows| + i])
  {
    RenderedHoldsHour(load, prices, rows[i]);
  }

  /** After writing at least one row, the file keeps the expected header and its last timestamp is the last row's. */
  lemma LastTimestampAfterWrite(file: File, rows: seq<MergedRow>, append: bool)
    requires rows != []
    requires append ==> HeaderOf(file) == Some(ExpectedColumns)
    ensures HeaderOf(Written(file, rows, append)) == Some(ExpectedColumns)
    ensures LastTimestampOf(Written(file, rows, append)) == Some(rows[|rows| - 1].ts)
  {
    var w := Written(file, rows, append).value;
    assert w[|w| - 1] == RenderRow(rows[|rows| - 1]);
    assert w[0] == ExpectedColumns;
  }

  /**
   * After writing at least one row, the next run resumes one hour after the
   * last written row, in append mode (unless that row's timestamp is 0).
   * Hours missing before it are never fetched again.
   */
  lemma ResumeAfterWrite(file: File, rows: seq<MergedRow>, append: bool)
    requires rows != [] && rows[|rows| - 1].ts != 0
    requires append ==> HeaderOf(file) == Some(ExpectedColumns)
    ensures ResumePoint(Written(file, rows, append)) == Resume(rows[|rows| - 1].ts + SecondsPerHour, true)
  {
    LastTimestampAfterWrite(file, rows, append);
  }

  /** A file with any other header (or none) is rebuilt from 2024, whatever it holds. */
  lemma RebuildOnSchemaChange(file: File, header: Record)
    requires HeaderOf(file) == Some(header) && header != ExpectedColumns
    ensures ResumePoint(file) == Resume(1704067200, false)
  {
    assert ResumePoint(file).start == Start2024();
  }

  predicate WholeHours(s: seq<int>) {
    forall i :: 0 <= i < |s| ==> s[i] % SecondsPerHour == 0
  }

  /**
   * A well-formed output file: the expected header, then rows whose first
   * cells are whole hours, strictly ascending.
   */
  predicate WellFormed(file: File) {
    file.Some? && |file.value| >= 1 && file.value[0] == ExpectedColumns && AllStamped(file.value[1..])
    && WholeHours(StampSeq(file.value[1..])) && StrictlyIncreasing(StampSeq(file.value[1..]))
  }

  /** The rendered rows read back as the rows' own timestamps. */
  lemma StampsOfRendered(rows: seq<MergedRow>)
    ensures AllStamped(Rendered(rows)) && StampSeq(Rendered(rows)) == Stamps(rows)
  {
    var recs := Rendered(rows);
    assert forall i :: 0 <= i < |recs| ==> RowTimestamp(recs[i]) == Some(rows[i].ts);
  }

  lemma {:induction false} IncreasingConcat(a: seq<int>, b: seq<int>)
    requires StrictlyIncreasing(a) && StrictlyIncreasing(b)
    requires a != [] && b != [] ==> a[|a| - 1] < b[0]
    ensures StrictlyIncreasing(a + b)
  {
    var c := a + b;
    forall i, j | 0 <= i < j < |c|
      ensures c[i] < c[j]
    {
      if i < |a| && |a| <= j {
        assert c[i] <= a[|a| - 1] by {
          if i < |a| - 1 {
            assert a[i] < a[|a| - 1];
          }
        }
        assert b[0] <= c[j] by {
          if j > |a| {
            assert b[0] < b[j - |a|];
          }
        }
      }
    }
  }

  /** A rewrite with whole-hour ascending rows yields a well-formed file. */
  lemma RewriteWellFormed(file: File, rows: seq<MergedRow>)
    requires WholeHours(Stamps(rows)) && StrictlyIncreasing(Stamps(rows))
    ensures WellFormed(Written(file, rows, false))
  {
    var w := Written(file, rows, false).value;
    StampsOfRendered(rows);
    assert w[1..] == Rendered(rows);
  }

  /**
   * Appending whole-hour ascending rows that all come after the last row
   * already in a well-formed file keeps it well formed.
   */
  lemma AppendWellFormed(file: File, rows: seq<MergedRow>)
    requires WellFormed(file) && WholeHours(Stamps(rows)) && StrictlyIncreasing(Stamps(rows))
    requires |file.value| >= 2 && rows != [] ==> RowTimestamp(file.value[|file.value| - 1]).value < rows[0].ts
    ensures WellFormed(Written(file, rows, true))
  {
    var w := Written(file, rows, true).value;
    var before := file.value[1..];
    StampsOfRendered(rows);
    assert w[1..] == before + Rendered(rows);
    var stamps := StampSeq(w[1..]);
    assert stamps == StampSeq(before) + Stamps(rows);
    IncreasingConcat(StampSeq(before), Stamps(rows));
  }
}
