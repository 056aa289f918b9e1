/**
 * The original full-history script (`main` of residual_load.py): fetch
 * month-sized chunks of power data from 2024-01-01 to the fixed end date
 * 2025-12-28, keep the first load reading seen for every 15-minute
 * timestamp with its renewable sum, and rewrite the output file with one
 * row per timestamp, ascending, with the residual load derived.  There is no
 * price data and no hourly aggregation.
 */
module LoadPipeline {
  import opened Wrappers
  import opened Calendar
  import opened Api
  import opened CsvStore
  import opened HourlyAggregate
  import opened SeriesMerge

  /** One `combined_data` entry: `{'net_load', 'renewables'}`. */
  datatype LoadEntry = LoadEntry(netLoad: real, renewables: real)

  type Combined = map<int, LoadEntry>

  /** The fixed end of the fetch, 2025-12-28T00:00. */
  function EndDate(): (r: int)
    ensures r == 1766880000
  {
    var december := MonthStart(YearMonth(2025, 12));
    assert DaysBeforeYear(2025) == 20089;
    assert DaysBeforeMonth(YearMonth(2025, 12)) == 334;
    december + 27 * SecondsPerDay
  }

  /**
   * `start_str`/`end_str` of a window: 00:00 of its first day to 23:59 of
   * the day of its end, so the query covers the whole window at minute
   * precision and reaches less than a day beyond either end.
   */
  function DayQuery(w: Window): (q: Query)
    ensures q.from % SecondsPerDay == 0 && q.to % SecondsPerDay == 23 * SecondsPerHour + 59 * 60
    ensures q.from <= w.start < q.from + SecondsPerDay
    ensures w.end < q.to + 60 <= w.end + SecondsPerDay
  {
    Query(DayFloor(w.start), DayFloor(w.end) + 23 * SecondsPerHour + 59 * 60)
  }

  /**
   * Consecutive windows meet at the 1st of a month, and both of their
   * queries cover that whole day: every chunk fetches the first day of the
   * next month too.
   */
  lemma ConsecutiveQueriesShareADay(start: int, end: int, i: int)
    requires 0 <= i < |Plan(start, end)| - 1
    ensures var ws := Plan(start, end);
      DayQuery(ws[i]).to - DayQuery(ws[i + 1]).from == 23 * SecondsPerHour + 59 * 60
    ensures var ws := Plan(start, end);
      DayQuery(ws[i + 1]).from <= ws[i + 1].start && ws[i + 1].start + SecondsPerDay <= DayQuery(ws[i]).to + 60
  {
    var ws := Plan(start, end);
    PlanWindow(start, end, i + 1);
    MonthStartIsMidnight(YearMonthOf(ws[i + 1].start));
  }

  /** Index `i` is the first index with a load reading for its timestamp. */
  predicate FirstLoaded(ts: seq<int>, load: seq<Option<real>>, i: int)
    requires 0 <= i < |ts|
  {
    Loaded(load, i) && forall k :: 0 <= k < i && Loaded(load, k) ==> ts[k] != ts[i]
  }

  /**
   * `combined_data` after the first `j` iterations over one chunk's
   * timestamps: a reading is stored only for a timestamp not stored yet, so
   * every stored entry stays as it was.
   */
  function FirstWins(ts: seq<int>, load: seq<Option<real>>, sums: seq<real>, acc: Combined, j: nat): (r: Combined)
    requires j <= |ts| && |sums| == |ts|
    ensures forall t :: t in acc ==> t in r && r[t] == acc[t]
  {
    if j == 0 then acc
    else
      var m := FirstWins(ts, load, sums, acc, j - 1);
      if Loaded(load, j - 1) && ts[j - 1] !in m then m[ts[j - 1] := LoadEntry(load[j - 1].value, sums[j - 1])]
      else m
  }

  /**
   * After a chunk, a timestamp is stored exactly when it was stored before
   * or the chunk has a reading for it, and a new entry holds the chunk's
   * first reading for its timestamp.
   */
  lemma FirstWinsEntries(ts: seq<int>, load: seq<Option<real>>, sums: seq<real>, acc: Combined, j: nat)
    requires j <= |ts| && |sums| == |ts|
    ensures forall t :: t in FirstWins(ts, load, sums, acc, j) <==>
      t in acc || exists i :: 0 <= i < j && Loaded(load, i) && ts[i] == t
    ensures forall i :: 0 <= i < j && FirstLoaded(ts, load, i) && ts[i] !in acc ==>
      FirstWins(ts, load, sums, acc, j)[ts[i]] == LoadEntry(load[i].value, sums[i])
  {
    FirstWinsKeys(ts, load, sums, acc, j);
    FirstWinsFirst(ts, load, sums, acc, j);
  }

  lemma {:induction false} FirstWinsKeys(ts: seq<int>, load: seq<Option<real>>, sums: seq<real>, acc: Combined, j: nat)
    requires j <= |ts| && |sums| == |ts|
    ensures forall t :: t in FirstWins(ts, load, sums, acc, j) <==>
      t in acc || exists i :: 0 <= i < j && Loaded(load, i) && ts[i] == t
  {
    if j > 0 {
      FirstWinsKeys(ts, load, sums, acc, j - 1);
      var m := FirstWins(ts, load, sums, acc, j - 1);
      forall t
        ensures t in FirstWins(ts, load, sums, acc, j) <==>
          t in acc || exists i :: 0 <= i < j && Loaded(load, i) && ts[i] == t
      {
        if exists i :: 0 <= i < j && Loaded(load, i) && ts[i] == t {
          var i :| 0 <= i < j && Loaded(load, i) && ts[i] == t;
          if i < j - 1 {
            assert t in m;
          }
        }
      }
    }
  }

  lemma {:induction false} FirstWinsFirst(ts: seq<int>, load: seq<Option<real>>, sums: seq<real>, acc: Combined, j: nat)
    requires j <= |ts| && |sums| == |ts|
    ensures forall i :: 0 <= i < j && FirstLoaded(ts, load, i) && ts[i] !in acc ==>
      ts[i] in FirstWins(ts, load, sums, acc, j) && FirstWins(ts, load, sums, acc, j)[ts[i]] == LoadEntry(load[i].value, sums[i])
  {
    if j > 0 {
      FirstWinsFirst(ts, load, sums, acc, j - 1);
      FirstWinsKeys(ts, load, sums, acc, j - 1);
      var m := FirstWins(ts, load, sums, acc, j - 1);
      forall i | 0 <= i < j && FirstLoaded(ts, load, i) && ts[i] !in acc
        ensures ts[i] in FirstWins(ts, load, sums, acc, j) && FirstWins(ts, load, sums, acc, j)[ts[i]] == LoadEntry(load[i].value, sums[i])
      {
        if i < j - 1 {
          assert ts[i] in m;
        } else {
          NotStoredBeforeFirst(ts, load, sums, acc, i);
        }
      }
    }
  }

  /** Before its first reading, a timestamp not in `acc` is not stored yet. */
  lemma NotStoredBeforeFirst(ts: seq<int>, load: seq<Option<real>>, sums: seq<real>, acc: Combined, i: nat)
    requires i < |ts| && |sums| == |ts|
    requires FirstLoaded(ts, load, i) && ts[i] !in acc
    ensures ts[i] !in FirstWins(ts, load, sums, acc, i)
  {
    FirstWinsKeys(ts, load, sums, acc, i);
  }

  /**
   * One iteration of the chunk loop: a failed fetch or a KeyError skips the
   * chunk; otherwise its readings are added, first write wins.
   */
  function LoadChunkStep(acc: Combined, q: Query, power: Query -> Option<PowerResponse>): (r: Combined)
    ensures forall t :: t in acc ==> t in r && r[t] == acc[t]
    ensures r != acc ==> power(q).Some? && SeriesMap(power(q).value.productionTypes).Some?
  {
    match power(q)
    case None => acc
    case Some(resp) =>
      match SeriesMap(resp.productionTypes)
      case None => acc
      case Some(series) =>
        var ts := resp.unixSeconds;
        if ts == [] || LoadKey !in series then acc
        else FirstWins(ts, series[LoadKey], RenewableColumn(series, |ts|), acc, |ts|)
  }

  /**
   * `combined_data` after the chunk loop has gone on from `acc` over the
   * windows `ws`, in order.  A timestamp fetched by an earlier chunk keeps
   * that chunk's reading: the day the next chunk fetches again changes
   * nothing.
   */
  function Collect(acc: Combined, ws: seq<Window>, power: Query -> Option<PowerResponse>): (r: Combined)
    ensures forall t :: t in acc ==> t in r && r[t] == acc[t]
    decreases |ws|
  {
    if ws == [] then acc else Collect(LoadChunkStep(acc, DayQuery(ws[0]), power), ws[1..], power)
  }

  /** `combined_data` at the end of the loop. */
  function Collected(power: Query -> Option<PowerResponse>): Combined {
    Collect(map[], Plan(Start2024(), EndDate()), power)
  }

  const Header: Record := [
    Text("timestamp_unix"), Text("datetime_utc"), Text("net_load_mw"),
    Text("renewable_generation_mw"), Text("residual_load_mw")]

  /** One written row: `[ts, isoformat, net, renewables, net - renewables]`. */
  function LoadRow(ts: int, e: LoadEntry): (r: Record)
    ensures |r| == |Header| && RowTimestamp(r) == Some(ts)
    ensures r[1] == IsoTime(ts) && r[2] == Number(e.netLoad) && r[3] == Number(e.renewables)
    ensures r[4] == Number(e.netLoad - e.renewables)
  {
    var r := [Text(Decimal(ts)), IsoTime(ts), Number(e.netLoad), Number(e.renewables), Number(e.netLoad - e.renewables)];
    RowTimestampOfWritten(ts, r[1..]);
    assert r == [Text(Decimal(ts))] + r[1..];
    r
  }

  function LoadRows(c: Combined, stamps: seq<int>): (r: seq<Record>)
    requires forall i :: 0 <= i < |stamps| ==> stamps[i] in c
    ensures |r| == |stamps| && forall i :: 0 <= i < |stamps| ==> r[i] == LoadRow(stamps[i], c[stamps[i]])
  {
    if stamps == [] then []
    else LoadRows(c, stamps[..|stamps| - 1]) + [LoadRow(stamps[|stamps| - 1], c[stamps[|stamps| - 1]])]
  }

  /** The rows for `combined_data`: one per timestamp, ascending. */
  function OutputRows(c: Combined): (r: seq<Record>)
    ensures |r| == |c.Keys|
  {
    var stamps := SortedInts(c.Keys);
    assert forall i :: 0 <= i < |stamps| ==> stamps[i] in stamps;
    LoadRows(c, stamps)
  }

  /**
   * The output file after the run: unchanged when nothing was collected,
   * otherwise rewritten with the header and one row per collected timestamp.
   */
  function LoadOutcome(file: File, power: Query -> Option<PowerResponse>): (r: File)
    ensures Collected(power) == map[] ==> r == file
    ensures Collected(power) != map[] ==> r.Some? && r.value != [] && r.value[0] == Header && |r.value| == 1 + |Collected(power).Keys|
    ensures Collected(power) != map[] ==> r == Some([Header] + OutputRows(Collected(power)))
  {
    var c := Collected(power);
    if c == map[] then file
    else
      var rows := OutputRows(c);
      assert |[Header] + rows| == 1 + |c.Keys|;
      Some([Header] + rows)
  }


  /**
   * A written file reads back as the collected data: after the header, the
   * timestamps are exactly the collected ones, strictly ascending, and each
   * row holds its hour's ISO time, net load, renewables and their difference.
   */
  lemma OutputReadsBack(c: Combined)
    ensures AllStamped(OutputRows(c))
    ensures StrictlyIncreasing(StampSeq(OutputRows(c)))
    ensures forall t :: t in StampSeq(OutputRows(c)) <==> t in c
    ensures forall i :: 0 <= i < |OutputRows(c)| ==> HoldsEntry(c, OutputRows(c)[i])
  {
    var stamps := SortedInts(c.Keys);
    assert forall i :: 0 <= i < |stamps| ==> stamps[i] in stamps;
    assert OutputRows(c) == LoadRows(c, stamps);
    LoadRowsStamps(c, stamps);
  }

  /**
   * A row of a collected timestamp `t`: `t`'s ISO time, then the net load and
   * renewables `combined_data` holds for `t`, then their difference.
   */
  predicate HoldsEntry(c: Combined, r: Record) {
    |r| == |Header| && RowTimestamp(r).Some?
    && var t := RowTimestamp(r).value;
    t in c && r[1] == IsoTime(t) && r[2] == Number(c[t].netLoad) && r[3] == Number(c[t].renewables)
    && r[4] == Number(c[t].netLoad - c[t].renewables)
  }

  lemma LoadRowsStamps(c: Combined, stamps: seq<int>)
    requires forall i :: 0 <= i < |stamps| ==> stamps[i] in c
    ensures AllStamped(LoadRows(c, stamps)) && StampSeq(LoadRows(c, stamps)) == stamps
    ensures forall i :: 0 <= i < |stamps| ==> HoldsEntry(c, LoadRows(c, stamps)[i])
  {
    var rows := LoadRows(c, stamps);
    assert forall i :: 0 <= i < |rows| ==> RowTimestamp(rows[i]) == Some(stamps[i]);
  }

  /** The loop over one chunk's timestamps. */
  method AddFirstReadings(ts: seq<int>, load: seq<Option<real>>, sums: seq<real>, combined: Combined)
    returns (r: Combined)
    requires |sums| == |ts|
    ensures r == FirstWins(ts, load, sums, combined, |ts|)
  {
    r := combined;
    var i := 0;
    while i < |ts|
      invariant 0 <= i <= |ts|
      invariant r == FirstWins(ts, load, sums, combined, i)
    {
      if i < |load| {
        var netLoad := load[i];
        if netLoad.Some? {
          if ts[i] !in r {
            r := r[ts[i] := LoadEntry(netLoad.value, sums[i])];
          }
        }
      }
      i := i + 1;
    }
  }

  /** The body of the chunk loop, with its `try`/`except`. */
  method IngestChunk(q: Query, power: Query -> Option<PowerResponse>, combined: Combined) returns (r: Combined)
    ensures r == LoadChunkStep(combined, q, power)
  {
    r := combined;
    var data := power(q);
    if data.None? {
      return;
    }
    var seriesMap := SeriesMap(data.value.productionTypes);
    if seriesMap.None? {
      return;
    }
    var series := seriesMap.value;
    var timestamps := data.value.unixSeconds;
    if timestamps != [] && LoadKey in series {
      var renewableSums := RenewableSums(series, |timestamps|);
      r := AddFirstReadings(timestamps, series[LoadKey], renewableSums, combined);
    }
  }

  /** The chunk loop from `startDate` up to `endDate`. */
  method CollectAll(startDate: int, endDate: int, power: Query -> Option<PowerResponse>) returns (combined: Combined)
    ensures combined == Collect(map[], Plan(startDate, endDate), power)
  {
    combined := map[];
    var current := startDate;
    while current < endDate
      invariant Collect(combined, Plan(current, endDate), power) == Collect(map[], Plan(startDate, endDate), power)
      decreases endDate - current
    {
      var nextChunkStart := NextMonthStart(current);
      var chunkEnd := if nextChunkStart < endDate then nextChunkStart else endDate;
      var w := Window(current, chunkEnd);
      assert Plan(current, endDate) == [w] + Plan(nextChunkStart, endDate);
      combined := IngestChunk(DayQuery(w), power, combined);
      current := nextChunkStart;
    }
  }

  /** `writer.writerow` for each timestamp's row, ascending. */
  method WriteRows(out: CsvFile, c: Combined, sortedTs: seq<int>)
    requires forall i :: 0 <= i < |sortedTs| ==> sortedTs[i] in c
    modifies out
    ensures out.content == Some(RecordsOf(old(out.content)) + LoadRows(c, sortedTs))
  {
    ghost var prefix := RecordsOf(out.content);
    ghost var rows := LoadRows(c, sortedTs);
    out.OpenAppend();
    assert prefix + rows[..0] == prefix;
    var i := 0;
    while i < |sortedTs|
      invariant 0 <= i <= |sortedTs|
      invariant out.content == Some(prefix + rows[..i])
    {
      var t := sortedTs[i];
      var row := LoadRow(t, c[t]);
      AppendNext(prefix, rows, i);
      out.WriteRow(row);
      i := i + 1;
    }
    assert rows[..|sortedTs|] == rows;
  }

  /** The writing part of `main`: mode 'w', the header, then the rows. */
  method WriteOutput(out: CsvFile, c: Combined)
    modifies out
    ensures out.content == Some([Header] + OutputRows(c))
  {
    var sortedTs := SortedInts(c.Keys);
    assert forall i :: 0 <= i < |sortedTs| ==> sortedTs[i] in sortedTs;
    out.OpenWrite();
    assert RecordsOf(out.content) == [];
    out.WriteRow(Header);
    assert [] + [Header] == [Header];
    WriteRows(out, c, sortedTs);
  }

  /** One run of the script against the file `out`. */
  method Run(out: CsvFile, power: Query -> Option<PowerResponse>)
    modifies out
    ensures out.content == LoadOutcome(old(out.content), power)
  {
    var combined := CollectAll(Start2024(), EndDate(), power);
    if combined == map[] {
      return;
    }
    WriteOutput(out, combined);
  }
}
