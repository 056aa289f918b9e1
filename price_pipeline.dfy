/**
 * The incremental price script (`main` of residual_load_with_prices.py): one
 * run reads the output file, fetches month-sized chunks of power and price
 * data from the resume point up to `now`, keeps the hours that have both a
 * complete load record and a price, and writes them.
 *
 * The two endpoints are parameters: a function from the query to the parsed
 * response, None when the fetch raised after its retries.
 */
module PricePipeline {
  import opened Wrappers
  import opened Calendar
  import opened Api
  import opened CsvStore
  import opened HourlyAggregate
  import opened SeriesMerge
  import opened PriceStore

  type LoadMap = map<int, HourlyRecord>
  type PriceMap = map<int, real>

  /** `combined_hourly_load` and `prices_hourly` together. */
  datatype Acc = Acc(load: LoadMap, prices: PriceMap)

  /**
   * `start_str`/`end_str` of a window: HH:00 of its start to HH:59 of the
   * hour of its end, so the query covers the whole window at minute
   * precision and reaches less than an hour beyond either end.
   */
  function ChunkQuery(w: Window): (q: Query)
    ensures q.from % SecondsPerHour == 0 && q.to % SecondsPerHour == 59 * 60
    ensures q.from <= w.start < q.from + SecondsPerHour
    ensures w.end < q.to + 60 <= w.end + SecondsPerHour
  {
    Query(HourFloor(w.start), HourFloor(w.end) + 59 * 60)
  }

  /**
   * The hourly load records of one `total_power` response: None when a
   * production type has no name (the KeyError aborts the chunk); no records
   * when there are no timestamps or no load series; otherwise the complete
   * hours of the 15-minute frame, each the hour of one of the response's
   * timestamps.
   */
  ghost function ChunkLoad(resp: PowerResponse): (r: Option<LoadMap>)
    ensures r.None? <==> SeriesMap(resp.productionTypes).None?
    ensures r.Some? ==> forall h :: h in r.value ==>
      h % SecondsPerHour == 0 && exists i :: 0 <= i < |resp.unixSeconds| && HourOf(resp.unixSeconds[i]) == h
  {
    match SeriesMap(resp.productionTypes)
    case None => None
    case Some(series) =>
      var ts := resp.unixSeconds;
      if ts == [] || LoadKey !in series then Some(map[])
      else
        FrameHoursFromStamps(ts, series[LoadKey], RenewableColumn(series, |ts|), SolarColumn(series, |ts|));
        Some(Hourly(FrameUpTo(ts, series[LoadKey], RenewableColumn(series, |ts|), SolarColumn(series, |ts|), |ts|)))
  }

  /** `prices_hourly` after the first `j` pairs of the `zip`: each non-null price stored under its timestamp. */
  function PricesUpTo(stamps: seq<int>, prices: seq<Option<real>>, acc: PriceMap, j: nat): (r: PriceMap)
    requires j <= |stamps| && j <= |prices|
    ensures forall h :: h in acc ==> h in r
    ensures forall i :: 0 <= i < j && prices[i].Some? ==> stamps[i] in r
  {
    if j == 0 then acc
    else
      var m := PricesUpTo(stamps, prices, acc, j - 1);
      if prices[j - 1].Some? then m[stamps[j - 1] := prices[j - 1].value] else m
  }

  function ZipLength(resp: PriceResponse): nat {
    if |resp.unixSeconds| < |resp.price| then |resp.unixSeconds| else |resp.price|
  }

  /** The price map after one `price` response: every hour priced before or by a pair of the response has a price. */
  function AddPrices(acc: PriceMap, resp: PriceResponse): (r: PriceMap)
    ensures forall h :: h in acc ==> h in r
    ensures forall i :: 0 <= i < |resp.unixSeconds| && i < |resp.price| && resp.price[i].Some? ==> resp.unixSeconds[i] in r
  {
    PricesUpTo(resp.unixSeconds, resp.price, acc, ZipLength(resp))
  }

  /** Index `i` of the zip is the last one below `j` that carries a price for its timestamp. */
  predicate LastPriced(stamps: seq<int>, prices: seq<Option<real>>, i: int, j: int)
    requires 0 <= i < j <= |stamps| && j <= |prices|
  {
    prices[i].Some? && forall k :: i < k < j && prices[k].Some? ==> stamps[k] != stamps[i]
  }

  /**
   * After the zip, a timestamp has a price exactly when it had one before or
   * a pair carries a non-null price for it; the last such pair wins, and
   * prices already held for other timestamps are kept.
   */
  lemma {:induction false} PricesUpToEntries(stamps: seq<int>, prices: seq<Option<real>>, acc: PriceMap, j: nat)
    requires j <= |stamps| && j <= |prices|
    ensures forall h :: h in PricesUpTo(stamps, prices, acc, j) <==>
      h in acc || exists i :: 0 <= i < j && stamps[i] == h && prices[i].Some?
    ensures forall i :: 0 <= i < j && LastPriced(stamps, prices, i, j) ==>
      PricesUpTo(stamps, prices, acc, j)[stamps[i]] == prices[i].value
    ensures forall h :: h in acc && (forall i :: 0 <= i < j && prices[i].Some? ==> stamps[i] != h) ==>
      PricesUpTo(stamps, prices, acc, j)[h] == acc[h]
  {
    if j > 0 {
      PricesUpToEntries(stamps, prices, acc, j - 1);
      var m := PricesUpTo(stamps, prices, acc, j - 1);
      forall h
        ensures h in PricesUpTo(stamps, prices, acc, j) <==>
          h in acc || exists i :: 0 <= i < j && stamps[i] == h && prices[i].Some?
      {
        if exists i :: 0 <= i < j && stamps[i] == h && prices[i].Some? {
          var i :| 0 <= i < j && stamps[i] == h && prices[i].Some?;
          if i < j - 1 {
            assert h in m;
          }
        }
      }
      forall i | 0 <= i < j && LastPriced(stamps, prices, i, j)
        ensures PricesUpTo(stamps, prices, acc, j)[stamps[i]] == prices[i].value
      {
        if i < j - 1 {
          assert LastPriced(stamps, prices, i, j - 1);
        }
      }
    }
  }

  /**
   * One iteration of the chunk loop.  A failed power fetch or a KeyError
   * skips the chunk, price fetch included; otherwise the chunk's hourly
   * records overwrite earlier ones for the same hour (`dict.update`), and
   * then, if the price fetch succeeds, its prices are added.  No hour loses
   * its record or its price, and nothing changes unless the power fetch and
   * its parsing succeed.
   */
  ghost function ChunkStep(acc: Acc, q: Query, power: Query -> Option<PowerResponse>, price: Query -> Option<PriceResponse>): (r: Acc)
    ensures forall h :: h in acc.load ==> h in r.load
    ensures forall h :: h in acc.prices ==> h in r.prices
    ensures r != acc ==> power(q).Some? && ChunkLoad(power(q).value).Some?
  {
    match power(q)
    case None => acc
    case Some(resp) =>
      match ChunkLoad(resp)
      case None => acc
      case Some(hourly) =>
        var load := acc.load + hourly;
        match price(q)
        case None => Acc(load, acc.prices)
        case Some(pr) => Acc(load, AddPrices(acc.prices, pr))
  }

  /** Both maps after the chunk loop has gone on from `acc` over the windows `ws`, in order. */
  ghost function Accumulate(acc: Acc, ws: seq<Window>, power: Query -> Option<PowerResponse>, price: Query -> Option<PriceResponse>): Acc
    decreases |ws|
  {
    if ws == [] then acc
    else Accumulate(ChunkStep(acc, ChunkQuery(ws[0]), power, price), ws[1..], power, price)
  }

  const Empty: Acc := Acc(map[], map[])

  /**
   * The output file after one run at instant `now`: unchanged when the
   * resume point is not before `now` or no hour has both a load record and
   * a price; otherwise the merged rows appended or written after a fresh
   * header, as the resume decision says.  A changed file carries the
   * expected header and a readable last timestamp.
   */
  ghost function RunOutcome(file: File, now: int, power: Query -> Option<PowerResponse>, price: Query -> Option<PriceResponse>): (r: File)
    ensures ResumePoint(file).start >= now ==> r == file
    ensures r != file ==> HeaderOf(r) == Some(ExpectedColumns) && LastTimestampOf(r).Some?
  {
    var resume := ResumePoint(file);
    if resume.start >= now then file
    else
      var rows := RunRows(resume.start, now, power, price);
      if rows == [] then file
      else
        LastTimestampAfterWrite(file, rows, resume.append);
        Written(file, rows, resume.append)
  }

  /** The merged rows of a run fetching from `start` up to `now`. */
  ghost function RunRows(start: int, now: int, power: Query -> Option<PowerResponse>, price: Query -> Option<PriceResponse>): seq<MergedRow> {
    var acc := Accumulate(Empty, Plan(start, now), power, price);
    Merge(acc.load, acc.prices)
  }

  /** `writer.writerow` for each merged row, in order. */
  method WriteAll(out: CsvFile, rows: seq<MergedRow>)
    modifies out
    ensures out.content == Some(RecordsOf(old(out.content)) + Rendered(rows))
  {
    ghost var prefix := RecordsOf(out.content);
    ghost var records := Rendered(rows);
    out.OpenAppend();
    assert prefix + records[..0] == prefix;
    var i := 0;
    while i < |rows|
      invariant 0 <= i <= |rows|
      invariant out.content == Some(prefix + records[..i])
    {
      var record := RenderRow(rows[i]);
      assert records[i] == record;
      AppendNext(prefix, records, i);
      out.WriteRow(record);
      i := i + 1;
    }
    assert records[..|rows|] == records;
  }

  /** The writing part of `main`: open in mode 'a' or 'w', the header when rewriting, then one record per row. */
  method WriteRows(out: CsvFile, rows: seq<MergedRow>, append: bool)
    modifies out
    ensures out.content == Written(old(out.content), rows, append)
  {
    if append {
      out.OpenAppend();
    } else {
      out.OpenWrite();
      assert RecordsOf(out.content) == [];
      out.WriteRow(ExpectedColumns);
      assert [] + [ExpectedColumns] == [ExpectedColumns];
    }
    WriteAll(out, rows);
  }

  /** The `zip` loop over one price response. */
  method CollectPrices(resp: PriceResponse, prices: PriceMap) returns (r: PriceMap)
    ensures r == AddPrices(prices, resp)
  {
    var n := ZipLength(resp);
    r := prices;
    var i := 0;
    while i < n
      invariant 0 <= i <= n
      invariant r == PricesUpTo(resp.unixSeconds, resp.price, prices, i)
    {
      if resp.price[i].Some? {
        r := r[resp.unixSeconds[i] := resp.price[i].value];
      }
      i := i + 1;
    }
  }

  /** The body of the chunk loop, with its `try`/`except`. */
  method IngestChunk(q: Query, power: Query -> Option<PowerResponse>, price: Query -> Option<PriceResponse>,
                     load: LoadMap, prices: PriceMap)
    returns (load': LoadMap, prices': PriceMap)
    ensures Acc(load', prices') == ChunkStep(Acc(load, prices), q, power, price)
  {
    load', prices' := load, prices;
    var powerData := power(q);
    if powerData.None? {
      return;
    }
    var seriesMap := SeriesMap(powerData.value.productionTypes);
    if seriesMap.None? {
      return;
    }
    var series := seriesMap.value;
    var ts := powerData.value.unixSeconds;
    if ts != [] && LoadKey in series {
      var solar := SolarValues(series, |ts|);
      var sums := RenewableSums(series, |ts|);
      var frame := BuildFrame(ts, series[LoadKey], sums, solar);
      var chunkHourly := AggregateToHourly(frame);
      load' := load + chunkHourly;
    }
    var priceData := price(q);
    if priceData.Some? {
      prices' := CollectPrices(priceData.value, prices);
    }
  }

  /** The start-up part of `main`: read the header, then the last timestamp, and decide. */
  method ReadResumePoint(file: File) returns (r: Resume)
    ensures r == ResumePoint(file)
  {
    var currentHeader := HeaderOf(file);
    var lastTs: Option<int> := None;
    if currentHeader == Some(ExpectedColumns) {
      lastTs := GetLastTimestamp(file);
    }
    if lastTs.Some? && lastTs.value != 0 {
      r := Resume(lastTs.value + SecondsPerHour, true);
    } else {
      r := Resume(Start2024(), false);
    }
  }

  /** The chunk loop: month-sized windows from `startDate` up to `now`. */
  method FetchAll(startDate: int, now: int, power: Query -> Option<PowerResponse>, price: Query -> Option<PriceResponse>)
    returns (acc: Acc)
    ensures acc == Accumulate(Empty, Plan(startDate, now), power, price)
  {
    acc := Empty;
    var current := startDate;
    while current < now
      invariant Accumulate(acc, Plan(current, now), power, price) == Accumulate(Empty, Plan(startDate, now), power, price)
      decreases now - current
    {
      var nextChunkStart := NextMonthStart(current);
      var chunkEnd := if nextChunkStart < now then nextChunkStart else now;
      var w := Window(current, chunkEnd);
      assert Plan(current, now) == [w] + Plan(nextChunkStart, now);
      var load, prices := IngestChunk(ChunkQuery(w), power, price, acc.load, acc.prices);
      acc := Acc(load, prices);
      current := nextChunkStart;
    }
  }

  /** One run of the script against the file `out` at instant `now`. */
  method Run(out: CsvFile, now: int, power: Query -> Option<PowerResponse>, price: Query -> Option<PriceResponse>)
    modifies out
    ensures out.content == RunOutcome(old(out.content), now, power, price)
  {
    var resume := ReadResumePoint(out.content);
    if resume.start >= now {
      return;
    }
    var acc := FetchAll(resume.start, now, power, price);
    var rows := Merge(acc.load, acc.prices);
    assert rows == RunRows(resume.start, now, power, price);
    if rows == [] {
      return;
    }
    WriteRows(out, rows, resume.append);
  }

  /** The power endpoint only returns timestamps at or after the query's start. */
  ghost predicate PowerStampsFrom(power: Query -> Option<PowerResponse>) {
    forall q, i :: power(q).Some? && 0 <= i < |power(q).value.unixSeconds| ==> power(q).value.unixSeconds[i] >= q.from
  }

  /** The load records collected so far are keyed by whole hours at or after `lo`. */
  predicate LoadHoursFrom(load: LoadMap, lo: int) {
    forall h :: h in load ==> h % SecondsPerHour == 0 && h >= lo
  }

  lemma HourOfAtLeast(x: int, lo: int)
    requires lo % SecondsPerHour == 0 && x >= lo
    ensures HourOf(x) >= lo
  {
    var k := HourOf(x) - lo;
    assert k % SecondsPerHour == 0 && k > -SecondsPerHour;
  }

  /** A chunk whose timestamps are all at or after the whole hour `lo` yields records only for hours at or after it. */
  lemma ChunkLoadHours(resp: PowerResponse, lo: int)
    requires lo % SecondsPerHour == 0
    requires forall i :: 0 <= i < |resp.unixSeconds| ==> resp.unixSeconds[i] >= lo
    requires ChunkLoad(resp).Some?
    ensures LoadHoursFrom(ChunkLoad(resp).value, lo)
  {
    var ts := resp.unixSeconds;
    forall h | h in ChunkLoad(resp).value
      ensures h >= lo
    {
      var i :| 0 <= i < |ts| && HourOf(ts[i]) == h;
      HourOfAtLeast(ts[i], lo);
    }
  }

  /**
   * With the power endpoint answering inside its query, every load record
   * gathered over windows starting at or after the whole hour `lo` is for a
   * whole hour at or after `lo`.
   */
  lemma {:induction false} AccumulateLoadHours(acc: Acc, ws: seq<Window>, lo: int,
      power: Query -> Option<PowerResponse>, price: Query -> Option<PriceResponse>)
    requires PowerStampsFrom(power) && lo % SecondsPerHour == 0
    requires LoadHoursFrom(acc.load, lo)
    requires forall i :: 0 <= i < |ws| ==> ws[i].start >= lo
    ensures LoadHoursFrom(Accumulate(acc, ws, power, price).load, lo)
    decreases |ws|
  {
    if ws != [] {
      var q := ChunkQuery(ws[0]);
      HourOfAtLeast(ws[0].start, lo);
      assert q.from >= lo;
      var next := ChunkStep(acc, q, power, price);
      if power(q).Some? && ChunkLoad(power(q).value).Some? {
        ChunkLoadHours(power(q).value, lo);
      }
      assert LoadHoursFrom(next.load, lo);
      AccumulateLoadHours(next, ws[1..], lo, power, price);
    }
  }

  /** The price map stays empty when the price endpoint never answers. */
  lemma {:induction false} AccumulateWithoutPrices(acc: Acc, ws: seq<Window>,
      power: Query -> Option<PowerResponse>, price: Query -> Option<PriceResponse>)
    requires forall q :: price(q).None?
    requires acc.prices == map[]
    ensures Accumulate(acc, ws, power, price).prices == map[]
    decreases |ws|
  {
    if ws != [] {
      AccumulateWithoutPrices(ChunkStep(acc, ChunkQuery(ws[0]), power, price), ws[1..], power, price);
    }
  }

  /**
   * Without a single answer from the price endpoint no row has a price, so
   * the file is left as it was, however much load data arrived.
   */
  lemma NoPricesNoWrite(file: File, now: int, power: Query -> Option<PowerResponse>, price: Query -> Option<PriceResponse>)
    requires forall q :: price(q).None?
    ensures RunOutcome(file, now, power, price) == file
  {
    var resume := ResumePoint(file);
    if resume.start < now {
      var acc := Accumulate(Empty, Plan(resume.start, now), power, price);
      AccumulateWithoutPrices(Empty, Plan(resume.start, now), power, price);
      MergeEmpty(acc.load, acc.prices);
    }
  }

  /** Merged rows built from whole-hour load records at or after `lo` are whole hours at or after `lo`, ascending. */
  lemma MergedRowsFrom(load: LoadMap, prices: PriceMap, lo: int)
    requires LoadHoursFrom(load, lo)
    ensures WholeHours(Stamps(Merge(load, prices))) && StrictlyIncreasing(Stamps(Merge(load, prices)))
    ensures forall i :: 0 <= i < |Merge(load, prices)| ==> Merge(load, prices)[i].ts >= lo
  {
    var rows := Merge(load, prices);
    assert forall i :: 0 <= i < |rows| ==> rows[i].ts in load;
  }

  /** The resume point of a well-formed file, or of a rewrite, is a whole hour. */
  lemma ResumeStartWholeHour(file: File)
    requires WellFormed(file) || !ResumePoint(file).append
    ensures ResumePoint(file).start % SecondsPerHour == 0
  {
    if ResumePoint(file).append {
      var n := |file.value|;
      var last := RowTimestamp(file.value[n - 1]).value;
      assert StampSeq(file.value[1..])[n - 2] == last;
      NextWholeHour(last);
    }
  }

  lemma NextWholeHour(ts: int)
    requires ts % SecondsPerHour == 0
    ensures (ts + SecondsPerHour) % SecondsPerHour == 0
  {
  }

  /**
   * With the power endpoint answering inside its query, a run keeps the
   * output file well formed (the expected header, then whole hours strictly
   * ascending): a rewrite starts afresh, and an append only adds hours after
   * the last one already written.
   */
  lemma RunKeepsWellFormed(file: File, now: int, power: Query -> Option<PowerResponse>, price: Query -> Option<PriceResponse>)
    requires PowerStampsFrom(power)
    requires WellFormed(file) || !ResumePoint(file).append
    ensures RunOutcome(file, now, power, price) == file || WellFormed(RunOutcome(file, now, power, price))
  {
    var resume := ResumePoint(file);
    if resume.start < now {
      var plan := Plan(resume.start, now);
      var acc := Accumulate(Empty, plan, power, price);
      var rows := Merge(acc.load, acc.prices);
      if rows != [] {
        ResumeStartWholeHour(file);
        AccumulateLoadHours(Empty, plan, resume.start, power, price);
        MergedRowsFrom(acc.load, acc.prices, resume.start);
        if resume.append {
          var last := file.value[|file.value| - 1];
          assert RowTimestamp(last).value < rows[0].ts;
          AppendWellFormed(file, rows);
        } else {
          RewriteWellFormed(file, rows);
        }
      }
    }
  }

  /**
   * Under the same assumption, every run that writes moves the resume point
   * strictly forward: no run fetches the same hours for the file twice.
   */
  lemma RunAdvancesResumePoint(file: File, now: int, power: Query -> Option<PowerResponse>, price: Query -> Option<PriceResponse>)
    requires PowerStampsFrom(power)
    requires RunOutcome(file, now, power, price) != file
    ensures ResumePoint(RunOutcome(file, now, power, price)).start > ResumePoint(file).start
  {
    var resume := ResumePoint(file);
    var rows := RunRows(resume.start, now, power, price);
    RowsFromHourOf(resume.start, now, power, price);
    WriteAdvances(file, rows, resume.append, resume.start);
  }

  /**
   * Every record a run adds to the file holds, under its own timestamp, the
   * averaged load record that `combined_hourly_load` keeps for that hour and
   * the price `prices_hourly` keeps for it.
   */
  lemma RunRecordsHoldTheirHour(file: File, now: int, power: Query -> Option<PowerResponse>, price: Query -> Option<PriceResponse>)
    requires RunOutcome(file, now, power, price) != file
    ensures var acc := Accumulate(Empty, Plan(ResumePoint(file).start, now), power, price);
      var out := RunOutcome(file, now, power, price).value;
      var n := |Merge(acc.load, acc.prices)|;
      0 < n <= |out| && forall j :: |out| - n <= j < |out| ==> HoldsHour(acc.load, acc.prices, out[j])
  {
    var resume := ResumePoint(file);
    var acc := Accumulate(Empty, Plan(resume.start, now), power, price);
    var rows := Merge(acc.load, acc.prices);
    RunWrites(file, now, power, price);
    assert RunRows(resume.start, now, power, price) == rows;
    assert FromMaps(acc.load, acc.prices, rows);
    WrittenHoldsHours(file, rows, acc.load, acc.prices, resume.append);
  }

  /** A run that changes the file writes its non-empty merged rows. */
  lemma RunWrites(file: File, now: int, power: Query -> Option<PowerResponse>, price: Query -> Option<PriceResponse>)
    requires RunOutcome(file, now, power, price) != file
    ensures var resume := ResumePoint(file);
      var rows := RunRows(resume.start, now, power, price);
      resume.start < now && rows != [] && RunOutcome(file, now, power, price) == Written(file, rows, resume.append)
  {
  }

  /**
   * Running again is a no-op once a run has written the last hour before the
   * next run's instant: the next run finds itself up to date and leaves the
   * file as it is, whatever the endpoints would answer.
   */
  lemma RerunUpToDate(file: File, now: int, later: int,
      power: Query -> Option<PowerResponse>, price: Query -> Option<PriceResponse>,
      power': Query -> Option<PowerResponse>, price': Query -> Option<PriceResponse>)
    requires RunOutcome(file, now, power, price) != file
    requires var rows := RunRows(ResumePoint(file).start, now, power, price);
      |rows| > 0 && rows[|rows| - 1].ts != 0 && later <= rows[|rows| - 1].ts + SecondsPerHour
    ensures RunOutcome(RunOutcome(file, now, power, price), later, power', price') == RunOutcome(file, now, power, price)
  {
    var resume := ResumePoint(file);
    ResumeAfterWrite(file, RunRows(resume.start, now, power, price), resume.append);
  }

  /** Writing rows whose last hour holds or follows `start` moves the resume point past `start`. */
  lemma WriteAdvances(file: File, rows: seq<MergedRow>, append: bool, start: int)
    requires rows != [] && rows[|rows| - 1].ts >= HourFloor(start)
    requires append ==> HeaderOf(file) == Some(ExpectedColumns)
    ensures ResumePoint(Written(file, rows, append)).start > start
  {
    var last := rows[|rows| - 1].ts;
    LastTimestampAfterWrite(file, rows, append);
    if last == 0 {
      assert ResumePoint(Written(file, rows, append)).start == Start2024();
    }
  }

  /** Every row merged over the windows from `start` is at or after the hour holding `start`. */
  lemma RowsFromHourOf(start: int, now: int, power: Query -> Option<PowerResponse>, price: Query -> Option<PriceResponse>)
    requires PowerStampsFrom(power)
    ensures forall i :: 0 <= i < |RunRows(start, now, power, price)| ==> RunRows(start, now, power, price)[i].ts >= HourFloor(start)
  {
    var plan := Plan(start, now);
    var acc := Accumulate(Empty, plan, power, price);
    var lo := HourFloor(start);
    forall i | 0 <= i < |plan|
      ensures plan[i].start >= lo
    {
    }
    AccumulateLoadHours(Empty, plan, lo, power, price);
    MergedRowsFrom(acc.load, acc.prices, lo);
  }
}
