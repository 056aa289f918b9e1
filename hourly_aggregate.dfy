/**
 * One chunk's 15-minute frame (`chunk_15min_data`) and its reduction to
 * hourly averages under the completeness gate (`aggregate_to_hourly`).
 */
module HourlyAggregate {
  import opened Wrappers
  import opened Calendar

  /** One 15-minute entry: `{'net_load', 'renewables', 'solar'}`. */
  datatype Sample = Sample(netLoad: real, renewables: real, solar: real)

  /** One hourly record: the four averages, residual load derived. */
  datatype HourlyRecord = HourlyRecord(netLoad: real, renewables: real, solar: real, residualLoad: real)

  /**
   * A Python dict from timestamp to sample, in insertion order: a key is
   * kept where it was first inserted, and re-assigning it replaces its value
   * in place.
   */
  type Frame = seq<(int, Sample)>

  function Keys(d: Frame): set<int> {
    set i | 0 <= i < |d| :: d[i].0
  }

  predicate DistinctKeys(d: Frame) {
    forall i, j :: 0 <= i < j < |d| ==> d[i].0 != d[j].0
  }

  /** `d.get(k)`. */
  function Lookup(d: Frame, k: int): Option<Sample> {
    if d == [] then None else if d[0].0 == k then Some(d[0].1) else Lookup(d[1..], k)
  }

  lemma KeysCons(x: (int, Sample), rest: Frame)
    ensures Keys([x] + rest) == {x.0} + Keys(rest)
  {
    var d := [x] + rest;
    forall k | k in Keys(rest) ensures k in Keys(d) {
      var i :| 0 <= i < |rest| && rest[i].0 == k;
      assert d[i + 1].0 == k;
    }
    assert d[0].0 == x.0;
  }

  /** `d[k] = v`: the key is present afterwards, every other key keeps its value. */
  function Put(d: Frame, k: int, v: Sample): (r: Frame)
    ensures Keys(r) == Keys(d) + {k}
    ensures Lookup(r, k) == Some(v)
    ensures forall k' :: k' != k ==> Lookup(r, k') == Lookup(d, k')
  {
    if d == [] then
      KeysCons((k, v), []);
      assert Keys(d) == {};
      [(k, v)]
    else if d[0].0 == k then
      KeysCons(d[0], d[1..]);
      KeysCons((k, v), d[1..]);
      [(k, v)] + d[1..]
    else
      var rest := Put(d[1..], k, v);
      KeysCons(d[0], d[1..]);
      KeysCons(d[0], rest);
      [d[0]] + rest
  }

  /** Assigning to a dict never duplicates a key. */
  lemma {:induction false} PutKeepsKeysDistinct(d: Frame, k: int, v: Sample)
    requires DistinctKeys(d)
    ensures DistinctKeys(Put(d, k, v))
  {
    if d != [] && d[0].0 != k {
      PutKeepsKeysDistinct(d[1..], k, v);
      var rest := Put(d[1..], k, v);
      assert d[0].0 !in Keys(d[1..]);
      assert forall i :: 0 <= i < |rest| ==> rest[i].0 in Keys(rest);
    }
  }

  /** Index `i` of the load column holds a reading. */
  predicate Loaded(load: seq<Option<real>>, i: int) {
    0 <= i < |load| && load[i].Some?
  }

  /** The timestamps `ts[i]`, `i < j`, whose load reading is present. */
  function LoadedStamps(ts: seq<int>, load: seq<Option<real>>, j: nat): set<int>
    requires j <= |ts|
  {
    set i | 0 <= i < j && Loaded(load, i) :: ts[i]
  }

  /** The last index below `j` with a load reading for timestamp `k`. */
  function LastLoaded(ts: seq<int>, load: seq<Option<real>>, k: int, j: nat): (r: Option<nat>)
    requires j <= |ts|
    ensures r.Some? ==> r.value < j && Loaded(load, r.value) && ts[r.value] == k
    ensures r.Some? ==> forall i :: r.value < i < j && Loaded(load, i) ==> ts[i] != k
    ensures r.None? ==> forall i :: 0 <= i < j && Loaded(load, i) ==> ts[i] != k
  {
    if j == 0 then None
    else if Loaded(load, j - 1) && ts[j - 1] == k then Some(j - 1)
    else LastLoaded(ts, load, k, j - 1)
  }

  /** The entry built from index `i` of the columns. */
  function EntryAt(load: seq<Option<real>>, sums: seq<real>, solar: seq<real>, i: nat): Sample
    requires Loaded(load, i) && i < |sums| && i < |solar|
  {
    Sample(load[i].value, sums[i], solar[i])
  }

  /**
   * `chunk_15min_data` after the first `j` iterations over `ts_list`: a key
   * for every timestamp whose load reading is present, holding the entry of
   * its last such index.
   */
  ghost function FrameUpTo(ts: seq<int>, load: seq<Option<real>>, sums: seq<real>, solar: seq<real>, j: nat): (d: Frame)
    requires j <= |ts| && |sums| == |ts| && |solar| == |ts|
    ensures DistinctKeys(d)
    ensures Keys(d) == LoadedStamps(ts, load, j)
    ensures forall k :: k in Keys(d) ==>
      LastLoaded(ts, load, k, j).Some? && Lookup(d, k) == Some(EntryAt(load, sums, solar, LastLoaded(ts, load, k, j).value))
  {
    if j == 0 then []
    else
      var d := FrameUpTo(ts, load, sums, solar, j - 1);
      assert LoadedStamps(ts, load, j) ==
        LoadedStamps(ts, load, j - 1) + (if Loaded(load, j - 1) then {ts[j - 1]} else {});
      if Loaded(load, j - 1) then
        PutKeepsKeysDistinct(d, ts[j - 1], EntryAt(load, sums, solar, j - 1));
        Put(d, ts[j - 1], EntryAt(load, sums, solar, j - 1))
      else d
  }

  /** The loop that fills `chunk_15min_data` from the chunk's columns. */
  method BuildFrame(ts: seq<int>, load: seq<Option<real>>, sums: seq<real>, solar: seq<real>) returns (d: Frame)
    requires |sums| == |ts| && |solar| == |ts|
    ensures d == FrameUpTo(ts, load, sums, solar, |ts|)
  {
    d := [];
    var i := 0;
    while i < |ts|
      invariant 0 <= i <= |ts|
      invariant d == FrameUpTo(ts, load, sums, solar, i)
    {
      if i < |load| && load[i].Some? {
        d := Put(d, ts[i], Sample(load[i].value, sums[i], solar[i]));
      }
      i := i + 1;
    }
  }

  /** `(ts // 3600) * 3600`: the start of the hour that contains `ts`. */
  function HourOf(ts: int): (h: int)
    ensures h % SecondsPerHour == 0 && h <= ts < h + SecondsPerHour
    ensures h == HourFloor(ts)
  {
    (ts / 3600) * 3600
  }

  /** The entries of `d` that fall in hour `h`, in dict order (`hourly_raw[h]`). */
  function InHour(d: Frame, h: int): seq<Sample> {
    if d == [] then []
    else InHour(d[..|d| - 1], h) + (if HourOf(d[|d| - 1].0) == h then [d[|d| - 1].1] else [])
  }

  datatype Field = NetLoad | Renewables | Solar

  function Get(s: Sample, f: Field): real {
    match f
    case NetLoad => s.netLoad
    case Renewables => s.renewables
    case Solar => s.solar
  }

  /** `sum(e[f] for e in entries)`. */
  function Total(es: seq<Sample>, f: Field): real {
    if es == [] then 0.0 else Total(es[..|es| - 1], f) + Get(es[|es| - 1], f)
  }

  /** The record built from a complete hour: each field the sum over the four entries divided by 4. */
  function Average(es: seq<Sample>): HourlyRecord
    requires |es| == 4
  {
    var net := Total(es, NetLoad) / 4.0;
    var ren := Total(es, Renewables) / 4.0;
    HourlyRecord(net, ren, Total(es, Solar) / 4.0, net - ren)
  }

  lemma TotalOfFour(es: seq<Sample>, f: Field)
    requires |es| == 4
    ensures Total(es, f) == Get(es[0], f) + Get(es[1], f) + Get(es[2], f) + Get(es[3], f)
  {
    assert es[..3][..2][..1][..0] == [];
    assert es[..3][..2][..1] == [es[0]] && es[..3][..2] == [es[0], es[1]];
    assert es[..3] == [es[0], es[1], es[2]];
    assert es[..3][..2] == es[..2] && es[..2][..1] == es[..1] && es[..1][..0] == [];
    assert Total(es[..1], f) == Get(es[0], f);
    assert Total(es[..2], f) == Get(es[0], f) + Get(es[1], f);
    assert Total(es[..3], f) == Get(es[0], f) + Get(es[1], f) + Get(es[2], f);
  }

  /** The mean of exactly four entries, written out; residual load is net load minus renewables. */
  lemma AverageOfFour(es: seq<Sample>)
    requires |es| == 4
    ensures Average(es).netLoad == (es[0].netLoad + es[1].netLoad + es[2].netLoad + es[3].netLoad) / 4.0
    ensures Average(es).renewables == (es[0].renewables + es[1].renewables + es[2].renewables + es[3].renewables) / 4.0
    ensures Average(es).solar == (es[0].solar + es[1].solar + es[2].solar + es[3].solar) / 4.0
    ensures Average(es).residualLoad == Average(es).netLoad - Average(es).renewables
  {
    TotalOfFour(es, NetLoad);
    TotalOfFour(es, Renewables);
    TotalOfFour(es, Solar);
  }

  lemma {:induction false} InHourHasStamp(d: Frame, h: int)
    requires InHour(d, h) != []
    ensures exists i :: 0 <= i < |d| && HourOf(d[i].0) == h
  {
    var init := d[..|d| - 1];
    if HourOf(d[|d| - 1].0) != h {
      InHourHasStamp(init, h);
      var i :| 0 <= i < |init| && HourOf(init[i].0) == h;
      assert d[i] == init[i];
    }
  }

  function HoursOf(d: Frame): set<int> {
    set i | 0 <= i < |d| :: HourOf(d[i].0)
  }

  /**
   * `aggregate_to_hourly(d)` as a value: an hour is present exactly when four
   * entries fall in it, its key is the hour's start, and its fields are the
   * averages of those four entries.
   */
  ghost function Hourly(d: Frame): (r: map<int, HourlyRecord>)
    ensures forall h :: h in r <==> |InHour(d, h)| == 4
    ensures forall h :: h in r ==> h % SecondsPerHour == 0 && r[h] == Average(InHour(d, h))
  {
    forall h | |InHour(d, h)| == 4 ensures h in HoursOf(d) {
      InHourHasStamp(d, h);
    }
    map h | h in HoursOf(d) && |InHour(d, h)| == 4 :: Average(InHour(d, h))
  }

  /**
   * `aggregate_to_hourly`: bucket every entry by its hour, then keep the
   * buckets of exactly four entries, averaged.
   */
  method AggregateToHourly(d: Frame) returns (r: map<int, HourlyRecord>)
    ensures r == Hourly(d)
  {
    var raw, hours := BucketByHour(d);
    r := AverageFullHours(raw, hours);
    var spec := Hourly(d);
    assert forall h :: h in r <==> h in spec;
    assert forall h :: h in r ==> r[h] == spec[h];
  }

  /**
   * The first loop: `hourly_raw`, every entry appended to the list of its
   * hour, and the hours met, each listed once.
   */
  method BucketByHour(d: Frame) returns (raw: map<int, seq<Sample>>, hours: seq<int>)
    ensures forall h :: h in raw <==> h in hours
    ensures forall h :: h in raw <==> InHour(d, h) != []
    ensures forall h :: h in raw ==> raw[h] == InHour(d, h)
    ensures forall i, j :: 0 <= i < j < |hours| ==> hours[i] != hours[j]
  {
    raw, hours := map[], [];
    var i := 0;
    while i < |d|
      invariant 0 <= i <= |d|
      invariant Buckets(raw, hours, d[..i])
    {
      var e := d[i];
      var hourTs := HourOf(e.0);
      if hourTs in raw {
        BucketsJoinAt(raw, hours, d, i);
        raw := raw[hourTs := raw[hourTs] + [e.1]];
      } else {
        BucketsOpenAt(raw, hours, d, i);
        raw := raw[hourTs := [e.1]];
        hours := hours + [hourTs];
      }
      i := i + 1;
    }
    assert d[..|d|] == d;
  }

  /** The state of the first loop after the entries of `d`: one bucket per hour met, each hour listed once. */
  ghost predicate Buckets(raw: map<int, seq<Sample>>, hours: seq<int>, d: Frame) {
    (forall h :: h in raw <==> h in hours)
    && (forall h :: h in raw <==> InHour(d, h) != [])
    && (forall h :: h in raw ==> raw[h] == InHour(d, h))
    && (forall i, j :: 0 <= i < j < |hours| ==> hours[i] != hours[j])
  }

  lemma BucketsJoinAt(raw: map<int, seq<Sample>>, hours: seq<int>, d: Frame, i: int)
    requires 0 <= i < |d| && Buckets(raw, hours, d[..i]) && HourOf(d[i].0) in raw
    ensures Buckets(raw[HourOf(d[i].0) := raw[HourOf(d[i].0)] + [d[i].1]], hours, d[..i + 1])
  {
    assert d[..i + 1] == d[..i] + [d[i]];
    BucketsJoin(raw, hours, d[..i], d[i]);
  }

  lemma BucketsOpenAt(raw: map<int, seq<Sample>>, hours: seq<int>, d: Frame, i: int)
    requires 0 <= i < |d| && Buckets(raw, hours, d[..i]) && HourOf(d[i].0) !in raw
    ensures Buckets(raw[HourOf(d[i].0) := [d[i].1]], hours + [HourOf(d[i].0)], d[..i + 1])
  {
    assert d[..i + 1] == d[..i] + [d[i]];
    BucketsOpen(raw, hours, d[..i], d[i]);
  }

  lemma InHourSnoc(d: Frame, e: (int, Sample), h: int)
    ensures InHour(d + [e], h) == InHour(d, h) + (if HourOf(e.0) == h then [e.1] else [])
  {
    assert (d + [e])[..|d|] == d;
  }

  /** An entry of an hour already met joins that hour's bucket. */
  lemma BucketsJoin(raw: map<int, seq<Sample>>, hours: seq<int>, d: Frame, e: (int, Sample))
    requires Buckets(raw, hours, d) && HourOf(e.0) in raw
    ensures Buckets(raw[HourOf(e.0) := raw[HourOf(e.0)] + [e.1]], hours, d + [e])
  {
    var raw' := raw[HourOf(e.0) := raw[HourOf(e.0)] + [e.1]];
    forall h
      ensures (h in raw' <==> InHour(d + [e], h) != []) && (h in raw' ==> raw'[h] == InHour(d + [e], h))
    {
      InHourSnoc(d, e, h);
    }
  }

  /** An entry of a new hour opens a bucket and lists the hour last. */
  lemma BucketsOpen(raw: map<int, seq<Sample>>, hours: seq<int>, d: Frame, e: (int, Sample))
    requires Buckets(raw, hours, d) && HourOf(e.0) !in raw
    ensures Buckets(raw[HourOf(e.0) := [e.1]], hours + [HourOf(e.0)], d + [e])
  {
    var raw' := raw[HourOf(e.0) := [e.1]];
    forall h
      ensures (h in raw' <==> InHour(d + [e], h) != []) && (h in raw' ==> raw'[h] == InHour(d + [e], h))
    {
      InHourSnoc(d, e, h);
    }
  }

  /** The second loop: each bucket of exactly four entries becomes its averaged record. */
  method AverageFullHours(raw: map<int, seq<Sample>>, hours: seq<int>) returns (r: map<int, HourlyRecord>)
    requires forall h :: h in raw <==> h in hours
    ensures forall h :: h in r <==> h in raw && |raw[h]| == 4
    ensures forall h :: h in r ==> r[h] == Average(raw[h])
  {
    r := map[];
    var k := 0;
    while k < |hours|
      invariant 0 <= k <= |hours|
      invariant forall h :: h in r <==> h in hours[..k] && |raw[h]| == 4
      invariant forall h :: h in r ==> r[h] == Average(raw[h])
    {
      var hour := hours[k];
      var entries := raw[hour];
      assert hours[..k + 1] == hours[..k] + [hour];
      if |entries| == 4 {
        var avgNetLoad := Total(entries, NetLoad) / 4.0;
        var avgRenewables := Total(entries, Renewables) / 4.0;
        var avgSolar := Total(entries, Solar) / 4.0;
        r := r[hour := HourlyRecord(avgNetLoad, avgRenewables, avgSolar, avgNetLoad - avgRenewables)];
      }
      k := k + 1;
    }
    assert hours[..|hours|] == hours;
  }

  /** With distinct keys (a dict), "four entries in the hour" is "four distinct timestamps in the hour". */
  lemma {:induction false} GateCountsTimestamps(d: Frame, h: int)
    requires DistinctKeys(d)
    ensures |InHour(d, h)| == |StampsInHour(d, h)|
  {
    if d != [] {
      var init, last := d[..|d| - 1], d[|d| - 1];
      GateCountsTimestamps(init, h);
      StampsInHourStep(d, h);
      if HourOf(last.0) == h {
        assert last.0 !in StampsInHour(init, h);
      }
    }
  }

  /** On a dict-backed frame an hour is emitted exactly when four distinct timestamps of it were loaded. */
  lemma GateExactlyFour(d: Frame, h: int)
    requires DistinctKeys(d)
    ensures h in Hourly(d) <==> |StampsInHour(d, h)| == 4
  {
    GateCountsTimestamps(d, h);
  }

  /** The timestamps of the entries that fall in hour `h`. */
  function StampsInHour(d: Frame, h: int): set<int> {
    set i | 0 <= i < |d| && HourOf(d[i].0) == h :: d[i].0
  }

  lemma StampsInHourStep(d: Frame, h: int)
    requires d != []
    ensures var last := d[|d| - 1];
      StampsInHour(d, h) == StampsInHour(d[..|d| - 1], h) + (if HourOf(last.0) == h then {last.0} else {})
  {
    var init, last := d[..|d| - 1], d[|d| - 1];
    var after := StampsInHour(d, h);
    var before := StampsInHour(init, h);
    if HourOf(last.0) == h {
      assert after == before + {last.0};
    } else {
      assert after == before;
    }
  }

  /** Every hour emitted for a response's frame is the hour of one of its timestamps. */
  lemma FrameHoursFromStamps(ts: seq<int>, load: seq<Option<real>>, sums: seq<real>, solar: seq<real>)
    requires |sums| == |ts| && |solar| == |ts|
    ensures forall h :: h in Hourly(FrameUpTo(ts, load, sums, solar, |ts|)) ==>
      exists i :: 0 <= i < |ts| && HourOf(ts[i]) == h
  {
    var d := FrameUpTo(ts, load, sums, solar, |ts|);
    forall h | h in Hourly(d)
      ensures exists i :: 0 <= i < |ts| && HourOf(ts[i]) == h
    {
      HourlyKeysFromFrame(d, h);
      var i :| 0 <= i < |d| && HourOf(d[i].0) == h;
      assert d[i].0 in Keys(d);
      assert d[i].0 in LoadedStamps(ts, load, |ts|);
    }
  }

  /** Every emitted hour comes from an entry of the frame. */
  lemma HourlyKeysFromFrame(d: Frame, h: int)
    requires h in Hourly(d)
    ensures exists i :: 0 <= i < |d| && HourOf(d[i].0) == h
  {
    InHourHasStamp(d, h);
  }
}
