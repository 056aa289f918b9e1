/**
 * The parsed responses of the two remote endpoints (`total_power` and
 * `price`), and the per-chunk column arithmetic both fetch scripts share:
 * the name -> series map and the renewable and solar columns.
 */
module Api {
  import opened Wrappers

  /** One `production_types` entry; a missing "data" key reads as []. */
  datatype ProductionType = ProductionType(name: Option<string>, data: seq<Option<real>>)

  /** A `total_power` response; a missing "unix_seconds" key reads as []. */
  datatype PowerResponse = PowerResponse(unixSeconds: seq<int>, productionTypes: seq<ProductionType>)

  /** A `price` response; missing keys read as []. */
  datatype PriceResponse = PriceResponse(unixSeconds: seq<int>, price: seq<Option<real>>)

  /** The `start`/`end` query parameters, as the instants their minute-precision strings denote. */
  datatype Query = Query(from: int, to: int)

  type Series = map<string, seq<Option<real>>>

  const LoadKey: string := "Load (incl. self-consumption)"
  const SolarKey: string := "Solar"

  /** The six production types counted as renewable generation (Solar among them). */
  const RenewableKeys: seq<string> :=
    ["Biomass", "Hydro Run-of-River", "Wind offshore", "Wind onshore", "Solar", "Geothermal"]

  /**
   * `{pt['name']: pt.get('data', []) for pt in production_types}`: a later
   * entry with the same name replaces an earlier one; an entry without a
   * name raises (None), which aborts the whole chunk.
   */
  function SeriesMap(pts: seq<ProductionType>): (r: Option<Series>)
    ensures r.Some? <==> forall i :: 0 <= i < |pts| ==> pts[i].name.Some?
  {
    if pts == [] then Some(map[])
    else
      var last := pts[|pts| - 1];
      match SeriesMap(pts[..|pts| - 1])
      case None => None
      case Some(m) => if last.name.None? then None else Some(m[last.name.value := last.data])
  }

  /**
   * The series map holds exactly the names that occur, and each name maps to
   * the data of its last occurrence.
   */
  lemma {:induction false} SeriesMapEntries(pts: seq<ProductionType>)
    requires SeriesMap(pts).Some?
    ensures forall k :: k in SeriesMap(pts).value <==> exists i :: 0 <= i < |pts| && pts[i].name == Some(k)
    ensures forall i :: 0 <= i < |pts| && LastNamed(pts, i) ==>
      SeriesMap(pts).value[pts[i].name.value] == pts[i].data
  {
    if pts != [] {
      var init, last := pts[..|pts| - 1], pts[|pts| - 1];
      SeriesMapEntries(init);
      var m, r := SeriesMap(init).value, SeriesMap(pts).value;
      assert r == m[last.name.value := last.data];
      forall k
        ensures k in r <==> exists i :: 0 <= i < |pts| && pts[i].name == Some(k)
      {
        if k in r && k != last.name.value {
          var i :| 0 <= i < |init| && init[i].name == Some(k);
          assert pts[i].name == Some(k);
        }
        if exists i :: 0 <= i < |pts| && pts[i].name == Some(k) {
          var i :| 0 <= i < |pts| && pts[i].name == Some(k);
          if i < |init| {
            assert init[i].name == Some(k);
          }
        }
      }
      forall i | 0 <= i < |pts| && LastNamed(pts, i)
        ensures r[pts[i].name.value] == pts[i].data
      {
        if i < |init| {
          assert init[i] == pts[i];
          assert LastNamed(init, i);
          assert pts[i].name != last.name;
        }
      }
    }
  }

  /** No entry after index `i` carries the same name. */
  predicate LastNamed(pts: seq<ProductionType>, i: int)
    requires 0 <= i < |pts|
  {
    forall j :: i < j < |pts| ==> pts[j].name != pts[i].name
  }

  /** The reading of series `key` at index `i`, or 0.0 when the series is absent, too short or null there. */
  function ValueAt(series: Series, key: string, i: int): real {
    if key in series && 0 <= i < |series[key]| && series[key][i].Some? then series[key][i].value else 0.0
  }

  /** The sum over `keys` of their readings at index `i`, each missing one counted as 0. */
  function RenewableSum(series: Series, keys: seq<string>, i: int): real {
    if keys == [] then 0.0
    else RenewableSum(series, keys[..|keys| - 1], i) + ValueAt(series, keys[|keys| - 1], i)
  }

  /** The renewable column of a chunk of `n` timestamps, index by index. */
  function RenewableColumn(series: Series, n: nat): (c: seq<real>)
    ensures |c| == n && forall i :: 0 <= i < n ==> c[i] == RenewableSum(series, RenewableKeys, i)
  {
    seq(n, i => RenewableSum(series, RenewableKeys, i))
  }

  /** The Solar column of a chunk of `n` timestamps, index by index. */
  function SolarColumn(series: Series, n: nat): (c: seq<real>)
    ensures |c| == n && forall i :: 0 <= i < n ==> c[i] == ValueAt(series, SolarKey, i)
  {
    seq(n, i => ValueAt(series, SolarKey, i))
  }

  /**
   * `solar_vals`: a column of `n` zeros overwritten, index by index, with the
   * non-null Solar readings that fall inside it.
   */
  method SolarValues(series: Series, n: nat) returns (solar: seq<real>)
    ensures solar == SolarColumn(series, n)
  {
    var a := new real[n](_ => 0.0);
    if SolarKey in series {
      var raw := series[SolarKey];
      var i := 0;
      while i < |raw|
        invariant 0 <= i <= |raw|
        invariant forall j :: 0 <= j < n ==> a[j] == if j < i then ValueAt(series, SolarKey, j) else 0.0
      {
        if i < n && raw[i].Some? {
          a[i] := raw[i].value;
        }
        i := i + 1;
      }
    }
    solar := a[..];
  }

  /**
   * `r_sums` / `renewable_sums`: a column of `n` zeros to which every non-null
   * reading of every present renewable series is added at its index.
   */
  method RenewableSums(series: Series, n: nat) returns (sums: seq<real>)
    ensures sums == RenewableColumn(series, n)
  {
    var a := new real[n](_ => 0.0);
    var k := 0;
    while k < |RenewableKeys|
      invariant 0 <= k <= |RenewableKeys|
      invariant forall j :: 0 <= j < n ==> a[j] == RenewableSum(series, RenewableKeys[..k], j)
    {
      var key := RenewableKeys[k];
      assert RenewableKeys[..k + 1][..k] == RenewableKeys[..k];
      if key in series {
        var data := series[key];
        var i := 0;
        while i < |data|
          invariant 0 <= i <= |data|
          invariant forall j :: 0 <= j < n ==>
            a[j] == RenewableSum(series, RenewableKeys[..k], j) + (if j < i then ValueAt(series, key, j) else 0.0)
        {
          if i < n && data[i].Some? {
            a[i] := a[i] + data[i].value;
          }
          i := i + 1;
        }
      }
      k := k + 1;
    }
    assert RenewableKeys[..|RenewableKeys|] == RenewableKeys;
    sums := a[..];
  }

  /** A renewable total only counts series that are present: with none of them present it is 0. */
  lemma {:induction false} AbsentSeriesContributeNothing(series: Series, keys: seq<string>, i: int)
    requires forall k :: k in keys ==> k !in series
    ensures RenewableSum(series, keys, i) == 0.0
  {
    if keys != [] {
      AbsentSeriesContributeNothing(series, keys[..|keys| - 1], i);
    }
  }

  /** The Solar column is one of the six summands of the renewable column. */
  lemma SolarIsRenewable(series: Series, i: int)
    ensures RenewableSum(series, RenewableKeys, i) ==
      ValueAt(series, "Biomass", i) + ValueAt(series, "Hydro Run-of-River", i)
      + ValueAt(series, "Wind offshore", i) + ValueAt(series, "Wind onshore", i)
      + ValueAt(series, SolarKey, i) + ValueAt(series, "Geothermal", i)
  {
    var ks := RenewableKeys;
    assert ks[..1][..0] == [] && ks[..2][..1] == ks[..1] && ks[..3][..2] == ks[..2];
    assert ks[..4][..3] == ks[..3] && ks[..5][..4] == ks[..4] && ks[..6][..5] == ks[..5];
    assert RenewableSum(series, ks[..1], i) == ValueAt(series, "Biomass", i);
    assert RenewableSum(series, ks[..2], i) == RenewableSum(series, ks[..1], i) + ValueAt(series, "Hydro Run-of-River", i);
    assert RenewableSum(series, ks[..3], i) == RenewableSum(series, ks[..2], i) + ValueAt(series, "Wind offshore", i);
    assert RenewableSum(series, ks[..4], i) == RenewableSum(series, ks[..3], i) + ValueAt(series, "Wind onshore", i);
    assert RenewableSum(series, ks[..5], i) == RenewableSum(series, ks[..4], i) + ValueAt(series, SolarKey, i);
    assert ks[..6] == ks;
  }
}
