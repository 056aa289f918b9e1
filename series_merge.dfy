/**
 * The merge step of the price script: the hours present in both the hourly
 * load map and the hourly price map, in ascending order, each joined with
 * its load record and its price.
 */
module SeriesMerge {
  import opened HourlyAggregate

  predicate StrictlyIncreasing(s: seq<int>) {
    forall i, j :: 0 <= i < j < |s| ==> s[i] < s[j]
  }

  lemma {:induction false} NonEmptyHasMember(s: set<int>)
    requires s != {}
    ensures exists x :: x in s
  {
    if forall x :: x !in s {
      assert false;
    }
  }

  predicate IsLeast(s: set<int>, m: int) {
    m in s && forall x :: x in s ==> m <= x
  }

  /** Every non-empty finite set of integers has a least element. */
  lemma {:induction false} HasMinimum(s: set<int>)
    requires s != {}
    ensures exists m :: IsLeast(s, m)
    decreases |s|
  {
    NonEmptyHasMember(s);
    var y :| y in s;
    var rest := s - {y};
    if forall x :: x !in rest {
      assert IsLeast(s, y) by {
        forall x | x in s
          ensures y <= x
        {
          assert x == y || x in rest;
        }
      }
    } else {
      HasMinimum(rest);
      var m :| IsLeast(rest, m);
      var least := if y < m then y else m;
      assert IsLeast(s, least) by {
        forall x | x in s
          ensures least <= x
        {
          assert x == y || x in rest;
        }
      }
    }
  }

  function MinOf(s: set<int>): (m: int)
    requires s != {}
    ensures IsLeast(s, m)
  {
    HasMinimum(s);
    var m :| IsLeast(s, m);
    m
  }

  /** `sorted(s)` for a set of integers: its members, ascending, each once. */
  function SortedInts(s: set<int>): (r: seq<int>)
    ensures |r| == |s|
    ensures forall x :: x in r <==> x in s
    ensures StrictlyIncreasing(r)
    decreases |s|
  {
    if s == {} then []
    else
      var m := MinOf(s);
      var rest := SortedInts(s - {m});
      PrependLeast(m, rest);
      [m] + rest
  }

  lemma PrependLeast(m: int, rest: seq<int>)
    requires StrictlyIncreasing(rest) && forall x :: x in rest ==> m < x
    ensures StrictlyIncreasing([m] + rest)
  {
    var r := [m] + rest;
    forall i, j | 0 <= i < j < |r|
      ensures r[i] < r[j]
    {
      assert r[j] == rest[j - 1] && rest[j - 1] in rest;
    }
  }

  lemma FirstIsLeast(a: seq<int>, x: int)
    requires StrictlyIncreasing(a) && x in a
    ensures a[0] <= x
  {
    var j :| 0 <= j < |a| && a[j] == x;
    if j > 0 {
      assert a[0] < a[j];
    }
  }

  /**
   * A strictly increasing sequence is determined by its members: there is
   * exactly one ascending listing of a set.
   */
  lemma {:induction false} AscendingListingUnique(a: seq<int>, b: seq<int>)
    requires StrictlyIncreasing(a) && StrictlyIncreasing(b)
    requires forall x :: x in a <==> x in b
    ensures a == b
    decreases |a|
  {
    if a != [] {
      assert a[0] in a && a[0] in b;
    }
    if b != [] {
      assert b[0] in b && b[0] in a;
    }
    if a != [] && b != [] {
      FirstIsLeast(a, b[0]);
      FirstIsLeast(b, a[0]);
      TailsShareMembers(a, b);
      TailsShareMembers(b, a);
      AscendingListingUnique(a[1..], b[1..]);
      assert a == [a[0]] + a[1..] && b == [b[0]] + b[1..];
    }
  }

  /** Two ascending listings with the same first element and the same members agree on the rest. */
  lemma TailsShareMembers(a: seq<int>, b: seq<int>)
    requires StrictlyIncreasing(a) && StrictlyIncreasing(b)
    requires forall x :: x in a <==> x in b
    requires a != [] && b != [] && a[0] == b[0]
    ensures forall x :: x in a[1..] ==> x in b[1..]
  {
    forall x | x in a[1..]
      ensures x in b[1..]
    {
      var i :| 0 <= i < |a| - 1 && a[1..][i] == x;
      assert a[i + 1] == x && a[0] < x && x in a;
      var j :| 0 <= j < |b| && b[j] == x;
      assert j != 0;
      assert b[1..][j - 1] == x;
    }
  }

  /** One output row: the hour, its averaged load record and its day-ahead price. */
  datatype MergedRow = MergedRow(ts: int, load: HourlyRecord, price: real)

  function Stamps(rows: seq<MergedRow>): (r: seq<int>)
    ensures |r| == |rows| && forall i :: 0 <= i < |rows| ==> r[i] == rows[i].ts
  {
    if rows == [] then [] else Stamps(rows[..|rows| - 1]) + [rows[|rows| - 1].ts]
  }

  function JoinRows(hours: seq<int>, load: map<int, HourlyRecord>, prices: map<int, real>): (rows: seq<MergedRow>)
    requires forall i :: 0 <= i < |hours| ==> hours[i] in load && hours[i] in prices
    ensures |rows| == |hours|
    ensures forall i :: 0 <= i < |rows| ==>
      rows[i] == MergedRow(hours[i], load[hours[i]], prices[hours[i]])
  {
    if hours == [] then []
    else JoinRows(hours[..|hours| - 1], load, prices) + [MergedRow(hours[|hours| - 1], load[hours[|hours| - 1]], prices[hours[|hours| - 1]])]
  }

  /**
   * `sorted(set(load) & set(prices))`, each hour joined with its two values:
   * the rows are strictly ascending, their hours are exactly those with both
   * a load record and a price, and each row carries that hour's values.
   */
  function Merge(load: map<int, HourlyRecord>, prices: map<int, real>): (rows: seq<MergedRow>)
    ensures StrictlyIncreasing(Stamps(rows))
    ensures forall h :: h in Stamps(rows) <==> h in load && h in prices
    ensures forall i :: 0 <= i < |rows| ==>
      rows[i].ts in load && rows[i].ts in prices && rows[i].load == load[rows[i].ts] && rows[i].price == prices[rows[i].ts]
  {
    var hours := SortedInts(load.Keys * prices.Keys);
    JoinedRows(hours, load, prices);
    JoinRows(hours, load, prices)
  }

  /** Joining an ascending listing of the hours both maps hold gives rows with those hours and their values. */
  lemma JoinedRows(hours: seq<int>, load: map<int, HourlyRecord>, prices: map<int, real>)
    requires StrictlyIncreasing(hours)
    requires forall h :: h in hours <==> h in load && h in prices
    ensures forall i :: 0 <= i < |hours| ==> hours[i] in load && hours[i] in prices
    ensures var rows := JoinRows(hours, load, prices);
      StrictlyIncreasing(Stamps(rows)) && (forall h :: h in Stamps(rows) <==> h in load && h in prices)
      && forall i :: 0 <= i < |rows| ==>
        rows[i].ts in load && rows[i].ts in prices && rows[i].load == load[rows[i].ts] && rows[i].price == prices[rows[i].ts]
  {
    assert forall i :: 0 <= i < |hours| ==> hours[i] in hours;
    assert Stamps(JoinRows(hours, load, prices)) == hours;
  }

  /** Nothing is written exactly when no hour has both a load record and a price. */
  lemma MergeEmpty(load: map<int, HourlyRecord>, prices: map<int, real>)
    ensures Merge(load, prices) == [] <==> forall h :: h in load ==> h !in prices
  {
    var both := load.Keys * prices.Keys;
    if exists h :: h in load && h in prices {
      var h :| h in load && h in prices;
      assert h in both && h in SortedInts(both);
    }
  }
}
