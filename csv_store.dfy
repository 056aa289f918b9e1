/**
 * The CSV output file as the `csv` module reads and writes it: a file that
 * may not exist, else a sequence of records (lists of cells).  Integers are
 * written with `str` and read back with `int`.
 */
module CsvStore {
  import opened Wrappers

  /**
   * A cell's text: literal text; the `repr` of a float (MW or EUR/MWh
   * value); or the `isoformat()` of a UTC timestamp.  `int()` rejects the
   * last two, which always contain a '.', 'e', 'inf', 'nan' or '-'/':'
   * after a digit.
   */
  datatype Cell = Text(s: string) | Number(x: real) | IsoTime(ts: int)

  type Record = seq<Cell>

  /** None: the file does not exist. */
  type File = Option<seq<Record>>

  predicate IsDigit(c: char) {
    '0' <= c <= '9'
  }

  predicate AllDigits(s: string) {
    forall i :: 0 <= i < |s| ==> IsDigit(s[i])
  }

  function DigitChar(d: int): (c: char)
    requires 0 <= d < 10
    ensures IsDigit(c) && c as int - '0' as int == d
  {
    (('0' as int) + d) as char
  }

  /** The decimal digits of `n`, most significant first, without leading zeros. */
  function NatDigits(n: nat): (s: string)
    ensures |s| > 0 && AllDigits(s)
  {
    if n < 10 then [DigitChar(n)] else NatDigits(n / 10) + [DigitChar(n % 10)]
  }

  /** `str(n)` for a Python int: a '-' before the digits of a negative number, the bare digits otherwise. */
  function Decimal(n: int): (s: string)
    ensures |s| > 0
    ensures n >= 0 <==> AllDigits(s)
    ensures n < 0 ==> s[0] == '-' && |s| > 1 && AllDigits(s[1..])
  {
    if n < 0 then
      var s := "-" + NatDigits(-n);
      assert !IsDigit(s[0]) && s[1..] == NatDigits(-n);
      s
    else NatDigits(n)
  }

  function DigitsValue(s: string): nat
    requires AllDigits(s)
  {
    if s == [] then 0 else DigitsValue(s[..|s| - 1]) * 10 + (s[|s| - 1] as int - '0' as int)
  }

  /**
   * `int(s)` on an optional sign followed by ASCII digits; None stands for
   * the ValueError raised on anything else.
   */
  function ParseInt(s: string): (r: Option<int>)
    ensures r.Some? ==> |s| > 0
    ensures r.Some? && r.value < 0 ==> s[0] == '-'
  {
    if |s| > 0 && (s[0] == '-' || s[0] == '+') then
      if |s| > 1 && AllDigits(s[1..]) then
        var magnitude: int := DigitsValue(s[1..]);
        Some(if s[0] == '-' then -magnitude else magnitude)
      else None
    else if |s| > 0 && AllDigits(s) then Some(DigitsValue(s))
    else None
  }

  /**
   * The strings `int()` accepts: a non-empty run of ASCII digits, optionally
   * after one sign; a plain digit run reads as its decimal value.
   */
  lemma ParseIntDomain(s: string)
    ensures ParseInt(s).Some? <==> |s| > 0 && (AllDigits(s) || ((s[0] == '-' || s[0] == '+') && |s| > 1 && AllDigits(s[1..])))
    ensures |s| > 0 && AllDigits(s) ==> ParseInt(s) == Some(DigitsValue(s))
  {
  }

  lemma {:induction false} NatDigitsValue(n: nat)
    ensures DigitsValue(NatDigits(n)) == n
  {
    if n >= 10 {
      NatDigitsValue(n / 10);
      var s := NatDigits(n);
      assert s[..|s| - 1] == NatDigits(n / 10);
    }
  }

  /** Reading back what `csv.writer` wrote for an int gives the same int. */
  lemma ParseDecimal(n: int)
    ensures ParseInt(Decimal(n)) == Some(n)
  {
    if n < 0 {
      assert Decimal(n) == "-" + NatDigits(-n);
      ParseNegative(-n);
    } else {
      assert Decimal(n) == NatDigits(n);
      ParseNatural(n);
    }
  }

  lemma ParseNatural(m: nat)
    ensures ParseInt(NatDigits(m)) == Some(m)
  {
    NatDigitsValue(m);
    var s := NatDigits(m);
    assert IsDigit(s[0]);
  }

  lemma ParseNegative(m: nat)
    ensures ParseInt("-" + NatDigits(m)) == Some(-(m as int))
  {
    NatDigitsValue(m);
    var s := "-" + NatDigits(m);
    assert s[0] == '-' && s[1..] == NatDigits(m);
  }

  /** `int(cell)`, None when it raises. */
  function CellInt(c: Cell): Option<int> {
    match c
    case Text(s) => ParseInt(s)
    case _ => None
  }

  /** `int(row[0])` for a non-empty row; None for an empty row or a ValueError. */
  function RowTimestamp(r: Record): Option<int> {
    if r == [] then None else CellInt(r[0])
  }

  /** A row whose first cell is written with `str(ts)` reads back as `ts`. */
  lemma RowTimestampOfWritten(ts: int, rest: Record)
    ensures RowTimestamp([Text(Decimal(ts))] + rest) == Some(ts)
  {
    ParseDecimal(ts);
  }

  /** `next(csv.reader(f), None)`: the first record, None for a missing or empty file. */
  function HeaderOf(file: File): Option<Record> {
    if file.None? || file.value == [] then None else Some(file.value[0])
  }

  /** Writing the next of `recs` after `prefix` and its first `i` records. */
  lemma AppendNext(prefix: seq<Record>, recs: seq<Record>, i: nat)
    requires i < |recs|
    ensures prefix + recs[..i + 1] == (prefix + recs[..i]) + [recs[i]]
  {
    assert recs[..i + 1] == recs[..i] + [recs[i]];
  }

  /** The records of the file, none for a missing one. */
  function RecordsOf(file: File): seq<Record> {
    if file.None? then [] else file.value
  }

  /** Every record's first cell reads back as an integer. */
  predicate AllStamped(recs: seq<Record>) {
    forall i :: 0 <= i < |recs| ==> RowTimestamp(recs[i]).Some?
  }

  /** The timestamps the records carry, in file order. */
  function StampSeq(recs: seq<Record>): (r: seq<int>)
    requires AllStamped(recs)
    ensures |r| == |recs| && forall i :: 0 <= i < |recs| ==> r[i] == RowTimestamp(recs[i]).value
  {
    if recs == [] then [] else StampSeq(recs[..|recs| - 1]) + [RowTimestamp(recs[|recs| - 1]).value]
  }

  /**
   * A file on disk.  `open(path, 'w')` empties it, `open(path, 'a')` keeps
   * its records (creating it when missing), and `writerow` appends a record.
   */
  class CsvFile {
    var content: File

    constructor(initial: File)
      ensures content == initial
    {
      content := initial;
    }

    method OpenWrite()
      modifies this
      ensures content == Some([])
    {
      content := Some([]);
    }

    method OpenAppend()
      modifies this
      ensures content == Some(RecordsOf(old(content)))
    {
      content := Some(RecordsOf(content));
    }

    method WriteRow(r: Record)
      modifies this
      ensures content == Some(RecordsOf(old(content)) + [r])
    {
      content := Some(RecordsOf(content) + [r]);
    }
  }
}
