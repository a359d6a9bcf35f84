/**
 * `count_by_year` and `count_by_month` of `odc.index`. The dataset count of a
 * product over a time string (`dataset_count(index, product=..., time=...)`)
 * is the parameter `datasetCount`.
 */
module IndexCounts {
  import opened PyBase
  import PyText

  const DefaultMinYear := 1970
  const DefaultMaxYear := 2022

  /** `count_by_year(index, product, min_year, max_year)`: year to count, for the years of `range(min_year, max_year)` whose count is not zero. */
  function CountByYear(datasetCount: (string, string) -> int, product: string,
                       minYear: Option<int> := None, maxYear: Option<int> := None): (r: map<int, int>)
    ensures var lo := if minYear.Some? then minYear.value else DefaultMinYear;
      var hi := if maxYear.Some? then maxYear.value else DefaultMaxYear;
      (forall y :: y in r ==> lo <= y < hi && r[y] > 0 && r[y] == datasetCount(product, PyText.IntToString(y))) &&
      (forall y :: lo <= y < hi && datasetCount(product, PyText.IntToString(y)) > 0 ==> y in r)
  {
    var lo := if minYear.Some? then minYear.value else DefaultMinYear;
    var hi := if maxYear.Some? then maxYear.value else DefaultMaxYear;
    map y | lo <= y < hi && datasetCount(product, PyText.IntToString(y)) > 0 :: datasetCount(product, PyText.IntToString(y))
  }

  /** The years of `range(lo, hi)`. */
  function YearRange(lo: int, hi: int): (r: set<int>)
    ensures forall y :: y in r <==> lo <= y < hi
    ensures |r| == if lo <= hi then hi - lo else 0
    decreases hi - lo
  {
    if hi <= lo then {} else YearRange(lo, hi - 1) + {hi - 1}
  }

  /** At most one entry per year of the range; with the defaults, only years 1970 through 2021. */
  lemma CountByYearSize(datasetCount: (string, string) -> int, product: string, minYear: int, maxYear: int)
    requires minYear <= maxYear
    ensures |CountByYear(datasetCount, product, Some(minYear), Some(maxYear))| <= maxYear - minYear
    ensures forall y :: y in CountByYear(datasetCount, product) ==> 1970 <= y <= 2021
  {
    var r := CountByYear(datasetCount, product, Some(minYear), Some(maxYear));
    var years := YearRange(minYear, maxYear);
    assert r.Keys <= years;
    SubsetSize(r.Keys, years);
  }

  lemma SubsetSize(a: set<int>, b: set<int>)
    requires a <= b
    ensures |a| <= |b|
  {
    assert b == a + (b - a);
    assert a * (b - a) == {};
  }

  /** `'{}-{:02d}'.format(year, month)`. */
  function MonthKey(year: int, month: int): (k: string)
    ensures var y := PyText.IntToString(year);
      |k| >= |y| + 3 && k[..|y|] == y && k[|y|] == '-'
  {
    PyText.IntToString(year) + "-" + PyText.FormatInt(month, 2)
  }

  /** `count_by_month(index, product, year)`: the twelve counts for January through December. */
  function CountByMonth(datasetCount: (string, string) -> int, product: string, year: int): (r: seq<int>)
    ensures |r| == 12
    ensures forall i :: 0 <= i < 12 ==> r[i] == datasetCount(product, MonthKey(year, i + 1))
  {
    seq(12, i => datasetCount(product, MonthKey(year, i + 1)))
  }

  /** A month number renders as exactly two digits. */
  lemma TwoDigits(m: int)
    requires 0 <= m < 100
    ensures |PyText.FormatInt(m, 2)| == 2 && PyText.AllDigits(PyText.FormatInt(m, 2))
  {
    var digits := PyText.NatToString(m);
    if m >= 10 {
      assert digits == PyText.NatToString(m / 10) + [PyText.DigitChar(m % 10)];
      assert |PyText.NatToString(m / 10)| == 1;
    }
    assert |digits| <= 2;
    PyText.FormatIntRoundTrip(m, 2);
  }

  /** The month key is the year, a dash and the two-digit, zero-padded month. */
  lemma MonthKeyShape(year: int, month: int)
    requires 1 <= month <= 12
    ensures var k := MonthKey(year, month);
      |k| == |PyText.IntToString(year)| + 3 &&
      k[..|k| - 3] == PyText.IntToString(year) && k[|k| - 3] == '-' &&
      k[|k| - 2..] == PyText.FormatInt(month, 2) &&
      PyText.AllDigits(k[|k| - 2..])
  {
    TwoDigits(month);
    SplitAtDash(PyText.IntToString(year), PyText.FormatInt(month, 2));
  }

  lemma SplitAtDash(y: string, m: string)
    requires |m| == 2
    ensures var k := y + "-" + m;
      |k| == |y| + 3 && k[..|k| - 3] == y && k[|k| - 3] == '-' && k[|k| - 2..] == m
  {
    var k := y + "-" + m;
    assert k[..|k| - 3] == y;
    assert k[|k| - 2..] == m;
  }

  /** Different (year, month) pairs are counted under different time strings. */
  lemma MonthKeyInjective(y1: int, m1: int, y2: int, m2: int)
    requires 1 <= m1 <= 12 && 1 <= m2 <= 12
    requires MonthKey(y1, m1) == MonthKey(y2, m2)
    ensures y1 == y2 && m1 == m2
  {
    var k := MonthKey(y1, m1);
    MonthKeyShape(y1, m1);
    MonthKeyShape(y2, m2);
    PyText.FormatIntInjective(m1, m2, 2);
    PyText.IntToStringRoundTrip(y1);
    PyText.IntToStringRoundTrip(y2);
  }

  lemma MonthKeyExample()
    ensures MonthKey(2021, 3) == "2021-03"
  {
    assert PyText.NatToString(2021) == "2021";
  }
}
