/**
 * `time_range`, `chop_query_by_time` and `ordered_dss` of `odc.index`.
 *
 * Time is a count of ticks. A period frequency is a strictly increasing
 * boundary function `start`: period `k` covers the ticks `start(k)` through
 * `start(k + 1) - 1`, so a period's end time is the next period's start minus
 * one tick, as with pandas `Period.end_time`.
 */
module IndexTime {
  import opened PyBase
  import PySort

  /** Period `k` starts before period `k + 1`. */
  ghost predicate Step(start: int -> int, k: int)
  {
    start(k) < start(k + 1)
  }

  ghost predicate Increasing(start: int -> int)
  {
    forall k :: Step(start, k)
  }

  function Max(a: int, b: int): int { if a < b then b else a }
  function Min(a: int, b: int): int { if a < b then a else b }

  /** Period starts are strictly increasing across any number of periods. */
  lemma {:induction false} StartMonotone(start: int -> int, i: int, j: int)
    requires Increasing(start)
    ensures i <= j ==> start(i) <= start(j)
    ensures i < j ==> start(i) < start(j)
    decreases if i < j then j - i else 0
  {
    if i < j {
      StartMonotone(start, i, j - 1);
      assert Step(start, j - 1);
    }
  }

  function PeriodAbove(start: int -> int, x: int, k: int): (r: int)
    requires Increasing(start)
    requires start(k) <= x
    ensures k <= r && start(r) <= x < start(r + 1)
    decreases x - start(k)
  {
    assert Step(start, k);
    if x < start(k + 1) then k else PeriodAbove(start, x, k + 1)
  }

  function PeriodBelow(start: int -> int, x: int, k: int): (r: int)
    requires Increasing(start)
    requires x < start(k)
    ensures r < k && start(r) <= x < start(r + 1)
    decreases start(k) - x
  {
    assert Step(start, k - 1);
    if start(k - 1) <= x then k - 1 else PeriodBelow(start, x, k - 1)
  }

  /** `Period(x, freq)`: the index of the period that contains tick `x`. */
  function PeriodOf(start: int -> int, x: int): (k: int)
    requires Increasing(start)
    ensures start(k) <= x < start(k + 1)
  {
    if x < start(0) then PeriodBelow(start, x, 0) else PeriodAbove(start, x, 0)
  }

  /** A tick lies in exactly one period. */
  lemma PeriodOfUnique(start: int -> int, x: int, k: int)
    requires Increasing(start)
    requires start(k) <= x < start(k + 1)
    ensures PeriodOf(start, x) == k
  {
    var p := PeriodOf(start, x);
    StartMonotone(start, p + 1, k);
    StartMonotone(start, k + 1, p);
  }

  /** Period `k` clipped to `[begin, end]`. */
  function Clip(start: int -> int, k: int, begin: int, end: int): (int, int)
  {
    (Max(start(k), begin), Min(start(k + 1) - 1, end))
  }

  /** How many periods `time_range` visits: those from the period of `begin` to the period of `end`. */
  function PieceCount(start: int -> int, begin: int, end: int): nat
    requires Increasing(start)
  {
    var k0, k1 := PeriodOf(start, begin), PeriodOf(start, end);
    if k1 < k0 then 0 else k1 - k0 + 1
  }

  /** The periods from the one holding `begin` to the one holding `end`, each clipped to `[begin, end]`. */
  function TimeRangeSpec(start: int -> int, begin: int, end: int): seq<(int, int)>
    requires Increasing(start)
  {
    var k0 := PeriodOf(start, begin);
    seq(PieceCount(start, begin, end), i => Clip(start, k0 + i, begin, end))
  }

  /** Piece `i` is period `k0 + i` clipped, where `k0` is the period of `begin`; that period starts no later than `end`. */
  lemma PieceAt(start: int -> int, begin: int, end: int, i: int)
    requires Increasing(start)
    requires 0 <= i < |TimeRangeSpec(start, begin, end)|
    ensures var k := PeriodOf(start, begin) + i;
      TimeRangeSpec(start, begin, end)[i] == Clip(start, k, begin, end) &&
      start(k) < start(k + 1) && start(k) <= end && (begin <= end ==> begin < start(k + 1))
  {
    assert Step(start, PeriodOf(start, begin) + i);
    var k0, k1 := PeriodOf(start, begin), PeriodOf(start, end);
    StartMonotone(start, k0 + i, k1);
    StartMonotone(start, k0 + 1, k0 + i + 1);
  }

  /** Period `t` starts no later than `end` exactly when it is not after the period of `end`. */
  lemma StartsBy(start: int -> int, end: int, t: int)
    requires Increasing(start)
    ensures start(t) <= end <==> t <= PeriodOf(start, end)
  {
    var k1 := PeriodOf(start, end);
    StartMonotone(start, t, k1);
    StartMonotone(start, k1 + 1, t);
  }

  /** A sequence of the right length whose pieces are the clipped periods is the reference. */
  lemma TimeRangeSpecFrom(start: int -> int, begin: int, end: int, k0: int, pieces: seq<(int, int)>)
    requires Increasing(start)
    requires k0 == PeriodOf(start, begin)
    requires |pieces| == PieceCount(start, begin, end)
    requires forall i :: 0 <= i < |pieces| ==> pieces[i] == Clip(start, k0 + i, begin, end)
    ensures pieces == TimeRangeSpec(start, begin, end)
  {
  }

  lemma ClipsAppend(start: int -> int, k0: int, begin: int, end: int, pieces: seq<(int, int)>, piece: (int, int))
    requires forall i :: 0 <= i < |pieces| ==> pieces[i] == Clip(start, k0 + i, begin, end)
    requires piece == Clip(start, k0 + |pieces|, begin, end)
    ensures forall i :: 0 <= i < |pieces + [piece]| ==> (pieces + [piece])[i] == Clip(start, k0 + i, begin, end)
  {
  }

  /** `time_range(begin, end, freq)`: walk the periods from the one holding `begin` until one starts after `end`. */
  method TimeRange(start: int -> int, begin: int, end: int) returns (pieces: seq<(int, int)>)
    requires Increasing(start)
    ensures pieces == TimeRangeSpec(start, begin, end)
  {
    var t := PeriodOf(start, begin);
    ghost var k0 := t;
    ghost var k1 := PeriodOf(start, end);
    pieces := [];
    while start(t) <= end
      invariant k0 <= t
      invariant t == k0 || t <= k1 + 1
      invariant |pieces| == t - k0
      invariant forall i :: 0 <= i < |pieces| ==> pieces[i] == Clip(start, k0 + i, begin, end)
      decreases end - start(t)
    {
      StartsBy(start, end, t);
      assert Step(start, t);
      var piece := (Max(start(t), begin), Min(start(t + 1) - 1, end));
      ClipsAppend(start, k0, begin, end, pieces, piece);
      pieces := pieces + [piece];
      t := t + 1;
    }
    StartsBy(start, end, t);
    TimeRangeSpecFrom(start, begin, end, k0, pieces);
  }

  /** Every piece lies inside `[begin, end]` and is not empty. */
  lemma TimeRangeWithin(start: int -> int, begin: int, end: int, i: int)
    requires Increasing(start)
    requires begin <= end
    requires 0 <= i < |TimeRangeSpec(start, begin, end)|
    ensures begin <= TimeRangeSpec(start, begin, end)[i].0 <= TimeRangeSpec(start, begin, end)[i].1 <= end
  {
    PieceAt(start, begin, end, i);
  }

  /** The first piece starts at `begin` and the last ends at `end`. */
  lemma TimeRangeEnds(start: int -> int, begin: int, end: int)
    requires Increasing(start)
    requires begin <= end
    ensures var r := TimeRangeSpec(start, begin, end);
      |r| >= 1 && r[0].0 == begin && r[|r| - 1].1 == end
  {
    var k0, k1 := PeriodOf(start, begin), PeriodOf(start, end);
    StartMonotone(start, k1 + 1, k0);
    var r := TimeRangeSpec(start, begin, end);
    PieceAt(start, begin, end, 0);
    PieceAt(start, begin, end, |r| - 1);
  }

  /** Each piece after the first starts one tick after the period of the one before it ends. */
  lemma TimeRangeContiguous(start: int -> int, begin: int, end: int, i: int)
    requires Increasing(start)
    requires 0 <= i < |TimeRangeSpec(start, begin, end)| - 1
    ensures var r, k := TimeRangeSpec(start, begin, end), PeriodOf(start, begin) + i;
      r[i + 1].0 == start(k + 1) && r[i].1 == start(k + 1) - 1
  {
    var k0 := PeriodOf(start, begin);
    PieceAt(start, begin, end, i);
    PieceAt(start, begin, end, i + 1);
    StartMonotone(start, k0 + 1, k0 + i + 1);
  }

  /** Pieces are strictly increasing: every piece ends before the next one starts. */
  lemma {:induction false} TimeRangeIncreasing(start: int -> int, begin: int, end: int, i: int, j: int)
    requires Increasing(start)
    requires begin <= end
    requires 0 <= i < j < |TimeRangeSpec(start, begin, end)|
    ensures TimeRangeSpec(start, begin, end)[i].1 < TimeRangeSpec(start, begin, end)[j].0
    decreases j - i
  {
    TimeRangeContiguous(start, begin, end, i);
    if i + 1 < j {
      TimeRangeWithin(start, begin, end, i + 1);
      TimeRangeIncreasing(start, begin, end, i + 1, j);
    }
  }

  /** Period `k` shares at least one tick with `[begin, end]`. */
  ghost predicate Intersects(start: int -> int, k: int, begin: int, end: int)
  {
    start(k) <= end && begin <= start(k + 1) - 1
  }

  /**
   * One piece per period that meets `[begin, end]`, starting with the period of `begin`:
   * period `k` meets the interval exactly when it has a piece, and that piece is the period clipped.
   */
  lemma TimeRangeOnePerPeriod(start: int -> int, begin: int, end: int, k: int)
    requires Increasing(start)
    requires begin <= end
    ensures var r, k0 := TimeRangeSpec(start, begin, end), PeriodOf(start, begin);
      (Intersects(start, k, begin, end) <==> k0 <= k < k0 + |r|) &&
      (k0 <= k < k0 + |r| ==> r[k - k0] == Clip(start, k, begin, end))
  {
    var r := TimeRangeSpec(start, begin, end);
    var k0, k1 := PeriodOf(start, begin), PeriodOf(start, end);
    TimeRangeEnds(start, begin, end);
    assert |r| == k1 - k0 + 1;
    StartMonotone(start, k + 1, k0);
    StartMonotone(start, k1 + 1, k);
    if k0 <= k <= k1 {
      PieceAt(start, begin, end, k - k0);
    }
  }

  /** Every tick of `[begin, end]` falls in exactly one piece: the one of its own period. */
  lemma TimeRangeCovers(start: int -> int, begin: int, end: int, x: int)
    requires Increasing(start)
    requires begin <= x <= end
    ensures var r, i := TimeRangeSpec(start, begin, end), PeriodOf(start, x) - PeriodOf(start, begin);
      0 <= i < |r| && r[i].0 <= x <= r[i].1 &&
      forall j :: 0 <= j < |r| && r[j].0 <= x <= r[j].1 ==> j == i
  {
    var r := TimeRangeSpec(start, begin, end);
    var k0, kx := PeriodOf(start, begin), PeriodOf(start, x);
    TimeRangeOnePerPeriod(start, begin, end, kx);
    forall j | 0 <= j < |r| && r[j].0 <= x <= r[j].1 ensures j == kx - k0 {
      PieceAt(start, begin, end, j);
      PeriodOfUnique(start, x, k0 + j);
    }
  }

  /** When `end` precedes `begin` the walk still yields the inverted pair if both fall in one period. */
  lemma TimeRangeInverted(start: int -> int, begin: int, end: int)
    requires Increasing(start)
    requires end < begin
    ensures var r := TimeRangeSpec(start, begin, end);
      r == (if start(PeriodOf(start, begin)) <= end then [(begin, end)] else [])
  {
    var k0, k1 := PeriodOf(start, begin), PeriodOf(start, end);
    if start(k0) <= end {
      PeriodOfUnique(start, end, k0);
      assert PieceCount(start, begin, end) == 1;
      PieceAt(start, begin, end, 0);
      assert TimeRangeSpec(start, begin, end)[0] == (begin, end);
    } else {
      StartMonotone(start, k0, k1);
    }
  }

  /** A range value of a query's `time` search term (`datacube.model.Range`). */
  datatype Range = Range(begin: int, end: int)

  /** The value of a search term: `None`, a time range, or anything else. */
  datatype Term = NoneTerm | RangeTerm(range: Range) | OtherTerm(text: string)

  /** A query, by its search terms. */
  type SearchTerms = map<string, Term>

  /**
   * The queries `chop_query_by_time` yields, or the exception it raises: no `time` term, or a
   * `None` one, is an error; for a time range, one query per piece, whose `time` is that piece
   * and whose other search terms are those of the input.
   */
  function ChopQueries(start: int -> int, terms: SearchTerms): (r: Result<seq<SearchTerms>, Error>)
    requires Increasing(start)
    ensures "time" !in terms ==> r == Failure(KeyError("time"))
    ensures "time" in terms && terms["time"] == NoneTerm ==> r == Failure(ValueError("Need time range in the query"))
    ensures "time" in terms && terms["time"].OtherTerm? ==> r == Failure(AttributeError("begin"))
    ensures r.Success? <==> "time" in terms && terms["time"].RangeTerm?
    ensures r.Success? ==>
      var range := terms["time"].range;
      var pieces := TimeRangeSpec(start, range.begin, range.end);
      |r.value| == |pieces| &&
      forall i :: 0 <= i < |r.value| ==>
        r.value[i].Keys == terms.Keys &&
        r.value[i]["time"] == RangeTerm(Range(pieces[i].0, pieces[i].1)) &&
        forall key :: key in terms && key != "time" ==> r.value[i][key] == terms[key]
  {
    if "time" !in terms then Failure(KeyError("time"))
    else match terms["time"]
      case NoneTerm => Failure(ValueError("Need time range in the query"))
      case OtherTerm(_) => Failure(AttributeError("begin"))
      case RangeTerm(range) =>
        var pieces := TimeRangeSpec(start, range.begin, range.end);
        Success(seq(|pieces|, i requires 0 <= i < |pieces| =>
          (terms - {"time"})["time" := RangeTerm(Range(pieces[i].0, pieces[i].1))]))
  }

  /** `chop_query_by_time(q, freq)`: pop `time`, then one query per `time_range` piece. */
  method ChopQueryByTime(start: int -> int, terms: SearchTerms) returns (r: Result<seq<SearchTerms>, Error>)
    requires Increasing(start)
    ensures r == ChopQueries(start, terms)
  {
    if "time" !in terms {
      return Failure(KeyError("time"));
    }
    var time := terms["time"];
    var qq := terms - {"time"};
    if time.NoneTerm? {
      return Failure(ValueError("Need time range in the query"));
    }
    if time.OtherTerm? {
      return Failure(AttributeError("begin"));
    }
    var pieces := TimeRange(start, time.range.begin, time.range.end);
    var queries: seq<SearchTerms> := [];
    for i := 0 to |pieces|
      invariant queries == seq(i, j requires 0 <= j < i => qq["time" := RangeTerm(Range(pieces[j].0, pieces[j].1))])
    {
      queries := queries + [qq["time" := RangeTerm(Range(pieces[i].0, pieces[i].1))]];
    }
    return Success(queries);
  }

  /** The datasets of each chunk query, each list sorted stably by centre time, concatenated in chunk order. */
  function OrderedChunks<D>(qs: seq<SearchTerms>, find: SearchTerms -> seq<D>, centerTime: D -> int): seq<D>
  {
    if qs == [] then []
    else OrderedChunks(qs[..|qs| - 1], find, centerTime) + PySort.StableSort(find(qs[|qs| - 1]), centerTime)
  }

  /** The loop of `ordered_dss`: for each chunk query, fetch, sort in place by centre time, and emit. */
  method EmitSortedChunks<D>(qs: seq<SearchTerms>, find: SearchTerms -> seq<D>, centerTime: D -> int)
    returns (out: seq<D>)
    ensures out == OrderedChunks(qs, find, centerTime)
  {
    out := [];
    for i := 0 to |qs|
      invariant out == OrderedChunks(qs[..i], find, centerTime)
    {
      var found := find(qs[i]);
      var dss := new D[|found|](j requires 0 <= j < |found| => found[j]);
      assert dss[..] == found;
      PySort.SortInPlace(dss, centerTime);
      assert qs[..i + 1][..i] == qs[..i];
      out := out + dss[..];
    }
    assert qs[..|qs|] == qs;
  }

  /**
   * `ordered_dss(dc, freq, **query)`: chop the query by time, run `find` (`dc.find_datasets`)
   * on each piece, sort its results in place by `center_time` and emit them.
   */
  method OrderedDss<D>(start: int -> int, query: SearchTerms, find: SearchTerms -> seq<D>, centerTime: D -> int)
    returns (r: Result<seq<D>, Error>)
    requires Increasing(start)
    ensures ChopQueries(start, query).Failure? ==> r == Failure(ChopQueries(start, query).error)
    ensures ChopQueries(start, query).Success? ==>
      r == Success(OrderedChunks(ChopQueries(start, query).value, find, centerTime))
  {
    var chopped := ChopQueryByTime(start, query);
    if chopped.Failure? {
      return Failure(chopped.error);
    }
    var out := EmitSortedChunks(chopped.value, find, centerTime);
    return Success(out);
  }

  /** The output of `ordered_dss` is a permutation of all chunk results, in chunk order. */
  lemma {:induction false} OrderedChunksPermutation<D>(qs: seq<SearchTerms>, find: SearchTerms -> seq<D>, centerTime: D -> int)
    ensures multiset(OrderedChunks(qs, find, centerTime)) == multiset(Flatten(seq(|qs|, i requires 0 <= i < |qs| => find(qs[i]))))
    decreases |qs|
  {
    if qs != [] {
      var init := qs[..|qs| - 1];
      OrderedChunksPermutation(init, find, centerTime);
      PySort.StableSortPermutation(find(qs[|qs| - 1]), centerTime);
      var all := seq(|qs|, i requires 0 <= i < |qs| => find(qs[i]));
      assert all[..|all| - 1] == seq(|init|, i requires 0 <= i < |init| => find(init[i]));
    }
  }

  /** The output for the first `j` chunk queries is a prefix of the whole output. */
  lemma {:induction false} OrderedChunksPrefix<D>(qs: seq<SearchTerms>, find: SearchTerms -> seq<D>, centerTime: D -> int, j: nat)
    requires j <= |qs|
    ensures var out, pre := OrderedChunks(qs, find, centerTime), OrderedChunks(qs[..j], find, centerTime);
      |pre| <= |out| && out[..|pre|] == pre
    decreases |qs|
  {
    if j < |qs| {
      var init := qs[..|qs| - 1];
      assert init[..j] == qs[..j];
      OrderedChunksPrefix(init, find, centerTime, j);
    } else {
      assert qs[..j] == qs;
    }
  }

  /** The `c`-th chunk's stretch of the output starts where the output of the chunks before it ends. */
  lemma OrderedChunkSegment<D>(qs: seq<SearchTerms>, find: SearchTerms -> seq<D>, centerTime: D -> int, c: int)
    requires 0 <= c < |qs|
    ensures var out, lo, found := OrderedChunks(qs, find, centerTime), |OrderedChunks(qs[..c], find, centerTime)|, find(qs[c]);
      lo + |found| <= |out| && out[lo..lo + |found|] == PySort.StableSort(found, centerTime)
  {
    var pre := OrderedChunks(qs[..c], find, centerTime);
    var sorted := PySort.StableSort(find(qs[c]), centerTime);
    assert qs[..c + 1][..c] == qs[..c];
    assert OrderedChunks(qs[..c + 1], find, centerTime) == pre + sorted;
    OrderedChunksPrefix(qs, find, centerTime, c + 1);
    var out := OrderedChunks(qs, find, centerTime);
    assert out[..|pre| + |sorted|] == pre + sorted;
    assert out[|pre|..|pre| + |sorted|] == (pre + sorted)[|pre|..];
  }

  /**
   * The `c`-th chunk's stretch of the output is that chunk's query results sorted:
   * ordered by centre time, a permutation of them, and stable.
   */
  lemma OrderedChunkSorted<D>(qs: seq<SearchTerms>, find: SearchTerms -> seq<D>, centerTime: D -> int, c: int)
    requires 0 <= c < |qs|
    ensures var out, lo, found := OrderedChunks(qs, find, centerTime), |OrderedChunks(qs[..c], find, centerTime)|, find(qs[c]);
      lo + |found| <= |out| &&
      var chunk := out[lo..lo + |found|];
      PySort.SortedBy(chunk, centerTime) && multiset(chunk) == multiset(found) &&
      forall k :: PySort.WithKey(chunk, centerTime, k) == PySort.WithKey(found, centerTime, k)
  {
    var found := find(qs[c]);
    OrderedChunkSegment(qs, find, centerTime, c);
    PySort.StableSortSorted(found, centerTime);
    PySort.StableSortPermutation(found, centerTime);
    forall k ensures PySort.WithKey(PySort.StableSort(found, centerTime), centerTime, k) == PySort.WithKey(found, centerTime, k) {
      PySort.StableSortStable(found, centerTime, k);
    }
  }
}
