/**
 * `DcTileExtract` of `odc.dscache.tools`: builds the inputs of a
 * `datacube.api.grid_workflow.Tile` for one tile from a dataset cache.
 * The cache's `stream_group(key)` is the function `streamGroup`; the grid
 * spec, the grouping and the Tile construction itself are kept as the values
 * they are built from.
 */
module DscacheTiles {
  import opened PyBase
  import PyText

  /** `'albers/{:03d}_{:03d}'.format(x, y)`, the default cache key of a tile. */
  function AlbersKey(x: int, y: int): (k: string)
    ensures |k| >= 14 && k[..7] == "albers/"
  {
    "albers/" + PyText.FormatInt(x, 3) + "_" + PyText.FormatInt(y, 3)
  }

  lemma AlbersKeyExample()
    ensures AlbersKey(15, -40) == "albers/015_-40"
    ensures AlbersKey(-5, 7) == "albers/-05_007"
  {
    assert PyText.NatToString(15) == "15";
    assert PyText.NatToString(40) == "40";
    assert PyText.Zeros(1) == "0";
    assert PyText.Zeros(2) == "00";
  }

  lemma SplitAtSeparator(a1: string, b1: string, a2: string, b2: string, sep: char)
    requires sep !in a1 && sep !in a2
    requires a1 + [sep] + b1 == a2 + [sep] + b2
    ensures a1 == a2 && b1 == b2
  {
    var s1, s2 := a1 + [sep] + b1, a2 + [sep] + b2;
    assert forall i :: 0 <= i < |a1| ==> s1[i] == a1[i] != sep;
    assert forall i :: 0 <= i < |a2| ==> s2[i] == a2[i] != sep;
    assert s1[|a1|] == sep && s2[|a2|] == sep;
    assert |a1| == |a2|;
    assert a1 == s1[..|a1|] && a2 == s2[..|a2|];
    assert b1 == s1[|a1| + 1..] && b2 == s2[|a2| + 1..];
  }

  /** A rendered coordinate never contains the `_` that separates the two in a key. */
  lemma NoSeparator(n: int)
    ensures '_' !in PyText.FormatInt(n, 3)
  {
    var s := PyText.FormatInt(n, 3);
    if n < 0 {
      assert forall i :: 1 <= i < |s| ==> s[i] == s[1..][i - 1];
    }
  }

  lemma AlbersKeyTail(x: int, y: int)
    ensures AlbersKey(x, y)[7..] == PyText.FormatInt(x, 3) + "_" + PyText.FormatInt(y, 3)
  {
    DropPrefix("albers/", PyText.FormatInt(x, 3) + "_" + PyText.FormatInt(y, 3));
  }

  lemma DropPrefix(p: string, t: string)
    ensures (p + t)[|p|..] == t
  {
  }

  /** Distinct tiles are cached under distinct default keys. */
  lemma AlbersKeyInjective(x1: int, y1: int, x2: int, y2: int)
    requires AlbersKey(x1, y1) == AlbersKey(x2, y2)
    ensures x1 == x2 && y1 == y2
  {
    var a1, b1 := PyText.FormatInt(x1, 3), PyText.FormatInt(y1, 3);
    var a2, b2 := PyText.FormatInt(x2, 3), PyText.FormatInt(y2, 3);
    NoSeparator(x1);
    NoSeparator(x2);
    AlbersKeyTail(x1, y1);
    AlbersKeyTail(x2, y2);
    SplitAtSeparator(a1, b1, a2, b2, '_');
    PyText.FormatIntInjective(x1, x2, 3);
    PyText.FormatIntInjective(y1, y2, 3);
  }

  /** The first argument of a call: a tile index `(x, y)` or the bare `x` of a call `(x, y)`. */
  datatype TileArg = TileIndex(x: int, y: int) | Coordinate(x: int)

  /** The tile index a call `extract(tile_idx, _y)` works on; anything else fails to format. */
  function NormaliseTileIndex(tileIdx: TileArg, y: Option<int>): (r: Result<(int, int), Error>)
    ensures r.Success? <==> (tileIdx.TileIndex? && y.None?) || (tileIdx.Coordinate? && y.Some?)
    ensures tileIdx.TileIndex? && y.None? ==> r.value == (tileIdx.x, tileIdx.y)
    ensures tileIdx.Coordinate? && y.Some? ==> r.value == (tileIdx.x, y.value)
  {
    match (tileIdx, y)
    case (TileIndex(a, b), None) => Success((a, b))
    case (Coordinate(a), Some(b)) => Success((a, b))
    case (TileIndex(_, _), Some(_)) => Failure(TypeError("unsupported format string passed to tuple.__format__"))
    case (Coordinate(_), None) => Failure(TypeError("format() argument after * must be an iterable"))
  }

  /** The grid spec of an extractor: the default Albers grid or one given to the constructor. */
  datatype GridChoice<G> = AlbersGrid | GivenGrid(spec: G)

  /**
   * What `__call__` builds a Tile from: the datasets the cache streamed for the key,
   * grouped by `groupBy`, on the geobox of `index` in `grid`.
   */
  datatype TileSources<D, G> = TileSources(index: (int, int), key: string, datasets: seq<D>,
                                           groupBy: string, grid: GridChoice<G>)

  class DcTileExtract<D, G> {
    const streamGroup: string -> seq<D>
    const groupBy: string
    const grid: GridChoice<G>
    /** `None` means the default key format `'albers/{:03d}_{:03d}'`. */
    const keyFormat: Option<(int, int) -> string>

    /** The cache key of tile `(x, y)`. */
    function Key(x: int, y: int): (k: string)
      ensures keyFormat.None? ==> k == AlbersKey(x, y)
      ensures keyFormat.Some? ==> k == keyFormat.value(x, y)
    {
      match keyFormat
      case None => AlbersKey(x, y)
      case Some(f) => f(x, y)
    }

    /** `DcTileExtract(cache, group_by, key_fmt, grid_spec)`. */
    constructor(streamGroup: string -> seq<D>, groupBy: string := "time",
                keyFormat: Option<(int, int) -> string> := None, gridSpec: Option<G> := None)
      ensures this.streamGroup == streamGroup && this.groupBy == groupBy && this.keyFormat == keyFormat
      ensures this.grid == if gridSpec.None? then AlbersGrid else GivenGrid(gridSpec.value)
    {
      this.streamGroup := streamGroup;
      this.groupBy := groupBy;
      this.grid := if gridSpec.None? then AlbersGrid else GivenGrid(gridSpec.value);
      this.keyFormat := keyFormat;
    }

    /** `extract(tile_idx)` or `extract(x, y)`. */
    method Call(tileIdx: TileArg, y: Option<int> := None) returns (r: Result<TileSources<D, G>, Error>)
      ensures NormaliseTileIndex(tileIdx, y).Failure? ==> r == Failure(NormaliseTileIndex(tileIdx, y).error)
      ensures NormaliseTileIndex(tileIdx, y).Success? ==>
        var (tx, ty) := NormaliseTileIndex(tileIdx, y).value;
        r == Success(TileSources((tx, ty), Key(tx, ty), streamGroup(Key(tx, ty)), groupBy, grid))
    {
      var index := NormaliseTileIndex(tileIdx, y);
      if index.Failure? {
        return Failure(index.error);
      }
      var (tx, ty) := index.value;
      var k := Key(tx, ty);
      var dss := streamGroup(k);
      return Success(TileSources((tx, ty), k, dss, groupBy, grid));
    }
  }
}
