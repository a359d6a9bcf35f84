# odc-tools core, modelled in Dafny

This project models the two helper libraries of odc-tools that hold their own logic:

- `odc.index` (`libs/index/odc/index/_index.py`):
  - turning YAML document streams into dataset streams (`parse_doc_stream`, `from_metadata_stream`, `from_yaml_doc_stream`);
  - counting datasets by year and by month (`count_by_year`, `count_by_month`);
  - cutting a time interval into period-aligned pieces (`time_range`);
  - chopping a query along time (`chop_query_by_time`);
  - streaming datasets ordered by time (`ordered_dss`).
- `odc.dscache.tools` (`libs/dscache/odc/dscache/tools/__init__.py`):
  - sampling datasets to train a compression dictionary (`dictionary_from_product_list`);
  - the connection settings of `db_connect`;
  - the `raw2ds` conversion returned by `mk_raw2ds`;
  - the `LIMIT` rule and fetch loop of `raw_dataset_stream`;
  - the cache-key logic of `DcTileExtract`.

Everything outside these files is a parameter of the model. That covers the datacube index and
`find_datasets`, `Doc2Dataset`, the YAML parser, `random.shuffle`, `train_dictionary`,
`LocalConfig.find`, the database cursor and the dataset cache. Generators become finite sequences.

Time is a count of ticks. A frequency is a strictly increasing boundary function `start`, where
period `k` covers `start(k)` through `start(k + 1) - 1`. This matches pandas, where a period's
`end_time` is the next period's start minus one tick.

`list.sort(key=...)` is modelled as a stable insertion sort. `SortInPlace` runs it on an array
and is proved to compute the sequence function `StableSort`. `StableSort` is proved to be sorted,
to be a permutation of its input, and to be stable.

Python text formatting is modelled in `PyText` and proved against a parser:
- `str(n)`;
- `'{:0Nd}'.format(n)`, where the width counts the sign, so `'{:03d}'.format(-5) == '-05'`;
- `'{:d}'.format(n)`.

Module layout:

| module | file | models |
|---|---|---|
| `PyBase` | `py_base.dfy` | `Option`, `Result`, Python exceptions, `dict.get`, slicing `s[:n]` |
| `PyText` | `py_text.dfy` | integer formatting and its inverse |
| `PySort` | `py_sort.dfy` | `list.sort(key=...)` |
| `IndexTime` | `index_time.dfy` | `time_range`, `chop_query_by_time`, `ordered_dss` |
| `IndexStreams` | `index_streams.dfy` | `parse_doc_stream`, `from_metadata_stream`, `from_yaml_doc_stream` |
| `IndexCounts` | `index_counts.dfy` | `count_by_year`, `count_by_month` |
| `DscacheSamples` | `dscache_samples.dfy` | `dictionary_from_product_list` |
| `DscacheDb` | `dscache_db.dfy` | `db_connect`, `mk_raw2ds`, `raw_dataset_stream` |
| `DscacheTiles` | `dscache_tiles.dfy` | `DcTileExtract` |

Where the code and its docstrings differ, the model follows the code:
- `parse_doc_stream` also yields `None` metadata for a document that parses without error to YAML null.
- That document then becomes an "empty doc" error downstream.

The `time_range` docstring says nothing about `end < begin`. The code then yields the single inverted pair `(begin, end)` when `end` is not before the start of `begin`'s period, and nothing otherwise (`TimeRangeInverted`).

## Model

| member | source | states |
|---|---|---|
| `PyBase.Get` | libs/dscache/odc/dscache/tools/__init__.py:58 | `d.get(k, None)` is `Some` exactly when `k` is a key, and then holds `d[k]` |
| `PyBase.SliceTo` | libs/dscache/odc/dscache/tools/__init__.py:29 | `s[:n]` is a prefix of `s`; its length is `min(n, len(s))` for `n >= 0`, and drops `-n` elements otherwise |
| `PyText.NatToString` | libs/index/odc/index/_index.py:88 | `str(n)` of a natural number is non-empty, all digits, with no leading zero |
| `PyText.IntToStringRoundTrip` | libs/index/odc/index/_index.py:88 | `str(n)` equals the unpadded format and parses back to `n` |
| `PyText.FormatIntRoundTrip` | libs/index/odc/index/_index.py:98 | `'{:0Nd}'.format(n)` is integer text that parses back to `n` |
| `PyText.FormatIntInjective` | libs/dscache/odc/dscache/tools/__init__.py:160 | distinct integers format to distinct strings at any width |
| `PyText.IntToString` | libs/index/odc/index/_index.py:88 | `str(n)` starts with `-` exactly for negative `n`, and is otherwise non-empty digits with no leading zero |
| `PyText.FormatInt` | libs/index/odc/index/_index.py:98 | `'{:0Nd}'.format(n)` is exactly `max(N, len(str(n)))` characters long, starts with `-` exactly for negative `n`, and is otherwise all digits |
| `PySort.StableSort` | libs/index/odc/index/_index.py:146 | the reference `list.sort(key=...)`, insertion by insertion; same length as its input |
| `PySort.StableSortSorted` | libs/index/odc/index/_index.py:146 | the sorted list is non-decreasing by key |
| `PySort.StableSortPermutation` | libs/index/odc/index/_index.py:146 | the sorted list is a permutation of the input |
| `PySort.StableSortStable` | libs/index/odc/index/_index.py:146 | for every key, the elements with that key keep their input order |
| `PySort.InsertAt` | libs/index/odc/index/_index.py:146 | one in-place insertion step: `a[..i+1]` becomes `a[i]` inserted into `a[..i]`; the rest of the array is unchanged |
| `PySort.SortInPlace` | libs/index/odc/index/_index.py:146 | sorting the array in place leaves exactly the stable sort of its old contents |
| `IndexTime.PeriodOf` | libs/index/odc/index/_index.py:109 | `Period(begin, freq)`: the period whose ticks contain `x` |
| `IndexTime.PeriodOfUnique` | libs/index/odc/index/_index.py:109 | a tick lies in exactly one period |
| `IndexTime.TimeRangeSpec` | libs/index/odc/index/_index.py:109-120 | reference definition: the periods from the one holding `begin` to the one holding `end`, each clipped to `[begin, end]`; its properties are the `TimeRange*` lemmas below |
| `IndexTime.TimeRange` | libs/index/odc/index/_index.py:102-120 | the loop that walks periods from the one holding `begin` until a period starts after `end` terminates, and yields each visited period clipped to `[begin, end]` |
| `IndexTime.TimeRangeWithin` | libs/index/odc/index/_index.py:115-119 | for `begin <= end`, every piece `(a, b)` has `begin <= a <= b <= end` |
| `IndexTime.TimeRangeEnds` | libs/index/odc/index/_index.py:108-120 | for `begin <= end` there is at least one piece; the first starts at `begin` and the last ends at `end` |
| `IndexTime.TimeRangeContiguous` | libs/index/odc/index/_index.py:114-120 | each next piece starts one tick after the previous piece's period ends, at that next period's start |
| `IndexTime.TimeRangeIncreasing` | libs/index/odc/index/_index.py:114-120 | every piece ends before any later piece starts |
| `IndexTime.TimeRangeOnePerPeriod` | libs/index/odc/index/_index.py:109-120 | a period meets `[begin, end]` exactly when it has a piece, counting from the period of `begin`, and that piece is the period clipped |
| `IndexTime.TimeRangeCovers` | libs/index/odc/index/_index.py:102-120 | every tick of `[begin, end]` lies in exactly one piece, the one of its own period |
| `IndexTime.TimeRangeInverted` | libs/index/odc/index/_index.py:114-119 | with `end < begin` the walk yields `[(begin, end)]` when `end` is not before the period of `begin` starts, and nothing otherwise |
| `IndexTime.ChopQueries` | libs/index/odc/index/_index.py:127-133 | no `time` gives `KeyError`; `time=None` gives `ValueError('Need time range in the query')`; any other non-range `time` gives `AttributeError('begin')`; success holds exactly for a range; then one query per `time_range` piece, each keeping every other search term, with `time` the matching piece |
| `IndexTime.ChopQueryByTime` | libs/index/odc/index/_index.py:123-133 | the method computes the reference `ChopQueries`: its errors, and one query per `time_range` piece |
| `IndexTime.EmitSortedChunks` | libs/index/odc/index/_index.py:144-147 | the loop produces each chunk's results, sorted in place, concatenated in chunk order |
| `IndexTime.OrderedDss` | libs/index/odc/index/_index.py:136-147 | errors of chopping propagate; otherwise the output is the sorted chunk results in chunk order |
| `IndexTime.OrderedChunksPermutation` | libs/index/odc/index/_index.py:144-147 | the output is a permutation of all chunk query results taken together |
| `IndexTime.OrderedChunksPrefix` | libs/index/odc/index/_index.py:144-147 | what is emitted for the first chunks is a prefix of the whole output |
| `IndexTime.OrderedChunkSegment` | libs/index/odc/index/_index.py:144-147 | the stretch of the output for chunk `c` starts where the earlier chunks' output ends, and is the stable sort of that chunk's results |
| `IndexTime.OrderedChunkSorted` | libs/index/odc/index/_index.py:145-147 | that stretch is ordered by `center_time`, is a permutation of the chunk's results, and is stable |
| `IndexStreams.ParseDocStream` | libs/index/odc/index/_index.py:39-56 | one output per document, in order, with its uri kept; metadata is `None` when parsing raised or gave null; `on_error` calls are the parse failures when the callback is given and none otherwise |
| `IndexStreams.ParseFailuresExact` | libs/index/odc/index/_index.py:48-54 | every callback call is a failing document with its uri and error, every failing document is called back, and there are exactly as many calls as failing documents, so one call each |
| `IndexStreams.FromMetadataStream` | libs/index/odc/index/_index.py:9-36 | one outcome per input, in order, with exactly one component `None`; `None` metadata gives `'Error: empty doc <uri>'`; a failed conversion gives `'Error: <uri>, <err>'`; `doc2ds` is called as `Conversions` lists |
| `IndexStreams.ConversionsExact` | libs/index/odc/index/_index.py:28-32 | `doc2ds` is called for every input with metadata, never for one whose metadata is `None`, and exactly as many times as there are inputs with metadata |
| `IndexStreams.FromYamlDocStream` | libs/index/odc/index/_index.py:59-70 | end to end: one outcome per document; a document that fails to parse becomes an "empty doc" error, and any other is what conversion makes of it |
| `IndexCounts.CountByYear` | libs/index/odc/index/_index.py:77-91 | defaults 1970 and 2022; keys are exactly the years in `[min_year, max_year)` with a positive count, each mapped to that count of `str(year)` |
| `IndexCounts.YearRange` | libs/index/odc/index/_index.py:89 | `range(lo, hi)` as a set holds exactly the years `lo <= y < hi`, `hi - lo` of them |
| `IndexCounts.CountByYearSize` | libs/index/odc/index/_index.py:83-91 | at most `max_year - min_year` entries; with the defaults only the years 1970 to 2021 |
| `IndexCounts.CountByMonth` | libs/index/odc/index/_index.py:94-99 | exactly 12 counts, the `i`-th for month `i + 1` of the year |
| `IndexCounts.MonthKey` | libs/index/odc/index/_index.py:98 | the time string of a month starts with `str(year)` followed by `-` |
| `IndexCounts.MonthKeyShape` | libs/index/odc/index/_index.py:98 | the time string is the year, a dash and the two-digit, zero-padded month |
| `IndexCounts.MonthKeyInjective` | libs/index/odc/index/_index.py:98 | distinct (year, month) pairs give distinct time strings |
| `IndexCounts.MonthKeyExample` | libs/index/odc/index/_index.py:98 | March 2021 is counted under `'2021-03'` |
| `DscacheSamples.ProductNames` | libs/dscache/odc/dscache/tools/__init__.py:20-21 | a single product name is treated as a one-element list |
| `DscacheSamples.QueryLimit` | libs/dscache/odc/dscache/tools/__init__.py:23 | the query limit `samples_per_product * 10` asks for at least as many datasets as are sampled |
| `DscacheSamples.Samples` | libs/dscache/odc/dscache/tools/__init__.py:25-29 | the samples of the products, each product's shuffled results cut to `samples_per_product`; at most `len(products) * samples_per_product` of them |
| `DscacheSamples.DictionaryFromProductList` | libs/dscache/odc/dscache/tools/__init__.py:7-34 | one `find_datasets` query per product, in order, with limit `10 * samples_per_product`; the samples are each product's shuffled results cut to `samples_per_product`; `None` exactly when there are no samples, otherwise `train_dictionary(samples, dict_sz)` |
| `DscacheSamples.SamplesDrawnFromQueries` | libs/dscache/odc/dscache/tools/__init__.py:26-29 | as a multiset the samples are contained in the query results: nothing is drawn that was not found, or more often than it was found |
| `DscacheSamples.SamplesEmpty` | libs/dscache/odc/dscache/tools/__init__.py:25-32 | no dictionary is trained exactly when every product's cut sample is empty |
| `DscacheDb.ResolveConfig` | libs/dscache/odc/dscache/tools/__init__.py:49-50 | `None` or a name is looked up with `LocalConfig.find`; a loaded configuration is used as is |
| `DscacheDb.PgConfig` | libs/dscache/odc/dscache/tools/__init__.py:52-59 | exactly the keys `dbname`, `user`, `password`, `host` and `port`, each mapped to its `db_*` entry |
| `DscacheDb.PgConfigMissing` | libs/dscache/odc/dscache/tools/__init__.py:58-59 | a setting is `None` exactly when its `db_*` entry is absent |
| `DscacheDb.Raw2Ds` | libs/dscache/odc/dscache/tools/__init__.py:86-90 | `ValueError('Missing product <name>')` exactly when the product is not in the map; otherwise a Dataset of that product, the metadata and the uris |
| `DscacheDb.LimitClause` | libs/dscache/odc/dscache/tools/__init__.py:122 | the clause is non-empty exactly when `limit` is a non-zero int (truthy), and then starts with `LIMIT ` |
| `DscacheDb.LimitClauseMeaning` | libs/dscache/odc/dscache/tools/__init__.py:122 | the number after `LIMIT ` is integer text that parses back to `limit` |
| `DscacheDb.RawDatasetStream` | libs/dscache/odc/dscache/tools/__init__.py:104-133 | a non-int, non-`None` limit fails the assertion; otherwise the query carries the limit clause and the stream yields the rows of the replies before the first empty one |
| `DscacheDb.RowsBeforeEmptyStops` | libs/dscache/odc/dscache/tools/__init__.py:127-130 | with non-empty chunks before the first empty reply, the stream is their flattening, and nothing after that reply is read |
| `DscacheDb.CursorReplies` | libs/dscache/odc/dscache/tools/__init__.py:127-130 | the `fetchmany(read_chunk)` replies of a cursor over a result; the last reply is empty |
| `DscacheDb.CursorRepliesSizes` | libs/dscache/odc/dscache/tools/__init__.py:128 | every reply before the final empty one holds between one and `read_chunk` rows |
| `DscacheDb.StreamYieldsAllRows` | libs/dscache/odc/dscache/tools/__init__.py:127-133 | reading a cursor `read_chunk` rows at a time yields every row of the result, in order |
| `DscacheTiles.AlbersKey` | libs/dscache/odc/dscache/tools/__init__.py:160 | the default key `'albers/{:03d}_{:03d}'.format(x, y)` starts with `albers/` and is at least 14 characters long |
| `DscacheTiles.NoSeparator` | libs/dscache/odc/dscache/tools/__init__.py:160 | a formatted coordinate never contains the `_` that separates the two in a key |
| `DscacheTiles.AlbersKeyExample` | libs/dscache/odc/dscache/tools/__init__.py:160 | the default key of tile `(15, -40)` is `'albers/015_-40'`, and of `(-5, 7)` it is `'albers/-05_007'` |
| `DscacheTiles.AlbersKeyInjective` | libs/dscache/odc/dscache/tools/__init__.py:160 | distinct tiles have distinct default keys |
| `DscacheTiles.NormaliseTileIndex` | libs/dscache/odc/dscache/tools/__init__.py:166-169 | `(tile_idx, None)` and `(x, y)` both give a tile index; any other shape fails with `TypeError` |
| `DscacheTiles.DcTileExtract.Key` | libs/dscache/odc/dscache/tools/__init__.py:160 | the default key format is `'albers/{:03d}_{:03d}'`; a given format is used otherwise |
| `DscacheTiles.DcTileExtract.constructor` | libs/dscache/odc/dscache/tools/__init__.py:151-160 | stores the cache, the grouping and the key format; no grid spec means the Albers grid |
| `DscacheTiles.DcTileExtract.Call` | libs/dscache/odc/dscache/tools/__init__.py:162-174 | normalises the call, formats the key, streams the cache group for it, and returns it with the grouping and grid the Tile is built from |

## Left out

- Database I/O. Left out: the psycopg2 connection, the random cursor name, the SQL text and its semantics (the `agdc` schema, archived filtering, uri ordering), and `cur.close()`. The cursor is the sequence of its `fetchmany` replies, and the query is reduced to its `LIMIT` clause.
- Datacube internals are parameters or plain values: `Query` (a query is its search terms), `Doc2Dataset`, `Dataset`, `GridSpec`, `tile_geobox`, `group_datasets`, `Tile` and `LocalConfig`.
- `dataset_count` (`_index.py:73-74`) is the parameter `datasetCount` of the counting functions.
- `train_dictionary` is a parameter. `random.shuffle` is the `n`-th call of an arbitrary permutation, whose only assumed property is that it preserves the multiset (`IsShuffle`).
- YAML parsing is a partial function: `Failure` stands for an exception, and `Success(None)` for a YAML null.
- Pandas `Period`:
  - frequency strings and calendars are replaced by the abstract boundary function `start`;
  - timezone handling (`tzinfo`) is left out;
  - datetimes are integer ticks.
- Logging in `from_yaml_doc_stream`'s `on_parse_error` is left out. Its calls are the `calls` result of `ParseDocStream`, which `FromYamlDocStream` drops.
- `gs_albers` builds a library object from floating-point constants. It is the value `AlbersGrid`.
- Generator laziness and interleaving with the consumer are not modelled. Every stream is a finite sequence.
- Python `bool` counts as `int` in `raw_dataset_stream`'s assertion, but `LimitArg` has no boolean case.
- In `raw_dataset_stream`, each row is the one-column tuple `(ds,)`; the model treats the row as the dataset itself. The inner `for` that yields the rows of a chunk one by one is a concatenation.
- The `read_chunk` sizes of the replies are abstract in `RawDatasetStream`. `StreamYieldsAllRows` fixes them to `read_chunk` rows.
- `mk_raw2ds`: a product mapped to `None` in the products dictionary is not modelled, because map values are never `None` here.
- DscacheTiles.DcTileExtract.Call: a custom `key_fmt` is a function of the tile index. A malformed call therefore fails with `TypeError` whatever the key format, although a custom format string could accept other argument shapes.
- The conversions `Query` applies to a `time` term before chopping are not modelled: the model takes the term as given, and one that is neither `None` nor a range fails with `AttributeError('begin')`, as `time.begin` does (`IndexTime.ChopQueries`).
- DscacheTiles.NormaliseTileIndex: tile indices other than a pair of ints, or a bare int with `_y`, are not modelled. The exact text of Python's `TypeError` messages is indicative.
