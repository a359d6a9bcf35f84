/**
 * The database glue of `odc.dscache.tools`: the connection settings `db_connect`
 * derives from a datacube configuration, the `raw2ds` conversion `mk_raw2ds`
 * returns, and the fetch loop of `raw_dataset_stream`.
 */
module DscacheDb {
  import opened PyBase
  import PyText

  /** The `cfg` argument of `db_connect`: `None`, a configuration name, or a loaded configuration. */
  datatype ConfigArg = DefaultConfig | NamedConfig(name: string) | LoadedConfig(entries: map<string, string>)

  /** The configuration `db_connect` reads; `findConfig(env)` stands for `LocalConfig.find(env=env)`. */
  function ResolveConfig(findConfig: Option<string> -> map<string, string>, cfg: ConfigArg): (entries: map<string, string>)
    ensures cfg.LoadedConfig? ==> entries == cfg.entries
    ensures cfg.DefaultConfig? ==> entries == findConfig(None)
    ensures cfg.NamedConfig? ==> entries == findConfig(Some(cfg.name))
  {
    match cfg
    case DefaultConfig => findConfig(None)
    case NamedConfig(name) => findConfig(Some(name))
    case LoadedConfig(entries) => entries
  }

  /** Connection keyword to configuration entry. */
  const CfgRemap: map<string, string> := map[
    "dbname" := "db_database",
    "user" := "db_username",
    "password" := "db_password",
    "host" := "db_hostname",
    "port" := "db_port"]

  /** The keyword arguments `db_connect` passes to `psycopg2.connect`. */
  function PgConfig(findConfig: Option<string> -> map<string, string>, cfg: ConfigArg): (pg: map<string, Option<string>>)
    ensures pg.Keys == {"dbname", "user", "password", "host", "port"}
    ensures var entries := ResolveConfig(findConfig, cfg);
      pg["dbname"] == Get(entries, "db_database") &&
      pg["user"] == Get(entries, "db_username") &&
      pg["password"] == Get(entries, "db_password") &&
      pg["host"] == Get(entries, "db_hostname") &&
      pg["port"] == Get(entries, "db_port")
  {
    var entries := ResolveConfig(findConfig, cfg);
    map k | k in CfgRemap :: Get(entries, CfgRemap[k])
  }

  /** A setting is `None` exactly when its configuration entry is missing. */
  lemma PgConfigMissing(findConfig: Option<string> -> map<string, string>, cfg: ConfigArg, key: string)
    requires key in CfgRemap
    ensures var pg, entries := PgConfig(findConfig, cfg), ResolveConfig(findConfig, cfg);
      key in pg && (pg[key] == None <==> CfgRemap[key] !in entries)
  {
  }

  /** A dataset as `raw_dataset_stream` yields it. */
  datatype RawDataset<M> = RawDataset(product: string, uris: seq<string>, metadata: M)

  /** `datacube.model.Dataset(product, metadata, uris=uris)`. */
  datatype Dataset<P, M> = Dataset(product: P, metadata: M, uris: seq<string>)

  /** `mk_raw2ds(products)(ds)`: look the product up by name, or raise `ValueError`. */
  function Raw2Ds<P, M>(products: map<string, P>, ds: RawDataset<M>): (r: Result<Dataset<P, M>, Error>)
    ensures r.Failure? <==> ds.product !in products
    ensures r.Failure? ==> r.error == ValueError("Missing product " + ds.product)
    ensures r.Success? ==> r.value == Dataset(products[ds.product], ds.metadata, ds.uris)
  {
    match Get(products, ds.product)
    case None => Failure(ValueError("Missing product " + ds.product))
    case Some(product) => Success(Dataset(product, ds.metadata, ds.uris))
  }

  /** The `limit` argument of `raw_dataset_stream`: `None`, an `int`, or a value of any other type. */
  datatype LimitArg = NoLimit | IntLimit(n: int) | NotAnInt

  /** The `LIMIT` clause of the query: present exactly when `limit` is truthy (a non-zero `int`). */
  function LimitClause(limit: LimitArg): (c: string)
    ensures c != "" <==> limit.IntLimit? && limit.n != 0
    ensures c != "" ==> |c| > 6 && c[..6] == "LIMIT "
  {
    if limit.IntLimit? && limit.n != 0 then "LIMIT " + PyText.FormatInt(limit.n, 0) else ""
  }

  /** The number after `LIMIT ` reads back as `limit`. */
  lemma LimitClauseMeaning(limit: LimitArg)
    ensures LimitClause(limit) != "" ==>
      var c := LimitClause(limit);
      PyText.IsIntText(c[6..]) && PyText.ParseInt(c[6..]) == limit.n
  {
    if limit.IntLimit? && limit.n != 0 {
      PyText.FormatIntRoundTrip(limit.n, 0);
      var c := LimitClause(limit);
      assert c[6..] == PyText.FormatInt(limit.n, 0);
    }
  }

  /** What `raw_dataset_stream` produces: the `LIMIT` clause of its query and the datasets it yields. */
  datatype Stream<D> = Stream(limitClause: string, datasets: seq<D>)

  /** The rows of the replies before the first empty one, in order. */
  function RowsBeforeEmpty<D>(chunks: seq<seq<D>>): seq<D>
  {
    if chunks == [] || chunks[0] == [] then [] else chunks[0] + RowsBeforeEmpty(chunks[1..])
  }

  /**
   * `raw_dataset_stream(product, db, read_chunk, limit)`. `chunks` are the successive replies
   * of `cur.fetchmany(read_chunk)`; once they run out the cursor replies with an empty chunk.
   */
  method RawDatasetStream<D>(limit: LimitArg, chunks: seq<seq<D>>) returns (r: Result<Stream<D>, Error>)
    ensures limit.NotAnInt? ==> r == Failure(AssertionError)
    ensures !limit.NotAnInt? ==> r == Success(Stream(LimitClause(limit), RowsBeforeEmpty(chunks)))
  {
    if limit.NotAnInt? {
      return Failure(AssertionError);
    }
    var clause := LimitClause(limit);
    var out: seq<D> := [];
    var i := 0;
    while true
      invariant 0 <= i <= |chunks|
      invariant out + RowsBeforeEmpty(chunks[i..]) == RowsBeforeEmpty(chunks)
      decreases |chunks| - i
    {
      var chunk := if i < |chunks| then chunks[i] else [];
      if chunk == [] {
        assert RowsBeforeEmpty(chunks[i..]) == [];
        assert out + [] == out;
        break;
      }
      assert chunks[i..][1..] == chunks[i + 1..];
      out := out + chunk;
      i := i + 1;
    }
    return Success(Stream(clause, out));
  }

  /** Nothing after the first empty reply is read. */
  lemma {:induction false} RowsBeforeEmptyStops<D>(before: seq<seq<D>>, after: seq<seq<D>>)
    requires forall j :: 0 <= j < |before| ==> before[j] != []
    ensures RowsBeforeEmpty(before + [[]] + after) == Flatten(before)
    decreases |before|
  {
    if before == [] {
      assert before + [[]] + after == [[]] + after;
    } else {
      RowsBeforeEmptyStops(before[1..], after);
      assert (before + [[]] + after)[1..] == before[1..] + [[]] + after;
      FlattenAppend([before[0]], before[1..]);
      FlattenSingle(before[0]);
      assert [before[0]] + before[1..] == before;
    }
  }

  /** The replies of a cursor over `rows` read `size` rows at a time (`size > 0`), ending with an empty reply. */
  function CursorReplies<D>(rows: seq<D>, size: int): (replies: seq<seq<D>>)
    requires size > 0
    ensures |replies| >= 1 && replies[|replies| - 1] == []
    decreases |rows|
  {
    if rows == [] then [[]]
    else if |rows| <= size then [rows, []]
    else [rows[..size]] + CursorReplies(rows[size..], size)
  }

  /** Every reply before the final empty one holds between one and `size` rows. */
  lemma {:induction false} CursorRepliesSizes<D>(rows: seq<D>, size: int)
    requires size > 0
    ensures forall i :: 0 <= i < |CursorReplies(rows, size)| - 1 ==> 0 < |CursorReplies(rows, size)[i]| <= size
    decreases |rows|
  {
    if |rows| > size {
      CursorRepliesSizes(rows[size..], size);
      var rest := CursorReplies(rows[size..], size);
      var replies := CursorReplies(rows, size);
      assert replies == [rows[..size]] + rest;
      forall i | 0 <= i < |replies| - 1 ensures 0 < |replies[i]| <= size {
        if i == 0 {
          assert replies[0] == rows[..size];
        } else {
          assert replies[i] == rest[i - 1];
          assert 0 <= i - 1 < |rest| - 1;
          assert 0 < |rest[i - 1]| <= size;
        }
      }
    }
  }

  /** Reading a cursor chunk by chunk yields every row of the query, in order. */
  lemma {:induction false} StreamYieldsAllRows<D>(rows: seq<D>, size: int)
    requires size > 0
    ensures RowsBeforeEmpty(CursorReplies(rows, size)) == rows
    decreases |rows|
  {
    var replies := CursorReplies(rows, size);
    if rows != [] {
      if |rows| <= size {
        assert replies[1..] == [[]];
        assert RowsBeforeEmpty(replies[1..]) == [];
        assert RowsBeforeEmpty(replies) == rows + [];
      } else {
        var rest := CursorReplies(rows[size..], size);
        StreamYieldsAllRows(rows[size..], size);
        assert replies == [rows[..size]] + rest;
        assert replies[1..] == rest;
        assert RowsBeforeEmpty(replies) == rows[..size] + rows[size..];
        assert rows[..size] + rows[size..] == rows;
      }
    }
  }
}
