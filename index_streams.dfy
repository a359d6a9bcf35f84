/**
 * The document streams of `odc.index`: YAML documents are parsed into metadata,
 * and metadata is converted into datasets, one output per input, in order.
 *
 * The YAML parser and `Doc2Dataset` are parameters. `parse` returns `Failure`
 * where `parse_yaml` raises, and `Success(None)` for a document that parses
 * to YAML null. `doc2ds` returns the `(dataset, error)` pair `Doc2Dataset` returns.
 */
module IndexStreams {
  import opened PyBase

  /** The metadata `parse_doc_stream` puts in place of a document: `None` when parsing raised or gave YAML null. */
  function ParsedOrNone<M>(p: Result<Option<M>, string>): Option<M>
  {
    if p.Success? then p.value else None
  }

  /** The `(uri, doc, error)` arguments of the parse-error callback, one per document that fails to parse, in order. */
  function ParseFailures<D, M>(docs: seq<(string, D)>, parse: D -> Result<Option<M>, string>): seq<(string, D, string)>
  {
    if docs == [] then []
    else
      var (uri, doc) := docs[|docs| - 1];
      ParseFailures(docs[..|docs| - 1], parse) +
        (if parse(doc).Failure? then [(uri, doc, parse(doc).error)] else [])
  }

  /**
   * `parse_doc_stream(doc_stream, on_error)`: each `(uri, doc)` becomes `(uri, metadata)`.
   * `hasOnError` says whether `on_error` was given; `calls` lists the calls made to it.
   */
  method ParseDocStream<D, M>(docs: seq<(string, D)>, parse: D -> Result<Option<M>, string>, hasOnError: bool)
    returns (out: seq<(string, Option<M>)>, calls: seq<(string, D, string)>)
    ensures |out| == |docs|
    ensures forall i :: 0 <= i < |docs| ==>
      out[i].0 == docs[i].0 && out[i].1 == ParsedOrNone(parse(docs[i].1))
    ensures calls == if hasOnError then ParseFailures(docs, parse) else []
  {
    out, calls := [], [];
    for i := 0 to |docs|
      invariant |out| == i
      invariant forall j :: 0 <= j < i ==> out[j].0 == docs[j].0 && out[j].1 == ParsedOrNone(parse(docs[j].1))
      invariant calls == if hasOnError then ParseFailures(docs[..i], parse) else []
    {
      var (uri, doc) := docs[i];
      var metadata: Option<M>;
      var parsed := parse(doc);
      if parsed.Failure? {
        if hasOnError {
          calls := calls + [(uri, doc, parsed.error)];
        }
        metadata := None;
      } else {
        metadata := parsed.value;
      }
      assert docs[..i + 1][..i] == docs[..i];
      out := out + [(uri, metadata)];
    }
    assert docs[..|docs|] == docs;
  }

  /** The positions of the documents that fail to parse. */
  ghost function FailedAt<D, M>(docs: seq<(string, D)>, parse: D -> Result<Option<M>, string>): set<int>
  {
    set i | 0 <= i < |docs| && parse(docs[i].1).Failure?
  }

  /**
   * The callback sees exactly the documents that fail to parse: every recorded call
   * is a failing input with its error, every failing input is recorded, and there are
   * as many calls as failing inputs, so each failing input is recorded once.
   */
  lemma {:induction false} ParseFailuresExact<D, M>(docs: seq<(string, D)>, parse: D -> Result<Option<M>, string>)
    ensures forall c :: c in ParseFailures(docs, parse) ==>
      (c.0, c.1) in docs && parse(c.1) == Failure(c.2)
    ensures forall i :: 0 <= i < |docs| && parse(docs[i].1).Failure? ==>
      (docs[i].0, docs[i].1, parse(docs[i].1).error) in ParseFailures(docs, parse)
    ensures |ParseFailures(docs, parse)| == |FailedAt(docs, parse)| <= |docs|
    ensures ParseFailures(docs, parse) == [] <==> forall i :: 0 <= i < |docs| ==> parse(docs[i].1).Success?
    decreases |docs|
  {
    ParseFailuresCount(docs, parse);
    IndexSetSize(FailedAt(docs, parse), |docs|);
    if docs != [] {
      var init := docs[..|docs| - 1];
      ParseFailuresExact(init, parse);
      var last := docs[|docs| - 1];
      assert ParseFailures(docs, parse) == ParseFailures(init, parse) +
        (if parse(last.1).Failure? then [(last.0, last.1, parse(last.1).error)] else []);
      assert forall i :: 0 <= i < |init| ==> docs[i] == init[i];
      assert forall p :: p in init ==> p in docs;
      assert last in docs;
    }
  }

  lemma {:induction false} ParseFailuresCount<D, M>(docs: seq<(string, D)>, parse: D -> Result<Option<M>, string>)
    ensures |ParseFailures(docs, parse)| == |FailedAt(docs, parse)|
    decreases |docs|
  {
    if docs == [] {
      assert FailedAt(docs, parse) == {};
    } else {
      var init := docs[..|docs| - 1];
      var n := |docs| - 1;
      ParseFailuresCount(init, parse);
      assert forall i :: 0 <= i < n ==> docs[i] == init[i];
      if parse(docs[n].1).Failure? {
        assert FailedAt(docs, parse) == FailedAt(init, parse) + {n};
      } else {
        assert FailedAt(docs, parse) == FailedAt(init, parse);
      }
    }
  }

  /** A set of positions below `n` has at most `n` elements. */
  lemma {:induction false} IndexSetSize(s: set<int>, n: nat)
    requires forall i :: i in s ==> 0 <= i < n
    ensures |s| <= n
    decreases n
  {
    if n == 0 {
      assert s == {} by { forall i | i in s ensures false { } }
    } else {
      var rest := s - {n - 1};
      IndexSetSize(rest, n - 1);
      assert s <= rest + {n - 1};
    }
  }

  /** A conversion outcome in the shape the source yields: `(dataset, None)` or `(None, message)`. */
  type Outcome<DS> = (Option<DS>, Option<string>)

  /** The arguments `doc2ds` is called with: the metadata and uri of every input whose metadata is not `None`. */
  function Conversions<M>(stream: seq<(string, Option<M>)>): seq<(M, string)>
  {
    if stream == [] then []
    else
      var (uri, metadata) := stream[|stream| - 1];
      Conversions(stream[..|stream| - 1]) + (if metadata.Some? then [(metadata.value, uri)] else [])
  }

  /** The positions of the inputs whose metadata is not `None`. */
  ghost function WithMetadataAt<M>(stream: seq<(string, Option<M>)>): set<int>
  {
    set i | 0 <= i < |stream| && stream[i].1.Some?
  }

  /**
   * `doc2ds` is called for every input with metadata and never for an input whose metadata is `None`;
   * there are as many calls as inputs with metadata, so each is converted once. The calls come in
   * input order, as `Conversions` lists them.
   */
  lemma {:induction false} ConversionsExact<M>(stream: seq<(string, Option<M>)>)
    ensures forall c :: c in Conversions(stream) ==> (c.1, Some(c.0)) in stream
    ensures forall i :: 0 <= i < |stream| && stream[i].1.Some? ==>
      (stream[i].1.value, stream[i].0) in Conversions(stream)
    ensures Conversions(stream) == [] <==> forall i :: 0 <= i < |stream| ==> stream[i].1 == None
    ensures |Conversions(stream)| == |WithMetadataAt(stream)|
    decreases |stream|
  {
    ConversionsCount(stream);
    if stream != [] {
      var init := stream[..|stream| - 1];
      ConversionsExact(init);
      assert forall i :: 0 <= i < |init| ==> stream[i] == init[i];
      assert forall p :: p in init ==> p in stream;
      var last := stream[|stream| - 1];
      assert last in stream;
      assert last.1.Some? ==> (last.0, Some(last.1.value)) == last;
    }
  }

  lemma {:induction false} ConversionsCount<M>(stream: seq<(string, Option<M>)>)
    ensures |Conversions(stream)| == |WithMetadataAt(stream)|
    decreases |stream|
  {
    if stream == [] {
      assert WithMetadataAt(stream) == {};
    } else {
      var init := stream[..|stream| - 1];
      var n := |stream| - 1;
      ConversionsCount(init);
      assert forall i :: 0 <= i < n ==> stream[i] == init[i];
      if stream[n].1.Some? {
        assert WithMetadataAt(stream) == WithMetadataAt(init) + {n};
      } else {
        assert WithMetadataAt(stream) == WithMetadataAt(init);
      }
    }
  }

  /** `from_metadata_stream(metadata_stream, index)`: one outcome per input; `calls` lists the calls made to `doc2ds`. */
  method FromMetadataStream<M, DS>(stream: seq<(string, Option<M>)>, doc2ds: (M, string) -> (Option<DS>, string))
    returns (out: seq<Outcome<DS>>, calls: seq<(M, string)>)
    ensures |out| == |stream|
    ensures forall i :: 0 <= i < |stream| ==> (out[i].0 == None <==> out[i].1 != None)
    ensures forall i :: 0 <= i < |stream| && stream[i].1 == None ==>
      out[i] == (None, Some("Error: empty doc " + stream[i].0))
    ensures forall i :: 0 <= i < |stream| && stream[i].1.Some? ==>
      var (ds, err) := doc2ds(stream[i].1.value, stream[i].0);
      out[i] == if ds.Some? then (ds, None) else (None, Some("Error: " + stream[i].0 + ", " + err))
    ensures calls == Conversions(stream)
  {
    out, calls := [], [];
    for i := 0 to |stream|
      invariant |out| == i
      invariant forall j :: 0 <= j < i ==> (out[j].0 == None <==> out[j].1 != None)
      invariant forall j :: 0 <= j < i && stream[j].1 == None ==>
        out[j] == (None, Some("Error: empty doc " + stream[j].0))
      invariant forall j :: 0 <= j < i && stream[j].1.Some? ==>
        var (ds, err) := doc2ds(stream[j].1.value, stream[j].0);
        out[j] == if ds.Some? then (ds, None) else (None, Some("Error: " + stream[j].0 + ", " + err))
      invariant calls == Conversions(stream[..i])
    {
      var (uri, metadata) := stream[i];
      assert stream[..i + 1][..i] == stream[..i];
      if metadata == None {
        out := out + [(None, Some("Error: empty doc " + uri))];
      } else {
        var (ds, err) := doc2ds(metadata.value, uri);
        calls := calls + [(metadata.value, uri)];
        if ds.Some? {
          out := out + [(ds, None)];
        } else {
          out := out + [(None, Some("Error: " + uri + ", " + err))];
        }
      }
    }
    assert stream[..|stream|] == stream;
  }

  /**
   * `from_yaml_doc_stream(doc_stream, index)`: parse, then convert. A document that fails to parse
   * (or parses to null) becomes an "empty doc" error; the others are what conversion makes of them.
   */
  method FromYamlDocStream<D, M, DS>(docs: seq<(string, D)>, parse: D -> Result<Option<M>, string>,
                                     doc2ds: (M, string) -> (Option<DS>, string))
    returns (out: seq<Outcome<DS>>)
    ensures |out| == |docs|
    ensures forall i :: 0 <= i < |docs| ==> (out[i].0 == None <==> out[i].1 != None)
    ensures forall i :: 0 <= i < |docs| && ParsedOrNone(parse(docs[i].1)) == None ==>
      out[i] == (None, Some("Error: empty doc " + docs[i].0))
    ensures forall i :: 0 <= i < |docs| && ParsedOrNone(parse(docs[i].1)).Some? ==>
      var (ds, err) := doc2ds(ParsedOrNone(parse(docs[i].1)).value, docs[i].0);
      out[i] == if ds.Some? then (ds, None) else (None, Some("Error: " + docs[i].0 + ", " + err))
  {
    var metadataStream, parseErrors := ParseDocStream(docs, parse, true);
    var conversions;
    out, conversions := FromMetadataStream(metadataStream, doc2ds);
  }
}
