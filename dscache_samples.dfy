/**
 * `dictionary_from_product_list` of `odc.dscache.tools`: draw up to
 * `samples_per_product` datasets from each product and train a compression
 * dictionary on them.
 *
 * `find(product, limit)` stands for `dc.find_datasets(product=..., limit=...)`,
 * `shuffle(n, dss)` for the `n`-th call of `random.shuffle` (any permutation),
 * and `train(samples, size)` for `train_dictionary`.
 */
module DscacheSamples {
  import opened PyBase

  const DefaultSamplesPerProduct := 10
  const DefaultDictSize := 8 * 1024

  /** `products` is either one product name or a list of them. */
  datatype Products = OneProduct(name: string) | ProductList(names: seq<string>)

  /** A single name is treated as a one-element list. */
  function ProductNames(products: Products): (names: seq<string>)
    ensures products.OneProduct? ==> names == [products.name]
    ensures products.ProductList? ==> names == products.names
  {
    match products
    case OneProduct(name) => [name]
    case ProductList(names) => names
  }

  /** `shuffle` only reorders: every call returns a permutation of its argument. */
  ghost predicate IsShuffle<D(!new)>(shuffle: (nat, seq<D>) -> seq<D>)
  {
    forall n: nat, s: seq<D> :: multiset(shuffle(n, s)) == multiset(s)
  }

  /** The catalogue limit: ten times the samples wanted per product. */
  function QueryLimit(samplesPerProduct: int): (limit: int)
    ensures samplesPerProduct >= 0 ==> limit >= samplesPerProduct
  {
    samplesPerProduct * 10
  }

  /**
   * The samples gathered from the first `|names|` products: each product's shuffled result list,
   * cut to `samplesPerProduct`. Each product contributes at most `samplesPerProduct` of them.
   */
  function Samples<D>(names: seq<string>, find: (string, int) -> seq<D>, shuffle: (nat, seq<D>) -> seq<D>,
                      samplesPerProduct: int): (samples: seq<D>)
    ensures samplesPerProduct >= 0 ==> |samples| <= |names| * samplesPerProduct
  {
    if names == [] then []
    else
      var n := |names| - 1;
      assert n * samplesPerProduct + samplesPerProduct == |names| * samplesPerProduct;
      Samples(names[..n], find, shuffle, samplesPerProduct) +
        SliceTo(shuffle(n, find(names[n], QueryLimit(samplesPerProduct))), samplesPerProduct)
  }

  lemma SamplesStep<D>(names: seq<string>, find: (string, int) -> seq<D>, shuffle: (nat, seq<D>) -> seq<D>,
                       samplesPerProduct: int, i: nat)
    requires i < |names|
    ensures Samples(names[..i + 1], find, shuffle, samplesPerProduct) ==
      Samples(names[..i], find, shuffle, samplesPerProduct) +
      SliceTo(shuffle(i, find(names[i], QueryLimit(samplesPerProduct))), samplesPerProduct)
  {
    assert names[..i + 1][..i] == names[..i];
  }

  /** `dictionary_from_product_list(dc, products, samples_per_product, dict_sz)`; `queries` lists the `find_datasets` calls. */
  method DictionaryFromProductList<D, R>(find: (string, int) -> seq<D>, shuffle: (nat, seq<D>) -> seq<D>,
                                         train: (seq<D>, int) -> R, products: Products,
                                         samplesPerProduct: int := DefaultSamplesPerProduct,
                                         dictSize: int := DefaultDictSize)
    returns (dictionary: Option<R>, samples: seq<D>, queries: seq<(string, int)>)
    ensures var names := ProductNames(products);
      |queries| == |names| &&
      forall i :: 0 <= i < |names| ==> queries[i] == (names[i], 10 * samplesPerProduct)
    ensures samples == Samples(ProductNames(products), find, shuffle, samplesPerProduct)
    ensures dictionary == None <==> samples == []
    ensures dictionary.Some? ==> dictionary.value == train(samples, dictSize)
  {
    var names := ProductNames(products);
    var limit := samplesPerProduct * 10;
    samples, queries := [], [];
    for i := 0 to |names|
      invariant samples == Samples(names[..i], find, shuffle, samplesPerProduct)
      invariant |queries| == i
      invariant forall j :: 0 <= j < i ==> queries[j] == (names[j], 10 * samplesPerProduct)
    {
      var dss := find(names[i], limit);
      queries := queries + [(names[i], limit)];
      dss := shuffle(i, dss);
      SamplesStep(names, find, shuffle, samplesPerProduct, i);
      samples := samples + SliceTo(dss, samplesPerProduct);
    }
    assert names[..|names|] == names;
    if |samples| == 0 {
      return None, samples, queries;
    }
    dictionary := Some(train(samples, dictSize));
  }

  lemma PrefixSubMultiset<D>(s: seq<D>, t: seq<D>)
    requires |t| <= |s| && t == s[..|t|]
    ensures multiset(t) <= multiset(s)
  {
    assert s == t + s[|t|..];
  }

  /** The results of the catalogue queries, in product order. */
  function Found<D>(names: seq<string>, find: (string, int) -> seq<D>, limit: int): seq<D>
  {
    if names == [] then [] else Found(names[..|names| - 1], find, limit) + find(names[|names| - 1], limit)
  }

  /** Every sample is a dataset some query returned, and none is drawn more often than it was returned. */
  lemma {:induction false} SamplesDrawnFromQueries<D(!new)>(names: seq<string>, find: (string, int) -> seq<D>,
                                                      shuffle: (nat, seq<D>) -> seq<D>, samplesPerProduct: int)
    requires IsShuffle(shuffle)
    ensures multiset(Samples(names, find, shuffle, samplesPerProduct)) <= multiset(Found(names, find, QueryLimit(samplesPerProduct)))
    decreases |names|
  {
    if names != [] {
      var n := |names| - 1;
      SamplesDrawnFromQueries(names[..n], find, shuffle, samplesPerProduct);
      var found := find(names[n], QueryLimit(samplesPerProduct));
      var shuffled := shuffle(n, found);
      var taken := SliceTo(shuffled, samplesPerProduct);
      assert Samples(names, find, shuffle, samplesPerProduct) == Samples(names[..n], find, shuffle, samplesPerProduct) + taken;
      assert Found(names, find, QueryLimit(samplesPerProduct)) == Found(names[..n], find, QueryLimit(samplesPerProduct)) + found;
      PrefixSubMultiset(shuffled, taken);
      assert multiset(shuffled) == multiset(found);
    }
  }

  /** No dictionary is trained exactly when every product's sample is empty. */
  lemma {:induction false} SamplesEmpty<D>(names: seq<string>, find: (string, int) -> seq<D>,
                                           shuffle: (nat, seq<D>) -> seq<D>, samplesPerProduct: int)
    ensures Samples(names, find, shuffle, samplesPerProduct) == [] <==>
      forall i :: 0 <= i < |names| ==> SliceTo(shuffle(i, find(names[i], QueryLimit(samplesPerProduct))), samplesPerProduct) == []
    decreases |names|
  {
    if names != [] {
      var n := |names| - 1;
      var init := names[..n];
      SamplesEmpty(init, find, shuffle, samplesPerProduct);
      var taken := SliceTo(shuffle(n, find(names[n], QueryLimit(samplesPerProduct))), samplesPerProduct);
      assert Samples(names, find, shuffle, samplesPerProduct) == Samples(init, find, shuffle, samplesPerProduct) + taken;
      assert forall i :: 0 <= i < n ==> init[i] == names[i];
    }
  }
}
