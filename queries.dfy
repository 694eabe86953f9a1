/** The query operations the endpoints apply to a freshly fetched product list. */
module Queries {
  import opened Http
  import opened Text
  import opened Feed
  import Classifier

  /** `r` is `s` with some elements left out, the rest kept in order. */
  ghost predicate IsSubsequence<T>(r: seq<T>, s: seq<T>)
    decreases |s|
  {
    if r == [] then true
    else if s == [] then false
    else (r[0] == s[0] && IsSubsequence(r[1..], s[1..])) || IsSubsequence(r, s[1..])
  }

  /** A list comprehension `[x for x in s if keep(x)]`: the order-preserving subsequence
      holding every occurrence of a kept element and nothing else. */
  function Filter(s: seq<Product>, keep: Product -> bool): (r: seq<Product>)
    ensures IsSubsequence(r, s)
    ensures forall x :: multiset(r)[x] == if keep(x) then multiset(s)[x] else 0
  {
    if s == [] then []
    else
      var rest := Filter(s[1..], keep);
      assert s == [s[0]] + s[1..];
      if keep(s[0]) then
        assert ([s[0]] + rest)[1..] == rest;
        [s[0]] + rest
      else
        rest
  }

  lemma {:induction false} FilterKeepAll(s: seq<Product>, keep: Product -> bool)
    requires forall x :: x in s ==> keep(x)
    ensures Filter(s, keep) == s
  {
    if s != [] {
      FilterKeepAll(s[1..], keep);
    }
  }

  /** Filtering with two tests that agree on every element of `s` gives the same list. */
  lemma {:induction false} FilterCongruent(s: seq<Product>, f: Product -> bool, g: Product -> bool)
    requires forall x :: x in s ==> f(x) == g(x)
    ensures Filter(s, f) == Filter(s, g)
  {
    if s != [] {
      FilterCongruent(s[1..], f, g);
    }
  }

  /** The test of `search_products`: `term.lower()` in the lower-cased title or summary. */
  predicate Matches(p: Product, term: string)
  {
    Contains(Lower(p.title), Lower(term)) || Contains(Lower(p.summary), Lower(term))
  }

  /** `get_all_products`: the fetched list as it is. */
  function ListAll(products: seq<Product>): (r: seq<Product>)
    ensures r == products
  {
    products
  }

  /** `search_products`: the products matching `term`, in feed order; no match is an
      empty list, not an error. */
  function Search(products: seq<Product>, term: string): (r: seq<Product>)
    ensures IsSubsequence(r, products)
    ensures forall p :: multiset(r)[p] == if Matches(p, term) then multiset(products)[p] else 0
  {
    Filter(products, p => Matches(p, term))
  }

  /** An empty search term matches every product. */
  lemma SearchEmptyTerm(products: seq<Product>)
    ensures Search(products, "") == ListAll(products)
  {
    forall p | p in products ensures Matches(p, "") {
      ContainsEmpty(Lower(p.title), "");
    }
    FilterKeepAll(products, p => Matches(p, ""));
  }

  /** The search is insensitive to the case of the term. */
  lemma SearchIgnoresTermCase(products: seq<Product>, term: string)
    ensures Search(products, Lower(term)) == Search(products, term)
  {
    LowerIdempotent(term);
    FilterCongruent(products, p => Matches(p, Lower(term)), p => Matches(p, term));
  }

  /** `get_product_by_index`: the product at a zero-based index; 404 for any index
      outside the list, a negative one included. */
  function ProductAt(products: seq<Product>, index: int): (r: Result<Product>)
    ensures r.Ok? <==> 0 <= index < |products|
    ensures r.Ok? ==> r.value == products[index]
    ensures r.Err? ==> r.code == NotFound
  {
    if 0 <= index < |products| then Ok(products[index]) else Err(NotFound)
  }

  /** The categories present in `products`. */
  ghost function CategoriesOf(products: seq<Product>): set<string>
  {
    set i | 0 <= i < |products| :: products[i].category
  }

  /** Adds `c` to a strictly sorted list, keeping it strictly sorted. */
  function Insert(xs: seq<string>, c: string): (r: seq<string>)
    requires StrictlySorted(xs)
    ensures StrictlySorted(r)
    ensures forall y :: y in r <==> y in xs || y == c
  {
    if xs == [] then [c]
    else if c == xs[0] then xs
    else if Less(c, xs[0]) then
      assert forall j :: 0 <= j < |xs| ==> Less(c, xs[j]) by {
        forall j | 0 <= j < |xs| ensures Less(c, xs[j]) {
          if j > 0 { LessTransitive(c, xs[0], xs[j]); }
        }
      }
      [c] + xs
    else
      LessTotal(c, xs[0]);
      var rest := Insert(xs[1..], c);
      assert forall y :: y in rest ==> Less(xs[0], y);
      [xs[0]] + rest
  }

  /** `get_categories`: `sorted(set(p.category for p in products))`. */
  function Categories(products: seq<Product>): (r: seq<string>)
    ensures StrictlySorted(r)
    ensures forall c :: c in r <==> c in CategoriesOf(products)
  {
    if products == [] then []
    else
      var init := products[..|products| - 1];
      var last := products[|products| - 1];
      assert forall i :: 0 <= i < |init| ==> init[i] == products[i];
      assert CategoriesOf(products) == CategoriesOf(init) + {last.category};
      Insert(Categories(init), last.category)
  }

  /** The category list is the only strictly sorted list of exactly those categories. */
  lemma CategoriesUnique(products: seq<Product>, xs: seq<string>)
    requires StrictlySorted(xs)
    requires forall c :: c in xs <==> c in CategoriesOf(products)
    ensures Categories(products) == xs
  {
    StrictlySortedUnique(Categories(products), xs);
  }

  /** Decoded products only ever list labels of the classifier. */
  lemma CategoriesOfDecoded(tree: Entries)
    requires Decode(tree, Classifier.Categorize).Ok?
    ensures forall c :: c in Categories(Decode(tree, Classifier.Categorize).value) ==> c in Classifier.AllLabels
  {
    var ps := Decode(tree, Classifier.Categorize).value;
    DecodedAreClassified(tree, Classifier.Categorize);
    forall c | c in CategoriesOf(ps) ensures c in Classifier.AllLabels {
      var i :| 0 <= i < |ps| && ps[i].category == c;
      assert ps[i] in ps;
      Classifier.CategorizeTotal(ps[i].title);
    }
  }

  /** The test of `get_products_by_category`: equal names once both are lower-cased. */
  predicate InCategory(p: Product, name: string)
  {
    Lower(p.category) == Lower(name)
  }

  /** `get_products_by_category`: the products of the named category in feed order,
      compared without regard to case; 404 exactly when there are none. */
  function ByCategory(products: seq<Product>, name: string): (r: Result<seq<Product>>)
    ensures r.Err? <==> forall i :: 0 <= i < |products| ==> !InCategory(products[i], name)
    ensures r.Err? ==> r.code == NotFound
    ensures r.Ok? ==> IsSubsequence(r.value, products)
    ensures r.Ok? ==> forall p :: multiset(r.value)[p] == if InCategory(p, name) then multiset(products)[p] else 0
  {
    var hits := Filter(products, p => InCategory(p, name));
    if hits == [] then
      assert forall i :: 0 <= i < |products| ==> multiset(hits)[products[i]] == 0;
      Err(NotFound)
    else
      Ok(hits)
  }

  /** Categories "Otros", "Laptops", "Otros" are listed once each, in order. */
  lemma CategoriesDeduplicateAndSort(products: seq<Product>)
    requires |products| == 3
    requires products[0].category == "Otros" && products[1].category == "Laptops" && products[2].category == "Otros"
    ensures Categories(products) == ["Laptops", "Otros"]
  {
    assert Less("Laptops", "Otros");
    assert CategoriesOf(products) == {"Laptops", "Otros"} by {
      assert products[0].category in CategoriesOf(products);
      assert products[1].category in CategoriesOf(products);
    }
    CategoriesUnique(products, ["Laptops", "Otros"]);
  }

  /** The category filter ignores case: a "Laptops" product is found as "laptops". */
  lemma ByCategoryIgnoresCase(products: seq<Product>, i: nat)
    requires i < |products| && products[i].category == "Laptops"
    ensures ByCategory(products, "laptops").Ok?
    ensures products[i] in ByCategory(products, "laptops").value
  {
    assert Lower("Laptops") == Lower("laptops");
    assert InCategory(products[i], "laptops");
    var r := ByCategory(products, "laptops");
    assert multiset(r.value)[products[i]] == multiset(products)[products[i]] > 0;
  }
}
