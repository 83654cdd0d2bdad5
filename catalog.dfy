/** The catalog page: category filter, case-insensitive search, the four sort orders and
    the page heading (src/pages/Products.tsx). */
module ProductsPage {
  import opened Wrappers
  import opened Types
  import opened Seqs
  import opened Text

  datatype SortOption = Popular | PriceAsc | PriceDesc | Rating

  /** A category entry of the catalog data: its id and display name. */
  datatype CategoryInfo = CategoryInfo(id: string, name: string)

  /** A URL parameter or selection that is set and not empty. */
  predicate Truthy(s: Option<string>)
  {
    s.Some? && s.value != ""
  }

  predicate InCategory(selectedCategory: Option<string>, p: Product)
  {
    !Truthy(selectedCategory) || CategoryId(p.category) == selectedCategory.value
  }

  /** The lower-cased query occurs in the lower-cased name, description or subcategory. */
  predicate MatchesQuery(searchQuery: Option<string>, p: Product)
  {
    !Truthy(searchQuery)
    || Includes(Lower(p.name), Lower(searchQuery.value))
    || Includes(Lower(p.description), Lower(searchQuery.value))
    || Includes(Lower(p.subcategory), Lower(searchQuery.value))
  }

  /** A product is listed when it passes both filters. */
  predicate Listed(selectedCategory: Option<string>, searchQuery: Option<string>, p: Product)
  {
    InCategory(selectedCategory, p) && MatchesQuery(searchQuery, p)
  }

  /** The comparator of each sort option, as the key it sorts ascending by. */
  function SortKey(order: SortOption, p: Product): real
  {
    match order
    case PriceAsc => p.price
    case PriceDesc => -p.price
    case Rating => -p.rating
    case Popular => -(p.reviews as real)
  }

  ghost predicate SortedBy(s: seq<Product>, order: SortOption)
  {
    forall i, j :: 0 <= i < j < |s| ==> SortKey(order, s[i]) <= SortKey(order, s[j])
  }

  /** Exchanges two neighbouring elements. */
  method SwapDown(a: array<Product>, j: int)
    requires 0 < j < a.Length
    modifies a
    ensures a[j - 1] == old(a[j]) && a[j] == old(a[j - 1])
    ensures forall m :: 0 <= m < a.Length && m != j - 1 && m != j ==> a[m] == old(a[m])
    ensures multiset(a[..]) == multiset(old(a[..]))
  {
    a[j - 1], a[j] := a[j], a[j - 1];
  }

  /** `result.sort(compare)` on the array of products: sorted by the option's key, and a
      permutation of what it held before. */
  method SortInPlace(a: array<Product>, order: SortOption)
    modifies a
    ensures SortedBy(a[..], order)
    ensures multiset(a[..]) == multiset(old(a[..]))
  {
    var i := 0;
    while i < a.Length
      invariant 0 <= i <= a.Length
      invariant forall k, l :: 0 <= k < l < i ==> SortKey(order, a[k]) <= SortKey(order, a[l])
      invariant multiset(a[..]) == multiset(old(a[..]))
    {
      var j := i;
      while j > 0 && SortKey(order, a[j - 1]) > SortKey(order, a[j])
        invariant 0 <= j <= i
        invariant forall k, l :: 0 <= k < l <= i && k != j && l != j ==> SortKey(order, a[k]) <= SortKey(order, a[l])
        invariant forall k, l :: 0 <= k < j < l <= i ==> SortKey(order, a[k]) <= SortKey(order, a[l])
        invariant forall l :: j < l <= i ==> SortKey(order, a[j]) <= SortKey(order, a[l])
        invariant multiset(a[..]) == multiset(old(a[..]))
      {
        SwapDown(a, j);
        j := j - 1;
      }
      i := i + 1;
    }
  }

  /** What being sorted by each option's key says about prices, ratings and reviews. */
  lemma SortedMeaning(s: seq<Product>, order: SortOption)
    requires SortedBy(s, order)
    ensures order == PriceAsc ==> forall i, j :: 0 <= i < j < |s| ==> s[i].price <= s[j].price
    ensures order == PriceDesc ==> forall i, j :: 0 <= i < j < |s| ==> s[i].price >= s[j].price
    ensures order == Rating ==> forall i, j :: 0 <= i < j < |s| ==> s[i].rating >= s[j].rating
    ensures order == Popular ==> forall i, j :: 0 <= i < j < |s| ==> s[i].reviews >= s[j].reviews
  {
    forall i, j | 0 <= i < j < |s|
      ensures SortKey(order, s[i]) <= SortKey(order, s[j])
    {
    }
  }

  /** Sequences with the same multiset have the same elements. */
  lemma SameElements<T>(s: seq<T>, t: seq<T>)
    requires multiset(s) == multiset(t)
    ensures forall x :: x in s <==> x in t
  {
    forall x
      ensures x in s <==> x in t
    {
      assert x in s <==> x in multiset(s);
      assert x in t <==> x in multiset(t);
    }
  }

  function ByCategory(selectedCategory: Option<string>): Product -> bool
  {
    p => InCategory(selectedCategory, p)
  }

  function ByQuery(searchQuery: Option<string>): Product -> bool
  {
    p => MatchesQuery(searchQuery, p)
  }

  function ByBoth(selectedCategory: Option<string>, searchQuery: Option<string>): Product -> bool
  {
    p => Listed(selectedCategory, searchQuery, p)
  }

  /** The two filter steps of `filteredProducts`, each applied only when its parameter is
      set: together they keep exactly the listed products, in catalog order. */
  method ApplyFilters(products: seq<Product>, selectedCategory: Option<string>, searchQuery: Option<string>)
    returns (result: seq<Product>)
    ensures result == Filter(ByBoth(selectedCategory, searchQuery), products)
  {
    result := products;
    if Truthy(selectedCategory) {
      result := Filter(ByCategory(selectedCategory), result);
    } else {
      FilterAll(ByCategory(selectedCategory), result);
    }
    if Truthy(searchQuery) {
      result := Filter(ByQuery(searchQuery), result);
    } else {
      FilterAll(ByQuery(searchQuery), result);
    }
    FilterFilter(ByCategory(selectedCategory), ByQuery(searchQuery), ByBoth(selectedCategory, searchQuery), products);
  }

  /** `filteredProducts`: exactly the listed products, each as often as in the catalog,
      ordered by the selected option; the catalog itself is left as it is. */
  method FilteredProducts(products: seq<Product>, selectedCategory: Option<string>,
                          searchQuery: Option<string>, sortBy: SortOption)
    returns (result: seq<Product>)
    ensures multiset(result) == multiset(Filter(ByBoth(selectedCategory, searchQuery), products))
    ensures forall p :: p in result <==> p in products && Listed(selectedCategory, searchQuery, p)
    ensures sortBy == PriceAsc ==> forall i, j :: 0 <= i < j < |result| ==> result[i].price <= result[j].price
    ensures sortBy == PriceDesc ==> forall i, j :: 0 <= i < j < |result| ==> result[i].price >= result[j].price
    ensures sortBy == Rating ==> forall i, j :: 0 <= i < j < |result| ==> result[i].rating >= result[j].rating
    ensures sortBy == Popular ==> forall i, j :: 0 <= i < j < |result| ==> result[i].reviews >= result[j].reviews
  {
    var listed := ApplyFilters(products, selectedCategory, searchQuery);
    var a := new Product[|listed|](k requires 0 <= k < |listed| => listed[k]);
    assert a[..] == listed;
    SortInPlace(a, sortBy);
    SortedMeaning(a[..], sortBy);
    SameElements(a[..], listed);
    result := a[..];
  }

  /** `getCategoryLabel`: the selected category's name (or 'Produits' when it has none),
      else the search text, else the default title. */
  function CategoryLabel(categories: seq<CategoryInfo>, selectedCategory: Option<string>,
                         searchQuery: Option<string>): (r: string)
    ensures Truthy(selectedCategory) ==>
      r == "Produits" || exists c :: c in categories && c.id == selectedCategory.value && c.name == r
    ensures Truthy(selectedCategory) && (forall c :: c in categories ==> c.id != selectedCategory.value) ==>
      r == "Produits"
    ensures !Truthy(selectedCategory) && Truthy(searchQuery) ==> r == "Résultats pour \"" + searchQuery.value + "\""
    ensures !Truthy(selectedCategory) && !Truthy(searchQuery) ==> r == "Tous nos Produits"
  {
    if Truthy(selectedCategory) then
      var cat := FindFirst((c: CategoryInfo) => c.id == selectedCategory.value, categories);
      if cat.Some? && cat.value.name != "" then cat.value.name else "Produits"
    else if Truthy(searchQuery) then "Résultats pour \"" + searchQuery.value + "\""
    else "Tous nos Produits"
  }

  /** The heading is decided by the first category entry with the selected id alone: its
      name when it has one, 'Produits' when its name is empty, whatever later entries say. */
  lemma CategoryLabelNamesFirstEntry(categories: seq<CategoryInfo>, selectedCategory: Option<string>,
                                     searchQuery: Option<string>, i: nat)
    requires Truthy(selectedCategory) && i < |categories|
    requires categories[i].id == selectedCategory.value
    requires forall j :: 0 <= j < i ==> categories[j].id != selectedCategory.value
    ensures CategoryLabel(categories, selectedCategory, searchQuery)
            == if categories[i].name != "" then categories[i].name else "Produits"
  {
    var f := (c: CategoryInfo) => c.id == selectedCategory.value;
    var cat := FindFirst(f, categories);
    assert f(categories[i]);
    var k :| 0 <= k < |categories| && categories[k] == cat.value && forall j :: 0 <= j < k ==> !f(categories[j]);
    assert k == i by {
      assert f(categories[k]);
      assert forall j :: 0 <= j < i ==> !f(categories[j]);
    }
  }
}
