/** The home page's featured selection: the first four products that are discounted or
    highly rated (src/components/home/FeaturedProducts.tsx). */
module FeaturedProducts {
  import opened Types
  import opened Seqs

  /** `p.originalPrice || p.rating >= 4.7`. */
  predicate Qualifies(p: Product)
  {
    HasOriginalPrice(p) || p.rating >= 4.7
  }

  /** `products.filter(qualifies).slice(0, 4)`. */
  function Featured(products: seq<Product>): (r: seq<Product>)
    ensures |r| <= 4
    ensures forall p :: p in r ==> p in products && Qualifies(p)
    ensures |r| <= |Filter(Qualifies, products)| && r == Filter(Qualifies, products)[..|r|]
    ensures |r| < 4 ==> r == Filter(Qualifies, products)
    ensures |Filter(Qualifies, products)| >= 4 ==> |r| == 4
  {
    var q := Filter(Qualifies, products);
    var r := Take(q, 4);
    assert forall p :: p in r ==> p in q;
    r
  }

  /** An independent reading of the selection: walk the catalog in order and take each
      qualifying product until `n` are taken. */
  function FirstQualifying(products: seq<Product>, n: nat): (r: seq<Product>)
    ensures |r| <= n
    ensures forall p :: p in r ==> p in products && Qualifies(p)
  {
    if n == 0 || products == [] then []
    else if Qualifies(products[0]) then [products[0]] + FirstQualifying(products[1..], n - 1)
    else FirstQualifying(products[1..], n)
  }

  lemma {:induction false} TakeFilterIsFirstQualifying(products: seq<Product>, n: nat)
    ensures Take(Filter(Qualifies, products), n) == FirstQualifying(products, n)
  {
    if n != 0 && products != [] {
      TakeFilterIsFirstQualifying(products[1..], if Qualifies(products[0]) then n - 1 else n);
      if Qualifies(products[0]) {
        var t := Filter(Qualifies, products[1..]);
        assert Filter(Qualifies, products) == [products[0]] + t;
        assert Take([products[0]] + t, n) == [products[0]] + Take(t, n - 1);
      }
    }
  }

  /** The selection is the first four qualifying products, in catalog order: no earlier
      qualifying product is skipped. */
  lemma FeaturedIsFirstQualifying(products: seq<Product>)
    ensures Featured(products) == FirstQualifying(products, 4)
  {
    TakeFilterIsFirstQualifying(products, 4);
  }
}
