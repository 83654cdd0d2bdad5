/** The product list held by the product provider, the mapping between datastore rows
    and products, and the list updates made after each remote call
    (src/context/ProductContext.tsx). */
module ProductContext {
  import opened Wrappers
  import opened Types
  import opened Seqs

  /** A row of the `products` table; a column that is null or missing is `None`. */
  datatype ProductRow = ProductRow(
    id: string,
    name: string,
    description: Option<string>,
    price: real,
    originalPrice: Option<real>,
    category: Category,
    subcategory: Option<string>,
    images: Option<seq<string>>,
    inStock: bool,
    unit: Option<string>,
    specs: Option<map<string, string>>)

  /** A product without its id (`Omit<Product, 'id'>`), as the admin form submits it. */
  datatype ProductDraft = ProductDraft(
    name: string,
    description: string,
    price: real,
    originalPrice: Option<real>,
    category: Category,
    subcategory: string,
    images: seq<string>,
    rating: real,
    reviews: int,
    seller: Seller,
    specifications: map<string, string>,
    stock: int,
    unit: string,
    minOrder: int,
    deliveryEstimate: string,
    certifications: Option<seq<string>>)

  /** The row sent to the datastore on insert. */
  datatype ProductInsert = ProductInsert(
    name: string,
    description: string,
    price: real,
    originalPrice: Option<real>,
    category: Category,
    subcategory: string,
    images: seq<string>,
    inStock: bool,
    unit: string,
    specs: map<string, string>,
    featured: bool)

  /** `Partial<Product>`: `None` is a key the update does not carry. */
  datatype ProductUpdate = ProductUpdate(
    id: Option<string>,
    name: Option<string>,
    description: Option<string>,
    price: Option<real>,
    originalPrice: Option<real>,
    category: Option<Category>,
    subcategory: Option<string>,
    images: Option<seq<string>>,
    rating: Option<real>,
    reviews: Option<int>,
    seller: Option<Seller>,
    specifications: Option<map<string, string>>,
    stock: Option<int>,
    unit: Option<string>,
    minOrder: Option<int>,
    deliveryEstimate: Option<string>,
    certifications: Option<seq<string>>)

  /** The columns sent to the datastore on update; `None` is a column left out. */
  datatype DbUpdates = DbUpdates(
    name: Option<string>,
    description: Option<string>,
    price: Option<real>,
    originalPrice: Option<real>,
    category: Option<Category>,
    subcategory: Option<string>,
    images: Option<seq<string>>,
    inStock: Option<bool>,
    unit: Option<string>,
    specs: Option<map<string, string>>)

  const NoUpdate := ProductUpdate(None, None, None, None, None, None, None, None, None,
                                  None, None, None, None, None, None, None, None)

  const NoDbUpdates := DbUpdates(None, None, None, None, None, None, None, None, None, None)

  /** The seller that every product read from the datastore is attributed to. */
  const StoreSeller := Seller("boisdechauffe.fr", "France", true)

  /** `s || fallback` for an optional string: null, missing and empty all fall back. */
  function OrElse(s: Option<string>, fallback: string): (r: string)
    ensures s.Some? && s.value != "" ==> r == s.value
    ensures s.None? || s.value == "" ==> r == fallback
  {
    if s.Some? && s.value != "" then s.value else fallback
  }

  /** `dbToProduct`: the fields the table does not hold get fixed values, stock collapses
      to 100 or 0, and missing columns get their defaults. */
  function DbToProduct(row: ProductRow): (p: Product)
    ensures p.id == row.id && p.name == row.name && p.price == row.price
    ensures p.category == row.category
    ensures p.rating == 4.5 && p.reviews == 0 && p.minOrder == 1
    ensures p.deliveryEstimate == "3-7 jours" && p.certifications == Some(["PEFC"])
    ensures p.seller == StoreSeller
    ensures p.stock == 100 || p.stock == 0
    ensures p.stock > 0 <==> row.inStock
    ensures p.description == OrElse(row.description, "")
    ensures p.subcategory == OrElse(row.subcategory, "")
    ensures p.unit == OrElse(row.unit, "stère")
    ensures p.images == row.images.GetOr([])
    ensures p.specifications == row.specs.GetOr(map[])
    ensures p.originalPrice.Some? <==> row.originalPrice.Some? && row.originalPrice.value != 0.0
    ensures p.originalPrice.Some? ==> p.originalPrice == row.originalPrice
  {
    Product(
      id := row.id,
      name := row.name,
      description := OrElse(row.description, ""),
      price := row.price,
      originalPrice := if row.originalPrice.Some? && row.originalPrice.value != 0.0
                       then row.originalPrice else None,
      category := row.category,
      subcategory := OrElse(row.subcategory, ""),
      images := row.images.GetOr([]),
      rating := 4.5,
      reviews := 0,
      seller := StoreSeller,
      specifications := row.specs.GetOr(map[]),
      stock := if row.inStock then 100 else 0,
      unit := OrElse(row.unit, "stère"),
      minOrder := 1,
      deliveryEstimate := "3-7 jours",
      certifications := Some(["PEFC"]))
  }

  /** `productToDb`: the stored columns of a draft; never featured, in stock exactly when
      the stock is positive. */
  function ProductToDb(d: ProductDraft): (r: ProductInsert)
    ensures r.featured == false
    ensures r.inStock <==> d.stock > 0
    ensures r.name == d.name && r.description == d.description && r.price == d.price
    ensures r.originalPrice == d.originalPrice && r.category == d.category
    ensures r.subcategory == d.subcategory && r.images == d.images
    ensures r.unit == d.unit && r.specs == d.specifications
  {
    ProductInsert(d.name, d.description, d.price, d.originalPrice, d.category, d.subcategory,
                  d.images, d.stock > 0, d.unit, d.specifications, false)
  }

  /** The draft of a product: every field but the id. */
  function DraftOf(p: Product): ProductDraft
  {
    ProductDraft(p.name, p.description, p.price, p.originalPrice, p.category, p.subcategory,
                 p.images, p.rating, p.reviews, p.seller, p.specifications, p.stock, p.unit,
                 p.minOrder, p.deliveryEstimate, p.certifications)
  }

  /** The row the datastore holds after storing `ins` under the id `id`. */
  function StoredRow(id: string, ins: ProductInsert): ProductRow
  {
    ProductRow(id, ins.name, Some(ins.description), ins.price, ins.originalPrice, ins.category,
               Some(ins.subcategory), Some(ins.images), ins.inStock, Some(ins.unit), Some(ins.specs))
  }

  /** Reading a row and writing it back keeps its stock flag, and every column that the
      row actually holds. */
  lemma RowRoundTrip(row: ProductRow)
    ensures var back := ProductToDb(DraftOf(DbToProduct(row)));
            && back.inStock == row.inStock
            && back.name == row.name && back.price == row.price && back.category == row.category
            && back.featured == false
            && (row.images.Some? ==> back.images == row.images.value)
            && (row.specs.Some? ==> back.specs == row.specs.value)
            && (row.description.Some? ==> back.description == row.description.value)
            && (row.subcategory.Some? ==> back.subcategory == row.subcategory.value)
            && (row.unit.Some? && row.unit.value != "" ==> back.unit == row.unit.value)
            && (row.originalPrice.Some? && row.originalPrice.value != 0.0 ==> back.originalPrice == row.originalPrice)
            && (row.originalPrice.Some? && row.originalPrice.value == 0.0 ==> back.originalPrice.None?)
  {
  }

  /** Storing a draft and reading it back collapses its stock to 100 or 0 and replaces the
      fields the table does not hold by their fixed values; the stored columns survive. */
  lemma DraftRoundTrip(id: string, d: ProductDraft)
    ensures var p := DbToProduct(StoredRow(id, ProductToDb(d)));
            && p.id == id && p.name == d.name && p.price == d.price && p.category == d.category
            && p.images == d.images && p.specifications == d.specifications
            && p.description == d.description && p.subcategory == d.subcategory
            && p.stock == (if d.stock > 0 then 100 else 0)
            && (d.unit != "" ==> p.unit == d.unit)
            && (d.originalPrice.Some? && d.originalPrice.value != 0.0 ==> p.originalPrice == d.originalPrice)
            && p.rating == 4.5 && p.reviews == 0 && p.seller == StoreSeller
  {
  }

  /** The columns an update sends (`dbUpdates`): one for each of the ten mapped fields
      the update carries, with the stock sent as the in-stock flag; the fields the table
      does not hold (rating, seller, ...) are not sent. */
  function DbUpdatesOf(updates: ProductUpdate): (d: DbUpdates)
    ensures d.name == updates.name && d.description == updates.description
    ensures d.price == updates.price && d.originalPrice == updates.originalPrice
    ensures d.category == updates.category && d.subcategory == updates.subcategory
    ensures d.images == updates.images && d.unit == updates.unit
    ensures d.specs == updates.specifications
    ensures d.inStock.Some? <==> updates.stock.Some?
    ensures updates.stock.Some? ==> d.inStock.value == (updates.stock.value > 0)
  {
    DbUpdates(updates.name, updates.description, updates.price, updates.originalPrice,
              updates.category, updates.subcategory, updates.images,
              if updates.stock.Some? then Some(updates.stock.value > 0) else None,
              updates.unit, updates.specifications)
  }

  /** The row the datastore holds after applying the columns `d` to `row`. */
  function ApplyDbUpdates(row: ProductRow, d: DbUpdates): ProductRow
  {
    ProductRow(
      row.id,
      d.name.GetOr(row.name),
      if d.description.Some? then d.description else row.description,
      d.price.GetOr(row.price),
      if d.originalPrice.Some? then d.originalPrice else row.originalPrice,
      d.category.GetOr(row.category),
      if d.subcategory.Some? then d.subcategory else row.subcategory,
      if d.images.Some? then d.images else row.images,
      d.inStock.GetOr(row.inStock),
      if d.unit.Some? then d.unit else row.unit,
      if d.specs.Some? then d.specs else row.specs)
  }

  /** `{ ...product, ...updates }`: every field the update carries replaces the product's. */
  function Overlay(p: Product, u: ProductUpdate): Product
  {
    Product(
      id := u.id.GetOr(p.id),
      name := u.name.GetOr(p.name),
      description := u.description.GetOr(p.description),
      price := u.price.GetOr(p.price),
      originalPrice := if u.originalPrice.Some? then u.originalPrice else p.originalPrice,
      category := u.category.GetOr(p.category),
      subcategory := u.subcategory.GetOr(p.subcategory),
      images := u.images.GetOr(p.images),
      rating := u.rating.GetOr(p.rating),
      reviews := u.reviews.GetOr(p.reviews),
      seller := u.seller.GetOr(p.seller),
      specifications := u.specifications.GetOr(p.specifications),
      stock := u.stock.GetOr(p.stock),
      unit := u.unit.GetOr(p.unit),
      minOrder := u.minOrder.GetOr(p.minOrder),
      deliveryEstimate := u.deliveryEstimate.GetOr(p.deliveryEstimate),
      certifications := if u.certifications.Some? then u.certifications else p.certifications)
  }

  /** An update that carries no field changes nothing; applying an update twice is
      applying it once. */
  lemma OverlayLaws(p: Product, u: ProductUpdate)
    ensures Overlay(p, NoUpdate) == p
    ensures Overlay(Overlay(p, u), u) == Overlay(p, u)
  {
  }

  /** The list after a successful update agrees with what reading the updated row back
      would give, on every column the table holds (the stock only up to being positive),
      provided the update keeps the id and sets no empty unit. */
  lemma UpdateAgreesWithDatastore(row: ProductRow, u: ProductUpdate)
    requires u.id.None? || u.id == Some(row.id)
    requires u.unit.None? || u.unit.value != ""
    requires u.originalPrice.None? || u.originalPrice.value != 0.0
    ensures var local := Overlay(DbToProduct(row), u);
            var fetched := DbToProduct(ApplyDbUpdates(row, DbUpdatesOf(u)));
            && local.id == fetched.id && local.name == fetched.name
            && local.description == fetched.description && local.price == fetched.price
            && local.originalPrice == fetched.originalPrice && local.category == fetched.category
            && local.subcategory == fetched.subcategory && local.images == fetched.images
            && local.unit == fetched.unit && local.specifications == fetched.specifications
            && (local.stock > 0 <==> fetched.stock > 0)
  {
  }

  /** `prev.map(p => p.id === id ? { ...p, ...updates } : p)`. */
  function UpdateWhere(ps: seq<Product>, id: string, u: ProductUpdate): (r: seq<Product>)
    ensures |r| == |ps|
    ensures forall i :: 0 <= i < |ps| ==> r[i] == if ps[i].id == id then Overlay(ps[i], u) else ps[i]
  {
    if ps == [] then []
    else [if ps[0].id == id then Overlay(ps[0], u) else ps[0]] + UpdateWhere(ps[1..], id, u)
  }

  predicate OtherId(id: string, p: Product) { p.id != id }

  /** `prev.filter(p => p.id !== id)`: every product with another id stays and every product
      with the id goes. */
  function RemoveWhere(ps: seq<Product>, id: string): (r: seq<Product>)
    ensures forall p :: p in r ==> p.id != id
    ensures forall p :: p in ps && p.id != id ==> p in r
  {
    Filter(p => OtherId(id, p), ps)
  }

  /** Removal keeps every product with another id as many times as it occurs, and
      none with the id. */
  lemma RemoveWhereCounts(ps: seq<Product>, id: string)
    ensures forall p :: multiset(RemoveWhere(ps, id))[p] == if p.id != id then multiset(ps)[p] else 0
  {
    FilterMultisets(p => OtherId(id, p), ps);
  }

  /** Removal keeps the order of the remaining products: it works on each part of a list
      separately, and keeps or drops a single product by its id alone. */
  lemma RemoveWhereOrder(a: seq<Product>, b: seq<Product>, id: string)
    ensures RemoveWhere(a + b, id) == RemoveWhere(a, id) + RemoveWhere(b, id)
    ensures forall p :: RemoveWhere([p], id) == if p.id != id then [p] else []
  {
    FilterAppend(p => OtherId(id, p), a, b);
  }

  /** When the update keeps the id, the products with other ids are untouched, in order:
      removing the id afterwards gives what removing it before gives. */
  lemma {:induction false} UpdateKeepsOthers(ps: seq<Product>, id: string, u: ProductUpdate)
    requires u.id.None? || u.id == Some(id)
    ensures RemoveWhere(UpdateWhere(ps, id, u), id) == RemoveWhere(ps, id)
  {
    if ps != [] {
      UpdateKeepsOthers(ps[1..], id, u);
      var r := UpdateWhere(ps, id, u);
      assert r[1..] == UpdateWhere(ps[1..], id, u);
      assert r == [r[0]] + r[1..];
      assert ps == [ps[0]] + ps[1..];
      FilterAppend(p => OtherId(id, p), [r[0]], r[1..]);
      FilterAppend(p => OtherId(id, p), [ps[0]], ps[1..]);
    }
  }

  /** Removing is idempotent: a second delete of the same id changes nothing more. */
  lemma RemoveIdempotent(ps: seq<Product>, id: string)
    ensures RemoveWhere(RemoveWhere(ps, id), id) == RemoveWhere(ps, id)
  {
    FilterIdempotent(p => OtherId(id, p), ps);
  }

  /** The product list of the provider, and its loading flag. */
  class ProductStore {
    var products: seq<Product>
    var loading: bool

    /** The provider starts with the bundled initial products, not loading. */
    constructor (initialProducts: seq<Product>)
      ensures products == initialProducts && !loading
    {
      products := initialProducts;
      loading := false;
    }

    /** `fetchProducts`: the list is replaced only by a non-empty result; an empty result
        or an error keeps the current list. */
    method FetchProducts(reply: Reply<seq<ProductRow>>)
      modifies this
      ensures reply.Data? && |reply.value| > 0 ==> products == Map(DbToProduct, reply.value)
      ensures !(reply.Data? && |reply.value| > 0) ==> products == old(products)
      ensures loading == old(loading)
    {
      if reply.Data? && |reply.value| > 0 {
        products := Map(DbToProduct, reply.value);
      }
    }

    /** `refreshProducts`: loading is switched on and the fetch runs; nothing switches it
        off again. */
    method RefreshProducts(reply: Reply<seq<ProductRow>>)
      modifies this
      ensures reply.Data? && |reply.value| > 0 ==> products == Map(DbToProduct, reply.value)
      ensures !(reply.Data? && |reply.value| > 0) ==> products == old(products)
      ensures loading
    {
      loading := true;
      FetchProducts(reply);
    }

    /** `addProduct`: the stored row comes back as the first product; with no row nothing
        changes; an error is rethrown and leaves the list as it was. */
    method AddProduct(draft: ProductDraft, reply: Reply<ProductRow>)
      returns (request: ProductInsert, result: Result<()>)
      modifies this
      ensures request == ProductToDb(draft)
      ensures reply.Data? ==> products == [DbToProduct(reply.value)] + old(products) && result == Ok(())
      ensures reply.NoData? ==> products == old(products) && result == Ok(())
      ensures reply.Error? ==> products == old(products) && result == Err(reply.message)
      ensures loading == old(loading)
    {
      request := ProductToDb(draft);
      match reply
      case Error(message) =>
        result := Err(message);
      case NoData =>
        result := Ok(());
      case Data(row) =>
        products := [DbToProduct(row)] + products;
        result := Ok(());
    }

    /** `updateProduct`: on success only the products with the id change, by the overlay;
        an error is rethrown and leaves the list as it was. */
    method UpdateProduct(id: string, updates: ProductUpdate, error: Option<string>)
      returns (request: DbUpdates, result: Result<()>)
      modifies this
      ensures request == DbUpdatesOf(updates)
      ensures error.None? ==> products == UpdateWhere(old(products), id, updates) && result == Ok(())
      ensures error.Some? ==> products == old(products) && result == Err(error.value)
      ensures loading == old(loading)
    {
      request := DbUpdatesOf(updates);
      if error.Some? {
        result := Err(error.value);
      } else {
        products := UpdateWhere(products, id, updates);
        result := Ok(());
      }
    }

    /** `deleteProduct`: on success every product with the id goes, the rest keep their order. */
    method DeleteProduct(id: string, error: Option<string>) returns (result: Result<()>)
      modifies this
      ensures error.None? ==> products == RemoveWhere(old(products), id) && result == Ok(())
      ensures error.Some? ==> products == old(products) && result == Err(error.value)
      ensures loading == old(loading)
    {
      if error.Some? {
        result := Err(error.value);
      } else {
        products := RemoveWhere(products, id);
        result := Ok(());
      }
    }

    /** `getProduct`: the first product with the id, if any. */
    function GetProduct(id: string): (r: Option<Product>)
      reads this
      ensures r.Some? <==> exists i :: 0 <= i < |products| && products[i].id == id
      ensures r.Some? ==> r.value.id == id && r.value in products
      ensures r.Some? ==> exists i :: 0 <= i < |products| && products[i] == r.value
                                      && forall j :: 0 <= j < i ==> products[j].id != id
    {
      FindProduct(products, id)
    }
  }
}
