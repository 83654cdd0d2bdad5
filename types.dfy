/** The catalog's entities: products, cart items, order statuses and addresses. */
module Types {
  import opened Wrappers
  import opened Seqs

  datatype Category = Firewood | Stoves | Accessories

  /** The identifier each category carries in URLs and rows. */
  function CategoryId(c: Category): string
  {
    match c
    case Firewood => "firewood"
    case Stoves => "stoves"
    case Accessories => "accessories"
  }

  datatype Seller = Seller(name: string, location: string, verified: bool)

  /** A product; prices are exact euro amounts. */
  datatype Product = Product(
    id: string,
    name: string,
    description: string,
    price: real,
    originalPrice: Option<real>,
    category: Category,
    subcategory: string,
    images: seq<string>,
    rating: real,
    reviews: int,
    seller: Seller,
    specifications: map<string, string>,
    stock: int,
    unit: string,
    minOrder: int,
    deliveryEstimate: string,
    certifications: Option<seq<string>>)

  /** `p.originalPrice` is truthy: present and not zero. */
  predicate HasOriginalPrice(p: Product)
  {
    p.originalPrice.Some? && p.originalPrice.value != 0.0
  }

  datatype CartItem = CartItem(product: Product, quantity: int)

  datatype OrderStatus = Pending | Confirmed | Shipped | Delivered

  datatype Address = Address(street: string, city: string, postalCode: string, country: string)

  /** The first product whose id is `id` (`products.find(p => p.id === id)`). */
  function FindProduct(products: seq<Product>, id: string): (r: Option<Product>)
    ensures r.Some? <==> exists i :: 0 <= i < |products| && products[i].id == id
    ensures r.Some? ==> r.value.id == id && r.value in products
    ensures r.Some? ==> exists i :: 0 <= i < |products| && products[i] == r.value
                                    && forall j :: 0 <= j < i ==> products[j].id != id
  {
    FindFirst(p => HasId(id, p), products)
  }

  predicate HasId(id: string, p: Product) { p.id == id }
}
