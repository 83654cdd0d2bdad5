/** The order list held by the order provider, the serialisation of a draft order into a
    datastore row, and the list updates made after each remote call
    (src/context/OrderContext.tsx). */
module OrderContext {
  import opened Wrappers
  import opened Types
  import opened Seqs
  import opened Text

  /** The product part of an item as it is stored with an order. */
  datatype ItemProduct = ItemProduct(id: string, name: string, price: real, images: seq<string>, unit: string)

  /** An order item as it is stored with an order. */
  datatype ItemJson = ItemJson(product: ItemProduct, quantity: int)

  /** An order; its items are the stored item shape and its date is the stored timestamp text. */
  datatype Order = Order(
    id: string,
    items: seq<ItemJson>,
    email: string,
    name: Option<string>,
    phone: Option<string>,
    address: Address,
    notes: Option<string>,
    status: OrderStatus,
    total: real,
    createdAt: string)

  /** A row of the `orders` table; a column that is null is `None`. */
  datatype OrderRow = OrderRow(
    id: string,
    items: Option<seq<ItemJson>>,
    customerEmail: string,
    customerName: Option<string>,
    customerPhone: Option<string>,
    deliveryAddress: string,
    deliveryCity: string,
    deliveryPostalCode: string,
    deliveryCountry: string,
    notes: Option<string>,
    status: OrderStatus,
    totalAmount: real,
    createdAt: string)

  /** `Omit<Order, 'id' | 'createdAt' | 'status'>` as the checkout submits it, with cart items. */
  datatype OrderDraft = OrderDraft(
    items: seq<CartItem>,
    email: string,
    name: Option<string>,
    phone: Option<string>,
    address: Address,
    notes: Option<string>,
    total: real)

  /** The row sent to the datastore on insert. */
  datatype OrderInsert = OrderInsert(
    customerName: Option<string>,
    customerEmail: string,
    customerPhone: Option<string>,
    deliveryAddress: string,
    deliveryCity: string,
    deliveryPostalCode: string,
    deliveryCountry: string,
    notes: Option<string>,
    items: seq<ItemJson>,
    totalAmount: real,
    status: OrderStatus)

  /** `dbToOrder`: missing items become the empty list; columns map one to one. */
  function DbToOrder(row: OrderRow): (o: Order)
    ensures o.id == row.id && o.items == row.items.GetOr([])
    ensures row.items.None? ==> o.items == []
    ensures o.total == row.totalAmount && o.status == row.status
    ensures o.email == row.customerEmail && o.name == row.customerName
    ensures o.phone == row.customerPhone && o.notes == row.notes
    ensures o.address == Address(row.deliveryAddress, row.deliveryCity, row.deliveryPostalCode, row.deliveryCountry)
  {
    Order(row.id, row.items.GetOr([]), row.customerEmail, row.customerName, row.customerPhone,
          Address(row.deliveryAddress, row.deliveryCity, row.deliveryPostalCode, row.deliveryCountry),
          row.notes, row.status, row.totalAmount, row.createdAt)
  }

  predicate IsStoredImage(img: string) { !StartsWith(img, "data:") }

  /** The images an order keeps of a product: the first one that is not inline `data:` content. */
  function KeptImages(images: seq<string>): (r: seq<string>)
    ensures |r| <= 1
    ensures forall img :: img in r ==> img in images && !StartsWith(img, "data:")
    ensures r == [] <==> forall img :: img in images ==> StartsWith(img, "data:")
  {
    var stored := Filter(IsStoredImage, images);
    assert stored != [] ==> stored[0] in stored;
    Take(stored, 1)
  }

  /** The kept image is the first stored image of the product: no earlier one is skipped. */
  lemma KeptImageIsFirst(images: seq<string>)
    ensures KeptImages(images) != [] ==>
      exists i :: 0 <= i < |images| && images[i] == KeptImages(images)[0]
                  && forall j :: 0 <= j < i ==> StartsWith(images[j], "data:")
  {
    FilterHead(IsStoredImage, images);
  }

  /** One cart item in the stored shape. */
  function SerializeItem(item: CartItem): (j: ItemJson)
    ensures j.quantity == item.quantity
    ensures j.product.id == item.product.id && j.product.name == item.product.name
    ensures j.product.price == item.product.price && j.product.unit == item.product.unit
    ensures |j.product.images| <= 1
    ensures forall img :: img in j.product.images ==> img in item.product.images && !StartsWith(img, "data:")
    ensures j.product.images == KeptImages(item.product.images)
  {
    var p := item.product;
    ItemJson(ItemProduct(p.id, p.name, p.price, KeptImages(p.images), p.unit), item.quantity)
  }

  /** `itemsJson`: every cart item in the stored shape, in order. */
  function ItemsJson(items: seq<CartItem>): (r: seq<ItemJson>)
    ensures |r| == |items|
    ensures forall i :: 0 <= i < |items| ==> r[i] == SerializeItem(items[i])
    ensures forall i :: 0 <= i < |items| ==>
      && r[i].quantity == items[i].quantity
      && r[i].product.id == items[i].product.id && r[i].product.name == items[i].product.name
      && r[i].product.price == items[i].product.price && r[i].product.unit == items[i].product.unit
      && |r[i].product.images| <= 1
      && r[i].product.images == KeptImages(items[i].product.images)
      && (forall img :: img in r[i].product.images ==> !StartsWith(img, "data:"))
  {
    Map(SerializeItem, items)
  }

  /** `s || null` for an optional text: empty and missing both become null. */
  function NullIfEmpty(s: Option<string>): (r: Option<string>)
    ensures r.Some? <==> s.Some? && s.value != ""
    ensures r.Some? ==> r == s
  {
    if s.Some? && s.value != "" then s else None
  }

  /** `dbOrder`: a new order is pending, carries the draft total, and stores empty
      optional texts as null. */
  function DbOrderOf(draft: OrderDraft): (r: OrderInsert)
    ensures r.status == Pending && r.totalAmount == draft.total
    ensures r.customerName == NullIfEmpty(draft.name) && r.customerPhone == NullIfEmpty(draft.phone)
    ensures r.notes == NullIfEmpty(draft.notes)
    ensures r.customerEmail == draft.email && r.items == ItemsJson(draft.items)
    ensures r.deliveryAddress == draft.address.street && r.deliveryCity == draft.address.city
    ensures r.deliveryPostalCode == draft.address.postalCode && r.deliveryCountry == draft.address.country
  {
    OrderInsert(NullIfEmpty(draft.name), draft.email, NullIfEmpty(draft.phone),
                draft.address.street, draft.address.city, draft.address.postalCode,
                draft.address.country, NullIfEmpty(draft.notes), ItemsJson(draft.items),
                draft.total, Pending)
  }

  /** The row the datastore holds after storing `ins` under `id` at `createdAt`. */
  function StoredRow(id: string, createdAt: string, ins: OrderInsert): OrderRow
  {
    OrderRow(id, Some(ins.items), ins.customerEmail, ins.customerName, ins.customerPhone,
             ins.deliveryAddress, ins.deliveryCity, ins.deliveryPostalCode, ins.deliveryCountry,
             ins.notes, ins.status, ins.totalAmount, createdAt)
  }

  /** Storing a draft and reading the row back gives a pending order with the draft's
      address, contact, total and serialised items. */
  lemma DraftRoundTrip(id: string, createdAt: string, draft: OrderDraft)
    ensures var o := DbToOrder(StoredRow(id, createdAt, DbOrderOf(draft)));
            && o.id == id && o.status == Pending && o.total == draft.total
            && o.items == ItemsJson(draft.items) && o.address == draft.address
            && o.email == draft.email && o.name == NullIfEmpty(draft.name)
            && o.phone == NullIfEmpty(draft.phone) && o.notes == NullIfEmpty(draft.notes)
  {
  }

  /** `prev.map(order => order.id === id ? { ...order, status } : order)`. */
  function SetStatusWhere(os: seq<Order>, id: string, status: OrderStatus): (r: seq<Order>)
    ensures |r| == |os|
    ensures forall i :: 0 <= i < |os| ==> r[i] == if os[i].id == id then os[i].(status := status) else os[i]
  {
    if os == [] then []
    else [if os[0].id == id then os[0].(status := status) else os[0]] + SetStatusWhere(os[1..], id, status)
  }

  predicate OtherOrder(id: string, o: Order) { o.id != id }

  /** `prev.filter(order => order.id !== id)`: every order with another id stays and every
      order with the id goes. */
  function RemoveOrders(os: seq<Order>, id: string): (r: seq<Order>)
    ensures forall o :: o in r ==> o.id != id
    ensures forall o :: o in os && o.id != id ==> o in r
  {
    Filter(o => OtherOrder(id, o), os)
  }

  /** Removal keeps every order with another id as many times as it occurs, and
      none with the id. */
  lemma RemoveOrdersCounts(os: seq<Order>, id: string)
    ensures forall o :: multiset(RemoveOrders(os, id))[o] == if o.id != id then multiset(os)[o] else 0
  {
    FilterMultisets(o => OtherOrder(id, o), os);
  }

  /** Removal keeps the order of the remaining orders: it works on each part of a list
      separately, and keeps or drops a single order by its id alone. */
  lemma RemoveOrdersOrder(a: seq<Order>, b: seq<Order>, id: string)
    ensures RemoveOrders(a + b, id) == RemoveOrders(a, id) + RemoveOrders(b, id)
    ensures forall o :: RemoveOrders([o], id) == if o.id != id then [o] else []
  {
    FilterAppend(o => OtherOrder(id, o), a, b);
  }

  /** A status update touches no order with another id, and keeps them in order. */
  lemma {:induction false} SetStatusKeepsOthers(os: seq<Order>, id: string, status: OrderStatus)
    ensures RemoveOrders(SetStatusWhere(os, id, status), id) == RemoveOrders(os, id)
  {
    if os != [] {
      SetStatusKeepsOthers(os[1..], id, status);
      var r := SetStatusWhere(os, id, status);
      assert r[1..] == SetStatusWhere(os[1..], id, status);
      assert r == [r[0]] + r[1..];
      assert os == [os[0]] + os[1..];
      FilterAppend(o => OtherOrder(id, o), [r[0]], r[1..]);
      FilterAppend(o => OtherOrder(id, o), [os[0]], os[1..]);
    }
  }

  /** Setting a status twice is setting it once, and the last status set wins. */
  lemma SetStatusTwice(os: seq<Order>, id: string, s1: OrderStatus, s2: OrderStatus)
    ensures SetStatusWhere(SetStatusWhere(os, id, s1), id, s2) == SetStatusWhere(os, id, s2)
  {
    var a := SetStatusWhere(SetStatusWhere(os, id, s1), id, s2);
    var b := SetStatusWhere(os, id, s2);
    assert forall i :: 0 <= i < |a| ==> a[i] == b[i];
  }

  predicate OrderHasId(id: string, o: Order) { o.id == id }

  /** The order list of the provider, and whether it is still loading. */
  class OrderStore {
    var orders: seq<Order>
    var loading: bool

    /** The provider starts with no orders, loading. */
    constructor ()
      ensures orders == [] && loading
    {
      orders := [];
      loading := true;
    }

    /** `fetchOrders`: any returned list replaces the orders, even an empty one; an error
        keeps them; loading ends in every case. */
    method FetchOrders(reply: Reply<seq<OrderRow>>)
      modifies this
      ensures reply.Data? ==> orders == Map(DbToOrder, reply.value)
      ensures !reply.Data? ==> orders == old(orders)
      ensures !loading
    {
      if reply.Data? {
        orders := Map(DbToOrder, reply.value);
      }
      loading := false;
    }

    /** `refreshOrders`: loading restarts and the fetch runs. */
    method RefreshOrders(reply: Reply<seq<OrderRow>>)
      modifies this
      ensures reply.Data? ==> orders == Map(DbToOrder, reply.value)
      ensures !reply.Data? ==> orders == old(orders)
      ensures !loading
    {
      loading := true;
      FetchOrders(reply);
    }

    /** `addOrder`: the stored row comes back as the first order and its id is returned;
        a missing row is an error; on any error the list is unchanged and the error is
        rethrown. */
    method AddOrder(draft: OrderDraft, reply: Reply<OrderRow>)
      returns (request: OrderInsert, result: Result<string>)
      modifies this
      ensures request == DbOrderOf(draft)
      ensures reply.Data? ==> orders == [DbToOrder(reply.value)] + old(orders) && result == Ok(reply.value.id)
      ensures reply.NoData? ==> orders == old(orders) && result == Err("No data returned")
      ensures reply.Error? ==> orders == old(orders) && result == Err(reply.message)
      ensures loading == old(loading)
    {
      request := DbOrderOf(draft);
      match reply
      case Error(message) =>
        result := Err(message);
      case NoData =>
        result := Err("No data returned");
      case Data(row) =>
        orders := [DbToOrder(row)] + orders;
        result := Ok(row.id);
    }

    /** `updateOrderStatus`: on success only the status of the orders with the id changes. */
    method UpdateOrderStatus(id: string, status: OrderStatus, error: Option<string>)
      returns (result: Result<()>)
      modifies this
      ensures error.None? ==> orders == SetStatusWhere(old(orders), id, status) && result == Ok(())
      ensures error.Some? ==> orders == old(orders) && result == Err(error.value)
      ensures loading == old(loading)
    {
      if error.Some? {
        result := Err(error.value);
      } else {
        orders := SetStatusWhere(orders, id, status);
        result := Ok(());
      }
    }

    /** `deleteOrder`: on success the orders with the id go, the rest keep their order. */
    method DeleteOrder(id: string, error: Option<string>) returns (result: Result<()>)
      modifies this
      ensures error.None? ==> orders == RemoveOrders(old(orders), id) && result == Ok(())
      ensures error.Some? ==> orders == old(orders) && result == Err(error.value)
      ensures loading == old(loading)
    {
      if error.Some? {
        result := Err(error.value);
      } else {
        orders := RemoveOrders(orders, id);
        result := Ok(());
      }
    }

    /** `getOrder`: the first order with the id, if any. */
    function GetOrder(id: string): (r: Option<Order>)
      reads this
      ensures r.Some? <==> exists i :: 0 <= i < |orders| && orders[i].id == id
      ensures r.Some? ==> r.value.id == id && exists i :: 0 <= i < |orders| && orders[i] == r.value
                                                          && forall j :: 0 <= j < i ==> orders[j].id != id
    {
      FindFirst(o => OrderHasId(id, o), orders)
    }
  }
}
