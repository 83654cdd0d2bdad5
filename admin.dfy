/** The admin page: login, the product form and its submission, the image list of the
    form, and the dashboard statistics (src/pages/Admin.tsx). */
module Admin {
  import opened Wrappers
  import opened Types
  import opened Seqs
  import opened Text
  import opened ProductContext
  import opened OrderContext

  /** The product form; number fields hold the text typed into them. */
  datatype ProductForm = ProductForm(
    name: string,
    description: string,
    price: string,
    category: Category,
    subcategory: string,
    unit: string,
    stock: string,
    minOrder: string,
    deliveryEstimate: string,
    images: seq<string>)

  /** The form as it is before any product is opened. */
  const BlankForm := ProductForm("", "", "", Firewood, "", "stère", "", "1", "3-5 jours", [])

  /** The image a product submitted without images gets. */
  const PlaceholderImage := "https://images.unsplash.com/photo-1544816155-12df9643f363?w=400"

  /** The seller every product submitted from the admin page is attributed to. */
  const AdminSeller := Seller("Robins des Bois", "France", true)

  /** The edits the form's inputs make, one field each. */
  datatype FormEdit =
    | EditName(name: string)
    | EditDescription(description: string)
    | EditPrice(price: string)
    | EditUnit(unit: string)
    | EditCategory(category: Category)
    | EditStock(stock: string)

  /** What submitting the form asks of the product store. */
  datatype SubmitAction =
    | Rejected
    | Added(draft: ProductDraft)
    | Updated(id: string, updates: ProductUpdate)

  /** The only accepted credentials. */
  predicate LoginAccepted(username: string, accessCode: string)
  {
    username == "Admine" && accessCode == "1990"
  }

  /** One input edit changes its own field and no other. */
  function ApplyEdit(form: ProductForm, edit: FormEdit): (r: ProductForm)
    ensures r.subcategory == form.subcategory && r.minOrder == form.minOrder
    ensures r.deliveryEstimate == form.deliveryEstimate && r.images == form.images
    ensures edit.EditName? ==> r == form.(name := edit.name)
    ensures edit.EditDescription? ==> r == form.(description := edit.description)
    ensures edit.EditPrice? ==> r == form.(price := edit.price)
    ensures edit.EditUnit? ==> r == form.(unit := edit.unit)
    ensures edit.EditCategory? ==> r == form.(category := edit.category)
    ensures edit.EditStock? ==> r == form.(stock := edit.stock)
  {
    match edit
    case EditName(s) => form.(name := s)
    case EditDescription(s) => form.(description := s)
    case EditPrice(s) => form.(price := s)
    case EditUnit(s) => form.(unit := s)
    case EditCategory(c) => form.(category := c)
    case EditStock(s) => form.(stock := s)
  }

  /** The form filled from an existing product; numbers are shown with `toString`. */
  function FormOf(p: Product, showPrice: real -> string): (r: ProductForm)
    ensures r.name == p.name && r.description == p.description && r.category == p.category
    ensures r.subcategory == p.subcategory && r.unit == p.unit && r.images == p.images
    ensures r.deliveryEstimate == p.deliveryEstimate && r.price == showPrice(p.price)
    ensures p.stock >= 0 ==> AllDigits(r.stock) && DigitsValue(r.stock) == p.stock
    ensures p.minOrder >= 0 ==> AllDigits(r.minOrder) && DigitsValue(r.minOrder) == p.minOrder
    ensures r.stock == IntToString(p.stock) && r.minOrder == IntToString(p.minOrder)
  {
    ProductForm(p.name, p.description, showPrice(p.price), p.category, p.subcategory, p.unit,
                IntToString(p.stock), IntToString(p.minOrder), p.deliveryEstimate, p.images)
  }

  /** The form misses a required field: name, price or stock is empty. */
  predicate Incomplete(form: ProductForm)
  {
    form.name == "" || form.price == "" || form.stock == ""
  }

  /** A form filled from a product is complete exactly when the product has a name and its
      price shows as a non-empty text: the stock always shows, even when it is zero. */
  lemma FormOfComplete(p: Product, showPrice: real -> string)
    ensures Incomplete(FormOf(p, showPrice)) <==> p.name == "" || showPrice(p.price) == ""
  {
  }

  /** `productData`: the submitted product, with the subcategory falling back to the
      category, a placeholder image when there is none, and fixed rating, reviews, seller
      and specifications. */
  function ProductData(form: ProductForm, parseFloat: string -> real, parseInt: string -> int)
    : (d: ProductDraft)
    ensures d.name == form.name && d.description == form.description && d.category == form.category
    ensures d.unit == form.unit && d.deliveryEstimate == form.deliveryEstimate
    ensures d.price == parseFloat(form.price)
    ensures d.stock == parseInt(form.stock) && d.minOrder == parseInt(form.minOrder)
    ensures d.subcategory == if form.subcategory == "" then CategoryId(form.category) else form.subcategory
    ensures d.subcategory != ""
    ensures form.images == [] ==> d.images == [PlaceholderImage]
    ensures form.images != [] ==> d.images == form.images
    ensures |d.images| >= 1
    ensures d.rating == 4.5 && d.reviews == 0 && d.seller == AdminSeller && d.specifications == map[]
    ensures d.originalPrice.None? && d.certifications.None?
  {
    ProductDraft(
      name := form.name,
      description := form.description,
      price := parseFloat(form.price),
      originalPrice := None,
      category := form.category,
      subcategory := if form.subcategory == "" then CategoryId(form.category) else form.subcategory,
      images := if |form.images| > 0 then form.images else [PlaceholderImage],
      rating := 4.5,
      reviews := 0,
      seller := AdminSeller,
      specifications := map[],
      stock := parseInt(form.stock),
      unit := form.unit,
      minOrder := parseInt(form.minOrder),
      deliveryEstimate := form.deliveryEstimate,
      certifications := None)
  }

  /** The same product data passed as a partial update: every key it carries is set, the
      id, original price and certifications are not touched. */
  function UpdateOf(d: ProductDraft): (u: ProductUpdate)
    ensures u.id.None? && u.originalPrice.None? && u.certifications.None?
    ensures forall p: Product :: Overlay(p, u) == Product(p.id, d.name, d.description, d.price,
      p.originalPrice, d.category, d.subcategory, d.images, d.rating, d.reviews, d.seller,
      d.specifications, d.stock, d.unit, d.minOrder, d.deliveryEstimate, p.certifications)
  {
    ProductUpdate(None, Some(d.name), Some(d.description), Some(d.price), None, Some(d.category),
                  Some(d.subcategory), Some(d.images), Some(d.rating), Some(d.reviews),
                  Some(d.seller), Some(d.specifications), Some(d.stock), Some(d.unit),
                  Some(d.minOrder), Some(d.deliveryEstimate), None)
  }

  /** `prev.filter((_, i) => i !== index)`. */
  function WithoutIndex<T>(s: seq<T>, index: int): (r: seq<T>)
    ensures 0 <= index < |s| ==> r == s[..index] + s[index + 1..]
    ensures !(0 <= index < |s|) ==> r == s
  {
    if s == [] then []
    else (if index == 0 then [] else [s[0]]) + WithoutIndex(s[1..], index - 1)
  }

  /** The URLs that uploads yield in file order, up to the first failed upload. */
  function UploadedUrls(uploads: seq<Result<string>>): (urls: seq<string>)
    ensures |urls| <= |uploads|
    ensures forall k :: 0 <= k < |urls| ==> uploads[k] == Ok(urls[k])
    ensures |urls| < |uploads| ==> uploads[|urls|].Err?
  {
    if uploads == [] || uploads[0].Err? then []
    else [uploads[0].value] + UploadedUrls(uploads[1..])
  }

  /** A successful upload after successful ones adds its URL at the end. */
  lemma {:induction false} UploadedUrlsSnoc(uploads: seq<Result<string>>, url: string)
    requires forall k :: 0 <= k < |uploads| ==> uploads[k].Ok?
    ensures UploadedUrls(uploads + [Ok(url)]) == UploadedUrls(uploads) + [url]
  {
    if uploads != [] {
      assert (uploads + [Ok(url)])[1..] == uploads[1..] + [Ok(url)];
      UploadedUrlsSnoc(uploads[1..], url);
    }
  }

  predicate IsPending(o: Order) { o.status == Pending }

  /** Pending orders are counted once each: with the other orders they make up the list. */
  lemma {:induction false} PendingPartition(orders: seq<Order>)
    ensures |Filter(IsPending, orders)| + |Filter(o => !IsPending(o), orders)| == |orders|
  {
    if orders != [] {
      PendingPartition(orders[1..]);
    }
  }

  /** `orders.reduce((sum, o) => sum + o.total, 0)`, from the left as `reduce` goes. */
  function Revenue(orders: seq<Order>, acc: real): real
    decreases |orders|
  {
    if orders == [] then acc else Revenue(orders[1..], acc + orders[0].total)
  }

  /** The sum of the order totals. */
  function TotalOf(orders: seq<Order>): real
  {
    if orders == [] then 0.0 else orders[0].total + TotalOf(orders[1..])
  }

  /** The left fold adds up exactly the order totals. */
  lemma {:induction false} RevenueIsTotal(orders: seq<Order>, acc: real)
    ensures Revenue(orders, acc) == acc + TotalOf(orders)
  {
    if orders != [] {
      RevenueIsTotal(orders[1..], acc + orders[0].total);
    }
  }

  /** The four dashboard figures, as displayed. */
  datatype Stats = Stats(orderCount: string, productCount: string, pendingCount: string, revenue: string)

  /** `stats`: the counts read back as the number of orders, of products and of pending
      orders, and the revenue is the sum of the totals to the euro. */
  function DashboardStats(orders: seq<Order>, products: seq<Product>): (s: Stats)
    ensures AllDigits(s.orderCount) && DigitsValue(s.orderCount) == |orders|
    ensures AllDigits(s.productCount) && DigitsValue(s.productCount) == |products|
    ensures AllDigits(s.pendingCount) && DigitsValue(s.pendingCount) == |Filter(IsPending, orders)|
    ensures s.orderCount == NatToString(|orders|) && s.productCount == NatToString(|products|)
    ensures s.pendingCount == NatToString(|Filter(IsPending, orders)|)
    ensures s.revenue == ToFixed(TotalOf(orders), 0) + "€"
  {
    NatToStringValue(|orders|);
    NatToStringValue(|products|);
    NatToStringValue(|Filter(IsPending, orders)|);
    RevenueIsTotal(orders, 0.0);
    Stats(NatToString(|orders|), NatToString(|products|), NatToString(|Filter(IsPending, orders)|),
          ToFixed(Revenue(orders, 0.0), 0) + "€")
  }

  /** The pending figure never exceeds the order figure. */
  lemma DashboardPendingWithinOrders(orders: seq<Order>, products: seq<Product>)
    ensures var s := DashboardStats(orders, products);
            DigitsValue(s.pendingCount) <= DigitsValue(s.orderCount)
  {
    PendingPartition(orders);
  }

  /** The state of the admin page. */
  class AdminPage {
    var isAuthenticated: bool
    var productForm: ProductForm
    var editingProduct: Option<Product>
    var isProductModalOpen: bool
    var isUploadingImage: bool

    constructor ()
      ensures !isAuthenticated && productForm == BlankForm && editingProduct.None?
      ensures !isProductModalOpen && !isUploadingImage
    {
      isAuthenticated := false;
      productForm := BlankForm;
      editingProduct := None;
      isProductModalOpen := false;
      isUploadingImage := false;
    }

    /** `handleLogin`: the accepted pair authenticates; any other pair changes nothing. */
    method HandleLogin(username: string, accessCode: string) returns (accepted: bool)
      modifies this
      ensures accepted <==> LoginAccepted(username, accessCode)
      ensures accepted ==> isAuthenticated
      ensures !accepted ==> isAuthenticated == old(isAuthenticated)
      ensures productForm == old(productForm) && editingProduct == old(editingProduct)
      ensures isProductModalOpen == old(isProductModalOpen) && isUploadingImage == old(isUploadingImage)
    {
      accepted := LoginAccepted(username, accessCode);
      if accepted {
        isAuthenticated := true;
      }
    }

    /** The logout button. */
    method Logout()
      modifies this
      ensures !isAuthenticated
      ensures productForm == old(productForm) && editingProduct == old(editingProduct)
      ensures isProductModalOpen == old(isProductModalOpen) && isUploadingImage == old(isUploadingImage)
    {
      isAuthenticated := false;
    }

    /** An input of the product form. */
    method EditForm(edit: FormEdit)
      modifies this
      ensures productForm == ApplyEdit(old(productForm), edit)
      ensures isAuthenticated == old(isAuthenticated) && editingProduct == old(editingProduct)
      ensures isProductModalOpen == old(isProductModalOpen) && isUploadingImage == old(isUploadingImage)
    {
      productForm := ApplyEdit(productForm, edit);
    }

    /** `openProductModal`: a product is opened for editing with its values in the form;
        without one the form is blank for a new product. */
    method OpenProductModal(product: Option<Product>, showPrice: real -> string)
      modifies this
      ensures editingProduct == product
      ensures product.Some? ==> productForm == FormOf(product.value, showPrice)
      ensures product.None? ==> productForm == BlankForm
      ensures isProductModalOpen
      ensures isAuthenticated == old(isAuthenticated) && isUploadingImage == old(isUploadingImage)
    {
      editingProduct := product;
      if product.Some? {
        productForm := FormOf(product.value, showPrice);
      } else {
        productForm := BlankForm;
      }
      isProductModalOpen := true;
    }

    /** `handleProductSubmit`: an incomplete form is rejected and nothing changes;
        otherwise the product being edited is updated, or else a new one is added, and
        the modal closes. */
    method HandleProductSubmit(parseFloat: string -> real, parseInt: string -> int)
      returns (action: SubmitAction)
      modifies this
      ensures Incomplete(old(productForm)) ==> action == Rejected && isProductModalOpen == old(isProductModalOpen)
      ensures !Incomplete(old(productForm)) ==> !isProductModalOpen
      ensures !Incomplete(old(productForm)) && old(editingProduct).Some? ==>
        action == Updated(old(editingProduct).value.id, UpdateOf(ProductData(old(productForm), parseFloat, parseInt)))
      ensures !Incomplete(old(productForm)) && old(editingProduct).None? ==>
        action == Added(ProductData(old(productForm), parseFloat, parseInt))
      ensures productForm == old(productForm) && editingProduct == old(editingProduct)
      ensures isAuthenticated == old(isAuthenticated) && isUploadingImage == old(isUploadingImage)
    {
      if Incomplete(productForm) {
        return Rejected;
      }
      var productData := ProductData(productForm, parseFloat, parseInt);
      if editingProduct.Some? {
        action := Updated(editingProduct.value.id, UpdateOf(productData));
      } else {
        action := Added(productData);
      }
      isProductModalOpen := false;
    }

    /** `removeImage`: the image at the index goes, the others keep their order; only a
        stored image (its URL names the `product-images` bucket) is deleted from storage. */
    method RemoveImage(index: nat) returns (deleteFromStorage: Option<string>)
      requires index < |productForm.images|
      modifies this
      ensures var old_images := old(productForm.images);
              productForm == old(productForm).(images := old_images[..index] + old_images[index + 1..])
      ensures deleteFromStorage.Some? <==> Includes(old(productForm.images)[index], "product-images")
      ensures deleteFromStorage.Some? ==> deleteFromStorage.value == old(productForm.images)[index]
      ensures isAuthenticated == old(isAuthenticated) && editingProduct == old(editingProduct)
      ensures isProductModalOpen == old(isProductModalOpen) && isUploadingImage == old(isUploadingImage)
    {
      var imageUrl := productForm.images[index];
      if Includes(imageUrl, "product-images") {
        deleteFromStorage := Some(imageUrl);
      } else {
        deleteFromStorage := None;
      }
      productForm := productForm.(images := WithoutIndex(productForm.images, index));
    }

    /** `handleImageUpload`: with no file list nothing happens; otherwise the files are
        uploaded in order, each URL appended, until an upload fails, which ends the loop
        with an error; the uploading flag is cleared at the end. */
    method HandleImageUpload(files: Option<seq<Result<string>>>) returns (failed: bool)
      modifies this
      ensures files.None? ==> productForm == old(productForm) && isUploadingImage == old(isUploadingImage) && !failed
      ensures files.Some? ==> productForm == old(productForm).(images := old(productForm.images) + UploadedUrls(files.value))
      ensures files.Some? ==> !isUploadingImage
      ensures files.Some? ==> (failed <==> exists k :: 0 <= k < |files.value| && files.value[k].Err?)
      ensures isAuthenticated == old(isAuthenticated) && editingProduct == old(editingProduct)
      ensures isProductModalOpen == old(isProductModalOpen)
    {
      if files.None? {
        return false;
      }
      var uploads := files.value;
      isUploadingImage := true;
      failed := false;
      var i := 0;
      while i < |uploads| && !failed
        invariant 0 <= i <= |uploads|
        invariant forall k :: 0 <= k < i ==> uploads[k].Ok?
        invariant productForm == old(productForm).(images := productForm.images)
        invariant productForm.images == old(productForm.images) + UploadedUrls(uploads[..i])
        invariant failed ==> i < |uploads| && uploads[i].Err?
        invariant isAuthenticated == old(isAuthenticated) && editingProduct == old(editingProduct)
        invariant isProductModalOpen == old(isProductModalOpen)
        decreases |uploads| - i, !failed
      {
        match uploads[i]
        case Err(_) =>
          failed := true;
        case Ok(imageUrl) =>
          UploadedUrlsSnoc(uploads[..i], imageUrl);
          assert uploads[..i + 1] == uploads[..i] + [Ok(imageUrl)];
          productForm := productForm.(images := productForm.images + [imageUrl]);
          i := i + 1;
      }
      if failed {
        UploadedPrefix(uploads, i);
      } else {
        assert uploads[..i] == uploads;
      }
      isUploadingImage := false;
    }
  }

  /** Up to the first failed upload, the URLs are those of the successful uploads before it. */
  lemma {:induction false} UploadedPrefix(uploads: seq<Result<string>>, i: nat)
    requires i < |uploads| && uploads[i].Err?
    requires forall k :: 0 <= k < i ==> uploads[k].Ok?
    ensures UploadedUrls(uploads) == UploadedUrls(uploads[..i])
  {
    if i > 0 {
      assert uploads[..i][1..] == uploads[1..][..i - 1];
      UploadedPrefix(uploads[1..], i - 1);
    }
  }
}
