/** The checkout page: the delivery form, the order draft built from it and the cart, and
    the submission flow around the order store (src/pages/Checkout.tsx). */
module Checkout {
  import opened Wrappers
  import opened Types
  import opened OrderContext

  /** The countries the country selector offers. */
  const Countries := ["France", "Belgique", "Suisse", "Luxembourg", "Allemagne", "Pays-Bas",
                      "Espagne", "Italie", "Autriche", "Portugal"]

  /** The names of the inputs that report their changes through `handleChange`. */
  const InputNames := {"email", "name", "phone", "street", "city", "postalCode", "notes"}

  /** The keys of the form. */
  const FormKeys := InputNames + {"country"}

  const InitialForm := map["email" := "", "name" := "", "phone" := "", "street" := "",
                           "city" := "", "postalCode" := "", "country" := "France", "notes" := ""]

  /** `s || undefined`. */
  function EmptyAsAbsent(s: string): (r: Option<string>)
    ensures r.None? <==> s == ""
    ensures r.Some? ==> r.value == s
  {
    if s == "" then None else Some(s)
  }

  /** The order the checkout submits: the form's contact and address, a copy of the cart
      items and the cart total. */
  function DraftOf(form: map<string, string>, items: seq<CartItem>, total: real): (d: OrderDraft)
    requires FormKeys <= form.Keys
    ensures d.items == items && d.total == total && d.email == form["email"]
    ensures d.name == EmptyAsAbsent(form["name"]) && d.phone == EmptyAsAbsent(form["phone"])
    ensures d.notes == EmptyAsAbsent(form["notes"])
    ensures d.address == Address(form["street"], form["city"], form["postalCode"], form["country"])
  {
    OrderDraft(items, form["email"], EmptyAsAbsent(form["name"]), EmptyAsAbsent(form["phone"]),
               Address(form["street"], form["city"], form["postalCode"], form["country"]),
               EmptyAsAbsent(form["notes"]), total)
  }

  /** The checkout's absent fields and the order store's null columns agree: an empty
      name, phone or notes reaches the datastore as null, a filled one as itself. */
  lemma DraftStoresEmptyAsNull(form: map<string, string>, items: seq<CartItem>, total: real)
    requires FormKeys <= form.Keys
    ensures var row := DbOrderOf(DraftOf(form, items, total));
            && row.customerName == EmptyAsAbsent(form["name"])
            && row.customerPhone == EmptyAsAbsent(form["phone"])
            && row.notes == EmptyAsAbsent(form["notes"])
            && row.status == Pending && row.totalAmount == total
            && |row.items| == |items|
  {
  }

  /** What the page shows. */
  datatype View = SuccessView(orderId: string, email: string) | RedirectToCart | FormView

  class CheckoutPage {
    var isSubmitting: bool
    var isSuccess: bool
    var orderId: string
    var formData: map<string, string>

    /** The form has its keys, and the country is one the selector offers. */
    predicate Valid()
      reads this
    {
      FormKeys <= formData.Keys && formData["country"] in Countries
    }

    constructor ()
      ensures Valid()
      ensures formData == InitialForm && formData["country"] == "France"
      ensures !isSubmitting && !isSuccess && orderId == ""
    {
      isSubmitting := false;
      isSuccess := false;
      orderId := "";
      formData := InitialForm;
    }

    /** `handleChange`: the input's own field takes the value; the others are unchanged. */
    method HandleChange(name: string, value: string)
      requires Valid() && name in InputNames
      modifies this
      ensures Valid()
      ensures formData == old(formData)[name := value]
      ensures forall k :: k in old(formData) && k != name ==> formData[k] == old(formData)[k]
      ensures isSubmitting == old(isSubmitting) && isSuccess == old(isSuccess) && orderId == old(orderId)
    {
      formData := formData[name := value];
    }

    /** The country selector. */
    method SelectCountry(country: string)
      requires Valid() && country in Countries
      modifies this
      ensures Valid()
      ensures formData == old(formData)["country" := country]
      ensures isSubmitting == old(isSubmitting) && isSuccess == old(isSuccess) && orderId == old(orderId)
    {
      formData := formData["country" := country];
    }

    /** The first half of `handleSubmit`: submitting starts and the order is drafted. */
    method StartSubmit(items: seq<CartItem>, total: real) returns (draft: OrderDraft)
      requires Valid()
      modifies this
      ensures Valid() && isSubmitting
      ensures draft == DraftOf(formData, items, total)
      ensures formData == old(formData) && isSuccess == old(isSuccess) && orderId == old(orderId)
    {
      isSubmitting := true;
      draft := DraftOf(formData, items, total);
    }

    /** The second half of `handleSubmit`: on an id the page records it, succeeds and has
        the cart cleared; on an error nothing but the submitting flag changes; submitting
        ends either way. */
    method FinishSubmit(outcome: Result<string>) returns (clearCart: bool)
      modifies this
      ensures clearCart <==> outcome.Ok?
      ensures outcome.Ok? ==> isSuccess && orderId == outcome.value
      ensures outcome.Err? ==> isSuccess == old(isSuccess) && orderId == old(orderId)
      ensures !isSubmitting
      ensures formData == old(formData)
    {
      if outcome.Ok? {
        orderId := outcome.value;
        isSuccess := true;
        clearCart := true;
      } else {
        clearCart := false;
      }
      isSubmitting := false;
    }

    /** `handleSubmit` with the order store: the drafted order goes to `addOrder`, and
        `request` is the row it asks the datastore to insert; the cart
        is cleared exactly when the store returns the new order's id, which the page then
        shows; a failure leaves the page where it was, ready to submit again. */
    method HandleSubmit(items: seq<CartItem>, total: real, store: OrderStore, reply: Reply<OrderRow>)
      returns (request: OrderInsert, clearCart: bool)
      requires Valid()
      modifies this, store
      ensures Valid() && !isSubmitting && formData == old(formData)
      ensures request == DbOrderOf(DraftOf(old(formData), items, total))
      ensures store.loading == old(store.loading)
      ensures clearCart <==> reply.Data?
      ensures reply.Data? ==> isSuccess && orderId == reply.value.id
      ensures reply.Data? ==> store.orders == [DbToOrder(reply.value)] + old(store.orders)
      ensures !reply.Data? ==> isSuccess == old(isSuccess) && orderId == old(orderId)
      ensures !reply.Data? ==> store.orders == old(store.orders)
    {
      var draft := StartSubmit(items, total);
      var result;
      request, result := store.AddOrder(draft, reply);
      clearCart := FinishSubmit(result);
    }

    /** The success view comes first; otherwise an empty cart sends the visitor back to the
        cart page; otherwise the form is shown. */
    function CurrentView(items: seq<CartItem>): (v: View)
      requires Valid()
      reads this
      ensures isSuccess ==> v == SuccessView(orderId, formData["email"])
      ensures !isSuccess && items == [] ==> v == RedirectToCart
      ensures !isSuccess && items != [] ==> v == FormView
    {
      if isSuccess then SuccessView(orderId, formData["email"])
      else if |items| == 0 then RedirectToCart
      else FormView
    }
  }
}
