# Firewood storefront core, modelled in Dafny

This project models the data handling of a French firewood storefront. The site is a React
single-page application that sells firewood, stoves and accessories, and its catalogue and
orders live in a hosted datastore. The modelled parts are:

- the **currency provider**: a three-entry rate table (EUR, CHF, GBP), the selected currency,
  `convertPrice` rounding to cents and `formatPrice`;
- the **product provider**: the row ↔ product mappers with their defaults, the `dbUpdates`
  column set of an update, the local overlay, and the prepend/map/filter effects of add,
  update and delete. Fetch replaces the list or keeps it. It also has `getProduct` and the
  loading flag;
- the **order provider**: the row → order mapper, item serialisation (stored images only, at
  most one), the inserted row, the list effects of add/status update/delete, fetch, refresh
  and `getOrder`;
- the **catalogue page**: the category filter, the case-insensitive search, the four sort
  orders (an in-place insertion sort on a copy) and the heading;
- the **featured selection**: the first four discounted or highly rated products;
- the **product page**: the lookup, the quantity stepper clamps, add-to-cart and the discount
  badge;
- the **admin page**: login, the product form and its edits, validation and default filling
  on submit, image removal, the sequential image upload loop and the dashboard figures;
- the **checkout page**: the form, the order draft, the submit flow (the cart is cleared only
  on success) and the choice of view;
- the **lazy image**: source validation, the loaded/error/in-view flag machine and what is
  drawn;
- the **storage helpers**: file extension, upload path and extraction of the stored path from
  a public URL.

The model's conventions:

- Prices are exact `real` numbers.
- `Math.round` is `⌊y + ½⌋` (`Text.RoundHalfUp`).
- `Number.prototype.toFixed` follows its ECMAScript definition on the exact value
  (`Text.ToFixed`). It is proved to read back as the value on its decimal grid.
- Every call to the hosted datastore or to file storage becomes an input: a
  `Reply` (row returned, no row, or error) or an optional error message.
- These also become inputs:
  - `parseFloat` and `parseInt`;
  - a price's `toString`;
  - the clock (`Date.now`) and the base-36 text of `Math.random`;
  - `getPublicUrl`;
  - the category list;
  - the bundled initial products.
- The cart store is not part of this model. Checkout receives the cart's items and total as
  inputs and reports whether it clears the cart.

Modules, one per source file:

| module | file |
|---|---|
| `CurrencyContext` | `currency.dfy` |
| `ProductContext` | `product_context.dfy` |
| `OrderContext` | `order_context.dfy` |
| `ProductsPage` | `catalog.dfy` |
| `FeaturedProducts` | `featured.dfy` |
| `ProductDetail` | `product_detail.dfy` |
| `Admin` | `admin.dfy` |
| `Checkout` | `checkout.dfy` |
| `OptimizedImage` | `optimized_image.dfy` |
| `Storage` | `storage.dfy` |

Shared modules:

- `Types`: the entities of `src/types/product.ts`.
- `Wrappers`: `Option`, `Result` and `Reply`.
- `Seqs`: filter, map, take and find-first with their laws.
- `Text`: decimal digits, `toFixed`, `toString`, `startsWith`, `includes`, `indexOf` and ASCII
  `toLowerCase`.

## Model

| member | source | states |
|---|---|---|
| CurrencyContext.Currencies | src/context/CurrencyContext.tsx:11-15 | each entry's code is its key and every rate is positive |
| CurrencyContext.Convert | src/context/CurrencyContext.tsx:29-32 | the converted price is a whole number of cents and lies within half a cent of price × rate |
| CurrencyContext.ConvertEurIdentity | src/context/CurrencyContext.tsx:12 | under EUR, conversion is the identity on prices given in whole cents |
| CurrencyContext.ConvertMonotone | src/context/CurrencyContext.tsx:13-15 | conversion never reverses the order of two prices |
| CurrencyContext.ConvertZero | src/context/CurrencyContext.tsx:31 | a zero price converts to zero in every currency |
| CurrencyContext.Format | src/context/CurrencyContext.tsx:34-42 | `formatPrice`: the converted price with two decimals and the currency symbol, in front for CHF and behind otherwise; FormatShowsConvertedValue proves what the text holds |
| CurrencyContext.FormatShowsConvertedValue | src/context/CurrencyContext.tsx:34-42 | CHF text is symbol, space, number; other currencies put number, space, symbol. The number part reads back as the converted value, not the raw price |
| CurrencyContext.FormatPoundsExample | src/context/CurrencyContext.tsx:41 | ten euros display as "8.60 £" |
| CurrencyContext.FormatFrancsExample | src/context/CurrencyContext.tsx:39 | ten euros display as "CHF 9.40" |
| CurrencyContext.CurrencyStore.constructor | src/context/CurrencyContext.tsx:27 | the selected currency starts at EUR |
| CurrencyContext.CurrencyStore.SetCurrency | src/context/CurrencyContext.tsx:19 | the selection becomes the given currency |
| CurrencyContext.CurrencyStore.ConvertPrice | src/context/CurrencyContext.tsx:29-32 | the converted price is a whole number of cents within half a cent of the price times the selected currency's rate |
| CurrencyContext.CurrencyStore.FormatPrice | src/context/CurrencyContext.tsx:34-42 | the selected currency's symbol in front for CHF and behind otherwise, around a number that reads back as the converted price |
| Text.RoundHalfUp | src/context/CurrencyContext.tsx:31 | `Math.round` gives the integer within half a unit below and above the value |
| Text.ToFixed | src/context/CurrencyContext.tsx:39-41 | `toFixed(f)`: a minus sign for a negative value, then the digits of its magnitude scaled by 10^f and rounded, with the point f digits from the end; ToFixedRoundTrip proves it reads back |
| Text.ToFixedRoundTrip | src/context/CurrencyContext.tsx:39-41 | `toFixed(f)` of a value on the 10^-f grid reads back as that value |
| ProductContext.OrElse | src/context/ProductContext.tsx:23-38 | `s || fallback` on an optional text: the text when present and non-empty, else the fallback |
| ProductContext.DbToProduct | src/context/ProductContext.tsx:20-42 | rating 4.5, reviews 0, minOrder 1, '3-7 jours', ['PEFC'] and the fixed seller always. Stock is 100 or 0, positive exactly when the row is in stock. Missing description, subcategory or unit default to '', '' and 'stère'; missing images and specs to empty. A zero or missing original price is absent |
| ProductContext.ProductToDb | src/context/ProductContext.tsx:45-57 | featured is always false; in stock exactly when stock > 0; the other columns are copied |
| ProductContext.RowRoundTrip | src/context/ProductContext.tsx:20-57 | reading a row and writing it back keeps its in-stock flag and every column the row holds: a non-empty unit and a non-zero original price survive, a zero original price is dropped |
| ProductContext.DraftRoundTrip | src/context/ProductContext.tsx:20-57 | storing a draft and reading it back keeps the stored columns. Stock collapses to 100/0 and the fixed fields take their defaults |
| ProductContext.DbUpdatesOf | src/context/ProductContext.tsx:111-121 | a column for exactly each of the ten mapped fields the update carries; stock becomes in_stock = stock > 0 |
| ProductContext.Overlay | src/context/ProductContext.tsx:132 | `{ ...product, ...updates }`: each field the update carries replaces the product's, the others are kept; OverlayLaws states its laws |
| ProductContext.OverlayLaws | src/context/ProductContext.tsx:132 | the overlay with an empty update is the identity, and overlaying twice is overlaying once |
| ProductContext.UpdateAgreesWithDatastore | src/context/ProductContext.tsx:111-134 | the locally overlaid product agrees with the product read back from the updated row on every stored column (stock up to being positive), for an update that keeps the id, sets no empty unit and sets no zero original price |
| ProductContext.UpdateWhere | src/context/ProductContext.tsx:130-134 | same length; each product with the id is overlaid, every other is unchanged in place |
| ProductContext.RemoveWhere | src/context/ProductContext.tsx:152 | no product with the id remains and every product with another id is kept |
| ProductContext.RemoveWhereCounts | src/context/ProductContext.tsx:152 | every product with another id is kept as many times as it occurs, and none with the id |
| ProductContext.RemoveWhereOrder | src/context/ProductContext.tsx:152 | removal keeps the order of the remaining products: it distributes over concatenation and keeps or drops a single product by its id |
| ProductContext.UpdateKeepsOthers | src/context/ProductContext.tsx:130-134 | an update changes nothing outside the products with the id: both lists agree once those are removed |
| ProductContext.RemoveIdempotent | src/context/ProductContext.tsx:152 | deleting the same id twice is deleting it once |
| ProductContext.ProductStore.constructor | src/context/ProductContext.tsx:61-62 | the list starts as the initial products, not loading |
| ProductContext.ProductStore.FetchProducts | src/context/ProductContext.tsx:64-81 | a non-empty result replaces the list (mapped row by row); an empty result or an error keeps it |
| ProductContext.ProductStore.RefreshProducts | src/context/ProductContext.tsx:165-168 | loading is switched on and the fetch runs |
| ProductContext.ProductStore.AddProduct | src/context/ProductContext.tsx:88-107 | the request is `productToDb` of the draft. A returned row is prepended; no row changes nothing; an error is rethrown with the list unchanged |
| ProductContext.ProductStore.UpdateProduct | src/context/ProductContext.tsx:109-141 | the request is `dbUpdates`. On success, only products with the id are overlaid; on error the list is unchanged and the error rethrown |
| ProductContext.ProductStore.DeleteProduct | src/context/ProductContext.tsx:143-159 | on success every product with the id goes; on error the list is unchanged and the error rethrown |
| ProductContext.ProductStore.GetProduct | src/context/ProductContext.tsx:161-163 | a product is found exactly when one has the id, and it is the first product in the list with that id |
| Types.FindProduct | src/pages/ProductDetail.tsx:31 | found exactly when some product has the id; the result is the first such product |
| Seqs.Filter | src/context/ProductContext.tsx:152 | `filter`: never longer than the list; an element is kept exactly when it is in the list and passes the test. FilterAppend and FilterMultisets fix the order and the counts |
| Seqs.FilterAppend | src/context/ProductContext.tsx:152 | filtering a concatenation filters each part in turn, so `filter` keeps the order of what it keeps |
| Seqs.FilterMultisets | src/context/ProductContext.tsx:152 | `filter` keeps each passing element as many times as it occurs, and no failing one |
| Seqs.FilterIdempotent | src/pages/Products.tsx:24-37 | filtering twice by the same test is filtering once |
| Seqs.FilterFilter | src/pages/Products.tsx:24-37 | two successive filters are one filter by the conjunction of their tests |
| Seqs.FilterHead | src/context/OrderContext.tsx:90 | `filter(…).slice(0, 1)` keeps the element `find` would return: `filter` keeps some element exactly when one passes, and the first it keeps is the first that passes |
| Seqs.Map | src/context/ProductContext.tsx:131-133 | `map`: same length, and each element is the function applied to the element at the same index |
| Seqs.Take | src/components/home/FeaturedProducts.tsx:11 | `slice(0, n)`: the first n elements, or all of them when fewer |
| Seqs.FindFirst | src/context/ProductContext.tsx:162 | `find`: found exactly when an element satisfies the test; the result is the first element that does |
| OrderContext.DbToOrder | src/context/OrderContext.tsx:37-53 | missing items become []; total, status, contact and address come from the row |
| OrderContext.KeptImages | src/context/OrderContext.tsx:90 | at most one image, never a `data:` one, and none only when every image is a `data:` one |
| OrderContext.KeptImageIsFirst | src/context/OrderContext.tsx:90 | the kept image is the first stored image; no earlier one is skipped |
| OrderContext.SerializeItem | src/context/OrderContext.tsx:85-94 | quantity and product id, name, price and unit are kept; at most one image, the product's first image that is not `data:` |
| OrderContext.ItemsJson | src/context/OrderContext.tsx:85-94 | item count and order are kept; each item is serialised as above, its image being the product's first stored image |
| OrderContext.NullIfEmpty | src/context/OrderContext.tsx:97-104 | empty or missing text becomes null; other text is kept |
| OrderContext.DbOrderOf | src/context/OrderContext.tsx:96-108 | status pending, total_amount the draft total, empty name/phone/notes null; address, e-mail and serialised items copied |
| OrderContext.DraftRoundTrip | src/context/OrderContext.tsx:96-119 | storing a draft and reading it back gives a pending order with the draft's contact, address, total and serialised items |
| OrderContext.SetStatusWhere | src/context/OrderContext.tsx:141-145 | same length; orders with the id get the new status and nothing else changes |
| OrderContext.RemoveOrders | src/context/OrderContext.tsx:163 | no order with the id remains and every other order is kept |
| OrderContext.RemoveOrdersCounts | src/context/OrderContext.tsx:163 | every order with another id is kept as many times as it occurs, and none with the id |
| OrderContext.RemoveOrdersOrder | src/context/OrderContext.tsx:163 | removal keeps the order of the remaining orders: it distributes over concatenation and keeps or drops a single order by its id |
| OrderContext.SetStatusKeepsOthers | src/context/OrderContext.tsx:141-145 | a status update changes nothing outside the orders with the id |
| OrderContext.SetStatusTwice | src/context/OrderContext.tsx:141-145 | two status updates of the same id amount to the last one |
| OrderContext.OrderStore.constructor | src/context/OrderContext.tsx:56-57 | no orders, loading |
| OrderContext.OrderStore.FetchOrders | src/context/OrderContext.tsx:59-76 | any returned list, even an empty one, replaces the orders; an error keeps them; loading ends in every case |
| OrderContext.OrderStore.RefreshOrders | src/context/OrderContext.tsx:176-179 | the fetch runs after loading restarts, and loading ends |
| OrderContext.OrderStore.AddOrder | src/context/OrderContext.tsx:82-130 | the request is the `dbOrder` of the draft. A returned row is prepended and its id returned; no row is the error 'No data returned'; any error leaves the list unchanged |
| OrderContext.OrderStore.UpdateOrderStatus | src/context/OrderContext.tsx:132-152 | on success only the status of orders with the id changes; on error the list is unchanged |
| OrderContext.OrderStore.DeleteOrder | src/context/OrderContext.tsx:154-170 | on success the orders with the id are removed; on error the list is unchanged |
| OrderContext.OrderStore.GetOrder | src/context/OrderContext.tsx:172-174 | an order is found exactly when one has the id, and it is in the list |
| ProductsPage.Truthy | src/pages/Products.tsx:24-29 | a URL parameter is set and non-empty, the test `if (selectedCategory)` and `if (searchQuery)` make |
| ProductsPage.InCategory | src/pages/Products.tsx:24-26 | without a set category every product passes; with one, exactly the products of that category |
| ProductsPage.MatchesQuery | src/pages/Products.tsx:29-37 | without a set query every product passes; with one, the lower-cased name, description or subcategory contains the lower-cased query |
| ProductsPage.SortKey | src/pages/Products.tsx:41-53 | each option's comparator as an ascending key: price, minus price, minus rating, minus review count; SortedMeaning turns sortedness by it back into the comparators' orders |
| ProductsPage.SortInPlace | src/pages/Products.tsx:41-53 | the array ends sorted by the option's key and is a permutation of what it held |
| ProductsPage.SortedMeaning | src/pages/Products.tsx:42-52 | sorted by key means: price non-decreasing, price non-increasing, rating non-increasing, or review count non-increasing |
| ProductsPage.ApplyFilters | src/pages/Products.tsx:22-38 | the category step then the search step keep exactly the products passing both tests, in catalogue order |
| ProductsPage.FilteredProducts | src/pages/Products.tsx:21-56 | the result is a permutation of exactly the listed products: with a category, only that category; with a query, only products whose lower-cased name, description or subcategory contains it. It is ordered by the chosen option |
| ProductsPage.CategoryLabel | src/pages/Products.tsx:58-65 | the selected category's name (or 'Produits' when none matches), else 'Résultats pour "…"', else 'Tous nos Produits' |
| ProductsPage.CategoryLabelNamesFirstEntry | src/pages/Products.tsx:60-61 | the heading is decided by the first category entry with the selected id: its name, or 'Produits' when that name is empty, whatever later entries hold |
| Text.Lower | src/pages/Products.tsx:31-36 | `toLowerCase` keeps the length, maps each character, and leaves no upper-case ASCII letter |
| Text.LowerIdempotent | src/pages/Products.tsx:31 | lower-casing twice is lower-casing once |
| Types.HasOriginalPrice | src/components/home/FeaturedProducts.tsx:10 | `p.originalPrice` is truthy: present and not zero |
| FeaturedProducts.Qualifies | src/components/home/FeaturedProducts.tsx:10 | a product qualifies when it has a truthy original price or a rating of at least 4.7 |
| FeaturedProducts.Featured | src/components/home/FeaturedProducts.tsx:9-11 | at most four qualifying products from the catalogue, a prefix of the qualifying ones in order; all of them when fewer than four qualify, exactly four otherwise |
| FeaturedProducts.FeaturedIsFirstQualifying | src/components/home/FeaturedProducts.tsx:9-11 | the selection equals the first four qualifying products found scanning the catalogue |
| FeaturedProducts.TakeFilterIsFirstQualifying | src/components/home/FeaturedProducts.tsx:9-11 | filter then slice equals a single scan that stops after n qualifying products |
| ProductDetail.Decremented | src/pages/ProductDetail.tsx:162 | `Math.max(minOrder, q - 1)`: at least both, and equal to one of them |
| ProductDetail.Incremented | src/pages/ProductDetail.tsx:170 | `Math.min(stock, q + 1)`: at most both, and equal to one of them |
| ProductDetail.StepperKeepsRange | src/pages/ProductDetail.tsx:162-170 | a quantity between the minimum order and the stock stays there under both buttons |
| ProductDetail.StepperInverse | src/pages/ProductDetail.tsx:162-170 | below the stock, minus undoes plus |
| ProductDetail.Discount | src/pages/ProductDetail.tsx:54-56 | 0 without a truthy original price; otherwise the saving in percent, rounded half up |
| ProductDetail.DiscountBounds | src/pages/ProductDetail.tsx:54-56 | for a price between 0 and the original price, the discount is between 0 and 100 |
| ProductDetail.BadgeExactly | src/pages/ProductDetail.tsx:79 | the badge shows exactly when the price is at most 99.5% of the original price |
| ProductDetail.ShowsBadge | src/pages/ProductDetail.tsx:79 | the `-n%` badge is drawn exactly for a positive discount; BadgeExactly turns this into a bound on the price |
| ProductDetail.DetailPage.constructor | src/pages/ProductDetail.tsx:29 | the quantity starts at 1; the page holds no other state |
| ProductDetail.DetailPage.Decrement | src/pages/ProductDetail.tsx:162 | the quantity becomes `max(minOrder, q - 1)`, with the minimum order of the first product in the current list with the route id |
| ProductDetail.DetailPage.Increment | src/pages/ProductDetail.tsx:170 | the quantity becomes `min(stock, q + 1)`, with the stock of the first product in the current list with the route id |
| ProductDetail.DetailPage.AddToCart | src/pages/ProductDetail.tsx:31-52 | the cart receives the first product in the current list with the route id, with the unchanged stepper quantity; when none has the id, nothing is added |
| Admin.ApplyEdit | src/pages/Admin.tsx:725-786 | each input changes its own field and no other |
| Admin.FormOf | src/pages/Admin.tsx:124-138 | the form shows the product's fields; stock and minimum order are shown with `toString`, as digits that read back as the numbers |
| Admin.FormOfComplete | src/pages/Admin.tsx:124-160 | a form filled from a product is rejected as incomplete exactly when the product's name or its shown price is empty; a zero stock shows as '0' and passes |
| Text.NatToString | src/pages/Admin.tsx:207-209 | `toString` of a count: never empty, only digits, a leading '0' exactly for zero; NatToStringValue reads it back as the count |
| Text.NatToStringValue | src/pages/Admin.tsx:207-209 | the decimal text of a count reads back as that count |
| Text.IntToString | src/pages/Admin.tsx:134-135 | `toString` of an integer: never empty, with no leading zero except for 0 itself; its digits (after '-' when negative) read back as the integer |
| Admin.ProductData | src/pages/Admin.tsx:167-186 | an empty subcategory falls back to the category; no images become exactly the placeholder; rating 4.5, reviews 0, the fixed seller and empty specifications |
| Admin.UpdateOf | src/pages/Admin.tsx:188-189 | the submitted data overlays every field of the edited product except id, original price and certifications |
| Admin.WithoutIndex | src/pages/Admin.tsx:118-121 | exactly the element at the index is removed and the others keep their order; an index outside the list removes nothing |
| Admin.UploadedUrls | src/pages/Admin.tsx:88-94 | the URLs are those of the uploads in file order, up to the first failed upload |
| Admin.UploadedUrlsSnoc | src/pages/Admin.tsx:88-93 | one more successful upload appends its URL at the end |
| Admin.UploadedPrefix | src/pages/Admin.tsx:88-99 | a failed upload stops the URLs at the successful uploads before it |
| Admin.Revenue | src/pages/Admin.tsx:210 | `reduce` from the left over the order totals, starting from the accumulator |
| Admin.TotalOf | src/pages/Admin.tsx:210 | the sum of the order totals, the reference RevenueIsTotal compares the fold with |
| Admin.RevenueIsTotal | src/pages/Admin.tsx:210 | the left fold of `reduce` is exactly the sum of the order totals |
| Admin.DashboardStats | src/pages/Admin.tsx:206-211 | the counts are the plain decimal texts of the numbers of orders, products and pending orders, and read back as those numbers; revenue is the sum of totals to the euro, followed by '€' |
| Admin.IsPending | src/pages/Admin.tsx:209 | the dashboard's pending test: the status is 'pending' |
| Admin.DashboardPendingWithinOrders | src/pages/Admin.tsx:207-209 | the pending figure never exceeds the order figure |
| Admin.AdminPage.constructor | src/pages/Admin.tsx:37-79 | not authenticated, blank form, nothing being edited, modal closed, not uploading |
| Admin.LoginAccepted | src/pages/Admin.tsx:64 | the credentials check: exactly the user name 'Admine' with the access code '1990' |
| Admin.Incomplete | src/pages/Admin.tsx:158 | the submission guard: the name, the price or the stock text is empty |
| Admin.AdminPage.HandleLogin | src/pages/Admin.tsx:62-77 | only 'Admine' with '1990' authenticates; any other pair changes nothing |
| Admin.AdminPage.Logout | src/pages/Admin.tsx:300 | the page becomes unauthenticated |
| Admin.AdminPage.EditForm | src/pages/Admin.tsx:725-786 | the form changes by exactly that input's edit |
| Admin.AdminPage.OpenProductModal | src/pages/Admin.tsx:124-155 | editing a product fills the form from it; otherwise the form is blank; the modal opens |
| Admin.AdminPage.HandleProductSubmit | src/pages/Admin.tsx:157-197 | an empty name, price or stock is rejected and nothing changes. Otherwise the edited product's id is updated, or else a product is added, and the modal closes |
| Admin.AdminPage.RemoveImage | src/pages/Admin.tsx:110-122 | the image at the index is removed and the rest keep their order; storage deletion is requested exactly for URLs containing 'product-images' |
| Admin.AdminPage.HandleImageUpload | src/pages/Admin.tsx:81-108 | without files nothing happens. Otherwise the URLs are appended in file order up to the first failure, failure is reported exactly when an upload failed, and uploading ends |
| Checkout.EmptyAsAbsent | src/pages/Checkout.tsx:65-73 | a form text becomes absent exactly when it is empty, and is kept otherwise |
| Checkout.DraftOf | src/pages/Checkout.tsx:62-75 | the draft has the cart's items and total, the form's e-mail and address, and name, phone and notes absent when empty |
| Checkout.DraftStoresEmptyAsNull | src/pages/Checkout.tsx:62-75 | an empty name, phone or notes reaches the datastore as null; the stored order is pending with the cart total |
| Checkout.CheckoutPage.constructor | src/pages/Checkout.tsx:32-45 | not submitting, no success, no order id, all fields empty except country 'France' |
| Checkout.CheckoutPage.HandleChange | src/pages/Checkout.tsx:47-54 | only the input's own field changes |
| Checkout.CheckoutPage.SelectCountry | src/pages/Checkout.tsx:241-245 | only the country changes, to one of the offered countries |
| Checkout.CheckoutPage.StartSubmit | src/pages/Checkout.tsx:56-75 | submitting starts and the draft is built from the form and the cart |
| Checkout.CheckoutPage.FinishSubmit | src/pages/Checkout.tsx:77-94 | the cart is cleared exactly on an id, and only then are success and the id set; submitting ends either way |
| Checkout.CheckoutPage.HandleSubmit | src/pages/Checkout.tsx:56-95 | the row sent to the datastore is the stored form of the draft built from the form and the cart. The cart is cleared exactly when the order store returns a row, whose id the page then shows. On failure neither the page's success state nor the store's list changes; the store's loading flag never changes |
| Checkout.CheckoutPage.CurrentView | src/pages/Checkout.tsx:97-128 | the success view first; otherwise an empty cart redirects to the cart; otherwise the form |
| Text.StartsWith | src/components/ui/optimized-image.tsx:50-53 | `startsWith`: the prefix is no longer than the text and equals its beginning |
| Text.Includes | src/pages/Admin.tsx:114 | `includes`: the needle occurs at some position of the text |
| OptimizedImage.IsValidImageUrl | src/components/ui/optimized-image.tsx:46-54 | `isValidImageUrl`: non-empty and beginning with 'http://', 'https://', 'data:image/' or '/'; ValidityByPrefix and RejectedSources state what it admits |
| OptimizedImage.ValidityByPrefix | src/components/ui/optimized-image.tsx:46-54 | a valid source begins with 'h', 'd' or '/', and every non-empty source beginning with '/' is valid |
| OptimizedImage.RejectedSources | src/components/ui/optimized-image.tsx:46-54 | the empty source, an ftp URL and a non-image data URL are invalid |
| OptimizedImage.ImageView.constructor | src/components/ui/optimized-image.tsx:21-43 | all three flags start false; the observer watches exactly a valid source |
| OptimizedImage.ImageView.Intersect | src/components/ui/optimized-image.tsx:28-33 | the first intersection sets in-view for good and disconnects the observer; nothing else changes |
| OptimizedImage.ImageView.HandleLoad | src/components/ui/optimized-image.tsx:56-59 | loaded and no error |
| OptimizedImage.ImageView.HandleError | src/components/ui/optimized-image.tsx:61-64 | error and loaded |
| OptimizedImage.ImageView.Draw | src/components/ui/optimized-image.tsx:66-116 | the placeholder exactly for an invalid source; otherwise the skeleton exactly when not loaded, the image exactly when in view without error, the fallback exactly on error |
| OptimizedImage.DrawingConsistent | src/components/ui/optimized-image.tsx:86-114 | in reachable states the image and the fallback, or the skeleton and the fallback, are never drawn together |
| Storage.FileExtension | src/lib/storage.ts:4 | the extension is a suffix of the name with no '.', preceded by '.' when shorter than the name |
| Storage.FileExtensionUnique | src/lib/storage.ts:4 | those three facts determine the extension: it is the text after the last '.', or the whole name |
| Storage.DropTwo | src/lib/storage.ts:5 | `substring(2)`: the text without its first two characters, or empty when it is shorter |
| Storage.StoragePath | src/lib/storage.ts:5-6 | `products/<stamp>-<random>.<ext>`; StoragePathParts states where each part sits |
| Storage.StoragePathParts | src/lib/storage.ts:5-6 | the path starts 'products/' + stamp + '-', ends '.' + extension, and what lies between them is exactly the random part |
| Storage.UploadPath | src/lib/storage.ts:4-6 | the path is 'products/', the clock reading, '-', the random base-36 text without its first two characters, '.', and the file's own extension, which is also the path's extension |
| Storage.UploadProductImage | src/lib/storage.ts:12-21 | an upload error gives the fixed error and no URL; otherwise the public URL of the path |
| Storage.ExtractPath | src/lib/storage.ts:26-29 | a path exactly when the URL contains '/product-images/'; it contains no marker, directly follows the first marker, and runs to the end of the URL or to the next marker, with no marker starting inside it |
| Storage.PathAfterFirstMarkerUnique | src/lib/storage.ts:26-29 | that description fixes the marker position and the value: at most one text meets it |
| Storage.ExtractPathRoundTrip | src/lib/storage.ts:26-29 | a URL with one marker gives back the whole text after it |
| Storage.ExtractPathSecondMarker | src/lib/storage.ts:26-29 | a URL with a second marker gives back the text between the first two markers |
| Storage.DeleteProductImage | src/lib/storage.ts:24-38 | skipped exactly without the marker; otherwise the extracted path is removed, and a removal error is only logged |

## Left out

- The cart store (`CartContext.tsx`) is not part of this model; checkout takes its items and total as inputs.
- Calls to the hosted datastore and file storage are inputs (a returned row, no row, or an error), not requests.
- Toasts, console logging, routing and `navigate`, and the `confirm` dialogs before deleting a product or an order are left out. Deleting goes straight to the provider's delete.
- `Date.now`, `Math.random`, `getPublicUrl`, `parseFloat`, `parseInt` and a price's `toString` are parameters. IEEE floating point and `NaN` are not modelled: prices and rates are exact reals.
- Text.ToFixed: follows the ECMAScript rounding on exact values only; the exponent notation used for values of 10^21 and more is not modelled.
- Text.Lower: lower-cases the ASCII letters only; Unicode case mapping is not modelled.
- `IntersectionObserver` is reduced to its intersection callback; the root margin and element geometry are not modelled.
- Order dates are kept as the row's text; parsing them with `new Date` is not modelled.
- ProductsPage.FilteredProducts: states a permutation sorted by the option's key, not the stability of JavaScript's `sort` among equal keys.
- ProductContext.DbUpdatesOf, ProductContext.Overlay and ProductContext.UpdateAgreesWithDatastore: an update field that is present but `undefined` is modelled as absent, since `Partial` values are `Option`s. The source's spread would copy such an `undefined` over the product while `dbUpdates` skips it; the one caller, the admin form, always passes defined values. The conditional assignments are built as one value.
- ProductContext.ProductStore.RefreshProducts: the loading flag is switched on and never off again. The model keeps it so; nothing in the model reads it.
- OptimizedImage.ImageView: `src` is fixed when the view is made. The observer effect runs once on mount, so a source that changes later is not observed; the model has no operation that changes it.
- The lazy image's `fallbackSrc` prop has a default but is never used by the component, so it is not modelled.
- The admin page's tab switching, the order details dialog, the modal's cancel button and the settings tab are presentation only.
- Presentational files are not modelled: Footer, Hero, BrandDNA, WhyChooseUs, Categories, VideoSection, Index, the Newsletter delay, Cart, ProductCard (its discount formula is the one of the product page) and Header's search trim.
- `setCurrency` has no run-time check of its argument: the code types it as the union `Currency`. The model follows the code, and its enumeration makes an unknown code unrepresentable.
