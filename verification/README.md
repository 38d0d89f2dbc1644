# Pahadi Bazaar storefront — a verified model

This project models, in Dafny, the rules of the Pahadi Bazaar storefront: its
Express API and the parts of the React client that hold logic. The database
collections are sequences of records with first-match lookup. Every outside
service is a parameter: the password library (`hash`, `matches`), token
signing and verification (`sign`, `verify`), the reset-token digest, the
image upload, the Stripe session and events, the Google profile, the schema
validator (`accepts`) and the clock (`now`). Money is counted in whole currency
units, and the 2% tax is `2 * amount / 100` rounded down.

Modules, following the program's structure:

- `Wrappers`, `Seqs`, `Sorting`, `Text`: replies (`Reply`: `Ok` or `Err` with status and message), order-preserving filter, a stable insertion sort, and the string helpers (case mapping on ASCII letters, trimming, number printing).
- `Constants`: HTTP statuses, order statuses, payment types, cookie options and the tax rate.
- `Catalog`, `Products`, `Paging`, `ProductFilters`, `RelatedProducts`, `RecentlyViewed`: products, the server search with its pagination, the client filter and sort pipeline, and the two client lists.
- `Carts`, `AppContext`, `CartPage`, `ServerCart`, `Wishlist`, `Users`: the client cart map and wishlist, the cart page's order payload and totals, and the server cart and wishlist endpoints over the user store.
- `Orders`, `LegacyOrders`: order pricing, the Stripe line items, the payment webhook and the order listings, for both the current and the older server tree.
- `Coupons`: creation, application, listing, toggling and deletion of coupons.
- `Reviews`: adding, listing with the rating aggregate, the lightweight rating and author-only deletion.
- `AuthMiddleware`, `Accounts`, `Passwords`, `GoogleLogin`, `Addresses`: the request gates, registration and the logins, the profile and password endpoints, the Google callback and delivery addresses.
- `ErrorHandler`, `ResponseHelpers`: the global error classifier and the response envelope helpers.

The older server tree (`server/controllers`, `server/middlewares`) repeats most
of the current tree (`server/src`). Where the two behave the same, one member
models both; each place where they diverge has a member of its own (`Legacy...`).

Two behaviours of the code worth noting:

- A fixed-amount coupon is not capped by `maximumDiscount`; only a percentage discount is.
- `applyCoupon` treats a usage limit of 0 as no limit; only the active-coupon listing treats 0 as a limit.

## Model

| member | source | states |
|---|---|---|
| Constants.OrderStatusesEnumerated | server/constants/index.js:19-26 | the order statuses are exactly six, each listed once, and their display labels are pairwise different |
| Constants.PaymentTypeName | server/constants/index.js:29-32 | the two payment types are named "COD" and "Online" and nothing else |
| Constants.CookieOptionsFor | server/constants/index.js:35-40 | a session cookie is always httpOnly; it is secure and SameSite=none exactly in production and strict otherwise; it lives seven days, 604800000 ms, in agreement with the 7d token lifetime of line 43 |
| Constants.ClearCookieOptions | server/src/controllers/auth.controllers.js:100-110 | clearing the session cookie uses the same flags as setting it, without a lifetime |
| Constants.Tax | server/constants/index.js:46 | the 2 % tax on a whole amount is floor(amount × 2 / 100): the largest t with 100t ≤ 2·amount; it lies between 0 and the amount when the amount is non-negative |
| Carts.Put | client/src/context/AppContext.jsx:177-182 | writing `cart[id] = q` makes the key read q, leaves every other key as it was, keeps keys unique, and appends a key that was absent |
| Carts.Delete | client/src/context/AppContext.jsx:191 | `delete cart[id]` makes the key absent, leaves every other key as it was and keeps only lines already present |
| Carts.CountPut | client/src/context/AppContext.jsx:205-211 | the item count after a write changes by the new quantity minus the old one |
| Carts.CountDelete | client/src/context/AppContext.jsx:205-211 | the item count after deleting a key drops by that key's quantity |
| Carts.PutPut | client/src/context/AppContext.jsx:177-182 | of two writes to one key only the second survives |
| Carts.PutSame | client/src/context/AppContext.jsx:177-182 | writing back the value a key already holds leaves the cart unchanged |
| Carts.DeleteAfterPutNew | client/src/context/AppContext.jsx:186-199 | deleting a key just added restores the cart |
| AppContext.AddToCart | client/src/context/AppContext.jsx:164-173 | a truthy entry goes up by one and a missing or zero entry becomes 1; no other key changes and the item count rises by exactly one |
| AppContext.UpdateCartItem | client/src/context/AppContext.jsx:177-182 | the entry becomes exactly the given quantity, 0 included; no other key changes |
| AppContext.RemoveFromCart | client/src/context/AppContext.jsx:186-199 | a missing or zero entry leaves the cart as it was; an entry of 1 disappears; any other entry goes down by one; no other key changes |
| AppContext.RemoveFromCartCount | client/src/context/AppContext.jsx:186-199 | removing takes exactly one off the item count unless the entry was missing or zero |
| AppContext.RemoveUndoesAdd | client/src/context/AppContext.jsx:164-199 | removing after adding gives the cart back exactly when the entry was not 0 or -1 beforehand, both directions |
| AppContext.RemoveUndoesAddPositive | client/src/context/AppContext.jsx:164-199 | in a cart of positive quantities removing after adding always gives the cart back |
| AppContext.GetCartCount | client/src/context/AppContext.jsx:205-211 | the loop over the cart's keys returns the sum of all quantities |
| AppContext.CartAmount | client/src/context/AppContext.jsx:214-231 | the cart's value counts only known products with positive quantities; it is non-negative when prices are and 0 when no product is known |
| AppContext.GetCartAmount | client/src/context/AppContext.jsx:214-227 | the loop over the cart's keys returns the cart's value at offer prices |
| AppContext.CartAmountPut | client/src/context/AppContext.jsx:214-227 | adding a new key adds that line's contribution and leaves the rest of the value unchanged |
| AppContext.ToggleWishlist | client/src/context/AppContext.jsx:80-111 | logged out or refused by the server, the list is unchanged; otherwise the product's membership flips and nothing else's does |
| AppContext.ClientAgreesWithServer | client/src/context/AppContext.jsx:88-97 | when the server accepts, the client's optimistic list equals the one the toggle endpoint stores |
| AppContext.NonNullIds | client/src/context/AppContext.jsx:71-72 | one id per non-null entry, in the entries' order and with duplicates kept; an id is listed exactly when some entry carries it |
| AppContext.FetchWishlist | client/src/context/AppContext.jsx:62-77 | logged out gives the empty list; a failed request keeps the current list; otherwise the ids of the non-null entries, one per entry, in order |
| Users.NewUser | server/src/models/user.models.js:3-20 | a new account stores its name, email and password, defaults phone and avatar to "", cart and wishlist to empty and the provider to local, and has no googleId or reset token |
| Users.FindUser | server/src/models/user.models.js:3-20 | lookup by id finds a stored user with that id, and finds none exactly when no user has it |
| Users.FindByEmail | server/src/models/user.models.js:6 | lookup by email finds a stored user with that email, and finds none exactly when no user has it |
| Users.SetUser | server/src/models/user.models.js:3-20 | saving a user replaces the stored record with its id and changes no other record, by lookup and by position |
| Users.SetUserTwice | server/src/models/user.models.js:3-20 | saving the same record twice is the same as saving it once |
| Users.FindUserAt | server/src/models/user.models.js:3-20 | with unique ids, lookup by a stored user's id returns that user |
| Users.SetUserKeepsUniqueKeys | server/src/models/user.models.js:6-13 | saving a user without changing its email or googleId keeps the unique indexes on id, email and googleId |
| Wishlist.Without | server/src/controllers/wishlist.controllers.js:65 | filtering out a product removes every occurrence of it and keeps every other id |
| Wishlist.ToggledFlipsMembership | server/src/controllers/wishlist.controllers.js:88-94 | toggling flips the product's membership and no other id's |
| Wishlist.ToggleTwice | server/src/controllers/wishlist.controllers.js:88-94 | toggling twice restores every id's membership, and the exact list when the product was not listed |
| Wishlist.AppendThenWithout | server/src/controllers/wishlist.controllers.js:42-65 | removing a product just appended to a list that lacked it restores the list |
| Wishlist.GetWishlist | server/src/controllers/wishlist.controllers.js:12-20 | the stored wishlist of a known user comes back with 200; an unknown user ends in a 500 |
| Wishlist.AddToWishlist | server/src/controllers/wishlist.controllers.js:27-48 | a missing product id gives 400; an already listed one gives 409; otherwise the id is appended and nothing else changes |
| Wishlist.RemoveFromWishlist | server/src/controllers/wishlist.controllers.js:55-71 | a missing product id gives 400; otherwise every occurrence is removed from the user's list and no other user changes |
| Wishlist.ToggleWishlist | server/src/controllers/wishlist.controllers.js:78-103 | a missing product id gives 400; otherwise the membership flips and the reply says whether the product is now listed |
| Wishlist.AddThenRemove | server/src/controllers/wishlist.controllers.js:27-71 | adding then removing a product gives the user the wishlist they had |
| ServerCart.UpdateCart | server/src/controllers/cart.controllers.js:11-20 | the stored cart of the user is replaced by the sent map and nothing else changes; the reply is 200 whether or not the id matches a user |
| ServerCart.UpdateCartKeepsUniqueKeys | server/src/controllers/cart.controllers.js:15 | overwriting a cart keeps the unique indexes |
| ServerCart.UpdateCartIdempotent | server/src/controllers/cart.controllers.js:15 | sending the same map twice leaves the state the first request left |
| ServerCart.UpdateCartOverwrites | server/src/controllers/cart.controllers.js:15 | of two updates only the second map survives |
| ServerCart.LegacyUpdateCart | server/controllers/cartController.js:4-17 | the older endpoint answers success, or 500 with the database error and no change |
| ServerCart.LegacyUpdateCartAgrees | server/controllers/cartController.js:4-17 | without a database error the older endpoint stores exactly what the current one does |
| CartPage.GetCart | client/src/pages/Cart.jsx:17-30 | the page's list holds one entry per cart key naming a known product, in cart order, each the first product with that id and the key's quantity, and nothing else; zero quantities are kept |
| CartPage.CartAmountOverEntries | client/src/pages/Cart.jsx:17-30 | the subtotal over the page's entries equals the context's cart amount |
| CartPage.PlaceOrderRequest | client/src/pages/Cart.jsx:32-81 | nothing is sent without a selected address; otherwise COD goes to /api/order/cod and anything else to /api/order/stripe, with one item per entry carrying its product id and quantity, and the address id |
| CartPage.CartAfterOrder | client/src/pages/Cart.jsx:50-53 | only an accepted COD order empties the cart; every other outcome leaves it as it was |
| CartPage.ServerSubtotalMatchesCart | client/src/pages/Cart.jsx:39-58 | with positive quantities the server prices the submitted items at exactly the subtotal the page showed |
| CartPage.QuantityOptions | client/src/pages/Cart.jsx:180-182 | the selector offers 1 up to the larger of 9 and the current quantity, in order, so the current quantity is always offered |
| CartPage.DisplayedTotalPaise | client/src/pages/Cart.jsx:290-294 | the summary's total is the subtotal plus the exact 2 % tax, 102 paise per rupee |
| CartPage.DisplayedTotalVersusStored | client/src/pages/Cart.jsx:290-294 | the page's total exceeds the amount the server stores by the dropped fraction of the tax, and the two agree exactly when the subtotal is a multiple of 50 |
| CartPage.EmptyViewIffNoLines | client/src/pages/Cart.jsx:123 | with positive quantities the empty view is shown exactly when the cart has no keys |
| CartPage.ZeroEntryLooksEmpty | client/src/pages/Cart.jsx:123 | a cart whose only entry was set to 0 shows the empty view although it still holds a key |
| ErrorHandler.Handle | server/src/middlewares/error.middlewares.js:6-54 | the reply is never a success; an ApiError answers with its own status, message and errors; a CastError answers 400 "Invalid path: value"; a duplicate key answers 409 naming the first key; only the validation branch carries a list of messages; every other branch answers a non-zero status with a non-empty message |
| ErrorHandler.HandleFollowsPriority | server/middlewares/error.middleware.js:7-71 | the status is that of the first branch whose test holds, in the order ApiError, CastError, duplicate key, validation, bad token, expired token, fallback |
| ErrorHandler.ApiErrorTakesPrecedence | server/src/middlewares/error.middlewares.js:8-15 | an ApiError that also carries the duplicate-key code answers with its own status, not 409 |
| ResponseHelpers.Success | server/middlewares/response.middleware.js:17-24 | a success body with the given data, carrying the given message and status, or "Success" and 200 when they are left out |
| ResponseHelpers.Error | server/middlewares/response.middleware.js:32-39 | an error body carrying the given message, status and errors, or "Something went wrong", 400 and no errors when they are left out |
| ResponseHelpers.Created | server/middlewares/response.middleware.js:46-48 | a success body at 201 with the given data and the given message, "Created successfully" when it is left out |
| ResponseHelpers.NotFound | server/middlewares/response.middleware.js:54-56 | an error body at 404 with no errors and the given message, "Resource not found" when it is left out |
| ResponseHelpers.Unauthorized | server/middlewares/response.middleware.js:62-64 | an error body at 401 with no errors and the given message, "Unauthorized access" when it is left out |
| ResponseHelpers.Forbidden | server/middlewares/response.middleware.js:70-72 | an error body at 403 with no errors and the given message, "Access forbidden" when it is left out |
| ResponseHelpers.CreatedIsSuccess | server/middlewares/response.middleware.js:46-48 | `created` is `success` at 201 |
| ResponseHelpers.ShortcutsAreErrors | server/middlewares/response.middleware.js:54-72 | `notFound`, `unauthorized` and `forbidden` are `error` at 404, 401 and 403 with the same message |
| ResponseHelpers.ResponseMiddleware | server/middlewares/response.middleware.js:10-75 | the middleware attaches exactly the six helpers and passes control on once |
| RecentlyViewed.SnapshotOf | client/src/components/RecentlyViewed.jsx:20-27 | the stored snapshot copies id, name, both prices and category, and the first image, absent when there is none |
| RecentlyViewed.AddToRecentlyViewed | client/src/components/RecentlyViewed.jsx:10-33 | a product without an id changes nothing; otherwise it heads the list, followed by the first seven earlier entries for other products, in their old order |
| RecentlyViewed.EarlierViewsKeptWhileRoom | client/src/components/RecentlyViewed.jsx:16-30 | while at most seven other products were viewed, every earlier view of another product survives a new view |
| RecentlyViewed.AddKeepsDistinct | client/src/components/RecentlyViewed.jsx:17-20 | the list never holds two entries for the same product |
| RecentlyViewed.AddTwice | client/src/components/RecentlyViewed.jsx:10-33 | viewing the same product twice in a row leaves the list one view leaves |
| RecentlyViewed.ClearRecentlyViewed | client/src/components/RecentlyViewed.jsx:40-42 | after clearing, reading the list back gives nothing |
| RelatedProducts.SelectRelated | client/src/components/RelatedProducts.jsx:9-20 | with no products or no category the previous strip stays; otherwise the strip is the first four, at most, of the other products whose category equals the given one ignoring case, in catalog order |
| RelatedProducts.AllShownWhenFew | client/src/components/RelatedProducts.jsx:10-17 | when at most four products qualify, every one of them is shown |
| RelatedProducts.FourShownWhenMany | client/src/components/RelatedProducts.jsx:17 | when more than four qualify, exactly four are shown |
| Catalog.FindProduct | client/src/context/AppContext.jsx:219-221 | the lookup finds a product with the id, and finds none exactly when no product has it |
| Catalog.ListingOrderTotal | client/src/pages/AllProducts.jsx:51-68 | every sort option compares any two products one way or the other, so sorting by it is defined |
| Catalog.SortOptions | server/src/controllers/product.controllers.js:136-140 | a list sorted by an option is in ascending or descending offer price, ascending or descending name, or, for any other option, newest first |
| Sorting.SortBy | client/src/pages/AllProducts.jsx:51-68 | sorting returns a permutation of its input in which each element may come before the next |
| Sorting.SortKeepsMembers | client/src/pages/AllProducts.jsx:51-68 | sorting keeps exactly the elements it was given |
| Seqs.Filter | client/src/pages/AllProducts.jsx:23-48 | `Array.filter` keeps exactly the elements passing the test, in their original order |
| Seqs.FilterFilter | client/src/pages/AllProducts.jsx:23-48 | a chain of filters is one filter by the conjunction of their tests |
| ProductFilters.StagedUpToIsOneFilter | client/src/pages/AllProducts.jsx:23-48 | the first n stages of the listing page keep exactly the products passing the first n tests, in order |
| ProductFilters.StagedIsOneFilter | client/src/pages/AllProducts.jsx:23-48 | the search, category, price and stock stages together keep exactly the products passing the single listing test, in catalog order |
| ProductFilters.ApplyFilters | client/src/pages/AllProducts.jsx:19-71 | the listed products are a permutation of the products passing the search, category, minimum, maximum and stock tests, sorted by the chosen option |
| Products.AddProduct | server/src/controllers/product.controllers.js:13-38 | unparsable data gives 400; no images gives 400; otherwise 201 and the product is appended with one uploaded URL per file, in file order |
| Products.AddProductKeepsData | server/controllers/productController.js:13-47 | apart from the images and the id and date the database assigns, the stored product is the submitted one |
| Products.ProductList | server/src/controllers/product.controllers.js:45-51 | the list holds every product, newest first |
| Products.Categories | server/src/controllers/product.controllers.js:171-177 | every category in use appears, once, and nothing else |
| Products.ProductById | server/controllers/productController.js:67-82 | a missing id gives exactly the 400; an id matching no product gives 404; otherwise 200 with the first product of that id |
| Products.SetStock | server/src/controllers/product.controllers.js:87 | only the product with the id has its stock flag set; no other product and no other field changes |
| Products.ChangeStock | server/src/controllers/product.controllers.js:80-96 | a missing id gives 400; an unknown id gives 404; otherwise 200 with the updated product, and only its stock flag changes |
| Products.SetStockTwice | server/controllers/productController.js:96-100 | setting the same stock flag twice is setting it once |
| Products.ChangeStockThenFetch | server/src/controllers/product.controllers.js:80-96 | after a stock change, looking the product up returns the product the change reported |
| Products.QueryMeansRequest | server/src/controllers/product.controllers.js:110-133 | the database filter built from the request keeps exactly the products the request's text, category, price bounds and stock flag ask for |
| Products.SearchProducts | server/src/controllers/product.controllers.js:104-165 | the page is the requested slice of all matches in the requested order, so it holds wanted catalog products only, at most `limit` of them; the totals count every match and the page count is `Math.ceil(total / limit)`; hasMore holds exactly when the page is not the last |
| Products.EveryMatchIsOnSomePage | server/src/controllers/product.controllers.js:104-165 | paging loses nothing: every catalog product the query selects is shown on some page of the same search |
| Products.SearchPageFacts | server/src/controllers/product.controllers.js:146-149 | the page cut from the sorted matches is sorted and holds wanted catalog products |
| Products.ClientKeepsWithinServer | server/src/controllers/product.controllers.js:110-133 | reading the pattern test as a case-insensitive substring test, every product the listing page keeps is one the search endpoint returns for the same filters |
| Products.PartialCategoryMatch | server/src/controllers/product.controllers.js:119-121 | the converse fails: the endpoint's category pattern "fruits" matches a "Dry Fruits" product that the listing page drops |
| Paging.TotalPages | server/src/controllers/product.controllers.js:159 | `Math.ceil(total / limit)` is the fewest pages of `limit` that hold every item |
| Paging.Page | server/src/controllers/product.controllers.js:143-149 | skip `(page - 1) × limit` and take at most `limit`: empty past the end, otherwise the slice starting at the skip |
| Paging.ItemOnItsPage | server/src/controllers/product.controllers.js:143-149 | item k of the full result is item `k mod limit` of page `k div limit + 1` |
| Paging.OnSomePage | server/src/controllers/product.controllers.js:143-149 | every item of the full result is on some page |
| Paging.PageKeepsOrder | server/src/controllers/product.controllers.js:146-149 | a page cut from a sorted list is sorted and holds members of the list |
| Paging.HasMoreIffNotLastPage | server/src/controllers/product.controllers.js:158-161 | `skip + returned < total` holds exactly when the requested page is before the last page |
| Text.NormalizeCodeIdempotent | server/src/models/coupon.models.js:5-11 | a code already upper-cased and trimmed by the setters comes out of them unchanged |
| Text.TrimIdempotent | server/src/models/coupon.models.js:10 | trimming a trimmed string changes nothing |
| Text.ParseNatToString | server/src/controllers/coupon.controllers.js:73 | the number printed into the minimum-amount message reads back as the same number |
| Coupons.FindByCode | server/src/controllers/coupon.controllers.js:20 | lookup by code finds a stored coupon with that code, and none exactly when no coupon has it |
| Coupons.FindActive | server/src/controllers/coupon.controllers.js:54 | lookup by code among active coupons finds an active coupon with that code, and none exactly when no active coupon has it |
| Coupons.StoredCoupon | server/src/controllers/coupon.controllers.js:25-35 | the stored coupon satisfies the schema, its code is upper-cased and trimmed, it starts unused and active, and validFrom falls back to now |
| Coupons.CreateCoupon | server/src/controllers/coupon.controllers.js:12-40 | a missing code, type, value or end date, or a value of 0, gives 400; a code already stored in any case or padding gives 409 "Coupon code already exists"; a fresh code failing the schema gives the validation 400; only success appends the stored coupon, with 201 |
| Coupons.CreateKeepsInvariants | server/src/models/coupon.models.js:5-21 | creation keeps codes unique and every stored coupon valid |
| Coupons.SecondCreateConflicts | server/src/controllers/coupon.controllers.js:20-23 | once a code is stored, a second request for it in any letter case or padding is refused with 409 |
| Coupons.RawDiscount | server/src/controllers/coupon.controllers.js:77-86 | a fixed coupon gives its value; a percentage coupon gives the floored percentage, cut to the maximum only when that is set and non-zero |
| Coupons.Discount | server/src/controllers/coupon.controllers.js:88-91 | the discount granted never exceeds the order amount and is the raw discount or the amount |
| Coupons.ApplyCoupon | server/src/controllers/coupon.controllers.js:47-103 | a missing code or amount gives 400; an unknown or inactive code gives 404; the window, the usage cap and the minimum are checked in that order, each with its own 400 message (the minimum's prefixed with the currency sign as the file stores it); success grants the capped discount and a non-negative final amount, and the store is not touched |
| Coupons.DiscountBounds | server/src/controllers/coupon.controllers.js:77-91 | for a valid coupon with a non-negative maximum and a positive order, the discount lies between 0 and the amount |
| Coupons.PercentageUncapped | server/src/controllers/coupon.controllers.js:79-83 | a percentage coupon without a cap grants floor(amount × value / 100) when that fits the order |
| Coupons.FixedIgnoresMaximum | server/src/controllers/coupon.controllers.js:84-86 | a fixed coupon ignores its maximum: 300 off with a maximum of 100 still takes 300 off a 1000 order |
| Coupons.WindowInclusive | server/src/controllers/coupon.controllers.js:62 | both ends of the validity window are accepted |
| Coupons.MinimumInclusive | server/src/controllers/coupon.controllers.js:72 | an order of exactly the minimum amount is accepted |
| Coupons.GetActiveCoupons | server/src/controllers/coupon.controllers.js:123-139 | the listing holds exactly the active coupons inside their window whose limit is null or not yet reached, in store order |
| Coupons.ListedIsApplicable | server/src/controllers/coupon.controllers.js:123-139 | with unique codes, a listed coupon is accepted by apply for any non-zero order meeting its minimum |
| Coupons.ZeroLimitDisagreement | server/src/controllers/coupon.controllers.js:67 | the two endpoints disagree on a limit of 0: apply treats it as unlimited, the listing as exhausted |
| Coupons.FlipActive | server/src/controllers/coupon.controllers.js:174 | only the active flag of coupons with the id flips; nothing else changes |
| Coupons.FindCoupon | server/src/controllers/coupon.controllers.js:168 | lookup by id finds a coupon with the id, and none exactly when no coupon has it |
| Coupons.ToggleCoupon | server/src/controllers/coupon.controllers.js:165-180 | an unknown id gives exactly the 404 and no change; a found coupon always gives 200 "Coupon activated successfully" or "Coupon deactivated successfully" by its new flag, the flag flips and the reply carries the flipped coupon |
| Coupons.ToggleTwice | server/src/controllers/coupon.controllers.js:174-175 | toggling twice restores the store |
| Coupons.RemoveFirst | server/src/controllers/coupon.controllers.js:149 | deleting by id removes exactly one coupon with that id and keeps the others in order; an unknown id removes nothing |
| Coupons.DeleteCoupon | server/src/controllers/coupon.controllers.js:146-158 | an unknown id gives exactly the 404 and no change; a found coupon always gives 200 "Coupon deleted successfully" and is removed |
| Coupons.DeleteThenNotFound | server/src/controllers/coupon.controllers.js:149-153 | with unique ids a deleted coupon is gone, so deleting it again gives 404 |
| Coupons.GetAllCoupons | server/src/controllers/coupon.controllers.js:110-116 | the seller sees every coupon, newest first |
| Coupons.AllCouponsAreListed | server/src/controllers/coupon.controllers.js:111 | the seller's list holds exactly the stored coupons |
| Orders.Subtotal | server/src/controllers/order.controllers.js:26-31 | the loop adds offer price × quantity over the items whose product exists; when none exists the subtotal is 0 |
| Orders.SubtotalAppend | server/src/controllers/order.controllers.js:27-31 | the subtotal of two lists of items is the sum of their subtotals |
| Orders.OrderAmount | server/src/controllers/order.controllers.js:33 | the stored amount is the subtotal plus its 2 % tax floored, so it lies between the subtotal and the subtotal plus a fiftieth |
| Orders.OrderAmountIsFloorOf102Percent | server/src/controllers/order.controllers.js:33 | the stored amount is 102 % of the subtotal, rounded down |
| Orders.NewOrder | server/src/controllers/order.controllers.js:35-41 | the created order keeps the caller, the items verbatim and the address, is priced at the stored amount, carries the payment type and starts unpaid |
| Orders.PlaceOrderCod | server/src/controllers/order.controllers.js:18-46 | a missing address or a missing or empty item list gives 400 and no order; otherwise 201 and exactly one COD order is appended |
| Orders.ProductData | server/src/controllers/order.controllers.js:65-76 | one entry per item whose product exists, in request order, each with that product's name and offer price and the item's quantity |
| Orders.ProductDataTotal | server/src/controllers/order.controllers.js:62-78 | the Stripe endpoint's loop computes the same subtotal as the COD endpoint's |
| Orders.UnitAmount | server/src/controllers/order.controllers.js:92 | a unit price with its own tax floored, times 100, lies between 100 and 102 paise per rupee of price |
| Orders.LineItems | server/src/controllers/order.controllers.js:88-95 | one line item per priced entry, in order, with its name, quantity and unit amount |
| Orders.ChargeAtMostAmount | server/src/controllers/order.controllers.js:78-95 | flooring each unit's tax separately never charges more than the stored amount |
| Orders.ChargeCanBeBelowAmount | server/src/controllers/order.controllers.js:78-95 | the charge can fall short of the stored amount: 5 units at 10 are charged 5000 paise while the order stores 51 |
| Orders.PlaceOrderStripe | server/src/controllers/order.controllers.js:53-108 | an invalid request gives 400 and no order; otherwise an unpaid Online order is appended before the session is requested, so it stays when the session fails; the reply is the session URL exactly when the session was created, and a failed session is answered by the global error handler |
| Orders.StripeFailureStatus | server/src/middlewares/error.middlewares.js:45-52 | a Stripe failure is answered with the error's own status and message, or 500 and "Internal Server Error" when it has none, and the unpaid order stays |
| Orders.NewerOrSameTotal | server/src/controllers/order.controllers.js:172 | newest-first comparison relates any two orders, so the sort is defined |
| Orders.GetAllOrders | server/src/controllers/order.controllers.js:184-194 | the seller sees exactly the COD and the paid orders, newest first |
| Orders.GetUserOrders | server/src/controllers/order.controllers.js:164-177 | the caller sees exactly their own COD and paid orders, each once, newest first |
| Orders.UserOrdersWithinAll | server/src/controllers/order.controllers.js:167-172 | the user listing holds exactly the caller's orders of the seller listing |
| Orders.UnpaidOnlineHidden | server/src/controllers/order.controllers.js:169 | an unpaid Online order appears in neither listing |
| Orders.MarkPaid | server/src/controllers/order.controllers.js:138 | orders with the id become paid; nothing else changes |
| Orders.DeleteOrder | server/src/controllers/order.controllers.js:148 | every order with the id goes and every other stays |
| Orders.ClearCart | server/src/controllers/order.controllers.js:139 | the user's cart becomes empty, no other user changes, and an unknown id changes nothing |
| Orders.StripeWebhook | server/src/controllers/order.controllers.js:115-157 | a bad signature is rejected with 400 "Webhook Error: " followed by the library's message, with no change; an unhandled event is acknowledged with no change; a success marks the session's order paid and clears its user's cart; a failure deletes the order; with no session found nothing changes and no reply is sent |
| Orders.WebhookIdempotent | server/src/controllers/order.controllers.js:131-156 | delivering the same event twice leaves the store as delivering it once |
| Orders.MarkPaidTwice | server/src/controllers/order.controllers.js:138 | marking an order paid twice is marking it once |
| Orders.DeleteOrderTwice | server/src/controllers/order.controllers.js:148 | deleting an order twice is deleting it once |
| Orders.ClearCartTwice | server/src/controllers/order.controllers.js:139 | clearing a cart twice is clearing it once |
| Orders.PaymentRevealsOrder | server/src/controllers/order.controllers.js:132-140 | after a successful payment the paid order appears in both listings |
| Orders.FailureDeletesOrder | server/src/controllers/order.controllers.js:142-149 | after a failed payment no order with the session's id remains |
| LegacyOrders.Rejection | server/controllers/orderController.js:16-18 | a request is rejected exactly when it lacks an address or a non-empty item list; a missing address or an empty item list gives "Invalid data", items left undefined with an address give the caught TypeError |
| LegacyOrders.LegacyPlaceOrderCod | server/controllers/orderController.js:11-41 | the older COD handler answers every rejected request with success false and the guard's message, storing nothing; a valid request stores the new COD order and answers success true "order placed successfully" |
| LegacyOrders.LegacyPlaceOrderStripe | server/controllers/orderController.js:44-123 | the older Stripe handler answers a rejected request with success false and the guard's message, storing nothing; a valid request stores the Online order, then answers success true "Stripe session created" with the session's URL, or success false with a failed session's own message; a URL is present exactly on success |
| LegacyOrders.LegacyPlacementAgrees | server/controllers/orderController.js:20-119 | both older placement handlers store exactly what the current ones store and succeed exactly when those do; the older Stripe reply carries the same session URL as the current one |
| LegacyOrders.LegacyStripeWebhook | server/controllers/orderController.js:128-190 | a bad signature is answered with 400 "Webhook Error: " followed by the library's message and then throws on the missing event; the handler throws exactly then or when no session is found |
| LegacyOrders.LegacyWebhookAgrees | server/controllers/orderController.js:147-189 | the older webhook replies alike and leaves the same store as the current one on every input |
| Reviews.AddReview | server/src/controllers/review.controllers.js:14-51 | a review is stored exactly when product, rating and comment are present, the rating lies in 1..5, the user has not reviewed the product and title and comment fit their limits; the refusals come in that order: a missing field is a 400, a rating outside 1..5 is 400 "Rating must be between 1 and 5", an earlier review by the user is 409, an over-long title or comment is the validation 400, each with the store unchanged; the stored review carries the user, the request's fields and whether a paid order of the user lists the product, with 201 "Review added successfully" |
| Reviews.AddReviewKeepsInvariant | server/src/models/review.models.js:15-39 | adding, for any signed-in user, keeps every stored review within the schema's limits and at most one review per user and product |
| Reviews.SecondReviewConflicts | server/src/controllers/review.controllers.js:27-30 | after a review is accepted, the same user reviewing the same product again gets 409 "You have already reviewed this product" |
| Reviews.ComputeStats | server/src/controllers/review.controllers.js:76-99 | the aggregate counts every review of the product, its average times the count is the rating sum, and it is the zero fallback exactly when there are no reviews |
| Reviews.BucketsAdd | server/src/controllers/review.controllers.js:82-86 | the five star buckets together count exactly the reviews whose rating is one of 1, 2, 3, 4, 5 |
| Reviews.BucketsCoverIffWhole | server/src/controllers/review.controllers.js:82-86 | for ratings in 1..5 the buckets add up to the review count if and only if every rating is a whole number |
| Reviews.AverageInRange | server/src/controllers/review.controllers.js:80 | when every rating lies in 1..5 the average does too |
| Reviews.GetProductReviews | server/src/controllers/review.controllers.js:58-107 | the page holds at most `limit` reviews, all of the product and stored, newest first; the total is the product's review count, the stats are the aggregate over all of them and the page count is the least number of pages that holds them; the page is the requested slice of the product's reviews, newest first, and echoes the page number |
| Reviews.EveryReviewIsOnSomePage | server/src/controllers/review.controllers.js:58-107 | paging loses nothing: every review of the product is shown on some page |
| Reviews.NewestReviews | server/src/controllers/review.controllers.js:65 | sorting by creation time, newest first, keeps every review exactly as often as before |
| Reviews.DeleteReview | server/src/controllers/review.controllers.js:131-146 | a review is removed exactly when it exists and belongs to the caller; otherwise 404 "Review not found or unauthorized" with the store unchanged, and the remaining store keeps its order |
| Reviews.DeleteKeepsInvariant | server/src/models/review.models.js:15-39 | deleting keeps the schema limits and the one-review-per-user-and-product index |
| Reviews.FilterKeepsInvariant | server/src/models/review.models.js:38-39 | removing any reviews from a valid store leaves a valid store |
| Reviews.DeleteThenReviewAgain | server/src/controllers/review.controllers.js:135-141 | once the author deletes their review of a product, the duplicate check no longer finds one |
| Reviews.GetMyReviews | server/src/controllers/review.controllers.js:114-124 | the list holds exactly the caller's reviews, each once, newest first |
| Reviews.AddedReviewIsMine | server/src/controllers/review.controllers.js:114-124 | a review just added appears in its author's list and in no other user's, whose lists keep their members |
| Reviews.GetProductRating | server/src/controllers/review.controllers.js:153-179 | the count is the product's number of reviews and the rating is the average rounded to tenths, "0.0" when there are none |
| Reviews.RatingAgreesWithListing | server/src/controllers/review.controllers.js:153-179 | the lightweight rating and the full listing report the same count and the same average up to rounding to tenths |
| Reviews.RatingInRange | server/src/controllers/review.controllers.js:153-179 | in a valid store a reviewed product is rated between "1.0" and "5.0" |
| AuthMiddleware.AuthUser | server/src/middlewares/auth.middlewares.js:8-30 | the request goes on, as the token's user, exactly when a token is present, verifies and names a user; every refusal is a 401, "Please login to continue" without a token the expiry message exactly for an expired one, and "Invalid token" for a token that fails to verify or names no user (the older `server/middlewares/authUser.js` is identical) |
| AuthMiddleware.AuthSeller | server/src/middlewares/auth.middlewares.js:35-56 | the request goes on exactly when the seller token verifies and its email equals the configured seller email; a verified token for another email is the only 403, answered "Not authorized as seller"; a missing token is 401 "Seller authentication required", an expired one the expiry message and one that fails to verify "Invalid seller token" (the older `server/middlewares/authSeller.js` is identical) |
| AuthMiddleware.CustomerTokenIsNotSellerPass | server/src/middlewares/auth.middlewares.js:45-47 | a valid customer token, which carries no email, is refused by the seller gate with 403 whenever a seller email is configured |
| AuthMiddleware.UnconfiguredSellerGateIsOpen | server/src/middlewares/auth.middlewares.js:45-49 | with no seller email configured, any validly signed token without an email passes the seller gate |
| Accounts.Register | server/src/controllers/auth.controllers.js:22-45 | an account is created exactly when name, email and password are given and no account has the email; an existing email gives 409 "User already exists with this email"; it stores the hashed password, replies 201 with email and name and sets one session cookie; every failure leaves the users and cookies untouched (`server/controllers/userController.js:14-42` behaves the same) |
| Accounts.RegisterKeepsUniqueKeys | server/src/models/user.models.js:6-13 | registration keeps account ids and emails unique when the id the database assigns is new |
| Accounts.Login | server/src/controllers/auth.controllers.js:52-77 | login succeeds exactly when both fields are given, an account has the email, it has a password hash and the password matches it; an unknown email and a wrong password give 401 "Invalid email or password", an account without a hash the 500 the password library's error reaches; success replies with email and name and sets the session cookie for that account, and nothing is stored (`server/controllers/userController.js:49-79` behaves the same) |
| Accounts.LoginFailuresAlike | server/src/controllers/auth.controllers.js:59-67 | an unknown email and a wrong password for a known email get the very same reply |
| Accounts.RegisterThenLogin | server/src/controllers/auth.controllers.js:22-77 | logging in with the email and password just registered succeeds and opens a session for the new account |
| Accounts.LoginSessionPassesGate | server/src/controllers/auth.controllers.js:69-72 | the session cookie login sets passes the customer gate as the logged-in account |
| Accounts.Logout | server/src/controllers/auth.controllers.js:100-110 | logout replies 200 and clears the `token` cookie with the same flags it was set with |
| Accounts.SellerLogin | server/src/controllers/auth.controllers.js:117-130 | the seller logs in exactly when both the email and the password equal the configured ones, and then gets a `sellerToken` cookie signed for that email; otherwise 401 "Invalid credentials" and no cookie (`server/controllers/sellerController.js:12-30` behaves the same) |
| Accounts.SellerSessionPassesGate | server/src/controllers/auth.controllers.js:124-127 | the cookie the seller login sets passes the seller gate |
| Accounts.UnconfiguredSellerLogin | server/src/controllers/auth.controllers.js:120-122 | with neither seller setting present, a request leaving out both credentials logs in as the seller |
| Accounts.IsSellerAuth | server/src/controllers/auth.controllers.js:137-139 | behind the seller gate the check always answers 200 |
| Accounts.SellerLogout | server/src/controllers/auth.controllers.js:146-156 | seller logout replies 200 and clears the `sellerToken` cookie with the flags it was set with (`server/controllers/sellerController.js:48-60` behaves the same) |
| Passwords.Public | server/src/controllers/auth.controllers.js:193-194 | the user as returned has no password hash and no reset fields, and agrees with the stored user on everything else |
| Passwords.Patched | server/src/controllers/auth.controllers.js:188-191 | name, phone and avatar are replaced only when given, and no other field changes |
| Passwords.UpdateProfile | server/src/controllers/auth.controllers.js:184-203 | an unknown user gets 404 "User not found" with nothing changed; otherwise the stored user is patched, the reply is its public form and no other account changes |
| Passwords.EmptyUpdateChangesNothing | server/src/controllers/auth.controllers.js:188-193 | an update giving no fields leaves every account as it was |
| Passwords.UpdateProfileIdempotent | server/src/controllers/auth.controllers.js:188-193 | repeating an update gives the same reply and the same users |
| Passwords.IsAuth | server/src/controllers/auth.controllers.js:84-93 | an unknown user is a 404 "User not found"; a known one is returned without the password hash and otherwise unchanged |
| Passwords.GetProfile | server/src/controllers/auth.controllers.js:163-177 | an unknown user is a 404 "User not found"; a known one is returned without the password hash and the reset fields |
| Passwords.IsAuthShowsResetDigest | server/src/controllers/auth.controllers.js:84-93 | after a reset request, the session check returns the stored reset digest while the profile endpoint hides it |
| Passwords.ChangePassword | server/src/controllers/auth.controllers.js:210-238 | the password changes exactly when both fields are given, the new one has at least 6 characters, the user exists with a password hash and the current password matches; the refusals come in source order: 400 for a missing field, 400 for a short new password, 404 for an unknown user, 500 for a missing hash, 401 for a wrong current password; only that account changes, and only its hash |
| Passwords.ChangeThenChangeBack | server/src/controllers/auth.controllers.js:227-233 | after a change, changing back (the new password as the current one, the old as the new) succeeds exactly when the old password has at least 6 characters |
| Passwords.OldPasswordRefusedAfterChange | server/src/controllers/auth.controllers.js:227-233 | after a change, the old password is refused as the current one with 401 whenever it does not match the new hash |
| Passwords.ForgotPassword | server/src/controllers/auth.controllers.js:245-281 | a missing email is a 400; otherwise the status and message are the same for known and unknown emails, a known account gets the token's digest and an expiry 30 minutes ahead, and the raw token is in the reply only in development |
| Passwords.ForgotPasswordDataDiffers | server/src/controllers/auth.controllers.js:253-279 | a known and an unknown email get the same status and message but different data, so the reply still reveals whether an account exists |
| Passwords.FindResetHolder | server/src/controllers/auth.controllers.js:303-306 | the lookup finds a stored account holding the digest with an expiry later than now, and none exactly when no account does |
| Passwords.ResetPassword | server/src/controllers/auth.controllers.js:288-320 | the reset succeeds exactly when the new password has at least 6 characters and an account holds the token's digest unexpired; a missing password, a short one and an unknown or expired token each give their own 400; it stores the new hash, clears both reset fields and changes no other account |
| Passwords.ResetIsSingleUse | server/src/controllers/auth.controllers.js:312-315 | once a reset succeeds, the same token is refused at any later time with 400 "Invalid or expired reset token" |
| Passwords.ForgotThenReset | server/src/controllers/auth.controllers.js:263-268 | a freshly issued token resets the password exactly while the current time is before its expiry |
| Passwords.SoleHolder | server/src/controllers/auth.controllers.js:303-306 | when a single account holds the digest, the lookup succeeds exactly when that account's expiry is later than now |
| GoogleLogin.FindGoogleOrEmail | server/src/controllers/auth.controllers.js:367-369 | the search returns the first account whose Google id or email matches, and none exactly when no account matches either |
| GoogleLogin.Linked | server/src/controllers/auth.controllers.js:373-379 | linking sets the Google id and provider, sets the picture only when the account has no avatar, and changes nothing else |
| GoogleLogin.GoogleUser | server/src/controllers/auth.controllers.js:383-389 | a first Google sign-in creates an account with the profile's name, email and picture, the Google id, the google provider and no password |
| GoogleLogin.GoogleCallback | server/src/controllers/auth.controllers.js:345-405 | no code redirects with `?error=no_code`, a failed exchange with `?error=auth_failed`, both with nothing changed; the plain storefront address is reached exactly when one session cookie is set; a linked account signs in unchanged, an unlinked one is linked unless another account holds the Google id (then `?error=auth_failed`), and a new account is created unless the name or email is empty (then `?error=auth_failed`) |
| GoogleLogin.SessionIsForMatchedAccount | server/src/controllers/auth.controllers.js:367-397 | the session opened is for the account the search found or, when none, for the one just created |
| GoogleLogin.LinkIsPermanent | server/src/controllers/auth.controllers.js:373 | an account already linked to a Google id is left as it is by every callback |
| GoogleLogin.LinkLeavesOthers | server/src/controllers/auth.controllers.js:373-379 | linking one account leaves every linked account unchanged |
| GoogleLogin.GoogleKeepsUniqueKeys | server/src/models/user.models.js:6-13 | the callback keeps account ids, emails and Google ids unique |
| GoogleLogin.LinkKeepsUniqueKeys | server/src/models/user.models.js:13 | linking a Google id no other account holds keeps the keys unique |
| GoogleLogin.SecondSignInChangesNothing | server/src/controllers/auth.controllers.js:371-390 | signing in a second time with the same Google profile stores nothing new |
| GoogleLogin.LinkedIsFoundAgain | server/src/controllers/auth.controllers.js:367-379 | after linking, the same profile finds the same, now linked, account |
| GoogleLogin.CreatedIsFoundAgain | server/src/controllers/auth.controllers.js:381-390 | after creating, the same profile finds the created account |
| Addresses.Stored | server/src/controllers/address.controllers.js:20 | the stored address belongs to the signed-in user, whatever `userId` the body carried, and keeps every other submitted field |
| Addresses.AddAddress | server/src/controllers/address.controllers.js:12-25 | no address is a 400 "Address details are required"; otherwise the address is stored exactly when the schema accepts it, with a 201 reply carrying it, and failures change nothing |
| Addresses.GetAddress | server/src/controllers/address.controllers.js:32-39 | the list holds exactly the caller's addresses, in stored order |
| Addresses.AddThenGet | server/src/controllers/address.controllers.js:20-34 | an added address appears last in its owner's list, and every other user's list is unchanged |
| Addresses.LegacyAddAddress | server/controllers/addressController.js:7-19 | the older handler always answers 200; it stores the caller's address when the schema accepts it, even with no address sent, and otherwise reports the validation message with nothing stored |
| Addresses.LegacyAddAgrees | server/controllers/addressController.js:7-19 | where an address is sent, both handlers accept the same addresses and store the same one |
| Addresses.LegacyGetAddress | server/controllers/addressController.js:23-33 | the older list is the same list as the current one, or a 500 carrying the database error |
| Passwords.ProfileHidesMore | server/src/controllers/auth.controllers.js:84-177 | the profile exists exactly when the session check finds the user, and is that user with the reset fields also removed |
| Passwords.UpdateThenGetProfile | server/src/controllers/auth.controllers.js:163-203 | after an update, fetching the profile returns exactly what the update replied |

## Left out

- Floating point: prices, amounts and the tax are whole currency units. JavaScript doubles are not modelled, nor the client's two-decimal truncation beyond whole units. Review ratings are exact reals.
- Reviews.GetProductRating: `toFixed(1)` is modelled as rounding the exact average half up to tenths. Double rounding at exact halves is not modelled.
- Number parsing of query strings: `page`, `limit`, `minPrice` and `maxPrice` arrive already parsed. NaN is not modelled.
- Products.SearchProducts: requires `page >= 1` and `limit >= 1`. Other values make the database driver throw or make the page count non-finite, and the model does not describe either.
- Reviews.GetProductReviews: requires `page >= 1` and `limit >= 1`, for the same reason.
- Mongoose `populate` and field projection other than the password and reset fields: the model returns ids where the program returns populated documents.
- ObjectId casting: a malformed id is treated like an unknown id. The cast error path of `getProductRating`, which falls back to zero stats, therefore coincides with "no reviews".
- The concrete search `$regex` semantics on raw input: matching is a parameter (`matches`).
- The development-mode stack trace that the error handlers add to the reply.
- Sorting by name uses code-unit order rather than `localeCompare`. The database's order among equal sort keys is modelled as the order of a stable sort.
- Mongoose dropping keys whose value is `undefined`: the model writes `None` instead.
- String lengths count characters, not UTF-16 code units.
- Case mapping (`toUpperCase`, `toLowerCase`) covers the ASCII letters only. Trimming removes ASCII whitespace only.
- The order of the values `Product.distinct("category")` returns: Products.Categories states membership and distinctness only.
- Coupons.GetAllCoupons: the store is kept in creation order, so `createdAt: -1` is its reversal. Equal creation times are not distinguished.
- Concurrency: races between requests, so the unique indexes are enforced by the checks the controllers make. Duplicate webhook delivery is covered only by idempotence. Last-write-wins cart sync and React effect order are not modelled.
- Database, upload and network failures, other than those the controllers turn into a reply (the legacy 500 replies and Stripe's empty session list).
- The `Address` schema is not part of this model: whether a submitted address is accepted is the parameter `accepts`.
- The client's `fetchUser` and `fetchProducts` loaders and all rendering, routing, toasts and navigation.
- The contact endpoints, server bootstrapping, routes and the weather and map widgets.
- The older tree's order listings (`server/controllers/orderController.js:199-230`) have no members of their own. They apply the same visibility filter and order as Orders.GetUserOrders and Orders.GetAllOrders. Their error reply is a database failure.
- LegacyOrders.Rejection: an `items` field sent as JSON `null` is not told apart from one left out. The model's `None` stands for the absent field, whose caught TypeError names `undefined`; a `null` would name `null` instead.

## Behaviour worth knowing

These properties are proved about the model as the code is written:

- Without a configured seller email, any validly signed token that carries no email passes the seller gate (AuthMiddleware.UnconfiguredSellerGateIsOpen). With neither seller setting present, a login leaving out both credentials succeeds (Accounts.UnconfiguredSellerLogin).
- `forgotPassword` answers with the same status and message for known and unknown emails. Its data still differs (`null` against an object), so the reply reveals whether an account exists (Passwords.ForgotPasswordDataDiffers).
- The session check returns the stored reset-token digest to the signed-in user (Passwords.IsAuthShowsResetDigest).
- The server's category filter is a partial match, unlike the client's exact match (Products.PartialCategoryMatch).
- Stripe is charged per-unit taxed prices rounded down. The charge can fall below the stored order amount (Orders.ChargeCanBeBelowAmount).
- A coupon whose usage limit is 0 is applicable but not listed as active (Coupons.ZeroLimitDisagreement).
- An `ApiError` is classified by its own status before any other rule (ErrorHandler.ApiErrorTakesPrecedence).
- The minimum-order message of `applyCoupon` starts with the three characters `â‚¹`, because the controller file holds the rupee sign encoded twice. The model uses the characters the file holds (Coupons.ApplyCoupon).
