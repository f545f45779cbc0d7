# tunifit backend: a Dafny model of the shop rules

This project models the rules of the tunifit backend, a Laravel web shop for
clothing and glasses:

- **Checkout and stock ledger:**
  - the cash-on-delivery checkout (`OrderController::store`);
  - the Stripe webhook that books a paid order;
  - the card pricing formula of `initiatePayment`;
  - the product stock rules (per-size stock, totals, low/out-of-stock, promotion price);
  - the order status vocabularies.
- **Admin actions:** products, orders, categories, users, creators and notifications.
- **Per-user collections:** the cart and the wishlist.
- **Customer notifications:** their visibility, read receipts and broadcast rules.
- **Other rules:**
  - the glasses recommendation matcher;
  - product view counters;
  - newsletter subscriptions;
  - the middleware that gates requests on the application settings.

The database is one object, `Schema.Database`, with one field per table:
- Tables keyed by an auto-increment id are maps from id to row.
- Tables the code only scans, appends to or filters are sequences in table order.

Every controller action is a method over that object:
- its `modifies` clause names exactly the tables it may write;
- its `ensures` clauses give the HTTP status and the whole new state of the modelled tables, for each branch, including the error branches. A delete includes the ON DELETE rules of the foreign keys that point at the deleted row.

What an action computes is defined by functions on values. The promises the code makes are lemmas about those functions.

Money is in integer cents (stored amounts are `decimal(…, 2)`):
- 7.5 DT is 750;
- the 19% card tax is kept exact in hundredths of a cent;
- rounding is written out (`Common.RoundDiv`, `OrderController.StripeUnitAmount`).

Everything the code gets from outside is a parameter of the operation:
- time (`now`);
- fresh ids;
- random order-number tokens;
- slug generation, URL and e-mail format checks;
- password hashing, JSON decoding;
- bearer-token resolution;
- the order in which the database returns rows (a `scan` of the table's ids).

## Model

| member | source | states |
|---|---|---|
| OrderModel.StatusNameRoundTrip | app/Models/Order.php:49-55 | the seven order status strings and the statuses correspond one to one |
| OrderModel.PaymentStatusNameRoundTrip | app/Models/Order.php:57-61 | the five payment status strings and the payment statuses correspond one to one |
| OrderModel.Statuses | app/Models/Order.php:63-74 | getStatuses lists seven pairwise distinct values |
| OrderModel.PaymentStatuses | app/Models/Order.php:76-85 | getPaymentStatuses lists five pairwise distinct values |
| OrderModel.VocabulariesComplete | app/Models/Order.php:49-85 | every status and every payment status appears in its list |
| OrderModel.TransitionPredicatesExclusive | app/Models/Order.php:132-156 | no order is both cancellable and refundable, or cancellable and completed; refundable implies completed; a cancelled order can be neither cancelled, shipped nor refunded; a shippable order is neither completed nor cancelled |
| OrderModel.ItemsCountAppend | app/Models/Order.php:127-130 | items_count of a concatenation of item rows is the sum over the parts |
| OrderModel.ItemsCountOthers | app/Models/Order.php:127-130 | items belonging to other orders add nothing to an order's items_count |
| OrderModel.Creating | app/Models/Order.php:162-166 | a supplied order number is kept; an empty one becomes "ORD-" followed by the upper-cased unique id, and nothing else changes |
| OrderModel.CreatingFillsNumber | app/Models/Order.php:162-166 | after the creating hook the order number is never empty |
| ProductModel.KeyIndex | app/Models/Product.php:73-77 | finds the first entry of the size map with that size, or reports there is none |
| ProductModel.SetSize | app/Http/Controllers/OrderController.php:170-171 | writing a size's count makes that size read back the new count and leaves every other size as it was |
| ProductModel.KeyIndexAppend | app/Models/Product.php:73-77 | appending an entry keeps where existing sizes are found; a new size is found at the end |
| ProductModel.KeyIndexUpdate | app/Models/Product.php:73-77 | changing a count in place keeps where every size is found |
| ProductModel.SumCountsUpdate | app/Models/Product.php:90-94 | overwriting one count changes the total of the map by the difference |
| ProductModel.SumCountsAppend | app/Models/Product.php:90-94 | appending an entry adds its count to the total |
| ProductModel.EntryAtMostSum | app/Models/Product.php:90-94 | with non-negative counts, each count is at most the total |
| ProductModel.SumNonNegative | app/Models/Product.php:90-94 | with non-negative counts, the total is non-negative |
| ProductModel.StockForSize | app/Models/Product.php:73-77 | the stock of a size is its map entry, and 0 for a null map or an absent size |
| ProductModel.SizeAtMostTotal | app/Models/Product.php:73-94 | a size's stock lies between 0 and the total from sizes; a size in stock makes that total positive |
| ProductModel.StockStatus | app/Models/Product.php:51-68 | stock_status is "instock" or "outstock", and "outstock" exactly when isOutOfStock holds |
| ProductModel.LowStockNotOutOfStock | app/Models/Product.php:51-60 | no product is both low on stock and out of stock; a low-stock product reads "instock" |
| ProductModel.ScopeLowStock | app/Models/Product.php:40-44 | the low-stock scope selects only existing products |
| ProductModel.ScopeOutOfStock | app/Models/Product.php:46-49 | the out-of-stock scope selects only existing products |
| ProductModel.OutOfStockScopeVsPredicate | app/Models/Product.php:40-54 | the out-of-stock scope agrees with isOutOfStock except exactly on negative stock; the low-stock scope agrees with isLowStock at the default threshold 10 |
| ProductModel.Saving | app/Models/Product.php:130-139 | the saving hook sets promo_price, to the price itself when there is no positive percentage, and changes no other column |
| ProductModel.PromoPriceBounds | app/Models/Product.php:132-138 | for a percentage in 0..100 the promotion price lies between 0 and the price; 100% gives 0 and 0% gives the price |
| ProductModel.UnitPrice | app/Http/Controllers/OrderController.php:185 | the unit price is promo_price when it is set, else the price |
| ProductModel.SavedUnitPriceAtMostPrice | app/Models/Product.php:132-138 | after a save the unit price is never above the list price and never negative |
| UserModel.RoleNameRoundTrip | app/Models/User.php:44-46 | the three role strings and the roles correspond one to one |
| UserModel.Roles | app/Models/User.php:52-59 | getRoles lists three distinct roles |
| UserModel.RolePredicates | app/Models/User.php:100-108 | a super admin is an admin; a user is not an admin exactly when their role is `user` |
| UserModel.FullName | app/Models/User.php:95-98 | full_name starts and ends with no blank and is no longer than first + " " + last |
| UserModel.FullNameOfTrimmedNames | app/Models/User.php:95-98 | for names without outer blanks, full_name is first + " " + last |
| UserModel.FullNameOfBlankNames | app/Models/User.php:95-98 | blank names give an empty full_name |
| UserModel.ScopeAdmins | app/Models/User.php:75-78 | the admins scope selects only existing users |
| UserModel.ScopeCustomers | app/Models/User.php:80-83 | the customers scope selects only existing users |
| UserModel.ScopesPartitionUsers | app/Models/User.php:52-83 | the admins and customers scopes are disjoint and together cover every user; a user is in the admins scope exactly when isAdmin holds |
| CategoryModel.ScopeParent | app/Models/Category.php:68-71 | scopeParent selects exactly the categories with a null parent |
| CategoryModel.IsActive | app/Models/Category.php:103-106 | a category is active exactly when its status is 'active'; see AdminCategoryController.SavedActivity for how writes set it |
| CategoryModel.ParentOf | app/Models/Category.php:48-51 | a category's parent, when it has one, is an existing category |
| CategoryModel.Ancestry | app/Models/Category.php:113-124 | the parent chain, from a root to the category, ends at the category and starts at a category with no parent |
| CategoryModel.NamesOf | app/Models/Category.php:113-124 | maps a chain of categories to their names, position by position |
| CategoryModel.NamesOfAppend | app/Models/Category.php:113-124 | names of a concatenated chain are the concatenated names |
| CategoryModel.JoinEndsWithLast | app/Models/Category.php:123 | a " > "-joined path ends with its last part |
| CategoryModel.NamesStep | app/Models/Category.php:115-121 | the names of a category's chain are the names of its parent's chain followed by its own name |
| CategoryModel.StepUp | app/Models/Category.php:118-121 | one prepend step of the walk keeps "names still to prepend + names prepended so far" equal to the full chain |
| CategoryModel.NamesOfNone | app/Models/Category.php:118-121 | the walk ends when there is no parent, with nothing left to prepend |
| CategoryModel.FullPath | app/Models/Category.php:113-124 | the walk up the parents returns the names from the root down to the category, joined by " > " |
| CategoryModel.FullPathShape | app/Models/Category.php:113-124 | full_path ends with the category's own name, and is just that name for a root |
| CategoryModel.Creating | app/Models/Category.php:130-134 | on create a non-empty slug is kept and an empty one becomes the slug of the name |
| CategoryModel.Updating | app/Models/Category.php:136-140 | on update the slug changes only when the name changed and the original slug was empty, and then becomes Str::slug of the new name; nothing else changes |
| CategoryModel.UpdatingKeepsSuppliedSlug | app/Models/Category.php:136-140 | with an original slug, or an unchanged name, the update hook changes nothing |
| CustomerNotificationModel.ForUserIds | app/Models/CustomerNotification.php:39-45 | forUser selects every broadcast and every notification addressed to the user, and none addressed to another user |
| CustomerNotificationModel.ForUserIgnoresActivity | app/Models/CustomerNotification.php:39-45 | forUser does not depend on is_active or scheduled_at |
| CustomerNotificationModel.BroadcastOn | app/Events/CustomerNotificationCreated.php:19-28 | a broadcast goes on the public channel "customer.notifications"; a personal one on the private channel "customer.notifications." + recipient id |
| CustomerNotificationModel.PrivateChannelsDistinct | app/Events/CustomerNotificationCreated.php:27 | two different recipients never share a private channel |
| CustomerNotificationModel.BroadcastWhenCases | app/Events/CustomerNotificationCreated.php:51-55 | an inactive notification is never sent; an active one is sent exactly when unscheduled or scheduled in the past |
| CustomerNotificationModel.BroadcastWith | app/Events/CustomerNotificationCreated.php:35-48 | the payload echoes id, title, message, type, read_at, is_active, recipient and creation time |
| CustomerNotificationModel.BroadcastWithDeterminesChannel | app/Events/CustomerNotificationCreated.php:19-48 | the payload carries enough to tell which channel it went out on |
| Schema.CartOf | app/Http/Controllers/CartController.php:13 | a user's cart is exactly their rows of the carts table |
| Schema.RowsWhereNot | app/Http/Controllers/CartController.php:60-62 | a filtered delete keeps exactly the rows the filter spares, never more rows than before; the carts, wishlists and product_views deletes all use it |
| Schema.CartOfAppend | app/Http/Controllers/CartController.php:13-15 | a user's cart in two concatenated tables is the concatenation of their carts |
| Schema.RowsWhereNotKeepsCarts | app/Http/Controllers/CartController.php:60-62 | a delete restricted to one user's rows leaves every other user's cart as it was |
| Schema.ClearCart | app/Http/Controllers/CartController.php:70 | clearing empties the user's cart and leaves every other cart as it was |
| Schema.CartOfNone | app/Http/Controllers/CartController.php:13 | a table with no row of the user gives an empty cart |
| Schema.WishlistOf | app/Http/Controllers/WishlistController.php:13 | a user's wishlist is exactly the products of their rows |
| Schema.WishlistOfAppend | app/Http/Controllers/WishlistController.php:13-15 | a user's wishlist in two concatenated tables is the concatenation of their wishlists |
| Schema.RowsWhereNotKeepsWishlists | app/Http/Controllers/WishlistController.php:60-62 | a delete restricted to one user's rows leaves every other user's wishlist as it was |
| Schema.ProductsDisowned | database/migrations/2025_12_02_000001_add_created_by_to_products_table.php:19 | SET NULL on created_by: every product stays, the deleted user's products lose their creator and nothing else, others are unchanged |
| Schema.NotificationsUnaddressed | database/migrations/2025_09_17_000000_create_customer_notifications_table.php:14-18 | SET NULL on recipient_user_id: every notification stays, the deleted user's personal ones become broadcasts, others are unchanged |
| Schema.ReceiptsOfOthers | database/migrations/2025_09_17_195949_create_customer_notification_reads_table.php:21-23 | CASCADE on user_id: exactly the deleted user's read receipts go |
| Schema.OrdersOfOthers | database/migrations/2025_04_07_122457_create_orders_table.php:13 | CASCADE on user_id: exactly the deleted user's orders go; a user without orders leaves the table as it was |
| Schema.DeleteUser | database/migrations/2025_04_07_122457_create_orders_table.php:13 | deleting a user removes the row and applies every ON DELETE rule that points at users: orders, views and receipts are deleted, products and notifications lose the reference |
| Schema.DeleteUserLeavesNoReferences | database/migrations/2025_09_17_000000_create_customer_notifications_table.php:14-18 | after the delete no order, product, view or receipt refers to the user, and a notification that was addressed to them is in every user's scope |
| CartController.FirstImage | app/Http/Controllers/CartController.php:21 | the listed image is the first image, or null when there is none |
| CartController.CartView | app/Http/Controllers/CartController.php:11-30 | the listing has one entry per cart row, priced promo_price ?? price, echoing quantity and size; it fails exactly when a row's product is gone |
| CartController.RowsFor | app/Http/Controllers/CartController.php:45-52 | the insert loop creates one row per requested item, in request order |
| CartController.UpdateCart | app/Http/Controllers/CartController.php:32-55 | a rejected request (empty list, unknown product, quantity below 1) changes nothing; otherwise the caller's rows are deleted and the new ones appended |
| CartController.CartOfOwnRows | app/Http/Controllers/CartController.php:45-52 | the rows inserted for a user are all that user's |
| CartController.UpdateCartResult | app/Http/Controllers/CartController.php:42-52 | after update the caller's cart is exactly the requested list, and every other cart is unchanged |
| CartController.ListingAfterUpdate | app/Http/Controllers/CartController.php:11-52 | after update the listing shows the requested items, quantities and sizes in order, priced promo_price ?? price |
| CartController.WithoutProduct | app/Http/Controllers/CartController.php:60-62 | removing a product keeps exactly the rows of other products |
| CartController.RemoveLineOwn | app/Http/Controllers/CartController.php:60-62 | delete(p) turns the caller's cart into that cart without product p |
| CartController.WithoutProductAppend | app/Http/Controllers/CartController.php:60-62 | removing a product distributes over concatenation |
| CartController.RemoveLineEffect | app/Http/Controllers/CartController.php:57-65 | after delete(p) the caller has no line of p, keeps every other line in order, and other users' carts are unchanged |
| CartController.DeleteLine | app/Http/Controllers/CartController.php:57-65 | delete removes exactly the caller's rows of that product |
| CartController.Clear | app/Http/Controllers/CartController.php:67-73 | clear removes exactly the caller's rows |
| WishlistController.WishlistView | app/Http/Controllers/WishlistController.php:11-26 | the listing has one entry per wishlisted product at its list price; it fails exactly when a product is gone |
| WishlistController.WishlistIgnoresPromotion | app/Http/Controllers/WishlistController.php:20 | a promoted product shows a different price in the wishlist than in the cart |
| WishlistController.WishRows | app/Http/Controllers/WishlistController.php:39-44 | the insert loop creates one row per requested id, in order |
| WishlistController.UpdateWishlist | app/Http/Controllers/WishlistController.php:28-47 | a rejected request changes nothing; otherwise the caller's rows are replaced by the new ones |
| WishlistController.WishlistOfOwnRows | app/Http/Controllers/WishlistController.php:39-44 | the rows inserted for a user make up exactly the requested ids |
| WishlistController.WishlistOfNone | app/Http/Controllers/WishlistController.php:13 | a table with no row of the user gives an empty wishlist |
| WishlistController.ClearWishlistEmpties | app/Http/Controllers/WishlistController.php:73 | clearing empties only the caller's wishlist |
| WishlistController.UpdateWishlistResult | app/Http/Controllers/WishlistController.php:36-44 | after update the caller's wishlist is exactly the requested ids and every other wishlist is unchanged |
| WishlistController.WithoutId | app/Http/Controllers/WishlistController.php:60-62 | removing an id keeps exactly the other ids |
| WishlistController.WithoutIdAppend | app/Http/Controllers/WishlistController.php:60-62 | removing an id distributes over concatenation |
| WishlistController.RemoveWishOwn | app/Http/Controllers/WishlistController.php:60-62 | delete(p) turns the caller's wishlist into that list without p |
| WishlistController.RemoveWishEffect | app/Http/Controllers/WishlistController.php:60-62 | after delete(p) the caller's wishlist no longer holds p and other users are untouched |
| WishlistController.DeleteWish | app/Http/Controllers/WishlistController.php:52-65 | an unknown product id in the body is a 422 with no change; otherwise exactly the caller's rows of that product go |
| WishlistController.ClearAll | app/Http/Controllers/WishlistController.php:70-76 | clear removes exactly the caller's rows |
| CheckAppSettings.Handle | app/Http/Middleware/CheckAppSettings.php:11-50 | a 503 only in maintenance mode; a 403 only with the registration flag set, on a registration path |
| CheckAppSettings.NoFlagsPassEverything | app/Http/Middleware/CheckAppSettings.php:13-49 | with no settings row, or both flags off, every request is passed on |
| CheckAppSettings.MaintenanceWins | app/Http/Middleware/CheckAppSettings.php:15-38 | in maintenance mode a request gets 503 exactly when it is outside the allow-list |
| CheckAppSettings.RegistrationBlockedWhenFlagTrue | app/Http/Middleware/CheckAppSettings.php:41-46 | with allow_register true, a registration request that passes maintenance gets 403 |
| CheckAppSettings.RegistrationOpenWhenFlagFalse | app/Http/Middleware/CheckAppSettings.php:41-49 | with allow_register false, registration is never blocked, and outside maintenance everything passes |
| CheckAppSettings.AdminAuthExceptionsRedundant | app/Http/Middleware/CheckAppSettings.php:17-21 | the admin login and register exceptions are already admin routes |
| CheckAppSettings.AdminRegisterDuringMaintenance | app/Http/Middleware/CheckAppSettings.php:15-46 | concrete cases in maintenance mode: the admin registration passes maintenance and gets 403 with the flag set, passes with it off; the customer registration gets 503 |
| OrderController.LinesTotalBounds | app/Http/Controllers/OrderController.php:115-126 | with non-negative prices and positive quantities the subtotal is non-negative, and positive once a price is |
| OrderController.StoreAmounts | app/Http/Controllers/OrderController.php:99-135 | a non-zero subtotal is used as sent, with the total as sent, and a delivery fee or discount sent as null is stored as NULL; a zero one is recomputed from the lines, a zero or null delivery fee becomes 7.5 DT and total = subtotal + shipping − discount, a null discount counting as 0 |
| OrderController.ComputeAmounts | app/Http/Controllers/OrderController.php:107-135 | the figures are computed exactly when the subtotal is non-zero or every line fits its stock, and are then those of StoreAmounts |
| OrderController.NewOrder | app/Http/Controllers/OrderController.php:138-150 | the new order is pending, unpaid, cash on delivery, with tax 0, the computed figures (NULL fee or discount included) and number "ORD-" + 8 upper-case characters, which the creating hook keeps |
| OrderController.PlaceLine | app/Http/Controllers/OrderController.php:153-191 | a line is rejected exactly when its size or total stock is short; an accepted line books an item at the unit price and lowers the stock by the quantity |
| OrderController.PlaceLineSizeExact | app/Http/Controllers/OrderController.php:159-172 | an accepted sized line lowers that size's count by exactly the quantity (the clamp at 0 never bites) and no other size changes |
| OrderController.Run | app/Http/Controllers/OrderController.php:153-192 | the loop books lines in order until one is rejected; without a rejection every line is booked |
| OrderController.RunStopsAtFailure | app/Http/Controllers/OrderController.php:163-179 | once a line is rejected, the later lines change nothing |
| OrderController.RunStock | app/Http/Controllers/OrderController.php:153-192 | each product's stock drops by exactly the quantities of the booked lines; a rejected line is the one right after them |
| OrderController.RunFailureCause | app/Http/Controllers/OrderController.php:159-179 | a rejected run stopped at a line whose stock check fails on the table the earlier lines left |
| OrderController.RunItems | app/Http/Controllers/OrderController.php:181-187 | the items mirror the booked lines in order: product, quantity and size, all on this order |
| OrderController.RunItemPrices | app/Http/Controllers/OrderController.php:181-187 | each item's price is its product's unit price as it stood before the checkout |
| OrderController.RunKeepsUnitPrices | app/Http/Controllers/OrderController.php:153-192 | checking out changes stock and sizes only: every product stays saved at the unit price it had |
| OrderController.SavedStep | app/Models/Product.php:130-139 | saving after a stock change keeps promo_price current and the unit price unchanged |
| OrderController.RunKeepsStockNonNegative | app/Http/Controllers/OrderController.php:175-190 | checkout never drives a stock below zero |
| OrderController.PreCheck | app/Http/Controllers/OrderController.php:114-126 | the pre-check passes exactly when each line fits its product's stock on its own, and then returns Σ (promo_price ?? price) · qty |
| OrderController.PreCheckGap | app/Http/Controllers/OrderController.php:114-179 | two lines of one product, each within stock but together above it, pass the pre-check and are then rejected at the second line |
| OrderController.DistinctFittingLinesPass | app/Http/Controllers/OrderController.php:114-192 | lines naming distinct products, without sizes and each within stock, are all booked, and unnamed products are untouched |
| OrderController.QtyKeys | app/Http/Controllers/OrderController.php:153 | the set of products the lines name |
| OrderController.RunExtend | app/Http/Controllers/OrderController.php:153-192 | the loop grows by one line step at a time while nothing has been rejected |
| OrderController.PlaceOne | app/Http/Controllers/OrderController.php:154-191 | one loop pass on the database performs exactly the line step |
| OrderController.PlaceLines | app/Http/Controllers/OrderController.php:153-192 | the loop on the database leaves the products and items the ledger describes |
| OrderController.Store | app/Http/Controllers/OrderController.php:83-242 | 422 on failed validation (a malformed shipping e-mail included) or a failed pre-check with nothing written; otherwise the order row and then the checkout effects, kept even when a line is rejected |
| OrderController.CheckOut | app/Http/Controllers/OrderController.php:138-241 | the order row, the booked lines and their stock effects; when every line went through, the buyer's cart is emptied and the notification written |
| OrderController.PaidOrder | app/Http/Controllers/OrderController.php:353-361 | the paid order is paid by stripe, left at the default status pending, for the metadata's user and total; the session id is kept only when it is persisted |
| OrderController.PaidRun | app/Http/Controllers/OrderController.php:364-377 | the webhook books every line until a product id names no row |
| OrderController.PaidRunFacts | app/Http/Controllers/OrderController.php:364-377 | booked lines name existing products, and list prices never change |
| OrderController.PaidRunStock | app/Http/Controllers/OrderController.php:375-376 | each product's stock drops by exactly the booked quantities, with no lower bound |
| OrderController.PaidRunItemAt | app/Http/Controllers/OrderController.php:367-373 | the item booked for a line names that line's existing product, quantity and size at the list price |
| OrderController.PaidRunItems | app/Http/Controllers/OrderController.php:367-373 | webhook items carry the list price, whatever the promotion |
| OrderController.PaidRunCanGoNegative | app/Http/Controllers/OrderController.php:375 | a stock of 1 and a paid quantity of 3 leave a stock of −2 |
| OrderController.HandleStripeWebhook | app/Http/Controllers/OrderController.php:320-414 | 400 for a rejected event; 200 with no change for another event type or a recorded session; otherwise the paid order, its lines, the user's cart cleared and the admins notified |
| OrderController.PaidRunExtend | app/Http/Controllers/OrderController.php:364-377 | the webhook loop grows one line at a time while no product is missing |
| OrderController.PaidStep | app/Http/Controllers/OrderController.php:364-377 | one webhook line stops the run exactly when its product is missing, and then changes nothing else |
| OrderController.BookPaidLines | app/Http/Controllers/OrderController.php:364-377 | the webhook loop on the database leaves the products and items the ledger describes |
| OrderController.PaidRunStopsAtMissing | app/Http/Controllers/OrderController.php:365 | after a missing product, the later lines change nothing |
| OrderController.ReplayDetection | app/Http/Controllers/OrderController.php:340-361 | with the session id stored a replay is detected; without it, a replay is not |
| OrderController.CardPricing | app/Http/Controllers/OrderController.php:264-289 | the card pricing succeeds exactly when each line fits its stock, and then charges round(subtotal · 1.19 + delivery) to the cent |
| OrderController.StripeAmountRounding | app/Http/Controllers/OrderController.php:289 | the Stripe amount, in millimes, is a whole number of cents within half a cent of the exact total |
| OrderController.CardTotalThreshold | app/Http/Controllers/OrderController.php:278-281 | the card total never falls as the subtotal grows on one side of 50 DT, and falls when the subtotal reaches 50 DT |
| OrderController.CardSubtotalMatchesStore | app/Http/Controllers/OrderController.php:274 | where every product has a promo_price, the card subtotal equals the one checkout recomputes |
| OrderController.CustomerOrderIds | app/Http/Controllers/OrderController.php:20-48 | index lists exactly the caller's orders |
| OrderController.ShowOrder | app/Http/Controllers/OrderController.php:50-56 | show finds the order only when it belongs to the caller |
| OrderController.ShowMatchesIndex | app/Http/Controllers/OrderController.php:20-56 | an order is shown to a customer exactly when it is in their listing |
| AdminProductController.Created | app/Http/Controllers/Admin/ProductController.php:88-111 | the new product belongs to the caller and the category; name, description, price, images, brand, colour, style and material are the request's; its stock is the sum of the size map when one is sent; a sent gender or size list is kept, else gender is Unisexe and sizes [] |
| AdminProductController.CreatedWellFormed | app/Http/Controllers/Admin/ProductController.php:69-111 | a validated request gives a product with non-negative stock and price and an allowed gender |
| AdminProductController.StoreProduct | app/Http/Controllers/Admin/ProductController.php:60-117 | 422 with no change on failed validation, else the created product is added |
| AdminProductController.Patched | app/Http/Controllers/Admin/ProductController.php:151-180 | an update keeps id, owner and promotion; the stock is recomputed from a sent size map, else taken from the request or kept; sent sizes, null included, replace the stored ones and absent sizes keep them |
| AdminProductController.PatchedKeys | app/Http/Controllers/Admin/ProductController.php:151-180 | an empty update changes nothing; a sent size map overrides a sent stock |
| AdminProductController.PatchedStockNonNegative | app/Http/Controllers/Admin/ProductController.php:132-170 | a validated update keeps the stock non-negative |
| AdminProductController.UpdateProduct | app/Http/Controllers/Admin/ProductController.php:120-186 | 404, 422 with no change (sizes outside the allowed set, a null sizes list passes), or the patched and saved product |
| AdminProductController.MayDeleteCases | app/Http/Controllers/Admin/ProductController.php:195 | a super admin may delete any product; anyone else only the products they created |
| AdminProductController.DestroyProduct | app/Http/Controllers/Admin/ProductController.php:189-202 | 404; 403 with no change for a non-owner who is not a super admin; else the product is deleted and the cascade on product_views.product_id deletes its view counters |
| AdminProductController.ParseStockOp | app/Http/Controllers/Admin/ProductController.php:210-214 | a missing operation means set; only set, add and subtract are accepted |
| AdminProductController.NewStockCases | app/Http/Controllers/Admin/ProductController.php:216-225 | set gives n, add gives old + n, subtract gives max(0, old − n); for n ≥ 0 no operation makes a non-negative stock negative |
| AdminProductController.UpdateStock | app/Http/Controllers/Admin/ProductController.php:206-233 | 422 or 404 with no change; otherwise only the stock changes, then the product is saved |
| AdminProductController.StockAndSizesDiverge | app/Http/Controllers/Admin/ProductController.php:216-227 | a stock update on a product with a size map leaves the map, so total stock and the map's sum no longer agree |
| AdminProductController.GenerateSku | app/Http/Controllers/Admin/ProductController.php:315-322 | an SKU has at least four characters |
| AdminProductController.PaddedCounter | app/Http/Controllers/Admin/ProductController.php:319 | the zero-padded counter is all digits, reads back as the counter, and is four long for counters up to 9999 |
| AdminProductController.SkuParts | app/Http/Controllers/Admin/ProductController.php:315-322 | the SKU is the upper-cased slug cut to six characters followed by digits worth count + 1, four of them below 9999 |
| AdminProductController.NatToStringShort | app/Http/Controllers/Admin/ProductController.php:319 | numbers below 10000 take at most four digits, so the padding gives exactly four |
| AdminProductController.SkuDistinct | app/Http/Controllers/Admin/ProductController.php:315-322 | different product counts give different SKUs for the same name |
| AdminOrderController.IndexIds | app/Http/Controllers/Admin/OrderController.php:16-88 | the listing holds exactly the orders the caller may see that pass every filter |
| AdminOrderController.FilterDefaults | app/Http/Controllers/Admin/OrderController.php:51-75 | status "all" or empty filters nothing; high_value keeps totals ≥ 500 DT; recent keeps the last 7 days |
| AdminOrderController.StatusFilterExact | app/Http/Controllers/Admin/OrderController.php:51-53 | a status filter keeps exactly the orders with that status |
| AdminOrderController.ShowOrder | app/Http/Controllers/Admin/OrderController.php:90-111 | show returns the stored order, when the caller may see it |
| AdminOrderController.ShowMatchesIndex | app/Http/Controllers/Admin/OrderController.php:33-104 | show finds an order exactly when it exists and the caller may see it, the rule the listing uses |
| AdminOrderController.ForeignOrderHidden | app/Http/Controllers/Admin/OrderController.php:98-104 | a creator who owns none of an order's products gets 404 for it |
| AdminOrderController.AdminStatus | app/Http/Controllers/Admin/OrderController.php:117-120 | exactly pending, processing, shipped, delivered and cancelled are accepted, each as its own status |
| AdminOrderController.AdminStatusRefuses | app/Http/Controllers/Admin/OrderController.php:117-120 | confirmed and refunded are refused though the model lists them; every other status is accepted |
| AdminOrderController.UpdateStatus | app/Http/Controllers/Admin/OrderController.php:114-139 | 422 or 404 with no change; otherwise only the status changes, from any current status |
| AdminOrderController.UpdatePaymentStatus | app/Http/Controllers/Admin/OrderController.php:142-183 | 422 or 404 with no change; otherwise only payment_status changes |
| AdminOrderController.PaymentStatusWritable | app/Http/Controllers/Admin/OrderController.php:144-149 | every payment status the model lists can be written |
| AdminOrderController.AddNotes | app/Http/Controllers/Admin/OrderController.php:185-206 | 422 or 404 with no change; otherwise notes are overwritten by the new text |
| AdminOrderController.ExportStatus | app/Http/Controllers/Admin/OrderController.php:264-273 | the export status filter is optional and must be a model status |
| AdminOrderController.ExportCustomerIsFullName | app/Http/Controllers/Admin/OrderController.php:293-297 | the export's customer is the user's full_name, and "" without a user |
| AdminOrderController.ExportRowOf | app/Http/Controllers/Admin/OrderController.php:292-302 | an export row echoes number, status and total; the email is null exactly when the order has no user |
| AdminOrderController.Export | app/Http/Controllers/Admin/OrderController.php:262-305 | a missing or unknown format (only csv and excel) or an invalid status is refused; otherwise exactly the orders with that status, or all of them, are exported |
| AdminCategoryController.IndexIds | app/Http/Controllers/Admin/CategoryController.php:16-53 | a non-super-admin lists only their own categories |
| AdminCategoryController.IndexMatchesGuard | app/Http/Controllers/Admin/CategoryController.php:26-28 | a category is listed exactly when the caller may manage it; a super admin sees all |
| AdminCategoryController.SortColumn | app/Http/Controllers/Admin/CategoryController.php:39-41 | an unknown or missing sort column falls back to id |
| AdminCategoryController.SortColumnExists | app/Http/Controllers/Admin/CategoryController.php:39-41 | the sort column used always exists |
| AdminCategoryController.CandidateInjective | app/Http/Controllers/Admin/CategoryController.php:91 | different counters give different candidate slugs |
| AdminCategoryController.CandidatesBelow | app/Http/Controllers/Admin/CategoryController.php:89-93 | the candidates the loop has tried so far |
| AdminCategoryController.CandidateNotBelow | app/Http/Controllers/Admin/CategoryController.php:89-93 | a later candidate is none of the earlier ones |
| AdminCategoryController.FirstFreeUnique | app/Http/Controllers/Admin/CategoryController.php:87-93 | the first free slug is unique |
| AdminCategoryController.FirstFreeBase | app/Http/Controllers/Admin/CategoryController.php:87-93 | an unused base slug is kept as it is |
| AdminCategoryController.UniqueSlug | app/Http/Controllers/Admin/CategoryController.php:87-93 | the loop returns the base, or the first of base-1, base-2, … that is not taken |
| AdminCategoryController.SlugsOf | app/Http/Controllers/Admin/CategoryController.php:132-135 | the slugs in use, leaving out the category being updated |
| AdminCategoryController.NewCategory | app/Http/Controllers/Admin/CategoryController.php:95-102 | the new category belongs to the caller, is active by default, has sort order 0 and the chosen slug |
| AdminCategoryController.StoreSlugFresh | app/Http/Controllers/Admin/CategoryController.php:87-102 | a given slug is kept, and the stored slug is never one already in use |
| AdminCategoryController.StoreCategory | app/Http/Controllers/Admin/CategoryController.php:76-108 | 422 with no change on failed validation, else the new category with a fresh slug |
| AdminCategoryController.SavedActivity | app/Http/Controllers/Admin/CategoryController.php:100 | a new category is active unless created inactive; an update without a status keeps its activity, one with a status sets it |
| AdminCategoryController.UpdatedCategory | app/Http/Controllers/Admin/CategoryController.php:141-147 | update writes name, description, image and status, and keeps owner, parent, order and banner; the stored slug is the de-duplicated one, unless the name changed over an empty stored slug, when the hook stores Str::slug of the new name |
| AdminCategoryController.UpdateSlugFresh | app/Http/Controllers/Admin/CategoryController.php:127-150 | when the stored slug is non-empty or the name is unchanged, the saved slug is the de-duplicated one, used by no other row, and a slug sent by the client is kept as sent |
| AdminCategoryController.UpdateSlugCanCollide | app/Models/Category.php:136-140 | when the name changes over an empty stored slug and another row already holds Str::slug of the new name, the saved slug is one another row uses |
| AdminCategoryController.UpdateCategory | app/Http/Controllers/Admin/CategoryController.php:110-153 | 404; 403 with no change for a non-owner; 422; else the updated category |
| AdminCategoryController.ResaveKeepsSlug | app/Http/Controllers/Admin/CategoryController.php:129-139 | re-saving with the same name keeps the category's slug, its own row being excluded |
| AdminCategoryController.CascadeStep | database/migrations/2025_12_01_000002_add_fields_to_categories_table.php:18 | one cascade round adds exactly the children of the removed rows |
| AdminCategoryController.CascadeFromClosed | database/migrations/2025_12_01_000002_add_fields_to_categories_table.php:18 | within as many rounds as there are rows the cascade reaches a set closed under children |
| AdminCategoryController.CascadeFromLeast | database/migrations/2025_12_01_000002_add_fields_to_categories_table.php:18 | the cascade removes nothing outside any closed set that holds its start |
| AdminCategoryController.Subtree | database/migrations/2025_12_01_000002_add_fields_to_categories_table.php:18 | the rows ON DELETE CASCADE on parent_id removes: the category itself and every row whose parent is removed |
| AdminCategoryController.SubtreeLeast | database/migrations/2025_12_01_000002_add_fields_to_categories_table.php:18 | the subtree is the least such set: it holds no row that is not a descendant |
| AdminCategoryController.DestroyCategory | app/Http/Controllers/Admin/CategoryController.php:156-178 | 404; 403 for a non-owner; 422 while products use it; all with no change; else it and, by the cascade on parent_id, all its descendants are deleted |
| AdminCategoryController.DestroyOrphansSubtreeProducts | app/Http/Controllers/Admin/CategoryController.php:166-175 | the guard only looks at the category itself: a product filed under a child loses its category with the cascade, one outside the subtree keeps it, and no surviving row names a deleted parent |
| AdminCategoryController.Reordered | app/Http/Controllers/Admin/CategoryController.php:190-193 | reordering keeps the set of categories |
| AdminCategoryController.ReorderedEffect | app/Http/Controllers/Admin/CategoryController.php:190-193 | a listed category gets its last listed sort order; an unlisted one is unchanged |
| AdminCategoryController.Reorder | app/Http/Controllers/Admin/CategoryController.php:182-196 | 422 with no change on failed validation, else the reordered table |
| AdminCategoryController.Find | app/Http/Controllers/Admin/CategoryController.php:220 | find succeeds exactly for an existing id |
| AdminCategoryController.AncestryStep | app/Http/Controllers/Admin/CategoryController.php:222-227 | a category is on the chain from x exactly when it is x or on the chain from x's parent |
| AdminCategoryController.WouldCreateCircularReference | app/Http/Controllers/Admin/CategoryController.php:218-230 | the walk answers true exactly when the category is on the parent chain starting at the proposed parent |
| AdminCategoryController.CircularCases | app/Http/Controllers/Admin/CategoryController.php:218-230 | making a category its own parent is circular; a root parent other than itself is not |
| AdminCategoryController.NewBanner | app/Http/Controllers/Admin/CategoryController.php:249-262 | the banner image changes only when a file is uploaded |
| AdminCategoryController.UpdateBottomBanner | app/Http/Controllers/Admin/CategoryController.php:232-270 | 403 with no change for anyone but a super admin; 404; 422; else the new banner |
| AdminNotificationController.Index | app/Http/Controllers/Admin/NotificationController.php:11-16 | every notification, newest first |
| AdminNotificationController.NewEntry | app/Http/Controllers/Admin/NotificationController.php:19-32 | a stored notification has the request's type, title and author and is unread |
| AdminNotificationController.Store | app/Http/Controllers/Admin/NotificationController.php:19-32 | 422 with no change on a failed rule, a blank type or title included; else the new entry |
| AdminNotificationController.MarkedRead | app/Http/Controllers/Admin/NotificationController.php:37-39 | read_at is set only when null; an already-read notification is unchanged |
| AdminNotificationController.MarkedReadIdempotent | app/Http/Controllers/Admin/NotificationController.php:37-39 | marking twice is marking once; the first timestamp stays |
| AdminNotificationController.MarkAsRead | app/Http/Controllers/Admin/NotificationController.php:35-45 | 404 with no change, else that notification is marked read |
| AdminNotificationController.AllRead | app/Http/Controllers/Admin/NotificationController.php:48-52 | every notification ends read and existing read_at values are kept |
| AdminNotificationController.AllReadIsEachRead | app/Http/Controllers/Admin/NotificationController.php:48-52 | marking all is marking each one, and a second pass changes nothing |
| AdminNotificationController.MarkAllAsRead | app/Http/Controllers/Admin/NotificationController.php:48-52 | the table becomes the all-read table |
| AdminNotificationController.Destroy | app/Http/Controllers/Admin/NotificationController.php:54-58 | 404 with no change, else exactly that notification is removed |
| AdminNotificationController.DestroyAll | app/Http/Controllers/Admin/NotificationController.php:61-65 | the table is left empty |
| CustomerNotificationController.Index | app/Http/Controllers/CustomerNotificationController.php:18-28 | every notification, newest first |
| CustomerNotificationController.WithReadFlags | app/Http/Controllers/CustomerNotificationController.php:92-97 | each feed entry is read exactly when the caller has a receipt for it |
| CustomerNotificationController.MyNotificationsSpec | app/Http/Controllers/CustomerNotificationController.php:80-101 | the feed holds exactly the active broadcasts and active notifications addressed to the caller, newest first, with read flags |
| CustomerNotificationController.MyNotificationsHas | app/Http/Controllers/CustomerNotificationController.php:80-101 | every notification visible to the caller appears in the feed |
| CustomerNotificationController.Show | app/Http/Controllers/CustomerNotificationController.php:45-55 | 404 exactly for an unknown id; an allowed show returns the stored row |
| CustomerNotificationController.ShowMatchesScope | app/Http/Controllers/CustomerNotificationController.php:45-55 | show allows exactly what forUser selects: broadcasts to all, personal ones to their recipient; someone else's is 403 |
| CustomerNotificationController.MarkRead | app/Http/Controllers/CustomerNotificationController.php:116-119 | the upsert adds or refreshes the one receipt of (notification, caller) and keeps every other receipt |
| CustomerNotificationController.MarkReadEffect | app/Http/Controllers/CustomerNotificationController.php:106-125 | repeating the upsert keeps one receipt with the latest time; other users' receipts are untouched; the caller's feed shows it read |
| CustomerNotificationController.MarkAsRead | app/Http/Controllers/CustomerNotificationController.php:106-125 | 404 or 403 with no receipt written; otherwise the receipt upsert |
| CustomerNotificationController.Inserted | app/Http/Controllers/CustomerNotificationController.php:33-40 | the stored row has the request's recipient and title, is active unless told otherwise, and is stamped now |
| CustomerNotificationController.Announce | app/Events/CustomerNotificationCreated.php:19-55 | an event is sent exactly when broadcastWhen holds, on broadcastOn's channel, named CustomerNotificationCreated, with broadcastWith's payload |
| CustomerNotificationController.AnnounceCreated | app/Events/CustomerNotificationCreated.php:51-55 | the created instance is announced exactly when is_active was sent as true and broadcastWhen holds for the stored row; an absent is_active is null on the instance, so nothing is sent |
| CustomerNotificationController.Store | app/Http/Controllers/CustomerNotificationController.php:33-40 | without a title or message, or with a recipient that is no user (the foreign key), the insert fails (500) with no change and nothing sent; otherwise the row is added and the created instance is announced |
| CustomerNotificationController.StoreAnnouncesPrivately | app/Http/Controllers/CustomerNotificationController.php:33-40 | a notification sent with is_active true, unscheduled and addressed to a user goes out on that user's private channel only |
| CustomerNotificationController.StoreWithoutActiveIsSilent | app/Http/Controllers/CustomerNotificationController.php:33-40 | a notification created without is_active is stored active and shows in its addressees' feeds, yet no event announces it |
| CustomerNotificationController.Patched | app/Http/Controllers/CustomerNotificationController.php:60-65 | an update keeps id and creation time; an empty update changes nothing |
| CustomerNotificationController.Update | app/Http/Controllers/CustomerNotificationController.php:60-65 | 404 for an unknown id; 500 with no change for a null title or message or a recipient that is no user (the foreign key); else the patched row |
| CustomerNotificationController.ReceiptsWithout | app/Http/Controllers/CustomerNotificationController.php:70-75 | deleting a notification drops exactly its receipts (the cascade) |
| CustomerNotificationController.Destroy | app/Http/Controllers/CustomerNotificationController.php:70-75 | 404 with no change, else the row and its receipts are removed |
| Common.AfterLastSlashWhole | app/Http/Controllers/RecommendationController.php:29 | a path without a slash is its own last component |
| Common.BasenameIdempotent | app/Http/Controllers/RecommendationController.php:29 | a basename holds no slash, and taking the basename of it again changes nothing |
| RecommendationController.ImagesOf | app/Http/Controllers/RecommendationController.php:149-154 | a stored list is returned as it is and a missing one gives [] (a JSON string goes through the decoder) |
| RecommendationController.BaseNames | app/Http/Controllers/RecommendationController.php:29 | each requested filename is reduced to its basename |
| RecommendationController.FirstMatchNoneAt | app/Http/Controllers/RecommendationController.php:41-69 | when the scan from an image on finds nothing, no later image has a requested basename |
| RecommendationController.FirstMatchIndex | app/Http/Controllers/RecommendationController.php:41-69 | where the scan stops: an image with a requested basename, and no earlier image has one |
| RecommendationController.FirstMatchNone | app/Http/Controllers/RecommendationController.php:41-69 | the scan finds nothing exactly when no image has a requested basename |
| RecommendationController.FirstMatchSpec | app/Http/Controllers/RecommendationController.php:37-73 | the scan finds nothing exactly when no image basename is requested; otherwise it finds the first matching image |
| RecommendationController.ScanImages | app/Http/Controllers/RecommendationController.php:37-73 | the nested loop with its early exit returns the first match |
| RecommendationController.ParseGlassType | app/Http/Controllers/RecommendationController.php:17-21 | only "sunglasses" and "eyeglasses" are types |
| RecommendationController.ReportSpec | app/Http/Controllers/RecommendationController.php:41-69 | a product is reported exactly when an image matches and its type fits; the report names the matched basename |
| RecommendationController.Collect | app/Http/Controllers/RecommendationController.php:37-73 | the reports of the first n products number at most n |
| RecommendationController.CollectSound | app/Http/Controllers/RecommendationController.php:37-73 | each collected entry is the report of one of the products scanned so far |
| RecommendationController.CollectListed | app/Http/Controllers/RecommendationController.php:37-73 | each report of a product scanned so far is collected |
| RecommendationController.Matches | app/Http/Controllers/RecommendationController.php:37-73 | no more entries than products |
| RecommendationController.MatchProducts | app/Http/Controllers/RecommendationController.php:37-73 | the product loop returns the matches in product order |
| RecommendationController.MatchesSound | app/Http/Controllers/RecommendationController.php:41-69 | every returned product has an image whose basename was requested, and that basename is reported |
| RecommendationController.ReportedIsListed | app/Http/Controllers/RecommendationController.php:37-73 | a product that is reported appears in the result |
| RecommendationController.MatchesComplete | app/Http/Controllers/RecommendationController.php:37-73 | every product that matches and fits the type is returned |
| RecommendationController.TypesPartitionUpTo | app/Http/Controllers/RecommendationController.php:48-69 | over any prefix of the products, the sunglasses and eyeglasses reports together number exactly the unfiltered ones |
| RecommendationController.TypesPartition | app/Http/Controllers/RecommendationController.php:48-69 | the sunglasses and eyeglasses results together have exactly as many entries as the unfiltered result: each match fits exactly one type |
| RecommendationController.FindProductsByImages | app/Http/Controllers/RecommendationController.php:15-83 | 422 exactly for an empty file list or an unknown type; otherwise the matches |
| RecommendationController.FilenamesOfSpec | app/Http/Controllers/RecommendationController.php:98-106 | the names collected are exactly the basenames of the stock matches that have a filename |
| RecommendationController.CollectFilenames | app/Http/Controllers/RecommendationController.php:98-106 | the loop collects those names; no stock matches gives none |
| RecommendationController.ProcessRecommendations | app/Http/Controllers/RecommendationController.php:88-144 | an empty list is refused; otherwise one result per recommendation, in order, with its matches |
| RecommendationController.NoNamesNoMatches | app/Http/Controllers/RecommendationController.php:88-144 | no filenames means no matched products |
| ProductAnalyticsController.FirstView | app/Http/Controllers/Admin/ProductAnalyticsController.php:29-32 | finds the first counter row of a (viewer, product) pair, or reports there is none |
| ProductAnalyticsController.IncrementView | app/Http/Controllers/Admin/ProductAnalyticsController.php:17-41 | 404 with no change for an unknown product; otherwise the pair's counter is found or created, raised and stamped, and the new count returned |
| ProductAnalyticsController.FirstViewKeys | app/Http/Controllers/Admin/ProductAnalyticsController.php:29-35 | changing counts and stamps in place keeps where every pair's row is found |
| ProductAnalyticsController.FirstViewAppend | app/Http/Controllers/Admin/ProductAnalyticsController.php:29-32 | a created row becomes the pair's row and moves no other pair's row |
| ProductAnalyticsController.ViewedCounts | app/Http/Controllers/Admin/ProductAnalyticsController.php:29-35 | each view raises the pair's counter by exactly one (the first view leaves it at 1) and leaves every other pair's counter as it was |
| ProductAnalyticsController.ViewedStamps | app/Http/Controllers/Admin/ProductAnalyticsController.php:34-35 | the viewed pair's last visit is the time of the view |
| ProductAnalyticsController.SumViewsUpdate | app/Http/Controllers/Admin/ProductAnalyticsController.php:125 | changing one counter changes the total by the difference |
| ProductAnalyticsController.SameKeysSameSets | app/Http/Controllers/Admin/ProductAnalyticsController.php:125-127 | counter updates in place keep the viewed products and the viewing users |
| ProductAnalyticsController.AppendSets | app/Http/Controllers/Admin/ProductAnalyticsController.php:125-127 | a new row adds its product, and its user when it has one |
| ProductAnalyticsController.ViewedOverview | app/Http/Controllers/Admin/ProductAnalyticsController.php:123-134 | a view adds one to the total and counts the product as viewed; a visitor's view never adds a user |
| AdminUserController.WritableRole | app/Http/Controllers/Admin/UserController.php:100-106 | only "user" and "admin" are accepted, never super_admin |
| AdminUserController.NewUserShape | app/Http/Controllers/Admin/UserController.php:108-115 | a created user is active, never a super admin, keeps the hashed password, and is verified exactly when an admin |
| AdminUserController.Store | app/Http/Controllers/Admin/UserController.php:98-124 | 422 with no change on failed validation, else the new user |
| AdminUserController.EmailTaken | app/Http/Controllers/Admin/UserController.php:103 | unique:users,email: some other row holds the e-mail; see EmailTakenCases |
| AdminUserController.EmailTakenCases | app/Http/Controllers/Admin/UserController.php:140 | without an exception exactly the e-mails some row holds are taken; on update the row's own e-mail is not |
| AdminUserController.StoreKeepsEmailsUnique | app/Http/Controllers/Admin/UserController.php:100-106 | creating a user keeps emails unique |
| AdminUserController.UpdatedShape | app/Http/Controllers/Admin/UserController.php:127-162 | the password changes, hashed, exactly when a filled one is sent; a user ends a super admin only by being one and sending no role |
| AdminUserController.BlankPasswordKept | app/Http/Controllers/Admin/UserController.php:147-153 | a null or blank password leaves the user unchanged |
| AdminUserController.Update | app/Http/Controllers/Admin/UserController.php:127-162 | 404 or 422 with no change, else the patched user |
| AdminUserController.Destroy | app/Http/Controllers/Admin/UserController.php:165-184 | 404; 422 with no change for a super admin or a user with orders; else the user is removed, the orders are unchanged, and the ON DELETE rules disown their products, delete their views and receipts, and turn their personal notifications into broadcasts |
| AdminUserController.Verified | app/Http/Controllers/Admin/UserController.php:209-217 | after verifyEmail the user is verified |
| AdminUserController.VerifiedIdempotent | app/Http/Controllers/Admin/UserController.php:209-217 | verifying a verified user changes nothing; an unverified one is stamped now |
| AdminUserController.VerifyEmail | app/Http/Controllers/Admin/UserController.php:204-226 | 404 with no change, else the verified user |
| AdminUserController.Impersonate | app/Http/Controllers/Admin/UserController.php:240-257 | 404 for an unknown user, 422 exactly for admins and super admins, else a token for a customer |
| AdminCreatorController.CreatorName | app/Http/Controllers/Admin/CreatorController.php:27 | the creator name is first name, one space, last name, not trimmed |
| AdminCreatorController.CreatorNameUntrimmed | app/Http/Controllers/Admin/CreatorController.php:27 | with an empty last name the creator name keeps a trailing space that full_name drops |
| AdminCreatorController.Entries | app/Http/Controllers/Admin/CreatorController.php:19-30 | one entry per listed user, in order |
| AdminCreatorController.IndexSpec | app/Http/Controllers/Admin/CreatorController.php:17-38 | the listing holds exactly the admins and super admins, each with the number of products they created |
| AdminCreatorController.NewCreator | app/Http/Controllers/Admin/CreatorController.php:53-62 | a created creator is an active, verified admin with the hashed password |
| AdminCreatorController.NewCreatorListed | app/Http/Controllers/Admin/CreatorController.php:53-62 | a created creator joins the admins scope, and nobody else does |
| AdminCreatorController.Store | app/Http/Controllers/Admin/CreatorController.php:43-75 | 422 with no change on failed validation, else the new creator |
| AdminCreatorController.UpdatedShape | app/Http/Controllers/Admin/CreatorController.php:84-99 | update keeps role, status and verification, and changes the password only when one is filled |
| AdminCreatorController.Update | app/Http/Controllers/Admin/CreatorController.php:80-112 | 404 or 422 with no change, else the patched creator |
| AdminCreatorController.Destroy | app/Http/Controllers/Admin/CreatorController.php:117-133 | 404; 400 with no change while they own a product; else they are removed, products are unchanged, and the ON DELETE rules delete their orders, views and receipts and turn their personal notifications into broadcasts |
| NewsletterController.Index | app/Http/Controllers/NewsletterController.php:19-25 | every subscriber, newest first |
| NewsletterController.SubscribedNote | app/Http/Controllers/NewsletterController.php:53-64 | the subscribe notification's type and title, unread |
| NewsletterController.UnsubscribedNote | app/Http/Controllers/NewsletterController.php:111-122 | the unsubscribe notification's type and title, unread |
| NewsletterController.DeletedNote | app/Http/Controllers/NewsletterController.php:151-160 | the delete notification's type and title, unread |
| NewsletterController.Subscribe | app/Http/Controllers/NewsletterController.php:33-78 | 422 with no change for a malformed email or one already in the table (even unsubscribed); else one active row and one notification |
| NewsletterController.FindByEmail | app/Http/Controllers/NewsletterController.php:100 | the lookup returns a row with that email, or none exists |
| NewsletterController.UnsubscribeFindsRow | app/Http/Controllers/NewsletterController.php:88-106 | after the exists rule passes, the lookup always finds a row, so the 404 is unreachable |
| NewsletterController.Unsubscribe | app/Http/Controllers/NewsletterController.php:86-135 | 422 with no change for a malformed or unknown email; else the row is kept with is_active false and one notification is written |
| NewsletterController.Destroy | app/Http/Controllers/NewsletterController.php:143-173 | an unknown id is a 500 with no change; else the row goes and one notification is written |
| NewsletterController.OneNotificationPerStep | app/Http/Controllers/NewsletterController.php:47-64 | each successful step adds exactly one notification and keeps the others |
| NewsletterController.SubscriptionLifecycle | app/Http/Controllers/NewsletterController.php:35-148 | an email stays known after subscribing and after unsubscribing, and is free again once its only row is deleted |
| NewsletterController.UnsubscribeKeepsEmails | app/Http/Controllers/NewsletterController.php:100-108 | unsubscribing keeps every row and every email |

## Left out

- The Stripe SDK is not modelled. The session created by `initiatePayment` is not modelled, only its price. The webhook's signature check is an input that is either a rejected event (400) or a verified one.
- The event transport is not modelled: a customer-notification event is the announcement value it would send. The event classes for orders and newsletters are not part of this model. A broadcast that fails and turns a 201 into a 500 is not modelled.
- `lockForUpdate` and request concurrency are not modelled. Requests are strictly sequential.
- Searches, `like` filters, date ranges, sorting direction and pagination are not modelled. Neither is the dashboard and statistics code, or the auth controller.
- Money is in integer cents instead of PHP floats. Percentages and the card tax are exact and their rounding is written out.
- `Str::slug`, `Str::random`, `uniqid`, `json_decode`, password hashing, the e-mail and URL rules, the clock, auto-increment ids and bearer-token lookup are parameters.
- The JSON `data`/`meta` columns of notifications are not modelled. Image files and their upload are not modelled; the banner image is the stored file name or none.
- The `Schema::hasColumn`/`hasTable` branches of the admin order controller are not modelled; the model takes one schema.
- The columns `orders.notes` and `orders.stripe_session_id` are created by no migration that is part of this model, and Admin/OrderController.php:121 calls notes "not in schema". The model takes the reading in which both columns exist: `addNotes` writes the notes and the webhook's replay lookup by session id runs, where on a database without them both would fail with a 500.
- AdminUserController.EmailTaken: e-mail uniqueness is exact string comparison; database collation (case-insensitive matching) is not modelled.
- AdminUserController.Impersonate: the issued token is a parameter; storing the token is not modelled.
- Not modelled in the admin user controller: `index`, `show`, `resetPassword` and `getStats`. They are listing and reporting code.
- Not modelled in the analytics controller: the listing and reporting actions other than `incrementView` and `totalViewsOverview`.
- ProductAnalyticsController.ViewedOverview: states the effect on the total and on the sets counted as distinct products and users, not on the counts themselves.
- The `forme` attribute the recommendation matcher echoes is not a product column, so the reported entry leaves it out.
- NewsletterController.EmailKnown: the `unique` and `exists` rules compare e-mails exactly; database collation (case-insensitive matching) is not modelled.
- The migrations of `carts`, `wishlists`, `order_items` and `products` are not part of this model, so their foreign keys are unknown: deleting a user, a product or a category leaves their rows in those tables as they were.
- NewsletterController.Index: orders by the subscription time, which the model takes to be the row's creation time.
- OrderController.Store: the order-placed notification is modelled as written or not (its failure is caught), without its item payload.
- OrderController.CheckOut: `lockForUpdate` is dropped; the lines are applied to the table one after another.
- CategoryModel.FullPath: the parent chain must be acyclic, stated by a ghost rank. On a cycle the source walk would not end.
- AdminCategoryController.WouldCreateCircularReference: the same acyclicity condition as CategoryModel.FullPath.
- AdminProductController.GenerateSku: `Str::slug` is applied by the caller. The helper is never called by the source itself.
- CheckAppSettings.Handle: Laravel's `is()` patterns are reduced to suffix and substring tests on the path. `*admin/*` is read as "contains admin/".

Where the code behaves differently from what its names or comments suggest, the model follows the code:

- `store()` is not atomic. The order row is written before the lines are checked. A rejected line leaves the order, the earlier lines and their stock changes in place, and the cart is not cleared.
- The registration block in the middleware fires when `allow_register` is true.
- The category updating hook can store a slug another row already uses. When the name changes and the stored slug is empty (or "0"), the hook overwrites the de-duplicated slug with Str::slug of the new name (`UpdateSlugCanCollide`).
- The admin order controller accepts five statuses for writes, while the model lists seven.
- `stripe_session_id` is missing from the order's fillable list. Whether the webhook stores it is a parameter (`persistSessionId`); `ReplayDetection` states both readings.
- The webhook leaves the order status at its column default `pending`, books items at the list price, and takes stock below zero without a check.
- The 404 branch of newsletter `unsubscribe` cannot be reached after validation.
- Category `destroy` says the schema has no parent column, but `parent_id` cascades on delete: deleting a category deletes its descendants, and products filed under them keep a category id that names no row.
- A customer notification created without `is_active` is stored active (the column default), but the created instance the event reads holds null, so no announcement is sent.
