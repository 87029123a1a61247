# eHUB shop core in Dafny

This project models the server core of eHUB, a small web shop, together with two of its client reducers.

- **Server.** An Express API over MongoDB. Users register and log in. A single Seller manages categories and products. Clients fill a cart and check it out into an order.
- **Order capture.** Checkout copies each product's name and discounted price into the order. It then lowers each product's stock and raises its purchase count by the quantity ordered, and deletes the cart.
- **Client.** The two reducers keep the category list and the seller dashboard totals.

## Structure

Each file is one module:

- `common.dfy`: values shared by all the modules.
  - Optional request fields, with JavaScript truthiness.
  - Replies carrying a status.
  - ObjectId text, and the cast of an id to its lower-case form.
  - `trim` and `toLowerCase`.
- `collection.dfy`: a collection. Documents are kept by id, and the ids keep the natural (insertion) order.
- `models.dfy`: the five Mongoose schemas. This covers fields, defaults, the trim and lowercase setters, and the validators a `save()` runs.
- `auth.dfy`: the `protect` and `isSeller` middlewares.
- `carts.dfy`: the list operations of the cart controller.
- `checkout.dfy`: the computations of `createOrder`.
  - Discounted prices.
  - The snapshot of cart lines as order lines.
  - The running total.
  - The `$inc` applied per line.
- `catalog.dfy`: product creation checks, the listing with keyword filter and pagination, fetch by id, and the field assignments of an update.
- `accounts.dfy`: registration and login.
- `categories.dfy`: the category name checks and the update's assignments.
- `orders.dfy`: the two order listings, newest first.
- `shop.dfy`: the `Store` class.
  - It holds the five collections and a clock.
  - Each controller that writes is a method, with the store's invariant in `Valid()`.
  - A route mounted behind `protect` takes the signed-in user as a precondition. A route mounted behind `protect, isSeller` takes the Seller.
- `slices.dfy`: the `categorySlice` and `dashboardSlice` reducers, as classes whose methods are the reducer cases.

## Modelling choices

- **Abstract services.**
  - bcrypt is a function `hash`. A password matches a stored hash when it hashes to it.
  - `jwt.sign` is a function `sign` from id to token.
  - `jwt.verify` is a partial function `verify` from token to id.
- **Request bodies and query parameters.** Each field is `Option` of a typed value. `None` stands for a missing field.
- **Ids.**
  - Stored ids are the lower-case 24-digit text the database prints.
  - An id from a request is cast (lower-cased) before a database lookup.
  - A malformed id makes `findById` throw, which the controllers turn into a 500. `getProductById` differs: it checks the id first and answers 404.
- **Order timestamps.** The store's clock stamps `createdAt`. Orders are kept in creation order, so "newest first" is the reverse of that order.
- **Pagination.** The listing has 12 products a page and `Math.ceil(matches / 12)` pages, so 25 matches give 3 pages of 12, 12 and 1 products (`Catalog.TwentyFiveMatches`).
- **Price and stock on create.** `createProduct` refuses only falsy values. A negative price or stock is accepted. A numeric 0 counts as missing (`Catalog.ZeroPriceOrStockRejected`); see "Left out" for the form field "0".
- **Partial update.** `updateProduct` keeps the old value of a name, description, price, category or sub-category sent falsy, and takes a discount or stock sent at all (`Catalog.PatchKeepsUnsent`, `Catalog.PatchTakesSent`, `Catalog.PatchZeroes`).

## Model

| member | source | states |
|---|---|---|
| Common.CastId | server/controllers/productController.js:80-83 | casting keeps the length, and a valid ObjectId text casts to the canonical lower-case id |
| Common.CastCanonical | server/controllers/productController.js:83 | casting an id the database printed gives the same id back |
| Common.OrString | server/controllers/productController.js:124-129 | `s \|\| fallback` is the field when it is a non-empty string, the fallback otherwise |
| Common.Trim | server/models/Category.js:10-15 | the trim setter removes white space at both ends only, and gives "" exactly for an all-space string |
| Common.TrimIdempotent | server/models/User.js:12-16 | trimming a trimmed value changes nothing |
| Common.TrimLeadingSpace | server/models/Category.js:14 | a leading space makes no difference to the trim |
| Common.TrimTrailingSpace | server/models/Category.js:14 | a name without white space at its ends, followed by a space, trims back to itself |
| Common.Lower | server/models/User.js:18-24 | the lowercase setter folds each capital, keeping the length |
| Common.LowerIdempotent | server/models/User.js:23 | lower-casing twice is lower-casing once |
| Common.IsInfixAt | server/controllers/productController.js:59 | the keyword test holds exactly when the keyword occurs at some position of the name |
| Common.ContainsItself | server/controllers/productController.js:59 | every name matches itself as a keyword, in any case |
| Collections.Values | server/controllers/categoryController.js:49-52 | `find({})` lists every document in natural order |
| Collections.ValuesAreDocs | server/controllers/categoryController.js:51 | the listing holds every stored document and nothing else |
| Collections.Insert | server/controllers/categoryController.js:32 | saving a new document adds it under its id, last in natural order, and keeps the others |
| Collections.Put | server/controllers/categoryController.js:78 | saving an existing document replaces it and keeps the natural order |
| Collections.Remove | server/controllers/categoryController.js:102 | `deleteOne` removes that id and only that id |
| Collections.WithoutIdDistributes | server/controllers/categoryController.js:102 | dropping an id works run by run, so the ids that stay keep their relative order |
| Collections.WithoutIdAbsent | server/controllers/categoryController.js:102 | dropping an id that is not stored changes nothing |
| Collections.WithoutIdAt | server/controllers/categoryController.js:102 | an id stored once is dropped from its place, with the ids before and after it kept in order |
| Collections.RemoveKeepsOrder | server/controllers/categoryController.js:102 | `deleteOne` leaves the other documents in the natural order they had |
| Models.ParseRole | server/models/User.js:33-37 | the role enum admits exactly "Client" and "Seller" |
| Models.Public | server/middlewares/authMiddleware.js:29 | `select('-password')` keeps id, name, email and role |
| Models.NormalizeEmail | server/models/User.js:18-24 | a stored email is trimmed and has no capitals, and is empty exactly for an all-space input |
| Models.NewUser | server/models/User.js:10-37 | a new user has the trimmed name, the normalised email, the given password and role |
| Models.SubCategoriesOf | server/models/Category.js:17-23 | sub-categories keep the order of the names sent, each trimmed |
| Models.NewCategory | server/models/Category.js:8-23 | a new category has the trimmed name and the sub-category list built from the names |
| Models.DuplicateSubCategoriesAllowed | server/models/Category.js:17-23 | two sub-category names differing only by leading white space are stored as one and the same entry, twice, and the schema accepts the repeat |
| Models.NewProduct | server/models/Product.js:8-51 | name trimmed; discount defaults to 0, stock to 1, purchaseCount to 0; other fields as supplied |
| Models.NewCartItem | server/models/Cart.js:25-30 | a pushed cart line's quantity defaults to 1 |
| Models.ParseStatus | server/models/Order.js:32-36 | the status enum admits exactly the five names |
| Models.NewOrder | server/models/Order.js:8-49 | a new order is Pending, has no payment yet and holds the given user, lines, total and address |
| Auth.TokenOf | server/middlewares/authMiddleware.js:22 | `split(' ')[1]` is undefined exactly when the header has no space, and never contains a space |
| Auth.TokenOfBearer | server/middlewares/authMiddleware.js:22 | the header `Bearer <t>` yields `t` |
| Auth.CheckToken | server/middlewares/authMiddleware.js:20-40 | the user passes on exactly when the token verifies to a valid id of a stored user, without the password; otherwise 401 "token failed" for a token that does not verify or names a malformed id, and 401 "user not found" for a well-formed id no user has |
| Auth.ProtectAsWritten | server/middlewares/authMiddleware.js:15-46 | the middleware as written never sends a response when it calls `next()` |
| Auth.Protect | server/middlewares/authMiddleware.js:15-46 | `next()` exactly for a Bearer header whose token verifies to a stored user; no header, no Bearer prefix or no token gives 401 "no token"; a token that does not verify or names a malformed id gives 401 "token failed"; a well-formed id no user has gives 401 "user not found" |
| Auth.ProtectAsWrittenAgrees | server/middlewares/authMiddleware.js:15-46 | the written middleware calls `next()` exactly when `Protect` admits, answers like `Protect` whenever it answers once, and answers twice exactly for a Bearer header without a token |
| Auth.BareBearerAnsweredTwice | server/middlewares/authMiddleware.js:19-45 | the header "Bearer" gets "token failed" and then "no token" |
| Auth.IssuedTokenAdmits | server/middlewares/authMiddleware.js:22-36 | a token issued for a stored user, sent back as `Bearer <token>`, admits that user |
| Auth.IsSeller | server/middlewares/authMiddleware.js:55-61 | `next()` exactly when the request carries a user with role Seller, else 403 |
| Auth.SellerGate | server/middlewares/authMiddleware.js:15-61 | the two gates in sequence admit exactly the users `protect` admits whose role is Seller |
| Auth.ProtectAdmitsStoredUser | server/middlewares/authMiddleware.js:29-36 | an admitted user is a stored user minus the password, and the seller routes admit only the stored Seller |
| Carts.FirstIndex | server/controllers/cartController.js:52 | `findIndex` gives the first line holding the product, or -1 exactly when none does |
| Carts.FoundIffPresent | server/controllers/cartController.js:52 | `findIndex` finds a line exactly when the cart refers to the product |
| Carts.FindIndex | server/controllers/cartController.js:52 | the front-to-back scan returns `FirstIndex` |
| Carts.Upsert | server/controllers/cartController.js:54-60 | an existing product keeps the length, and a new product adds one line |
| Carts.UpsertOverwrites | server/controllers/cartController.js:54-56 | an existing line takes the new quantity in place, without adding the old one, and the other lines stay |
| Carts.UpsertAppends | server/controllers/cartController.js:57-60 | a new product goes last, and the earlier lines are unchanged |
| Carts.UpsertKeepsUnique | server/controllers/cartController.js:52-60 | the cart keeps one line per product and gains exactly this product, with the new quantity |
| Carts.AddAsWritten | server/controllers/cartController.js:52-60 | the lookup as written uses the raw id text: a hit overwrites the quantity of the first line with that exact text, a miss appends the cast id |
| Carts.AddAsWrittenDuplicates | server/controllers/cartController.js:52-60 | adding a stored product again, spelled in capitals, gives two lines for one product |
| Carts.Add | server/controllers/cartController.js:52-60 | with the cast id in the lookup: one line per product, products gain exactly the cast id, and its line has the new quantity |
| Carts.AddKeepsItemsValid | server/models/Cart.js:19-31 | after an add with a quantity of at least 1, every line still has an ObjectId product and a quantity of at least 1 |
| Carts.RemoveProduct | server/controllers/cartController.js:93 | the filter keeps exactly the lines of other products |
| Carts.RemoveAbsent | server/controllers/cartController.js:93 | removing a product with no line changes nothing |
| Carts.RemoveDistributes | server/controllers/cartController.js:93 | the filter works line by line, so the kept lines keep their order |
| Carts.RemoveKeepsUnique | server/controllers/cartController.js:93 | removing keeps one line per product |
| Carts.RemoveAsWrittenKeepsLine | server/controllers/cartController.js:93 | the filter as written keeps the line when the id is sent in capitals |
| Carts.Remove | server/controllers/cartController.js:88-97 | comparing with the cast id, the product leaves the cart whatever the spelling, and the rest stays |
| Checkout.DiscountOf | server/controllers/orderController.js:30 | a missing discount counts as 0 |
| Checkout.EffectivePrice | server/controllers/orderController.js:30 | the price after discount: the list price without a discount, 0 for a full discount |
| Checkout.EffectivePriceBounds | server/controllers/orderController.js:30 | a 0 to 100 percent discount gives a price between 0 and the list price, and no discount gives the list price |
| Checkout.Line | server/controllers/orderController.js:37-42 | an order line copies product id, name and quantity, and the price after discount |
| Checkout.Snapshot | server/controllers/orderController.js:25-43 | the lines exist exactly when every product is present, one per cart line, in order |
| Checkout.Total | server/controllers/orderController.js:24-31 | the running `totalAmount`, which starts at 0 for no lines |
| Checkout.TotalSnoc | server/controllers/orderController.js:31 | each further line adds its quantity times its price to the total |
| Checkout.TotalAppend | server/controllers/orderController.js:31 | the total of joined lines is the sum of the totals |
| Checkout.TotalFirst | server/controllers/orderController.js:31 | the total is the first line's amount plus the rest |
| Checkout.TotalNonNegative | server/controllers/orderController.js:31 | positive quantities at non-negative prices give a non-negative total |
| Checkout.PrepareOrder | server/controllers/orderController.js:24-43 | the loop fails exactly when a product is missing; otherwise it returns the snapshot lines and a running total equal to `Total` of them |
| Checkout.Bump | server/controllers/orderController.js:58-61 | the `$inc` touches only the line's product, and a missing product changes nothing |
| Checkout.Purchase | server/controllers/orderController.js:57-62 | the updates keep the set of products |
| Checkout.PurchaseEffect | server/controllers/orderController.js:57-62 | each product loses in stock and gains in purchase count exactly the quantity ordered of it, with no lower bound |
| Checkout.QuantityOfUnique | server/controllers/orderController.js:57-62 | with one line per product, the quantity ordered is that line's quantity, or 0 |
| Checkout.PurchaseOfLine | server/controllers/orderController.js:57-62 | a line's product drops in stock and rises in purchase count by its quantity, and their sum is conserved |
| Checkout.PurchaseOthersUnchanged | server/controllers/orderController.js:57-62 | a product not in the cart is unchanged |
| Checkout.TotalOfSnapshot | server/controllers/orderController.js:24-31 | the order total is the sum of quantity times discounted price at checkout |
| Checkout.StockCanGoNegative | server/controllers/orderController.js:57-62 | ordering two of a product with one in stock leaves −1 |
| Catalog.ImageUrl | server/controllers/productController.js:37 | the image path is "/uploads/" followed by the file name |
| Catalog.CreateProduct | server/controllers/productController.js:16-47 | the four 400 rejections, in order and exactly when they apply; otherwise the product built from the body, in a listed category and sub-category, or a 500 for a blank name |
| Catalog.ZeroPriceOrStockRejected | server/controllers/productController.js:20-22 | price 0 or stock 0 counts as missing |
| Catalog.PageOf | server/controllers/productController.js:58 | the page is the number given, or 1 for 0 or not-a-number |
| Catalog.PageCount | server/controllers/productController.js:65 | `ceil(count / 12)`: the least page count covering the matches |
| Catalog.PageSlice | server/controllers/productController.js:63-64 | a page is at most 12 matches, starting at `12 * (page - 1)`; it is full when enough remain and empty past the end |
| Catalog.FirstPagesArePrefix | server/controllers/productController.js:63-64 | pages 1 to n together are the first `12 n` matches |
| Catalog.PagesCoverMatches | server/controllers/productController.js:63-65 | pages 1 to `pages` hold every match once, in order |
| Catalog.Matching | server/controllers/productController.js:59-61 | exactly the products whose name contains the keyword ignoring case; all of them without a keyword |
| Catalog.MatchingDistributes | server/controllers/productController.js:59-61 | the filter keeps natural order |
| Catalog.EmptyKeywordMatchesAll | server/controllers/productController.js:59 | an empty keyword selects every product |
| Catalog.GetProducts | server/controllers/productController.js:55-70 | 500 exactly for a page below 1; otherwise the page's slice of the matches, the page and the count of pages over all matches |
| Catalog.PageNonEmptyWithinCount | server/controllers/productController.js:63-65 | a page has products exactly when its number is at most the page count |
| Catalog.TwentyFiveMatches | server/controllers/productController.js:57-65 | 25 matches give 3 pages of 12, 12 and 1 |
| Catalog.GetProductById | server/controllers/productController.js:78-93 | the product exactly for a valid id of a stored product; 404 for a malformed or absent id |
| Catalog.Patch | server/controllers/productController.js:124-130 | the field assignments of `updateProduct`; the id and the purchase count are never assigned (field by field in `PatchKeepsUnsent` and `PatchTakesSent`) |
| Catalog.PatchEverythingSent | server/controllers/productController.js:109-130 | a body sending every field creation requires, a discount and a file, sets every field as creation would; only the id and the purchase count survive |
| Catalog.PatchZeroes | server/controllers/productController.js:126-130 | 0 updates stock and discount but not price |
| Catalog.PatchNothing | server/controllers/productController.js:124-130 | an empty body without a file changes nothing |
| Catalog.PatchKeepsUnsent | server/controllers/productController.js:124-130 | id and purchase count always stay; name, description, price, category and sub-category stay unless sent truthy; discount and stock stay unless sent; the image stays without a file |
| Catalog.PatchTakesSent | server/controllers/productController.js:124-130 | a truthy name (trimmed), description, price, category (cast) or sub-category replaces the old one; a sent discount or stock replaces it even when zero; a file gives the new image path |
| Catalog.PatchKeepsSchema | server/controllers/productController.js:124-132 | a valid product patched with a non-blank name and a valid category id stays valid |
| Catalog.PatchSkipsCategoryCheck | server/controllers/productController.js:124-130 | the update accepts a sub-category its category does not list |
| Accounts.FindByEmail | server/controllers/userController.js:40 | the lookup finds a user with the normalised email, or none exactly when none has it |
| Accounts.FindByEmailInDocs | server/controllers/userController.js:40 | the lookup over the listing finds someone exactly when a stored user has the normalised email |
| Accounts.EmailInUse | server/controllers/userController.js:40-43 | the duplicate-email test holds exactly when a stored user has the normalised email |
| Accounts.Register | server/controllers/userController.js:30-81 | the three 400s, in order and exactly when they apply; success exactly when all fields are sent, the email is new, a Seller is asked for only while there is none, the role parses and the new user passes the schema; then a user with hashed password, default role Client and schema-valid fields; otherwise a 500 |
| Accounts.RegisterAdmits | server/controllers/userController.js:53-73 | all three fields sent, a new email, a role that parses and is Seller only while there is no Seller, and a schema-valid user: registration creates exactly that user with the hashed password |
| Accounts.InsertKeepsInvariants | server/controllers/userController.js:40-63 | a user with a new email, a Seller only when there is none, keeps emails unique and at most one Seller |
| Accounts.RegisterOne | server/controllers/userController.js:30-81 | one registration adds the new id exactly when `Register` admits, keeps every other user, and keeps both invariants |
| Accounts.RegistrationsKeepOneSeller | server/controllers/userController.js:46-51 | any run of registrations leaves at most one Seller |
| Accounts.SessionOf | server/controllers/userController.js:66-73 | the reply carries id, name, email and role, and a token signed for the id |
| Accounts.Login | server/controllers/userController.js:91-120 | 400 without credentials; success exactly when the email is found and the password hashes to the stored hash; otherwise 401 |
| Accounts.LoginAfterRegister | server/controllers/userController.js:101-111 | whoever just registered logs in with the same email and password |
| Accounts.LoginDoesNotTellWhich | server/controllers/userController.js:104-115 | an unknown email and a wrong password get the same 401 |
| Accounts.PasswordLengthUnchecked | server/controllers/userController.js:54-63 | a password of any length is accepted when its hash is at least 6 long; the stored password is the hash |
| Categories.CreateAsWritten | server/controllers/categoryController.js:13-39 | the name check as written uses the untrimmed name |
| Categories.CreateAsWrittenAdmitsCaseDuplicate | server/controllers/categoryController.js:22-32 | against a stored name, the same name in another case followed by a space passes the check and is stored trimmed, so two names then match ignoring case |
| Categories.CreateAsWrittenOk | server/controllers/categoryController.js:22-33 | a name the check does not find, whose trim is non-blank and not stored exactly, is saved as the category built from it |
| Categories.Create | server/controllers/categoryController.js:13-39 | 400 exactly without a name or for a taken trimmed name; 201 exactly when the name is present, its trim free ignoring case and the new category schema-valid, otherwise a 500; a created category has the trimmed name, sub-categories defaulting to none, and no case-insensitive clash |
| Categories.InsertFreeNameKeepsUnique | server/controllers/categoryController.js:22-33 | a category whose name matches none ignoring case joins with names still unique, ignoring case and exactly |
| Categories.CreateKeepsNamesUnique | server/controllers/categoryController.js:22-32 | creation keeps names unique, ignoring case and exactly |
| Categories.Renamed | server/controllers/categoryController.js:72-77 | the name changes only for a truthy name, and the sub-category list is replaced only when one is sent |
| Categories.RenamedReplacesAll | server/controllers/categoryController.js:75-77 | a sent list becomes the whole list, and the name is kept |
| Categories.RenameBypassesCaseCheck | server/controllers/categoryController.js:72-78 | with names unique ignoring case, an update may rename to another category's name in a different case: the unique index, which compares exactly, lets it through |
| Orders.NewestFirst | server/controllers/orderController.js:85 | the reversed creation order |
| Orders.NewestFirstSorted | server/controllers/orderController.js:103 | newest first is strictly descending by `createdAt` and a permutation |
| Orders.OrdersOf | server/controllers/orderController.js:85 | exactly the user's orders, in creation order |
| Orders.MyOrders | server/controllers/orderController.js:83-91 | the caller's orders and no one else's, descending by `createdAt` |
| Orders.AllOrders | server/controllers/orderController.js:101-109 | every order once, descending by `createdAt` |
| Shop.CartLines | server/controllers/cartController.js:15-28 | a user without a cart has no lines |
| Shop.Store.CreateOrder | server/controllers/orderController.js:13-73 | 400 for no cart or an empty cart; 500 for a missing product; on errors nothing changes. Otherwise 201 with the snapshot order stamped by the clock and appended; stock and purchase counts updated; the cart deleted; the invariant kept |
| Shop.Store.PlaceOrder | server/controllers/orderController.js:46-67 | the order is appended with the clock's stamp, the purchase applied to the products and the cart deleted; the invariant is kept |
| Shop.Store.ApplyPurchase | server/controllers/orderController.js:57-62 | the loop of `$inc` updates gives `Purchase` of the lines |
| Shop.Store.AddItemToCart | server/controllers/cartController.js:38-71 | a missing cart is created; the 500 cases of the cart validators leave the carts unchanged; otherwise the cart becomes `Add` of its lines (the corrected cast-id lookup) |
| Shop.Store.RemoveItemFromCart | server/controllers/cartController.js:81-103 | 404 without a cart, otherwise the cart becomes `Remove` of its lines (the corrected cast-id filter) |
| Shop.Store.CreateProduct | server/controllers/productController.js:16-47 | the product `CreateProduct` builds is inserted; nothing changes on an error |
| Shop.Store.SaveNewProduct | server/controllers/productController.js:40 | a schema-valid product under a fresh id is inserted, keeping the invariant |
| Shop.Store.UpdateProduct | server/controllers/productController.js:100-139 | 500 for a malformed id, 404 for an absent one; otherwise the assigned fields equal `Patch`, saved exactly when valid; orders are not touched |
| Shop.Store.DeleteProduct | server/controllers/productController.js:146-172 | 500 for a malformed id, 404 for an absent one; otherwise the catalog becomes `Collections.Remove` of that id, so the other products keep their natural order |
| Shop.Store.RegisterUser | server/controllers/userController.js:30-81 | a user admitted by `Register` is inserted and answered with its session; nothing changes on a refusal |
| Shop.Store.SaveUser | server/controllers/userController.js:58-63 | a user with a fresh id, a new email, and a Seller only when there is none, is inserted keeping the invariant |
| Shop.Store.CreateCategory | server/controllers/categoryController.js:13-39 | the reply is `Create`'s (the corrected trimmed-name check), so a present, free, schema-valid name is saved with 201; an admitted category is inserted, keeping names unique |
| Shop.Store.SaveNewCategory | server/controllers/categoryController.js:32 | a category whose name is free ignoring case is inserted, keeping the invariant |
| Shop.Store.UpdateCategory | server/controllers/categoryController.js:67-87 | 500 for a malformed id, 404 for an absent one; otherwise `Renamed` is saved exactly when valid and not another category's exact name |
| Shop.Store.SaveCategory | server/controllers/categoryController.js:78 | a valid category whose name no other category holds exactly replaces the stored one, keeping the invariant |
| Shop.Store.DeleteCategory | server/controllers/categoryController.js:97-111 | 500 for a malformed id, 404 for an absent one; otherwise the categories become `Collections.Remove` of that id, so the others keep their order; products are not touched |
| Shop.PurchaseKeepsProductsValid | server/controllers/orderController.js:57-62 | the stock updates keep every product valid under its own id |
| Shop.AppendOrderKeepsValid | server/controllers/orderController.js:46-54 | an order stamped with the clock keeps the orders in creation order |
| Shop.RemoveCartKeepsValid | server/controllers/orderController.js:65 | deleting a cart keeps the other carts valid |
| Shop.PutCartKeepsValid | server/controllers/cartController.js:63 | saving valid lines, one per product, as a user's cart keeps the carts valid |
| Shop.InsertProductKeepsValid | server/controllers/productController.js:40 | a schema-valid product under a fresh id keeps every product valid under its own id |
| Shop.PutProductKeepsValid | server/controllers/productController.js:132 | saving a schema-valid product under its own id keeps the products valid |
| Shop.RemoveProductKeepsValid | server/controllers/productController.js:163 | deleting a product keeps the others valid |
| Shop.InsertUserKeepsValid | server/controllers/userController.js:40-63 | a registered user keeps emails unique and at most one Seller |
| Shop.InsertCategoryKeepsValid | server/models/Category.js:10-15 | a name free ignoring case keeps the unique index |
| Shop.PutCategoryKeepsValid | server/models/Category.js:13 | a rename to a name no other category holds keeps the unique index |
| Shop.RemoveCategoryKeepsValid | server/controllers/categoryController.js:102 | deleting a category keeps the others valid and the names unique |
| Shop.SnapshotOrderSchemaValid | server/models/Order.js:16-25 | an order snapshotted from stored products passes the order schema |
| Slices.WithoutCategory | client/src/redux/slices/categorySlice.js:89 | the filter keeps exactly the entries with another id |
| Slices.WithoutCategoryDistributes | client/src/redux/slices/categorySlice.js:89 | the filter keeps the order of what it keeps |
| Slices.WithoutAbsentCategory | client/src/redux/slices/categorySlice.js:89 | deleting an absent id changes nothing |
| Slices.WithoutCategoryIdempotent | client/src/redux/slices/categorySlice.js:89 | deleting twice is deleting once |
| Slices.CreateThenDeleteCategory | client/src/redux/slices/categorySlice.js:74-90 | creating then deleting a new category restores the list |
| Slices.CategoryState.constructor | client/src/redux/slices/categorySlice.js:9-15 | the initial state has no categories, all flags false and no message |
| Slices.CategoryState.Reset | client/src/redux/slices/categorySlice.js:59 | reset returns the initial state |
| Slices.CategoryState.Pending | client/src/redux/slices/categorySlice.js:63 | a pending request sets only `isLoading` |
| Slices.CategoryState.FetchFulfilled | client/src/redux/slices/categorySlice.js:64-67 | a fetch replaces the list and clears `isLoading` |
| Slices.CategoryState.CreateFulfilled | client/src/redux/slices/categorySlice.js:74-79 | a create appends the payload and sets `isSuccess` |
| Slices.CategoryState.DeleteFulfilled | client/src/redux/slices/categorySlice.js:86-90 | a delete filters out the id and sets `isSuccess` |
| Slices.CategoryState.Rejected | client/src/redux/slices/categorySlice.js:68-72 | a rejection sets the error flags and message and leaves the list |
| Slices.Revenue | client/src/redux/slices/dashboardSlice.js:50 | the `reduce` sum of `totalAmount`: 0 for no orders, and one order's total for one order |
| Slices.RevenueAppend | client/src/redux/slices/dashboardSlice.js:50 | the revenue of joined lists is the sum of their revenues |
| Slices.RevenueNewestFirst | client/src/redux/slices/dashboardSlice.js:50 | the newest-first listing has the same revenue as the orders in creation order |
| Slices.RevenueOfAllOrders | client/src/redux/slices/dashboardSlice.js:46-50 | the dashboard over `getAllOrders` sums every order's total |
| Slices.RevenueNonNegative | client/src/redux/slices/dashboardSlice.js:50 | non-negative totals give a non-negative revenue |
| Slices.DashboardState.constructor | client/src/redux/slices/dashboardSlice.js:9-16 | the initial state has no orders and zero totals |
| Slices.DashboardState.Reset | client/src/redux/slices/dashboardSlice.js:39 | reset returns the initial state |
| Slices.DashboardState.Pending | client/src/redux/slices/dashboardSlice.js:43-45 | a pending request sets only `isLoading` |
| Slices.DashboardState.Fulfilled | client/src/redux/slices/dashboardSlice.js:46-51 | the orders become the payload, sales its length, revenue the sum of its totals |
| Slices.DashboardState.Rejected | client/src/redux/slices/dashboardSlice.js:52-56 | a rejection sets the error flags and message and leaves orders and totals |

## Left out

- **Persistence.** MongoDB persistence is a value in memory, with no failures of its own.
  - `populate` is a lookup by id.
  - The `createdAt` timestamp is the store's counter. `updatedAt` is not modelled.
- **Text matching.** The keyword filter and the category name check build regular expressions from user text. They are modelled as substring and equality ignoring case, which assumes the text holds no regular-expression characters.
- **Case folding.** Only the ASCII letters A to Z are folded, and only ASCII white space is trimmed.
- **Numbers.**
  - Prices, discounts and totals are exact reals, not floating point.
  - A page number is an integer, or NaN.
  - Fractional page numbers are not modelled.
- **Concurrency.** Requests run one at a time. Lost updates between simultaneous checkouts are not modelled.
- **Images.** Deleting images with `fs.unlink` is file I/O and is left out. Only the `imageUrl` field is modelled.
- **Tokens and passwords.**
  - Token expiry (30 days) and the JWT format are left out.
  - bcrypt's salt and its 72-byte input limit are left out.
- **Request values.** Request bodies are typed fields. Mongoose's casting of strings to numbers and the JSON `null` value are not modelled.
- Catalog.CreateProduct, Catalog.ZeroPriceOrStockRejected, Catalog.PatchZeroes: a numeric 0 reaches these only in a JSON body. The shop's own pages send products as a multipart form (`upload.single('image')` in server/routes/productRoutes.js), where a price or stock of 0 arrives as the string "0", which is truthy: creation accepts it and an update stores 0. The model's numeric fields stand for the JSON case.
- Shop.Store.AddItemToCart: the store runs the corrected lookup `Carts.Add`, which compares cast ids; the lookup as written at server/controllers/cartController.js:52 compares raw text and is modelled apart by `Carts.AddAsWritten`. The one-line-per-product invariant (`Carts.UniqueProducts`, kept in `Shop.CartsValid`) is proved for the corrected program only; as written it fails (`Carts.AddAsWrittenDuplicates`).
- Shop.Store.RemoveItemFromCart: the store runs the corrected `Carts.Remove`, which compares cast ids; the filter as written at server/controllers/cartController.js:93 compares raw text and is modelled apart by `Carts.RemoveAsWrittenKeepsLine`. The cart invariant is proved for the corrected program only.
- Shop.Store.CreateCategory: the store runs the corrected `Categories.Create`, which checks the trimmed name for a duplicate; the check as written at server/controllers/categoryController.js:22 uses the untrimmed name and is modelled apart by `Categories.CreateAsWritten`. Unique category names are proved for the corrected program only.
- **Populated fields.** The projection that `populate` applies to responses (`name price imageUrl`, `id name`) is not modelled. Replies carry the documents themselves.
- **Read-only errors.** The 500 replies of `getCart`, `getMyOrders`, `getAllOrders`, `getCategories` and `getProductById` come only from database failures, which are not modelled.
- **Outside the core.** Express routing, `server.js`, the upload middleware, the React pages and the other client slices are not part of this model. Route guards appear as preconditions on the `Store` methods.
- **Auth.Protect.** The function leaves `req.user` implicit: the admitted user is its result.
- **Shop.Store.CreateOrder.** The source's in-memory changes to `product.stock` inside the `map` callback are never saved, so they are not modelled.
- **Cart population.** The cart contents returned by `AddItemToCart` and `RemoveItemFromCart` are the stored lines, not lines populated with product details.

## Findings

| source | as written | input that shows it | evidently intended | confidence | as-written member | corrected member |
|---|---|---|---|---|---|---|
| server/controllers/cartController.js:52 | the lookup compares the stored id's text with the id exactly as the request spelled it, but the pushed line stores the cast id | a cart with a line for `64b7f0c2a1d3e4f5a6b7c8d9`, then add `64B7F0C2A1D3E4F5A6B7C8D9`: two lines for one product | compare cast ids, so one line per product | medium, not executed | Carts.AddAsWrittenDuplicates | Carts.Add |
| server/controllers/cartController.js:93 | the filter compares the raw id text | remove `64B7F0C2A1D3E4F5A6B7C8D9` from a cart holding `64b7f0c2a1d3e4f5a6b7c8d9`: the line stays and the reply is a success | compare cast ids, so the product's line goes | medium, not executed | Carts.RemoveAsWrittenKeepsLine | Carts.Remove |
| server/controllers/categoryController.js:22 | the case-insensitive check uses the name as sent, but the stored name is trimmed | with "shoes" stored, create "Shoes ": the anchored pattern does not match, so it is admitted and stored as "Shoes" | check the trimmed name | medium, not executed | Categories.CreateAsWrittenAdmitsCaseDuplicate | Categories.Create |
| server/middlewares/authMiddleware.js:43-45 | the no-token test also runs after the `try` block has already answered | the header "Bearer": 401 "token failed" is sent, then the second 401 "no token" write throws "headers already sent" inside the async middleware instead of reaching the client | answer once | high, not executed | Auth.BareBearerAnsweredTwice | Auth.Protect |
