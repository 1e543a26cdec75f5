# e-shop: a verified model of the shop's core

This project models the server side of EShopOnWeb, a small ASP.NET Core shop. It covers:

- the anonymous session cart, kept in a cookie-identified session;
- the product catalogue and its name ordering;
- checkout, which turns a cart into an order;
- the Stripe checkout request and its success and cancel callbacks;
- the JSON API that places orders;
- the admin pages that edit and add products and attach generated images;
- the one-time demo seeder;
- the chat assistant, which reads an action block out of the language model's answer and carries it out against the cart.

The datastore is one class, `ShopData.ShopDbContext`. It has one sequence per table, in insertion order, and one identity counter per table. `Valid()` is the invariant every operation keeps:

- every stored key is positive and below its counter;
- each (session, product) pair has at most one cart row;
- every cart quantity is at least 1.

Each `SaveChangesAsync` is modelled as one assignment to the tables it commits.

The pattern throughout:

- Each service operation is a pure function over table values, such as `CartService.AddRows` or `OrderService.OrderLines`.
- Lemmas prove what the operation promises about that function.
- A method with a `modifies` frame ties the new state of the datastore to the function.

Where the source loops (the order snapshot, the image mapping), the model keeps the loop and proves it against its function.

Money is `decimal(18,2)` in the source. Here it is an exact whole number of cents, so Stripe's `(long)(UnitPrice * 100)` is the price itself.

### Inputs the model takes in place of foreign code

- The gateway's answer (`StripePaymentService.GatewayOutcome`).
- The language model's reply and the parsed action block (`GeminiChatbotService.GeminiReply`, `ActionDocument`).
- The fresh GUID a new visitor would get.
- The clock, in seconds.
- The server's verdict on the e-mail syntax (`emailSyntaxOk`).
- The request's scheme and host.
- The directory listing of the uploads folder, or its absence.

Sent e-mails and Stripe requests are recorded in append-only logs (`EmailService.EmailService.sent`, `StripePaymentService.StripePaymentService.sentRequests`).

### Facts the proofs bring out

- **An order consumes the cart.** Placing an order removes the session's cart rows in the same save (OrderService.cs:52). In Checkout, the cart clear that follows the order therefore changes nothing (`OrdersController.OrdersController.FinishCheckout` ensures the cart table is unchanged). In PaymentSuccess, the clear removes only rows the visitor added after they were sent to Stripe.
- **A cancelled payment does not bring the cart back.** The visitor redirected to Stripe already has an empty cart and a stored order. PaymentCancelled only forgets the pending slot: the order stays, no e-mail is sent, and the cart stays empty.
- **A session without a URL completes the order but leaves the slot set.** PendingOrderId is stored before the redirect. `Redirect` refuses an empty URL (a null one is modelled as empty), and the exception is caught, so checkout completes directly with one e-mail. The slot stays set, so a later visit to PaymentSuccess clears the cart again, and sends another confirmation if the order exists.
- **The chat assistant can change the cart without saying so.** If `productName` is missing or not a string, reading it throws after AddToCart has already saved. The cart keeps the new item and the reply reports no action (`GeminiChatbotService.AddOutlivesNameFailure`).

## Model

| member | source | states |
|---|---|---|
| ShopData.ShopDbContext.constructor | Data/ShopDbContext.cs:11-19 | a new store has empty tables, counters at 1, and satisfies `Valid()` |
| CartService.ClampQuantity | Services/CartService.cs:30 | the stored quantity is at least 1 and at least the request, and equals one of the two |
| CartService.SessionRows | Services/CartService.cs:20-25 | a row is listed exactly when it is in the table and belongs to the session |
| CartService.IndexOfPair | Services/CartService.cs:32-33 | finds a row for (session, product) when one exists, and reports none only when none exists |
| CartService.IndexOfOwnedRow | Services/CartService.cs:57-58 | finds a row with that key and session when one exists, and reports none only when none exists |
| CartService.ClearRows | Services/CartService.cs:67-78 | a row survives exactly when it belongs to another session |
| CartService.AddRaisesQuantityByClamp | Services/CartService.cs:28-53 | Add raises the caller's quantity of that product by max(1, quantity) and no other (session, product) quantity |
| CartService.AddMergesIntoExistingRow | Services/CartService.cs:46-50 | on an existing pair, Add increments that one row and adds no row |
| CartService.AddAppendsNewRow | Services/CartService.cs:35-45 | on a new pair, Add appends exactly one row with the fresh key and the clamped quantity |
| CartService.AddKeepsWellFormed | Services/CartService.cs:28-53 | Add keeps pairs unique and quantities positive |
| CartService.AddLeavesOtherSessions | Services/CartService.cs:32-33 | Add leaves every other session's rows as they were |
| CartService.RemoveDeletesOnlyOwnedRow | Services/CartService.cs:55-65 | removes exactly one row when key and session both match (as a multiset difference), and otherwise changes nothing |
| CartService.RemoveKeepsWellFormed | Services/CartService.cs:55-65 | Remove keeps the cart invariant |
| CartService.RemoveLeavesOtherSessions | Services/CartService.cs:57-58 | Remove leaves other sessions' rows alone |
| CartService.ClearRemovesExactlyTheSession | Services/CartService.cs:67-78 | after Clear the session has no rows, and every other session has exactly the rows it had |
| CartService.ClearWithoutRowsChangesNothing | Services/CartService.cs:73 | clearing a session with no rows leaves the table unchanged |
| CartService.ClearIsIdempotent | Services/CartService.cs:67-78 | clearing twice is clearing once |
| CartService.ClearKeepsWellFormed | Services/CartService.cs:67-78 | Clear keeps the cart invariant |
| CartService.CartService.GetCartItems | Services/CartService.cs:20-25 | returns the session's rows in table order, and only those |
| CartService.CartService.AddToCart | Services/CartService.cs:28-53 | the new cart is `AddRows` of the old; the key counter advances only when a row is created; `Valid()` holds |
| CartService.CartService.RemoveFromCart | Services/CartService.cs:55-65 | the new cart is `RemoveRow` of the old; `Valid()` holds |
| CartService.CartService.ClearCart | Services/CartService.cs:67-78 | the new cart is `ClearRows` of the old; `Valid()` holds |
| CartViewModel.MissingProductCountsZero | ViewModels/CartViewModel.cs:8 | a row whose product is gone adds nothing to the total |
| CartViewModel.TotalAppend | ViewModels/CartViewModel.cs:8 | the total is additive over concatenation |
| CartViewModel.TotalPermutation | ViewModels/CartViewModel.cs:8 | the total does not depend on the order of the rows |
| ProductService.IndexOfProduct | Services/ProductService.cs:27-32 | finds the first product with the key, and reports none only when no product has it |
| ProductService.GetProductById | Services/ProductService.cs:27-32 | returns a stored product with that key, or null exactly when there is none |
| ProductService.NameLeReflexive | Services/ProductService.cs:23 | the name order is reflexive |
| ProductService.NameLeTotal | Services/ProductService.cs:23 | the name order is total |
| ProductService.NameLeTransitive | Services/ProductService.cs:23 | the name order is transitive |
| ProductService.InsertKeepsSorted | Services/ProductService.cs:23 | inserting into a sorted listing keeps it sorted |
| ProductService.SortByName | Services/ProductService.cs:23 | the listing is ordered by name and is a permutation of its input |
| ProductService.FilterCategory | Services/ProductService.cs:38 | keeps exactly the products of the category, each as often as it occurs in the input (as a multiset), and no other |
| ProductService.FilterSortCommute | Services/ProductService.cs:36-40 | sorting then filtering equals filtering then sorting |
| ProductService.GetAllProducts | Services/ProductService.cs:19-25 | every product exactly once (as a multiset), ordered by name |
| ProductService.GetProductsByCategory | Services/ProductService.cs:34-41 | exactly the category's products, each as often as it is stored (as a multiset), ordered by name |
| ProductService.CategoryListingFiltersFullListing | Services/ProductService.cs:34-41 | the category listing is the full listing with other categories left out, in the same order |
| OrderService.OrderLinesMirrorRows | Services/OrderService.cs:39-49 | one line per cart row, in row order, with its product, quantity and current price |
| OrderService.OrderTotalIsCartTotal | Services/OrderService.cs:48 | the order total equals the total the cart page shows for the same rows |
| OrderService.FindOrder | Services/OrderService.cs:58-64 | returns a stored order with that key, or null exactly when none has it |
| OrderService.FindAppendedOrder | Services/OrderService.cs:51-54 | an order appended under a new key is the one found by that key |
| OrderService.SnapshotLines | Services/OrderService.cs:39-49 | the loop builds exactly `OrderLines` of the rows, and the running total is their sum |
| OrderService.OrderService.CreateOrderFromCart | Services/OrderService.cs:20-56 | an empty cart gives "Cart is empty." and changes nothing; otherwise the order is a snapshot of the cart's rows under the next key, it is appended, and the session's rows are removed in the same save |
| OrderService.OrderService.GetOrderById | Services/OrderService.cs:58-64 | the first order with that key, or null exactly when there is none |
| StripePaymentService.AbsoluteImageUrl | Services/StripePaymentService.cs:40-44 | a URL starting with "http" is kept; any other is prefixed with the site URL |
| StripePaymentService.AbsoluteImageUrlIdempotent | Services/StripePaymentService.cs:40-44 | making a URL absolute twice is making it absolute once |
| StripePaymentService.LineItems | Services/StripePaymentService.cs:35-63 | one line item per order line, in order |
| StripePaymentService.LineItemImagesAreAbsolute | Services/StripePaymentService.cs:40-46 | with a site URL starting with "http", every image URL sent to Stripe starts with "http" |
| StripePaymentService.ChargedAmountIsOrderTotal | Services/StripePaymentService.cs:59-61 | Stripe charges exactly the order's total |
| StripePaymentService.MetadataNamesOrder | Services/StripePaymentService.cs:73-76 | the order_id metadata is a decimal integer that parses back to the order's key |
| StripePaymentService.StripePaymentService.CreateCheckoutSession | Services/StripePaymentService.cs:25-84 | records one request built from the order, and returns the gateway's URL or its error |
| EmailService.EmailService.SendOrderConfirmation | Services/IEmailService.cs:11 | appends exactly one confirmation, for that order |
| SessionHelper.GuidIsNotBlank | Controllers/SessionHelper.cs:20 | a minted GUID is never blank |
| SessionHelper.ResolvedIdIsNeverBlank | Controllers/SessionHelper.cs:12-29 | the session id a request uses is never blank, whether reused or freshly minted |
| SessionHelper.NextRequestKeepsSession | Controllers/SessionHelper.cs:12-29 | the next request, with the cookie the browser kept, resolves to the same id and writes no cookie |
| SessionHelper.GetOrCreateSessionId | Controllers/SessionHelper.cs:12-29 | returns `ResolveSessionId` and appends `MintedCookies` to the response |
| CartController.CartController.Index | Controllers/CartController.cs:18-24 | the view holds exactly the visitor's rows, and the session cookie is minted if needed |
| CartController.CartController.Add | Controllers/CartController.cs:26-39 | an unknown product gives NotFound with nothing changed, not even a cookie; otherwise `AddRows` for the visitor's session, then a redirect to the cart |
| CartController.CartController.Remove | Controllers/CartController.cs:41-48 | `RemoveRow` for the visitor's session, then a redirect to the cart |
| ApiOrdersController.OrdersController.Create | Controllers/Api/OrdersController.cs:19-35 | an invalid or blank request gives BadRequest with nothing changed; an empty cart gives BadRequest "Cart is empty."; otherwise Ok with the order snapshotted from the session's cart |
| OrdersController.CancelUrlCarriesOrderId | Controllers/OrdersController.cs:77 | the cancel URL's orderId value parses back to the order's key |
| OrdersController.OrdersController.Checkout | Controllers/OrdersController.cs:43-116 | an invalid form re-renders with nothing changed. Otherwise the cookie is minted if needed. An empty cart re-renders with "Your cart is empty." and nothing else changes. Otherwise the order is appended and the cart consumed; with a Stripe key, one gateway request is sent. A created session stores PendingOrderId; with a non-empty URL it redirects to Stripe and sends no e-mail. Every other case, an empty session URL included, redirects to Details and sends exactly one confirmation |
| OrdersController.OrdersController.PlaceOrder | Controllers/OrdersController.cs:53-115 | the try block and its empty-cart handler, with the outcome as above: PendingOrderId is stored exactly when the gateway creates a session, even one whose empty URL falls back to Details |
| OrdersController.OrdersController.FinishCheckout | Controllers/OrdersController.cs:58-108 | after the order: a redirect to a created session's non-empty URL with no e-mail, or else the direct completion with one e-mail; the slot is set exactly when a session was created; the cart table is left as the order left it |
| OrdersController.OrdersController.CompleteCheckout | Controllers/OrdersController.cs:94-108 | for an order whose cart the order already consumed: the cart table is unchanged, exactly one confirmation for that order is sent, and the result is its Details page |
| OrdersController.OrdersController.AttemptGatewayCheckout | Controllers/OrdersController.cs:59-91 | a request is sent exactly when a secret key is set; PendingOrderId is stored and the checkout URL returned exactly when the gateway creates a session |
| OrdersController.OrdersController.CompleteOrder | Controllers/OrdersController.cs:95-106 | clears the session's cart and sends one confirmation when the order exists |
| OrdersController.OrdersController.PaymentSuccess | Controllers/OrdersController.cs:122-149 | with no pending order, redirects home and changes nothing. Otherwise: clears the visitor's cart, forgets the slot, sends one confirmation if the order exists, and redirects to its details |
| OrdersController.OrdersController.PaymentCancelled | Controllers/OrdersController.cs:155-160 | forgets the pending order and changes nothing else |
| OrdersController.OrdersController.Details | Controllers/OrdersController.cs:163-172 | the order's view when the key exists, NotFound otherwise |
| AdminController.EditTouchesOnlyThatProduct | Controllers/AdminController.cs:62-77 | only the product with the key changes, in place, in its four editable fields; without one the table is unchanged |
| AdminController.AddedProductIsFoundByItsKey | Controllers/AdminController.cs:152-156 | the row AddProduct inserts under the next key is the one its edit page finds by that key |
| AdminController.FirstMatchingFile | Controllers/AdminController.cs:189-192 | a listed file matching `value*.png`, and none only when no listed file matches |
| AdminController.FirstMatchingFileIsFirst | Controllers/AdminController.cs:189-192 | the file found is the listed match that no earlier listed file precedes as a match, as `files[0]` of the listing is |
| AdminController.ImageFor | Controllers/AdminController.cs:184-197 | no image exactly when no mapping applies; otherwise an applying mapping's first file under /uploads/products/ |
| AdminController.FirstApplyingMapping | Controllers/AdminController.cs:184-196 | the image comes from the first mapping that applies |
| AdminController.WithImageChangesOnlyTheImage | Controllers/AdminController.cs:182-199 | a product keeps every field but its image, and keeps the image too when no mapping applies |
| AdminController.ApplyImages | Controllers/AdminController.cs:180-199 | each product, at its position, gets its image applied |
| AdminController.AppliedCountBounded | Controllers/AdminController.cs:194 | no more products are counted than exist |
| AdminController.ImageForProduct | Controllers/AdminController.cs:184-198 | the inner loop fails exactly when the directory is missing and a key occurs in the name; otherwise, stopping at the first applying mapping, it computes `ImageFor` |
| AdminController.ApplyImagesTo | Controllers/AdminController.cs:182-199 | the outer loop fails exactly when the directory is missing and some product name contains a key; otherwise it computes `ApplyImages`, and its counter is `AppliedCount` |
| AdminController.NoFilesChangeNothing | Controllers/AdminController.cs:186-198 | with no files no product gets an image and none is counted |
| AdminController.AdminController.EditProduct | Controllers/AdminController.cs:62-77 | NotFound for an unknown key, with nothing changed. The edited row is saved as `EditProducts` of the old table, then a redirect to Products, exactly when the database accepts it (a non-blank name of at most 100 UTF-16 code units, a description of at most 1000, an existing category); otherwise the save throws and the table is unchanged |
| AdminController.AdminController.AddProduct | Controllers/AdminController.cs:143-158 | a blank name re-renders with "Product name is required." and nothing changes. A posted key or a row the database refuses (lengths in UTF-16 code units) makes the save throw with nothing changed. Otherwise one new product under the next key, then a redirect to its edit page |
| AdminController.AdminController.ApplyAIImages | Controllers/AdminController.cs:164-204 | a missing upload directory that some product name leads to throws before the save, and nothing changes; otherwise the table becomes `ApplyImages` of the old one in one save, and the reported count is `AppliedCount` |
| DbInitializer.CategoryRows | Data/DbInitializer.cs:18-27 | one category per name, in order, under consecutive keys |
| DbInitializer.ProductRows | Data/DbInitializer.cs:29-46 | one product per seed, in order, under consecutive keys, each pointing at its category's stored key |
| DbInitializer.SeedingOccupiedCatalogChangesNothing | Data/DbInitializer.cs:13-16 | with any category or product present, seeding changes nothing |
| DbInitializer.SeedingEmptyCatalogAddsTheDemoData | Data/DbInitializer.cs:18-46 | an empty catalogue receives exactly the 4 categories and 12 products with their names, descriptions, prices, images and categories |
| DbInitializer.SeededProductsReferToSeededCategories | Data/DbInitializer.cs:31-42 | every seeded product's category key is a seeded category's key |
| DbInitializer.SeedingIsIdempotent | Data/DbInitializer.cs:11-47 | seeding twice gives what seeding once gives |
| DbInitializer.SeedingKeepsKeysBelowCounters | Data/DbInitializer.cs:26-27 | seeded keys come from the counters, so stored keys stay below them |
| DbInitializer.SaveCatalog | Data/DbInitializer.cs:18-46 | the two saves store `CategoryRows` under the category counter and then `ProductRows` against the stored categories; both counters advance by the rows added, and the store stays valid |
| DbInitializer.SeedAsync | Data/DbInitializer.cs:11-47 | the catalogue becomes `Seeded` of the old one and the store stays valid |
| GeminiChatbotService.ExtractActionJson | Services/GeminiChatbotService.cs:141-157 | null or empty text gives null; a block found contains "action" and starts with '{' and ends with '}' |
| GeminiChatbotService.ExtractActionJsonCharacterised | Services/GeminiChatbotService.cs:145-156 | a block is returned exactly when the text's last '{' precedes its last '}' and the span between them contains "action"; the block is that span |
| GeminiChatbotService.RemovingBlockKeepsTail | Services/GeminiChatbotService.cs:98 | removing the block keeps the text after it verbatim; only the text before it can lose other copies |
| GeminiChatbotService.ShownMessageKeepsTail | Services/GeminiChatbotService.cs:94-98 | the message shown next to an action is the text before the block with copies removed, then the text after it, trimmed |
| GeminiChatbotService.CartRequest | Services/GeminiChatbotService.cs:105-111 | a cart call is made only for an add_to_cart action; for one, the call is made exactly when the product id and the quantity read, and it carries those two values |
| GeminiChatbotService.AddWithoutQuantityAddsOne | Services/GeminiChatbotService.cs:107-111 | an add_to_cart block with a readable product id and no quantity asks for one unit of that product |
| GeminiChatbotService.AtMostOneAction | Services/GeminiChatbotService.cs:100-131 | a message yields at most one action |
| GeminiChatbotService.ReportedAddIsTheCallMade | Services/GeminiChatbotService.cs:107-117 | a reported add names the product and the unclamped quantity of the AddToCart call made; it is reported whenever the call was made and the name reads |
| GeminiChatbotService.AddOutlivesNameFailure | Services/GeminiChatbotService.cs:111-131 | a product name that throws after the add leaves the action list empty |
| GeminiChatbotService.NavigateLeavesCart | Services/GeminiChatbotService.cs:119-126 | navigation makes no cart call and reports the page as its only action, unless reading the page throws |
| GeminiChatbotService.UnknownActionDoesNothing | Services/GeminiChatbotService.cs:100-131 | any other, null or unreadable action type makes no call and reports nothing |
| GeminiChatbotService.NoBlockIsPlainChat | Services/GeminiChatbotService.cs:133-136 | without a block the whole text is the message, with no action and no cart call |
| GeminiChatbotService.FailuresChangeNothing | Services/GeminiChatbotService.cs:33-85 | an unusable key or a failed call answers with its fixed message, no action and no cart call |
| GeminiChatbotService.GeminiChatbotService.Dispatch | Services/GeminiChatbotService.cs:100-131 | the actions are `Actions`, and the cart changes by `AddRows` exactly when `CartRequest` asks for it |
| GeminiChatbotService.GeminiChatbotService.ProcessMessage | Services/GeminiChatbotService.cs:31-139 | the response is `Respond`, and the cart changes exactly as `CartCall` says |
| Strings.Trim | Services/GeminiChatbotService.cs:98 | the result is a slice of the input with only whitespace around it, and neither starts nor ends with whitespace |
| Strings.Utf16Length | Data/ShopDbContext.cs:25-26 | the length in UTF-16 code units is between the number of characters and twice it |
| Strings.Utf16LengthOfBmp | Data/ShopDbContext.cs:25-26 | the code-unit length equals the number of characters exactly when no character lies above U+FFFF |
| Strings.LastIndexOf | Services/GeminiChatbotService.cs:145-146 | the position of the character with none after it, or -1 |
| Strings.IntToStringRoundTrip | Services/StripePaymentService.cs:75 | an integer's decimal text parses back to it |

## Left out

- Entity Framework, SQL and migrations: the tables are sequences and each save is one atomic assignment. Database-generated keys are the counters. Navigation properties (`Include`) are lookups by foreign key.
- CartService.CartService.AddToCart: SQL Server's foreign key is not enforced, so a row is stored for any product key. When the chat assistant names a product that does not exist, the real save fails, the exception is caught and no action is reported; the model adds the row. The cart controller checks the product first, so it is not affected. The admin product saves do model the schema's checks (`AdminController.SaveAccepts`).
- AddProduct: an insert the database refuses consumes an identity value in SQL Server; the model leaves the key counter where it was, so later keys may differ by such gaps.
- Cascading deletes are not modelled, nor the length limit on category names (seeded names fit it), nor the range of `decimal(18,2)`.
- Database collation and tie order: ordering by name is ordinal. The SQL ORDER BY fixes no order among products of equal name; the model keeps them in table order, one of the orders the database may return.
- Case-insensitive comparison (`OrdinalIgnoreCase`) folds ASCII letters only. Culture rules for `LastIndexOf`, `StartsWith` and `Contains` are not modelled; the model compares ordinally.
- Integer overflow: the model's integers are unbounded. A cart quantity that passes 2^31 - 1, and the `long` cast in the Stripe line amount, are not modelled. The only 32-bit rule kept is GetInt32's range.
- The order's timestamp and the cookie's expiry are inputs. They are not read from a clock.
- The SMTP mail body and transport, and the Stripe SDK and its API key set-up, are foreign code; their calls are recorded in logs.
- The Gemini HTTP request, the prompt text and the JSON parsing of the reply are foreign code; the reply text and the parsed block are inputs. A reply whose JSON does not have the expected shape throws out of ProcessMessageAsync; that case is not modelled.
- The [EmailAddress] syntax check is the `emailSyntaxOk` input. Form fields are strings. Model binding turns a blank posted string into null; the model reads a blank name as that null, which AddProduct's guard catches and the required name column refuses. Other binding failures are not modelled.
- EditProduct: a POST that omits the Name field leaves the property's initial empty string (Models/Product.cs:14), which the NOT NULL column stores. The model cannot tell an omitted field from a blank posted one, so it refuses that save as it refuses the null a blank name binds to.
- The TempData and ViewBag messages, the logger, the GET pages (Checkout, EditProduct, AddProduct, the admin Products list) and ProductsController are views with no state change.
- In the admin pages, UploadImage and the image processing service it calls (file I/O and a foreign service) are left out.
- The unused `session_id` parameter of PaymentSuccess, the unused `orderId` of PaymentCancelled and the unused `userId` of ProcessMessageAsync carry no behaviour.
- In ApplyAIImages, the directory listing is an input, in listing order, or None when the directory does not exist. The name-to-image dictionary is enumerated in insertion order. The file-name pattern `value*.png` is matched ordinally; file-system case rules and the Windows rule for three-letter extensions are not modelled.
- Concurrency between requests is not modelled: each request runs to completion on its own.
