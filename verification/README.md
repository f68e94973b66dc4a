# Restaurant ordering backend, modelled in Dafny

This project models the request handlers of a restaurant's ordering backend (an
Express/Mongoose server). It covers the customer's cart, placing an order and handing
it to the payment provider, the payment callback, the admin's order and menu handlers,
and the store's open/closed flag. Each handler is one pure step over the stores it
touches:

- the users' carts, keyed by user id, each a map from the composite cart key to
  `{ quantity, options }`;
- the order documents;
- the menu (food) documents;
- the process-wide "store open" flag.

Modules follow the source files:

| module | file | source |
|---|---|---|
| `Common` | common.dfy | JavaScript truthiness, `a \|\| b`, request fields that may be absent or mistyped |
| `Strings` | strings.dfy | `Array.prototype.sort()` on strings (insertion sort, proved sorted and a permutation) and `join` |
| `CartKey` | cart_key.dfy | the composite key `itemId-opt1,opt2` |
| `Cart` | cart.dfy | `addToCart`, `removeFromCart`, `getCart` |
| `OrderModel` | order_model.dfy | the order schema, its defaults and required fields |
| `Placement` | placement.dfy | `placeOrder`: auth, item checks, save, cart clear, checkout lines |
| `PlacementErrors` | placement_errors.dfy | how `placeOrder`'s catch block picks its error message |
| `OrderAdmin` | order_admin.dfy | `verifyOrder`, `updateStatus`, `listOrders`, `userOrders` |
| `FoodModel` | food_model.dfy | the food schema, its defaults and its validation |
| `FoodCatalog` | food_catalog.dfy | `addFood`, `removeFood`, `getFoodDetails`, `updateFood` |
| `StoreStatus` | store_status.dfy | the `isStoreOpen` flag and its two endpoints |

Modelling conventions:

- Money (prices, amounts, the delivery fee) is integer cents, so `Math.round(x * 100)` is
  the identity.
- Whether a string casts to an ObjectId is a parameter (`IdCheck`). A failed cast becomes
  the handler's error reply.
- The new order's id, the clock and the payment provider are parameters of
  `Placement.PlaceOrder`. The provider is a function from the checkout lines and the order
  id to a session URL, or to nothing when it fails.
- Mongoose 6 and later drop an update key whose value is `undefined` (its
  `omitUndefined` behaviour became the default). So an absent field keeps its stored value.
- A `JSON.parse` that throws outside a handler's `try` (foodController.js:20-21) gives no
  reply at all. This is Express 4's behaviour, which does not pass a rejected promise from an
  async handler to its error handler, with a Node process that does not exit on an unhandled
  rejection (Node before 15, or a process with a rejection handler). Express 5 would answer
  with a 500 instead.
- The menu form's `price` is kept raw (missing, empty, numeric or not a number), because
  the two handlers read it differently: `addFood` lets the schema cast it, and `updateFood`
  calls `Number(...)` first.

## Model

| member | source | states |
|---|---|---|
| Strings.Sort | backend/controllers/cartController.js:9 | the sorted options are in non-decreasing string order and are a permutation of the given ones |
| Strings.SortPermutationInvariant | backend/controllers/cartController.js:9 | sorting depends only on the multiset of labels, not on their order |
| CartKey.Key | backend/controllers/cartController.js:9-10 | the key starts with the item id and a dash; without options it is `itemId-`, with one option `itemId-option` |
| CartKey.KeyPermutationInvariant | backend/controllers/cartController.js:9-10 | two option lists with the same multiset give the same key |
| CartKey.KeyInjective | backend/controllers/cartController.js:9-10 | for dash-free item ids and non-empty, comma-free labels, keys are equal exactly when the ids are equal and the option lists are permutations of each other |
| CartKey.KeyCollidesOnCommaLabel | backend/controllers/cartController.js:9-10 | a label holding a comma collides with the two labels around the comma, although the selections differ |
| Cart.AddToCart | backend/controllers/cartController.js:4-27 | unknown user: error and no change. Known user: the entry at the request key grows by the quantity (default 1). A new entry starts from 0 with sorted options. Every other entry and user is unchanged |
| Cart.RemoveFromCart | backend/controllers/cartController.js:30-51 | one item off the entry, which keeps its options and every other key; the entry is dropped at quantity 1 or below; an absent key reports success and changes nothing; other entries and users unchanged |
| Cart.GetCart | backend/controllers/cartController.js:54-66 | a known user's stored cart, an error for an unknown one |
| Cart.AddThenGetCart | backend/controllers/cartController.js:9-21 | after an add, reading the cart returns the stored cart, which holds the request's key |
| Cart.AddTwiceIsAddTwo | backend/controllers/cartController.js:15-19 | two adds of one item equal one add of two |
| Cart.AddIgnoresOptionOrder | backend/controllers/cartController.js:9-19 | the same options in another order reach the same entry and give the same cart |
| Cart.RemoveUndoesAddOne | backend/controllers/cartController.js:15-19 | removing right after adding one item restores the cart (unless the entry held less than one) |
| Cart.AddKeepsPositive | backend/controllers/cartController.js:19 | adding a positive quantity keeps every entry at one or more |
| Cart.AddOfZeroBreaksPositive | backend/controllers/cartController.js:15-19 | an add of quantity 0 creates an entry holding nothing, since no check rejects it |
| Cart.RemoveKeepsPositive | backend/controllers/cartController.js:37-43 | removing never leaves an entry below one |
| Cart.HandlersKeepOptionsSorted | backend/controllers/cartController.js:9-17 | stored options stay sorted across adds and removes |
| OrderModel.NewItem | backend/models/orderModel.js:5-12 | a stored line takes the given fields; options default to `[]` and required selections to `{}` |
| OrderModel.NewOrder | backend/models/orderModel.js:3-19 | the save succeeds exactly when user, amount, address and each line's key and item id are present. The order is stored with status "Food Processing", unpaid, dated now |
| Placement.FormatItem | backend/controllers/orderController.js:113-133 | the persisted line has the cart key of its item and options, its options sorted as a permutation of the request's, the request's required selections (none when absent), and savable required fields |
| Placement.FormattedKeyIsCartKey | backend/controllers/orderController.js:121-122 | the order line's key equals the key the cart gives the same item and options |
| Placement.SortedOptionsKeptOnOrder | backend/controllers/orderController.js:121-127 | options sent in the sorted order the cart keeps are stored on the order line unchanged |
| Placement.SelectionTexts | backend/controllers/orderController.js:185-188 | each required selection reads `key: value`, in order |
| Placement.DisplayName | backend/controllers/orderController.js:182-191 | the checkout name starts with the item name. It is the bare name exactly when there are no options and no selections. Right after the name come the options joined by ", " in ` (...)`; the name ends with the `key: value` selections joined by ", " in ` [...]`; nothing else is added |
| Placement.FinalFee | backend/controllers/orderController.js:205 | the charged fee is never negative, and it is positive exactly when the request's fee is a positive number, which it then equals |
| Placement.CheckoutLines | backend/controllers/orderController.js:174-218 | one line per request item, in order, with its quantity and price. Its name is the item's display name over the sorted options, and so starts with the item name. Then exactly one "Frais de livraison" line, quantity 1, when the fee is positive |
| Placement.BuildOrder | backend/controllers/orderController.js:135-142 | the order is built exactly when user, amount and address are present. It then carries the caller's user id, the client's amount and address unchanged, status "Food Processing", unpaid, dated now, with the request lines formatted one for one as `FormatItem` does and so keyed by the cart key (`SavedAsRequested`) |
| Placement.ClearAndCheckout | backend/controllers/orderController.js:171-230 | the saved order stays whatever happens. The cart clear fails exactly when the user id does not cast, and then the carts stay as they were and nothing reaches the provider. Otherwise the user's cart is emptied (also when the checkout then fails), the provider is handed `CheckoutLines` of the items and fee, and the reply is a session carrying the provider's URL exactly when the provider returns one (`ClearedAndCheckedOut`) |
| Placement.SaveAndCheckout | backend/controllers/orderController.js:135-230 | the save is rejected, with nothing changed, exactly when the user id, amount or address is missing. Otherwise the order is stored as requested, and the cart clear and checkout go as `ClearAndCheckout` states |
| Placement.PlaceItems | backend/controllers/orderController.js:113-230 | a 500 for an invalid item happens exactly when some line lacks its essentials or has an id that does not cast, and it changes nothing. When every line passes, the order is saved exactly when user, amount and address are present; after a save the cart clear and checkout go as `ClearAndCheckout` states |
| Placement.PlaceOrder | backend/controllers/orderController.js:94-249 | 401 exactly without a user id; 400 exactly for a missing, non-array or empty list; a 500 for an invalid item exactly when some line fails the checks; a rejected save exactly when those pass but amount or address is missing; each of these changes nothing. Otherwise the order is saved as requested and stays saved; the cart clear fails exactly when the user id does not cast, leaving the carts as they were and sending nothing to the provider; else the user's cart is emptied, the provider gets `CheckoutLines` of the request's items and fee, and the reply is a session exactly when the provider returns a URL |
| Placement.PlaceOrderSucceeds | backend/controllers/orderController.js:94-230 | a request passing every check, from a user whose id casts, with a provider that opens a session: the reply is that session, the order is saved as requested, and the user's cart reads back empty |
| PlacementErrors.SelectMessageAsWritten | backend/controllers/orderController.js:237-245 | the tests run in order, the first that holds choosing the message: the validation message exactly for a `ValidationError`; the item-data message exactly when the message holds one of the two English phrases; the invalid-id message exactly when it then mentions `ObjectId`; the provider message exactly when it then carries a `type` starting with "Stripe"; otherwise the generic message |
| PlacementErrors.MissingEssentialsGetsGenericMessage | backend/controllers/orderController.js:114-116 | the handler's own missing-properties error matches none of the tests and gets the generic message (see Findings) |
| PlacementErrors.SelectMessage | backend/controllers/orderController.js:232-247 | a validation error gets the validation message exactly when it is one; the handler's two item errors get the item-data message |
| PlacementErrors.SelectionsAgreeElsewhere | backend/controllers/orderController.js:237-245 | outside the item-data texts, the corrected selection answers as the written one |
| OrderAdmin.VerifyOrder | backend/controllers/orderController.js:251-268 | `success === true` marks the order paid and changes nothing else; any other value deletes it; an id that does not cast is a 500 with no change |
| OrderAdmin.VerifyIdempotent | backend/controllers/orderController.js:254-262 | a repeated callback changes nothing further and gives the same answer |
| OrderAdmin.FailureDeletesPaidOrder | backend/controllers/orderController.js:254-262 | a failure callback after a success deletes a paid order |
| OrderAdmin.UpdateStatus | backend/controllers/orderController.js:294-302 | the order's status becomes the given string; no other field or order changes; without a status nothing changes |
| OrderAdmin.StatusLastWriteWins | backend/controllers/orderController.js:296 | two updates in a row leave what the second wrote |
| OrderAdmin.ListOrders | backend/controllers/orderController.js:284-292 | every stored order is listed, as stored, whoever placed it |
| OrderAdmin.UserOrders | backend/controllers/orderController.js:270-282 | 401 exactly without a user id; otherwise exactly the stored orders whose `userId` is the caller's, unchanged |
| OrderAdmin.UserOrdersPartitionList | backend/controllers/orderController.js:270-292 | each listed order appears among its own customer's orders and no other customer's |
| FoodModel.NewOption | backend/models/foodModel.js:9-14 | an option keeps its name, and its price defaults to 0 |
| FoodCatalog.AddFood | backend/controllers/foodController.js:5-31 | malformed JSON means no reply (under Express 4) and no change; every other failure is the `success: false` reply. Success happens exactly when both lists parse, the price is numeric (an empty price fails the required check), the name is non-empty and every required group is valid. The record takes the form's name, description, category, price and parsed lists (options with their default price); its image is the file name or "", and absent lists are `[]`. Any failure changes nothing |
| FoodCatalog.RemoveFood | backend/controllers/foodController.js:45-70 | exactly the record with that id is dropped; an absent id is "not found" with no change |
| FoodCatalog.GetFoodDetails | backend/controllers/foodController.js:73-84 | the stored record exactly when the id casts and is present; "not found" exactly when it casts and is absent; the `success: false` reply when it does not cast |
| FoodCatalog.UpdateFood | backend/controllers/foodController.js:86-130 | an id that does not cast, unparsable JSON, or a price `Number(...)` cannot read is a failure; an absent record is "not found"; none of them changes anything. On success absent name, description and category keep their stored values. Price (0 for an empty one) and both lists are replaced. The image is kept unless a file came. Nothing else changes, and the reply carries the updated record |
| FoodCatalog.AddRemoveKeepValid | backend/models/foodModel.js:4-19 | adding and removing keep every stored record valid |
| FoodCatalog.UpdateCanBreakValid | backend/controllers/foodController.js:95-123 | an update with an empty name stores a record validation would reject |
| FoodCatalog.EmptyPriceAddFailsUpdateZeroes | backend/controllers/foodController.js:17-98 | an empty price makes `addFood` fail with nothing stored, while `updateFood` succeeds and stores 0 |
| FoodCatalog.AddThenGet | backend/controllers/foodController.js:24-26 | a successfully added record is what a lookup of its id returns |
| FoodCatalog.RemoveThenGet | backend/controllers/foodController.js:64 | after removal the id is "not found" |
| StoreStatus.Initial | backend/server.js:30 | the store starts open |
| StoreStatus.GetStatus | backend/server.js:33-35 | reading returns the flag and changes nothing |
| StoreStatus.SetStatus | backend/server.js:39-49 | a boolean becomes the flag and is echoed; anything else is a 400 and the flag stays |
| StoreStatus.SetIdempotent | backend/server.js:39-49 | setting twice is setting once |
| StoreStatus.SetThenGet | backend/server.js:33-49 | a read after a successful set sees the value set |

## Left out

- Sending the confirmation e-mail (backend/controllers/orderController.js:148-168): its failures are caught and it changes no stored state.
- The payment provider's internals, the redirect URLs and the currency codes ("inr" on item lines, "eur" on the fee line): the provider is a parameter.
- Floating-point money: prices are integer cents, so `Math.round(price * 100)` and fractional fees are not modelled.
- String order: options are sorted by Unicode code point. JavaScript compares UTF-16 code units, which differs only for characters outside the Basic Multilingual Plane.
- ObjectId casting: reduced to a yes/no test on the id string. Valid ids are taken to be in canonical form.
- `listFood`, image file deletion (`fs.unlink`), the other routes of backend/server.js, and the admin pages: these are outside the modelled handlers or are pure I/O.
- Concurrency: each handler is one atomic step. Lost updates between a handler's read and write are not modelled.
- The user document (userModel) is not part of this model. A user whose `cartData` is unset is held with the empty cart, which is what `cartData || {}` gives.
- Cart.AddToCart: `options` is taken to be an array and `quantity` a number. A non-array `options` throws in the handler; a string `quantity` would concatenate.
- Placement.PlaceOrder: the stored `requiredSelections` is a list of key/value pairs rather than an object. So the model keeps the pairs in the order sent and keeps duplicate keys. JavaScript's `Object.entries` at line 187 lists integer-like keys first, and parsing the JSON keeps only the last of duplicate keys; both change the checkout name, and neither is modelled. The line checks at lines 177-180 always pass after those at 114-117, so that throw is not reached.
- Placement.PlaceOrder: `options` on a line is taken to be an array or absent. A non-empty string passes the checks at lines 114-121. The order is then saved (line 142) and the cart cleared (line 171). The call `item.options.join` at line 184 then throws, giving a 500 while the order stays stored. A number or a plain object has no positive `length`, so line 183 skips the join and the placement goes on. Neither path is modelled.
- Placement.PlaceOrder: the amount is stored as sent. Nothing checks it against the lines and the fee, and the model does not either.
- OrderAdmin.VerifyOrder and OrderAdmin.UpdateStatus: no state check and no compare-and-set guard exist in the handlers, so none is modelled. Any status string is accepted.
- FoodCatalog.UpdateFood: `Number(price)` that is not a number is modelled as a failed update. In Mongoose it is a cast error, which the handler reports as a failure. A numeric string is taken to read as the same number in both handlers.
- OrderModel.NewOrder: a Mongoose required-field check rejects an empty string and a missing value. It is modelled that way for string fields only; a numeric `amount` of 0 is accepted.

The handlers never validate a cart quantity, always remove one item, and do not check an
order's state before recording a payment; the model does the same.

## Findings

| source | as written | input that shows it | evidently intended | confidence | as-written member | corrected member |
|---|---|---|---|---|---|---|
| backend/controllers/orderController.js:239 | the item-data test looks for the English phrases "Missing essential item properties" and "Invalid item data for Stripe checkout", but lines 116 and 179 throw French messages | an order line without `price`: the error "Propriétés d'article essentielles manquantes (ID, nom, prix ou quantité) pour un ou plusieurs articles." matches no test and gets the generic message | the handler's own item errors get the item-data message | high, not executed | PlacementErrors.MissingEssentialsGetsGenericMessage | PlacementErrors.SelectMessage |
