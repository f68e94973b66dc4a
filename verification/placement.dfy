/** `placeOrder` of backend/controllers/orderController.js as one pure step over the
    users' carts and the order store: it authorises, validates every line, saves the
    order with the client's amount, clears the cart, and builds the checkout lines
    handed to the payment provider. */
module Placement {
  import opened Common
  import opened Strings
  import opened CartKey
  import Cart
  import opened OrderModel

  /** One element of the request's `items` array, every field possibly absent.
      Prices are integer cents. */
  datatype RequestItem = RequestItem(
    id: Option<Id>,
    name: Option<string>,
    price: Option<int>,
    quantity: Option<int>,
    options: Option<seq<string>>,
    requiredSelections: Option<seq<(string, string)>>)

  /** The request's `items` field: absent, something other than an array, or an array. */
  datatype ItemsField = NoItems | NotAnArray | Items(list: seq<RequestItem>)

  /** The request's `deliveryFee`: a JSON number (in cents) or anything else. */
  datatype Fee = FeeNumber(cents: int) | FeeNotNumber

  datatype PlaceRequest = PlaceRequest(
    authUserId: Option<Id>,
    bodyUserId: Option<Id>,
    items: ItemsField,
    amount: Option<int>,
    address: Option<Address>,
    deliveryFee: Fee)

  /** One checkout line: display name, unit amount in cents, quantity. */
  datatype LineItem = LineItem(name: string, unitAmount: int, quantity: int)

  /** What the step takes from its surroundings: the id the new order document gets,
      the clock, the ObjectId cast test, and the payment provider, which turns the
      lines and the order id into a session URL or fails. */
  datatype Env = Env(
    orderId: Id,
    now: int,
    isObjectId: IdCheck,
    checkout: (seq<LineItem>, Id) -> Option<string>)

  /** Why a placement ended in a 500 reply. */
  datatype Failure = InvalidItem | SaveRejected | CartClearFailed | CheckoutFailed

  /** 401, 400, 500, or `{ success: true, session_url }`. */
  datatype Response = Unauthorized | BadRequest | ServerError(cause: Failure) | Session(url: string)

  datatype Placement = Placement(response: Response, carts: Cart.CartStore, orders: OrderStore, lines: seq<LineItem>)

  /** The name of the line a positive delivery fee adds. */
  const FeeLineName := "Frais de livraison"

  /** The fields every line must carry: a truthy `_id` and `name`, a defined `price`
      and a truthy (non-zero) `quantity`. */
  predicate HasEssentials(item: RequestItem)
  {
    Truthy(item.id) && Truthy(item.name) && item.price.Some? && item.quantity.Some? && item.quantity.value != 0
  }

  /** A line passes the pre-save checks: its essentials are there and its id casts to an ObjectId. */
  predicate Accepted(item: RequestItem, isObjectId: IdCheck)
  {
    HasEssentials(item) && isObjectId(item.id.value)
  }

  /** Every line has its essentials. */
  predicate AllEssential(items: seq<RequestItem>)
  {
    forall i :: 0 <= i < |items| ==> HasEssentials(items[i])
  }

  /** Every line passes the pre-save checks. */
  predicate AllAccepted(items: seq<RequestItem>, isObjectId: IdCheck)
  {
    forall i :: 0 <= i < |items| ==> Accepted(items[i], isObjectId)
  }

  /** The item's options after the handler sorted them in place. */
  function SortedOptions(item: RequestItem): seq<string>
  {
    Sort(item.options.GetOr([]))
  }

  /** The persisted form of a line: keyed like the cart, options sorted, defaults filled in. */
  function FormatItem(item: RequestItem): (r: OrderItem)
    requires HasEssentials(item)
    ensures ItemSavable(r)
    ensures r.uniqueKey == Key(item.id.value, item.options.GetOr([]))
    ensures r.itemId == item.id.value && r.quantity == item.quantity.value
    ensures Sorted(r.options) && multiset(r.options) == multiset(item.options.GetOr([]))
    ensures item.requiredSelections.None? ==> r.requiredSelections == []
    ensures item.requiredSelections.Some? ==> r.requiredSelections == item.requiredSelections.value
  {
    var options := if item.options.Some? then Some(SortedOptions(item)) else None;
    NewItem(Key(item.id.value, item.options.GetOr([])), item.id.value, options, item.requiredSelections, item.quantity.value)
  }

  function FormatItems(items: seq<RequestItem>): (r: seq<OrderItem>)
    requires AllEssential(items)
    ensures |r| == |items|
    ensures forall i :: 0 <= i < |r| ==> r[i] == FormatItem(items[i])
  {
    seq(|items|, i requires 0 <= i < |items| => FormatItem(items[i]))
  }

  /** A line's order key is the key the cart gives the same item with the same options. */
  lemma FormattedKeyIsCartKey(item: RequestItem, userId: Id, quantity: Option<int>)
    requires HasEssentials(item)
    ensures FormatItem(item).uniqueKey == Cart.RequestKey(Cart.AddRequest(userId, item.id.value, item.options, quantity))
  {
  }

  /** Options already in sorted order, as the cart stores them, reach the order line
      exactly as sent: sorting them again changes nothing. */
  lemma SortedOptionsKeptOnOrder(item: RequestItem)
    requires HasEssentials(item) && item.options.Some? && Sorted(item.options.value)
    ensures FormatItem(item).options == item.options.value
  {
    SortOfSorted(item.options.value);
  }

  /** `key: value` for each required selection. */
  function SelectionTexts(selections: seq<(string, string)>): (r: seq<string>)
    ensures |r| == |selections|
    ensures forall i :: 0 <= i < |r| ==> r[i] == selections[i].0 + ": " + selections[i].1
  {
    seq(|selections|, i requires 0 <= i < |selections| => selections[i].0 + ": " + selections[i].1)
  }

  /** The product name shown at checkout: the item name, then ` (o1, o2)` when there are
      options, then ` [k: v, ...]` when there are required selections. */
  function DisplayName(name: string, options: seq<string>, selections: seq<(string, string)>): (r: string)
    ensures |r| >= |name| && r[..|name|] == name
    ensures r == name <==> |options| == 0 && |selections| == 0
    ensures |selections| > 0 ==> r[|r| - 1] == ']'
    ensures |selections| == 0 && |options| > 0 ==> r[|r| - 1] == ')'
    ensures |options| > 0 ==> |r| > |name| + 2 && r[|name|..|name| + 2] == " ("
    ensures |options| == 0 && |selections| > 0 ==> |r| > |name| + 2 && r[|name|..|name| + 2] == " ["
    ensures var opts, sels := Join(options, ", "), Join(SelectionTexts(selections), ", ");
      && |r| == |name| + (if |options| > 0 then |opts| + 3 else 0) + (if |selections| > 0 then |sels| + 3 else 0)
      && (|options| > 0 ==> r[|name|..|name| + |opts| + 3] == " (" + opts + ")")
      && (|selections| > 0 ==> r[|r| - |sels| - 3..] == " [" + sels + "]")
  {
    var withOptions := if |options| > 0 then name + (" (" + Join(options, ", ") + ")") else name;
    if |selections| > 0 then withOptions + (" [" + Join(SelectionTexts(selections), ", ") + "]") else withOptions
  }

  /** The fee actually charged: the request's fee when it is a number not below zero, else 0. */
  function FinalFee(fee: Fee): (r: int)
    ensures r >= 0
    ensures r > 0 <==> fee.FeeNumber? && fee.cents > 0
    ensures r > 0 ==> r == fee.cents
  {
    if fee.FeeNumber? && fee.cents >= 0 then fee.cents else 0
  }

  function ItemLine(item: RequestItem): LineItem
    requires HasEssentials(item)
  {
    LineItem(
      DisplayName(item.name.value, SortedOptions(item), item.requiredSelections.GetOr([])),
      item.price.value,
      item.quantity.value)
  }

  /** The checkout lines: one per request item, in order, then a single fee line exactly
      when the charged fee is positive. */
  function CheckoutLines(items: seq<RequestItem>, fee: Fee): (r: seq<LineItem>)
    requires AllEssential(items)
    ensures |r| == |items| + (if FinalFee(fee) > 0 then 1 else 0)
    ensures forall i :: 0 <= i < |items| && HasEssentials(items[i]) ==>
      && r[i].quantity == items[i].quantity.value
      && r[i].unitAmount == items[i].price.value
      && r[i].name == DisplayName(items[i].name.value, SortedOptions(items[i]), items[i].requiredSelections.GetOr([]))
      && |r[i].name| >= |items[i].name.value| && r[i].name[..|items[i].name.value|] == items[i].name.value
    ensures FinalFee(fee) > 0 ==> r[|items|] == LineItem(FeeLineName, FinalFee(fee), 1)
  {
    if |items| == 0 then
      if FinalFee(fee) > 0 then [LineItem(FeeLineName, FinalFee(fee), 1)] else []
    else
      [ItemLine(items[0])] + CheckoutLines(items[1..], fee)
  }

  /** The stored order is the one the request asked for: the caller's user id, the
      client's amount and address unchanged, the schema's defaults, the current time,
      and one line per request line, formatted as `FormatItem` does and so keyed with
      the cart's key. */
  predicate SavedAsRequested(saved: Order, user: Id, items: seq<RequestItem>, req: PlaceRequest, env: Env)
  {
    && saved.userId == user
    && req.amount == Some(saved.amount)
    && req.address == Some(saved.address)
    && saved.status == "Food Processing" && !saved.payment && saved.date == env.now
    && AllEssential(items)
    && saved.items == FormatItems(items)
  }

  /** The order document built from the accepted lines, or `None` when the save's
      validation rejects it (a missing amount or address). */
  function BuildOrder(user: Id, items: seq<RequestItem>, req: PlaceRequest, env: Env): (r: Option<Order>)
    requires AllEssential(items)
    ensures r.Some? <==> user != "" && req.amount.Some? && req.address.Some?
    ensures r.Some? ==> SavedAsRequested(r.value, user, items, req, env)
  {
    var formatted := FormatItems(items);
    assert forall i :: 0 <= i < |formatted| ==> ItemSavable(formatted[i]);
    NewOrder(user, formatted, req.amount, req.address, env.now)
  }

  /** The save's validation passes: a user id, an amount and an address (the lines are
      savable once they passed the checks). */
  predicate SaveAccepts(user: Id, req: PlaceRequest)
  {
    user != "" && req.amount.Some? && req.address.Some?
  }

  /** The carts once the user's cart is emptied; a user without a document is left out. */
  function ClearedCarts(carts: Cart.CartStore, user: Id): (r: Cart.CartStore)
    ensures r.Keys == carts.Keys
    ensures user in carts ==> r[user] == map[]
    ensures forall u :: u in carts && u != user ==> r[u] == carts[u]
  {
    if user in carts then carts[user := map[]] else carts
  }

  /** What follows a successful save: the cart clear fails exactly when the user id does
      not cast, and then the carts stay as they were and nothing reaches the provider;
      otherwise the user's cart is emptied, the provider is handed the checkout lines, and
      the reply is a session carrying the provider's URL exactly when it returns one. */
  predicate ClearedAndCheckedOut(r: Placement, carts: Cart.CartStore, user: Id, items: seq<RequestItem>, fee: Fee, env: Env)
  {
    && AllEssential(items)
    && (r.response == ServerError(CartClearFailed) <==> !env.isObjectId(user))
    && (!env.isObjectId(user) ==> r.carts == carts && r.lines == [])
    && (env.isObjectId(user) ==>
          && r.carts == ClearedCarts(carts, user)
          && r.lines == CheckoutLines(items, fee)
          && (r.response.Session? <==> env.checkout(r.lines, env.orderId).Some?)
          && (r.response.Session? ==> env.checkout(r.lines, env.orderId) == Some(r.response.url)))
  }

  /** The steps after the save: clear the user's cart (which fails when the user id does
      not cast), build the lines, and open the checkout session. The saved order stays
      whatever happens here. */
  function ClearAndCheckout(carts: Cart.CartStore, saved: OrderStore, user: Id, items: seq<RequestItem>, fee: Fee, env: Env): (r: Placement)
    requires AllEssential(items)
    ensures r.orders == saved
    ensures r.response in {ServerError(CartClearFailed), ServerError(CheckoutFailed)} || r.response.Session?
    ensures ClearedAndCheckedOut(r, carts, user, items, fee, env)
  {
    if !env.isObjectId(user) then
      Placement(ServerError(CartClearFailed), carts, saved, [])
    else
      var cleared := ClearedCarts(carts, user);
      var lines := CheckoutLines(items, fee);
      match env.checkout(lines, env.orderId)
      case None => Placement(ServerError(CheckoutFailed), cleared, saved, lines)
      case Some(url) => Placement(Session(url), cleared, saved, lines)
  }

  /** The placement of lines that all passed the checks: the save, then the cart clear
      and the checkout. A rejected save changes nothing; from the save on, the order
      stays stored and only the user's cart may be emptied. */
  function SaveAndCheckout(carts: Cart.CartStore, orders: OrderStore, user: Id, items: seq<RequestItem>, req: PlaceRequest, env: Env): (r: Placement)
    requires env.orderId !in orders
    requires AllAccepted(items, env.isObjectId)
    ensures r.response in {ServerError(SaveRejected), ServerError(CartClearFailed), ServerError(CheckoutFailed)} || r.response.Session?
    ensures r.response == ServerError(SaveRejected) <==> r.orders == orders
    ensures r.response == ServerError(SaveRejected) <==> !SaveAccepts(user, req)
    ensures env.orderId in r.orders <==> SaveAccepts(user, req)
    ensures SaveAccepts(user, req) ==> ClearedAndCheckedOut(r, carts, user, items, req.deliveryFee, env)
    ensures r.response == ServerError(SaveRejected) ==> r.carts == carts && r.lines == []
    ensures r.orders == orders || (env.orderId in r.orders && r.orders == orders[env.orderId := r.orders[env.orderId]])
    ensures env.orderId in r.orders ==> SavedAsRequested(r.orders[env.orderId], user, items, req, env)
    ensures r.carts == carts || r.carts == ClearedCarts(carts, user)
  {
    assert AllEssential(items) by {
      forall i | 0 <= i < |items|
        ensures HasEssentials(items[i])
      {
        assert Accepted(items[i], env.isObjectId);
      }
    }
    match BuildOrder(user, items, req, env)
    case None =>
      Placement(ServerError(SaveRejected), carts, orders, [])
    case Some(order) =>
      ClearAndCheckout(carts, orders[env.orderId := order], user, items, req.deliveryFee, env)
  }

  /** The placement of a non-empty list of lines for an authorised user: a line without
      its essentials, or whose id does not cast, fails before anything is stored. */
  function PlaceItems(carts: Cart.CartStore, orders: OrderStore, user: Id, items: seq<RequestItem>, req: PlaceRequest, env: Env): (r: Placement)
    requires env.orderId !in orders
    ensures !r.response.Unauthorized? && !r.response.BadRequest?
    ensures r.response in {ServerError(InvalidItem), ServerError(SaveRejected)} ==>
      r.orders == orders && r.carts == carts && r.lines == []
    ensures r.response == ServerError(InvalidItem) <==> exists i :: 0 <= i < |items| && !Accepted(items[i], env.isObjectId)
    ensures r.response == ServerError(SaveRejected) <==> AllAccepted(items, env.isObjectId) && !SaveAccepts(user, req)
    ensures env.orderId in r.orders <==> AllAccepted(items, env.isObjectId) && SaveAccepts(user, req)
    ensures env.orderId in r.orders ==> ClearedAndCheckedOut(r, carts, user, items, req.deliveryFee, env)
    ensures r.orders == orders || (env.orderId in r.orders && r.orders == orders[env.orderId := r.orders[env.orderId]])
    ensures env.orderId in r.orders ==> SavedAsRequested(r.orders[env.orderId], user, items, req, env)
    ensures r.carts != carts ==> env.orderId in r.orders
    ensures r.carts == carts || r.carts == ClearedCarts(carts, user)
    ensures r.response in {ServerError(CartClearFailed), ServerError(CheckoutFailed)} || r.response.Session? ==>
      env.orderId in r.orders
  {
    if !AllAccepted(items, env.isObjectId) then
      Placement(ServerError(InvalidItem), carts, orders, [])
    else
      SaveAndCheckout(carts, orders, user, items, req, env)
  }

  /** The placement step. A reply of 401 or 400, or a failed line check, leaves both stores
      as they were; from the save on, the order stays stored whatever fails later, and
      only a saved order lets the user's cart be emptied. */
  function PlaceOrder(carts: Cart.CartStore, orders: OrderStore, req: PlaceRequest, env: Env): (r: Placement)
    requires env.orderId !in orders
    ensures r.response.Unauthorized? <==> !Truthy(Or(req.authUserId, req.bodyUserId))
    ensures r.response.BadRequest? <==>
      Truthy(Or(req.authUserId, req.bodyUserId)) && !(req.items.Items? && |req.items.list| > 0)
    ensures r.response in {Unauthorized, BadRequest, ServerError(InvalidItem), ServerError(SaveRejected)} ==>
      r.orders == orders && r.carts == carts && r.lines == []
    ensures r.response == ServerError(InvalidItem) <==>
      && Truthy(Or(req.authUserId, req.bodyUserId))
      && req.items.Items?
      && !AllAccepted(req.items.list, env.isObjectId)
    ensures r.response == ServerError(SaveRejected) <==>
      && Truthy(Or(req.authUserId, req.bodyUserId))
      && req.items.Items? && |req.items.list| > 0
      && AllAccepted(req.items.list, env.isObjectId)
      && !SaveAccepts(Or(req.authUserId, req.bodyUserId).value, req)
    ensures env.orderId in r.orders <==>
      && Truthy(Or(req.authUserId, req.bodyUserId))
      && req.items.Items? && |req.items.list| > 0
      && AllAccepted(req.items.list, env.isObjectId)
      && SaveAccepts(Or(req.authUserId, req.bodyUserId).value, req)
    ensures env.orderId in r.orders ==>
      ClearedAndCheckedOut(r, carts, Or(req.authUserId, req.bodyUserId).value, req.items.list, req.deliveryFee, env)
    ensures r.orders == orders || (env.orderId in r.orders && r.orders == orders[env.orderId := r.orders[env.orderId]])
    ensures env.orderId in r.orders ==>
      && req.items.Items?
      && SavedAsRequested(r.orders[env.orderId], Or(req.authUserId, req.bodyUserId).value, req.items.list, req, env)
    ensures r.carts != carts ==> env.orderId in r.orders
    ensures r.carts == carts || r.carts == ClearedCarts(carts, Or(req.authUserId, req.bodyUserId).value)
    ensures r.response in {ServerError(CartClearFailed), ServerError(CheckoutFailed)} || r.response.Session? ==>
      env.orderId in r.orders
  {
    var user := Or(req.authUserId, req.bodyUserId);
    if !Truthy(user) then
      Placement(Unauthorized, carts, orders, [])
    else if !req.items.Items? || |req.items.list| == 0 then
      Placement(BadRequest, carts, orders, [])
    else
      PlaceItems(carts, orders, user.value, req.items.list, req, env)
  }

  /** A request that passes every check, from a user whose id casts, with a provider that
      opens a session: the order is saved as requested, the user's cart is emptied, and
      the reply carries the provider's URL. */
  lemma PlaceOrderSucceeds(carts: Cart.CartStore, orders: OrderStore, req: PlaceRequest, env: Env, url: string)
    requires env.orderId !in orders
    requires Truthy(Or(req.authUserId, req.bodyUserId))
    requires req.items.Items? && |req.items.list| > 0 && AllAccepted(req.items.list, env.isObjectId)
    requires req.amount.Some? && req.address.Some?
    requires env.isObjectId(Or(req.authUserId, req.bodyUserId).value)
    requires AllEssential(req.items.list)
    requires env.checkout(CheckoutLines(req.items.list, req.deliveryFee), env.orderId) == Some(url)
    ensures var user := Or(req.authUserId, req.bodyUserId).value;
      var r := PlaceOrder(carts, orders, req, env);
      && r.response == Session(url)
      && env.orderId in r.orders
      && SavedAsRequested(r.orders[env.orderId], user, req.items.list, req, env)
      && r.carts == ClearedCarts(carts, user)
      && (user in carts ==> Cart.GetCart(r.carts, user) == Some(map[]))
  {
  }
}
