/** The per-user cart of backend/controllers/cartController.js: a map from the
    composite key to `{ quantity, options }`, changed by `addToCart` and
    `removeFromCart` and read by `getCart`. Each handler is one atomic step
    over the store of all users' carts. */
module Cart {
  import opened Common
  import opened Strings
  import opened CartKey

  /** One cart line. Nothing bounds `quantity`: it is whatever the adds summed to. */
  datatype Entry = Entry(quantity: int, options: seq<string>)

  /** A user's `cartData`. */
  type Cart = map<string, Entry>

  /** Every user's cart by user id. A user whose `cartData` is unset is held with the
      empty cart, which is what `cartData || {}` makes of it in every handler. */
  type CartStore = map<Id, Cart>

  /** `{ success: true }` or `{ success: false, message: "Error" }`; the second is what
      an unknown user id leads to (the lookup yields no user and reading its cart throws). */
  datatype Response = Ok | Error

  datatype CartResult = CartResult(store: CartStore, response: Response)

  /** The body of an add request; `options` and `quantity` may be left out. */
  datatype AddRequest = AddRequest(userId: Id, itemId: string, options: Option<seq<string>>, quantity: Option<int>)

  /** `options = []`: the options an add request selects. */
  function RequestOptions(req: AddRequest): seq<string>
  {
    req.options.GetOr([])
  }

  /** `quantity = 1`: the amount an add request adds. */
  function RequestQuantity(req: AddRequest): int
  {
    req.quantity.GetOr(1)
  }

  /** The key an add request files its entry under. */
  function RequestKey(req: AddRequest): string
  {
    Key(req.itemId, RequestOptions(req))
  }

  /** Adds `quantity` to the entry at `key`, creating it at quantity 0 with `options` first. */
  function Increase(cart: Cart, key: string, options: seq<string>, quantity: int): (r: Cart)
    ensures r.Keys == cart.Keys + {key}
    ensures key !in cart ==> r[key] == Entry(quantity, options)
    ensures key in cart ==> r[key].quantity == cart[key].quantity + quantity
    ensures key in cart ==> r[key].options == cart[key].options
    ensures forall k :: k in cart && k != key ==> r[k] == cart[k]
  {
    var e := if key in cart then cart[key] else Entry(0, options);
    cart[key := e.(quantity := e.quantity + quantity)]
  }

  /** Takes one off the entry at `key`, dropping the entry instead when at most one is left. */
  function Decrease(cart: Cart, key: string): (r: Cart)
    ensures key !in cart ==> r == cart
    ensures key in cart && cart[key].quantity > 1 ==>
      r.Keys == cart.Keys && r[key] == Entry(cart[key].quantity - 1, cart[key].options)
    ensures key in cart && cart[key].quantity <= 1 ==> r.Keys == cart.Keys - {key}
    ensures forall k :: k in cart && k != key ==> k in r && r[k] == cart[k]
  {
    if key !in cart then cart
    else if cart[key].quantity > 1 then cart[key := cart[key].(quantity := cart[key].quantity - 1)]
    else cart - {key}
  }

  /** `addToCart`: for a known user the entry at the request's key grows by the request's
      quantity, a new entry keeping the options sorted; every other entry and every other
      user's cart stay as they were. */
  function AddToCart(store: CartStore, req: AddRequest): (r: CartResult)
    ensures req.userId !in store ==> r == CartResult(store, Error)
    ensures req.userId in store ==> r.response == Ok && r.store.Keys == store.Keys
    ensures forall u :: u in store && u != req.userId ==> r.store[u] == store[u]
    ensures req.userId in store ==>
      var cart, after, key := store[req.userId], r.store[req.userId], RequestKey(req);
      && after.Keys == cart.Keys + {key}
      && (forall k :: k in cart && k != key ==> after[k] == cart[k])
      && (key in cart ==> after[key] == Entry(cart[key].quantity + RequestQuantity(req), cart[key].options))
      && (key !in cart ==>
            && after[key].quantity == RequestQuantity(req)
            && Sorted(after[key].options)
            && multiset(after[key].options) == multiset(RequestOptions(req)))
  {
    if req.userId !in store then
      CartResult(store, Error)
    else
      var options := Sort(RequestOptions(req));
      var cart := Increase(store[req.userId], RequestKey(req), options, RequestQuantity(req));
      CartResult(store[req.userId := cart], Ok)
  }

  /** `removeFromCart`: one off the entry at `uniqueKey` for a known user; an absent key
      still reports success and changes nothing. */
  function RemoveFromCart(store: CartStore, userId: Id, uniqueKey: string): (r: CartResult)
    ensures userId !in store ==> r == CartResult(store, Error)
    ensures userId in store ==> r.response == Ok && r.store.Keys == store.Keys
    ensures forall u :: u in store && u != userId ==> r.store[u] == store[u]
    ensures userId in store && uniqueKey !in store[userId] ==> r.store == store
    ensures userId in store && uniqueKey in store[userId] ==>
      var cart, after := store[userId], r.store[userId];
      && (forall k :: k in cart && k != uniqueKey ==> k in after && after[k] == cart[k])
      && (cart[uniqueKey].quantity > 1 ==>
            && after.Keys == cart.Keys
            && after[uniqueKey] == Entry(cart[uniqueKey].quantity - 1, cart[uniqueKey].options))
      && (cart[uniqueKey].quantity <= 1 ==> after.Keys == cart.Keys - {uniqueKey})
  {
    if userId !in store then
      CartResult(store, Error)
    else
      CartResult(store[userId := Decrease(store[userId], uniqueKey)], Ok)
  }

  /** `getCart`: the stored cart of a known user, `None` standing for the error reply. */
  function GetCart(store: CartStore, userId: Id): (r: Option<Cart>)
    ensures r.Some? <==> userId in store
    ensures r.Some? ==> r.value == store[userId]
  {
    if userId in store then Some(store[userId]) else None
  }

  /** What `addToCart` stores, `getCart` returns: the entry at the request's key. */
  lemma AddThenGetCart(store: CartStore, req: AddRequest)
    requires req.userId in store
    ensures var got := GetCart(AddToCart(store, req).store, req.userId);
      && got.Some?
      && RequestKey(req) in got.value
      && got.value == AddToCart(store, req).store[req.userId]
  {
  }

  /** Adding once and adding once more is adding two at once. */
  lemma AddTwiceIsAddTwo(store: CartStore, req: AddRequest)
    requires RequestQuantity(req) == 1
    ensures AddToCart(AddToCart(store, req).store, req) == AddToCart(store, req.(quantity := Some(2)))
  {
    var req2 := req.(quantity := Some(2));
    assert RequestKey(req2) == RequestKey(req);
    if req.userId in store {
      var cart, key, options := store[req.userId], RequestKey(req), Sort(RequestOptions(req));
      IncreaseTwice(cart, key, options, 1, 1);
      var once := store[req.userId := Increase(cart, key, options, 1)];
      assert once[req.userId := Increase(once[req.userId], key, options, 1)]
          == store[req.userId := Increase(cart, key, options, 2)];
    }
  }

  /** Two increases of one entry add up. */
  lemma IncreaseTwice(cart: Cart, key: string, options: seq<string>, a: int, b: int)
    ensures Increase(Increase(cart, key, options, a), key, options, b) == Increase(cart, key, options, a + b)
  {
  }

  /** Reordering the selected options gives the same cart. */
  lemma {:induction false} AddIgnoresOptionOrder(store: CartStore, req: AddRequest, options: seq<string>)
    requires multiset(options) == multiset(RequestOptions(req))
    ensures AddToCart(store, req.(options := Some(options))) == AddToCart(store, req)
  {
    SortPermutationInvariant(options, RequestOptions(req));
  }

  /** Removing after adding a single item undoes the add, as long as the entry was not
      already at quantity zero or below. */
  lemma RemoveUndoesAddOne(store: CartStore, req: AddRequest)
    requires RequestQuantity(req) == 1
    requires req.userId in store
    requires RequestKey(req) in store[req.userId] ==> store[req.userId][RequestKey(req)].quantity >= 1
    ensures RemoveFromCart(AddToCart(store, req).store, req.userId, RequestKey(req)).store == store
  {
    var cart, key, options := store[req.userId], RequestKey(req), Sort(RequestOptions(req));
    DecreaseUndoesIncreaseOne(cart, key, options);
    var once := store[req.userId := Increase(cart, key, options, 1)];
    assert once[req.userId := Decrease(once[req.userId], key)] == store;
  }

  /** Taking one off an entry just raised by one restores the cart. */
  lemma DecreaseUndoesIncreaseOne(cart: Cart, key: string, options: seq<string>)
    requires key in cart ==> cart[key].quantity >= 1
    ensures Decrease(Increase(cart, key, options, 1), key) == cart
  {
    var after := Decrease(Increase(cart, key, options, 1), key);
    assert after.Keys == cart.Keys;
  }

  /** Every entry of the cart holds at least one item. */
  predicate AllPositive(cart: Cart)
  {
    forall k :: k in cart ==> cart[k].quantity >= 1
  }

  /** Every entry's options are stored in sorted order. */
  predicate OptionsSorted(cart: Cart)
  {
    forall k :: k in cart ==> Sorted(cart[k].options)
  }

  /** Positive quantities survive an add of a positive quantity. The handler itself does not
      check the quantity, so this holds only for such adds. */
  lemma AddKeepsPositive(store: CartStore, req: AddRequest)
    requires RequestQuantity(req) >= 1
    requires forall u :: u in store ==> AllPositive(store[u])
    ensures forall u :: u in AddToCart(store, req).store ==> AllPositive(AddToCart(store, req).store[u])
  {
  }

  /** An add of zero items to an absent key stores an entry holding nothing. */
  lemma AddOfZeroBreaksPositive(store: CartStore, req: AddRequest)
    requires req.userId in store && RequestKey(req) !in store[req.userId]
    requires req.quantity == Some(0)
    ensures !AllPositive(AddToCart(store, req).store[req.userId])
  {
    assert AddToCart(store, req).store[req.userId][RequestKey(req)].quantity == 0;
  }

  /** Removing never produces an entry below one. */
  lemma RemoveKeepsPositive(store: CartStore, userId: Id, uniqueKey: string)
    requires forall u :: u in store ==> AllPositive(store[u])
    ensures forall u :: u in RemoveFromCart(store, userId, uniqueKey).store ==>
      AllPositive(RemoveFromCart(store, userId, uniqueKey).store[u])
  {
  }

  /** Stored options stay sorted across adds and removes. */
  lemma HandlersKeepOptionsSorted(store: CartStore, req: AddRequest, userId: Id, uniqueKey: string)
    requires forall u :: u in store ==> OptionsSorted(store[u])
    ensures forall u :: u in AddToCart(store, req).store ==> OptionsSorted(AddToCart(store, req).store[u])
    ensures forall u :: u in RemoveFromCart(store, userId, uniqueKey).store ==>
      OptionsSorted(RemoveFromCart(store, userId, uniqueKey).store[u])
  {
  }
}
