/** The order document of backend/models/orderModel.js: its fields, their defaults,
    and which of them a save insists on. */
module OrderModel {
  import opened Common

  /** The delivery address, stored as whatever object the client sent. */
  type Address = map<string, string>

  /** One persisted line. The schema declares no `name` and no `price`, so the copies
      the order handler builds in memory lose both on save. */
  datatype OrderItem = OrderItem(
    uniqueKey: string,
    itemId: Id,
    options: seq<string>,
    requiredSelections: seq<(string, string)>,
    quantity: int)

  datatype Order = Order(
    userId: Id,
    items: seq<OrderItem>,
    amount: int,
    address: Address,
    status: string,
    date: int,
    payment: bool)

  /** Orders by their document id. */
  type OrderStore = map<Id, Order>

  /** A line item as built from the handler's fields, `options` defaulting to `[]` and
      `requiredSelections` to `{}` (here the empty list of entries). */
  function NewItem(
    uniqueKey: string, itemId: Id, options: Option<seq<string>>,
    requiredSelections: Option<seq<(string, string)>>, quantity: int): (r: OrderItem)
    ensures r.uniqueKey == uniqueKey && r.itemId == itemId && r.quantity == quantity
    ensures options.None? ==> r.options == []
    ensures options.Some? ==> r.options == options.value
    ensures requiredSelections.None? ==> r.requiredSelections == []
    ensures requiredSelections.Some? ==> r.requiredSelections == requiredSelections.value
  {
    OrderItem(uniqueKey, itemId, options.GetOr([]), requiredSelections.GetOr([]), quantity)
  }

  /** The line's required string fields are present: a required string rejects "". */
  predicate ItemSavable(item: OrderItem)
  {
    item.uniqueKey != "" && item.itemId != ""
  }

  /** `new orderModel({ userId, items, amount, address }).save()`: `None` when validation
      rejects the document (a required field missing), otherwise the stored order with
      `status` "Food Processing", `payment` false and `date` the current time. */
  function NewOrder(userId: Id, items: seq<OrderItem>, amount: Option<int>, address: Option<Address>, now: int): (r: Option<Order>)
    ensures r.Some? <==> userId != "" && amount.Some? && address.Some? && forall i :: 0 <= i < |items| ==> ItemSavable(items[i])
    ensures r.Some? ==> r.value.userId == userId && r.value.items == items
    ensures r.Some? ==> r.value.amount == amount.value && r.value.address == address.value
    ensures r.Some? ==> r.value.status == "Food Processing" && !r.value.payment && r.value.date == now
  {
    if userId != "" && amount.Some? && address.Some? && forall i :: 0 <= i < |items| ==> ItemSavable(items[i]) then
      Some(Order(userId, items, amount.value, address.value, "Food Processing", now, false))
    else
      None
  }
}
