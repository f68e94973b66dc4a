/** The order handlers after placement, in backend/controllers/orderController.js:
    the payment callback `verifyOrder`, the admin's `updateStatus` and `listOrders`,
    and a customer's `userOrders`. */
module OrderAdmin {
  import opened Common
  import opened OrderModel

  /** `verifyOrder` replies: payment recorded, order dropped, or a 500 (the id does not cast). */
  datatype VerifyResponse = PaymentSucceeded | PaymentFailed | VerifyError

  datatype VerifyResult = VerifyResult(orders: OrderStore, response: VerifyResponse)

  /** `verifyOrder`: `success` equal to the boolean `true` marks the order paid and changes
      nothing else; any other value deletes it. Neither path looks at the order's state
      first, and an unknown id is no error. */
  function VerifyOrder(orders: OrderStore, orderId: Id, success: Field, isObjectId: IdCheck): (r: VerifyResult)
    ensures !isObjectId(orderId) ==> r == VerifyResult(orders, VerifyError)
    ensures isObjectId(orderId) && success == Bool(true) ==>
      && r.response == PaymentSucceeded
      && r.orders.Keys == orders.Keys
      && (forall id :: id in orders && id != orderId ==> r.orders[id] == orders[id])
      && (orderId in orders ==> r.orders[orderId] == orders[orderId].(payment := true))
    ensures isObjectId(orderId) && success != Bool(true) ==>
      && r.response == PaymentFailed
      && r.orders.Keys == orders.Keys - {orderId}
      && (forall id :: id in r.orders ==> r.orders[id] == orders[id])
  {
    if !isObjectId(orderId) then
      VerifyResult(orders, VerifyError)
    else if success == Bool(true) then
      VerifyResult(if orderId in orders then orders[orderId := orders[orderId].(payment := true)] else orders, PaymentSucceeded)
    else
      VerifyResult(orders - {orderId}, PaymentFailed)
  }

  /** A repeated callback changes nothing more, and answers the same. */
  lemma VerifyIdempotent(orders: OrderStore, orderId: Id, success: Field, isObjectId: IdCheck)
    ensures var once := VerifyOrder(orders, orderId, success, isObjectId);
      VerifyOrder(once.orders, orderId, success, isObjectId) == once
  {
  }

  /** Nothing stops a failure callback after a success: it deletes a paid order. */
  lemma FailureDeletesPaidOrder(orders: OrderStore, orderId: Id, isObjectId: IdCheck)
    requires isObjectId(orderId) && orderId in orders
    ensures var paid := VerifyOrder(orders, orderId, Bool(true), isObjectId).orders;
      && paid[orderId].payment
      && orderId !in VerifyOrder(paid, orderId, Bool(false), isObjectId).orders
  {
  }

  /** `updateStatus` replies. */
  datatype StatusResponse = StatusUpdated | StatusError

  datatype StatusResult = StatusResult(orders: OrderStore, response: StatusResponse)

  /** `updateStatus`: overwrites the order's status with any string, whatever it was before;
      every other field and every other order are untouched. A request without a status
      changes nothing (the `undefined` key is dropped from the update). */
  function UpdateStatus(orders: OrderStore, orderId: Id, status: Option<string>, isObjectId: IdCheck): (r: StatusResult)
    ensures !isObjectId(orderId) ==> r == StatusResult(orders, StatusError)
    ensures isObjectId(orderId) ==>
      && r.response == StatusUpdated
      && r.orders.Keys == orders.Keys
      && (forall id :: id in orders && id != orderId ==> r.orders[id] == orders[id])
      && (orderId in orders && status.Some? ==> r.orders[orderId].status == status.value)
      && (orderId in orders ==> r.orders[orderId].(status := orders[orderId].status) == orders[orderId])
      && (status.None? ==> r.orders == orders)
  {
    if !isObjectId(orderId) then
      StatusResult(orders, StatusError)
    else if orderId in orders && status.Some? then
      StatusResult(orders[orderId := orders[orderId].(status := status.value)], StatusUpdated)
    else
      StatusResult(orders, StatusUpdated)
  }

  /** Two status updates in a row leave what the second one wrote. */
  lemma StatusLastWriteWins(orders: OrderStore, orderId: Id, s1: string, s2: string, isObjectId: IdCheck)
    ensures UpdateStatus(UpdateStatus(orders, orderId, Some(s1), isObjectId).orders, orderId, Some(s2), isObjectId)
         == UpdateStatus(orders, orderId, Some(s2), isObjectId)
  {
  }

  /** `listOrders`: every stored order, each as stored, whoever placed it. */
  function ListOrders(orders: OrderStore): (r: OrderStore)
    ensures r.Keys == orders.Keys
    ensures forall id :: id in r ==> r[id] == orders[id]
  {
    orders
  }

  /** `userOrders`: `None` for the 401 reply (no truthy user id), otherwise the orders
      whose `userId` is the caller's. */
  function UserOrders(orders: OrderStore, authUserId: Option<Id>, bodyUserId: Option<Id>): (r: Option<OrderStore>)
    ensures r.None? <==> !Truthy(Or(authUserId, bodyUserId))
    ensures r.Some? ==> forall id :: id in r.value <==> id in orders && orders[id].userId == Or(authUserId, bodyUserId).value
    ensures r.Some? ==> forall id :: id in r.value ==> r.value[id] == orders[id]
  {
    var user := Or(authUserId, bodyUserId);
    if !Truthy(user) then None
    else Some(map id | id in orders && orders[id].userId == user.value :: orders[id])
  }

  /** The admin list is split by customer: every listed order shows up for its own
      customer and for no other. */
  lemma UserOrdersPartitionList(orders: OrderStore, id: Id, other: Id)
    requires id in ListOrders(orders) && orders[id].userId != ""
    ensures var mine := UserOrders(orders, Some(orders[id].userId), None);
      mine.Some? && id in mine.value
    ensures other != orders[id].userId ==>
      var theirs := UserOrders(orders, Some(other), None);
      theirs.None? || id !in theirs.value
  {
  }
}
