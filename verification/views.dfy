/**
  The view actions of the order service, each one atomic: creating an order,
  changing its status, creating and deleting its items in a batch, and
  creating, updating and confirming its payment.
 */
module Views {
  import opened Domain
  import opened Models

  /**
    Creating an order: the order save checks the customer; the new order is
    pending with total 0 under the drawn identifier `oid`, and its initial
    status is logged.
   */
  function CreateOrder(st: Store, customer: CustomerId, address: int, oid: OrderId): (r: Result<Store>)
    requires FreshOrderId(st.orders, oid)
    ensures r.Ok? <==> customer in st.customers
    ensures r.Err? ==> r.error == InvalidCustomer
    ensures r.Ok? ==> r.value.orders == st.orders[oid := Order(customer, address, 0, Pending)]
    ensures r.Ok? ==> r.value.history == st.history[oid := HistoryOf(st.history, oid) + [Pending]]
    ensures r.Ok? ==>
              && r.value.customers == st.customers
              && r.value.stock == st.stock
              && r.value.items == st.items
              && r.value.payments == st.payments
  {
    match SaveOrder(st, oid, Order(customer, address, 0, Pending))
    case Err(e) => Err(e)
    case Ok(st1) => Ok(st1.(history := AppendHistory(st1.history, oid, Pending)))
  }

  /**
    Changing an order's status: the requested text must be one of the three
    choices, and delivered needs the order's payment to be successful (an
    order with no payment cannot be looked up for it). The status is saved
    (re-checking the customer) and one history entry is logged.
   */
  function UpdateStatus(st: Store, oid: OrderId, requested: string): (r: Result<Store>)
    ensures oid !in st.orders ==> r == Err(OrderNotFound)
    ensures oid in st.orders && ParseStatus(requested).None? ==> r == Err(InvalidStatus)
    ensures (requested == "delivered" && oid in st.orders && oid in st.payments
             && st.payments[oid].status != PaySuccess) ==> r == Err(DeliveryNeedsPayment)
    ensures requested == "delivered" && oid in st.orders && oid !in st.payments ==> r == Err(PaymentNotFound)
    ensures r.Ok? <==>
              && oid in st.orders
              && ParseStatus(requested).Some?
              && (requested == "delivered" ==> oid in st.payments && st.payments[oid].status == PaySuccess)
              && st.orders[oid].customer in st.customers
    ensures r.Ok? ==> oid in r.value.orders && StatusName(r.value.orders[oid].status) == requested
    ensures r.Ok? ==> r.value.orders == st.orders[oid := st.orders[oid].(status := r.value.orders[oid].status)]
    ensures r.Ok? ==> r.value.history == st.history[oid := HistoryOf(st.history, oid) + [r.value.orders[oid].status]]
    ensures r.Ok? ==>
              && r.value.customers == st.customers
              && r.value.stock == st.stock
              && r.value.items == st.items
              && r.value.payments == st.payments
  {
    if oid !in st.orders then Err(OrderNotFound)
    else match ParseStatus(requested)
      case None => Err(InvalidStatus)
      case Some(s) =>
        if s == Delivered && oid !in st.payments then Err(PaymentNotFound)
        else if s == Delivered && st.payments[oid].status != PaySuccess then Err(DeliveryNeedsPayment)
        else match SaveOrder(st, oid, st.orders[oid].(status := s))
          case Err(e) => Err(e)
          case Ok(st1) => Ok(st1.(history := AppendHistory(st1.history, oid, s)))
  }

  /** One element of an item-creation request. */
  datatype ItemRequest = ItemRequest(product: ProductId, quantity: nat, unitPrice: Cents)

  /** The row a request asks for, before the save hook prices it. */
  function RequestedItem(id: ItemId, oid: OrderId, q: ItemRequest): OrderItem
  {
    OrderItem(id, oid, q.product, q.quantity, q.unitPrice, 0)
  }

  /** The rows a successful batch adds, priced by the save hook. */
  function NewRows(oid: OrderId, reqs: seq<ItemRequest>, ids: seq<ItemId>): (rows: seq<OrderItem>)
    requires |ids| == |reqs|
    ensures |rows| == |reqs|
    ensures forall k :: 0 <= k < |reqs| ==> rows[k] == Priced(RequestedItem(ids[k], oid, reqs[k]))
  {
    if |reqs| == 0 then [] else [Priced(RequestedItem(ids[0], oid, reqs[0]))] + NewRows(oid, reqs[1..], ids[1..])
  }

  /** The quantity a batch asks of product `p`, over all its elements. */
  function Requested(reqs: seq<ItemRequest>, p: ProductId): nat
  {
    if |reqs| == 0 then 0
    else (if reqs[0].product == p then reqs[0].quantity else 0) + Requested(reqs[1..], p)
  }

  /** Saves the batch's items one after the other, stopping at the first refusal. */
  function SaveAll(st: Store, oid: OrderId, reqs: seq<ItemRequest>, ids: seq<ItemId>): (r: Result<Store>)
    requires |ids| == |reqs|
    requires oid in st.orders
    ensures r.Ok? ==> r.value.orders.Keys == st.orders.Keys
    ensures r.Err? ==> r.error in {InvalidProduct, InsufficientStock, InvalidCustomer}
    decreases |reqs|
  {
    if |reqs| == 0 then Ok(st)
    else match SaveItem(st, RequestedItem(ids[0], oid, reqs[0]))
      case Err(e) => Err(e)
      case Ok(st1) => SaveAll(st1, oid, reqs[1..], ids[1..])
  }

  /** No stored row has identifier `id`. */
  predicate UnusedItemId(items: seq<OrderItem>, id: ItemId)
  {
    forall k :: 0 <= k < |items| ==> items[k].id != id
  }

  /** Item identifiers a batch may be given: new, and different from each other. */
  predicate FreshItemIds(items: seq<OrderItem>, ids: seq<ItemId>)
  {
    && (forall i, j :: 0 <= i < j < |ids| ==> ids[i] != ids[j])
    && (forall m :: 0 <= m < |ids| ==> UnusedItemId(items, ids[m]))
  }

  /**
    Creating items for order `oid`, one request or a list of them, inside one
    transaction: either every item is saved or the store is left as it was.
   */
  function AddItems(st: Store, oid: OrderId, reqs: seq<ItemRequest>, ids: seq<ItemId>): (r: Result<Store>)
    requires |ids| == |reqs|
    requires FreshItemIds(st.items, ids)
    ensures oid !in st.orders ==> r == Err(OrderNotFound)
    ensures oid in st.orders ==> r == SaveAll(st, oid, reqs, ids)
    ensures r.Err? ==> r.error in {OrderNotFound, InvalidProduct, InsufficientStock, InvalidCustomer}
  {
    if oid !in st.orders then Err(OrderNotFound) else SaveAll(st, oid, reqs, ids)
  }

  /**
    Deleting an item: the row is removed and its order's total recomputed
    (saving the order, which re-checks its customer); stock is not restored.
   */
  function DeleteItem(st: Store, id: ItemId): (r: Result<Store>)
    requires ItemsReferenceOrders(st)
    ensures FindItem(st.items, id).None? ==> r == Err(ItemNotFound)
    ensures r.Ok? <==> FindItem(st.items, id).Some?
                       && st.orders[st.items[FindItem(st.items, id).value].order].customer in st.customers
    ensures r.Ok? ==>
              var i := FindItem(st.items, id).value;
              var oid := st.items[i].order;
              && r.value.items == st.items[..i] + st.items[i + 1..]
              && r.value.orders == st.orders[oid := st.orders[oid].(total := Total(r.value.items, oid))]
              && r.value.customers == st.customers
              && r.value.stock == st.stock
              && r.value.payments == st.payments
              && r.value.history == st.history
  {
    match FindItem(st.items, id)
    case None => Err(ItemNotFound)
    case Some(i) =>
      UpdateTotalAmount(st.(items := st.items[..i] + st.items[i + 1..]), st.items[i].order)
  }

  /**
    Creating the payment of order `oid`: refused when the order is unknown or
    already has a payment; otherwise the new payment goes through the
    payment save hook.
   */
  function CreatePayment(st: Store, oid: OrderId, pid: PaymentId, how: PaymentMethod, status: PaymentStatus,
                         draw: TxId): (r: Result<Store>)
    requires FreshTxId(st.payments, draw)
    ensures oid !in st.orders ==> r == Err(OrderNotFound)
    ensures oid in st.orders && oid in st.payments ==> r == Err(DuplicatePayment)
    ensures r.Ok? <==> oid in st.orders && oid !in st.payments
    ensures r.Ok? ==> r.value == SavePayment(st, oid, Payment(pid, how, status, None, false, None), draw)
  {
    if oid !in st.orders then Err(OrderNotFound)
    else if oid in st.payments then Err(DuplicatePayment)
    else Ok(SavePayment(st, oid, Payment(pid, how, status, None, false, None), draw))
  }

  /**
    Updating the payment of order `oid` with a new method and status; the
    payment save hook then assigns or clears its transaction fields.
   */
  function UpdatePayment(st: Store, oid: OrderId, how: PaymentMethod, status: PaymentStatus,
                         draw: TxId): (r: Result<Store>)
    requires PaymentsReferenceOrders(st)
    requires FreshTxId(st.payments, draw)
    ensures r.Ok? <==> oid in st.payments
    ensures r.Err? ==> r.error == PaymentNotFound
    ensures r.Ok? ==> r.value == SavePayment(st, oid, st.payments[oid].(payMethod := how, status := status), draw)
  {
    if oid !in st.payments then Err(PaymentNotFound)
    else Ok(SavePayment(st, oid, st.payments[oid].(payMethod := how, status := status), draw))
  }

  /**
    Confirming the payment of order `oid`: refused when there is no payment
    or it is already successful; otherwise the payment is saved as success,
    the order is saved as shipped and one shipped entry is logged.
   */
  function ConfirmPayment(st: Store, oid: OrderId, draw: TxId): (r: Result<Store>)
    requires PaymentsReferenceOrders(st)
    requires FreshTxId(st.payments, draw)
    ensures oid !in st.payments ==> r == Err(PaymentNotFound)
    ensures oid in st.payments && st.payments[oid].status == PaySuccess ==> r == Err(AlreadyConfirmed)
    ensures r.Ok? <==> oid in st.payments && st.payments[oid].status != PaySuccess
                       && st.orders[oid].customer in st.customers
    ensures r.Ok? ==> oid in r.value.payments && r.value.payments[oid].status == PaySuccess
    ensures r.Ok? ==> r.value.payments == SavePayment(st, oid, st.payments[oid].(status := PaySuccess), draw).payments
    ensures r.Ok? ==> r.value.orders == st.orders[oid := st.orders[oid].(status := Shipped)]
    ensures r.Ok? ==> r.value.history == st.history[oid := HistoryOf(st.history, oid) + [Shipped]]
    ensures r.Ok? ==>
              && r.value.customers == st.customers
              && r.value.stock == st.stock
              && r.value.items == st.items
  {
    if oid !in st.payments then Err(PaymentNotFound)
    else if st.payments[oid].status == PaySuccess then Err(AlreadyConfirmed)
    else
      var st1 := SavePayment(st, oid, st.payments[oid].(status := PaySuccess), draw);
      match SaveOrder(st1, oid, st1.orders[oid].(status := Shipped))
      case Err(e) => Err(e)
      case Ok(st2) => Ok(st2.(history := AppendHistory(st2.history, oid, Shipped)))
  }
}
