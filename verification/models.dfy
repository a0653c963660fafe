/**
  The persistence hooks of the service's models: the identifier generators,
  the order save (customer check) and total recomputation, the item save
  (stock check, price, total, stock decrement) and the payment save
  (transaction identifier, payment date and amount paid).
 */
module Models {
  import opened Domain

  const OrderIdLow: nat := 1000000
  const OrderIdHigh: nat := 9999999

  /**
    Transaction identifiers are the first twelve decimal digits of a version-4
    UUID read as an integer; the version bits make that integer at least 2^78,
    so the prefix always has twelve digits and a non-zero leading digit.
   */
  const TxIdLow: nat := 100000000000
  const TxIdHigh: nat := 999999999999

  /**
    Returns some value of [lo, hi] outside `used`. The service draws random
    candidates until one is unused; scanning upward is one of the choices
    that loop can make, and the contract is all a caller may rely on.
   */
  method DrawFresh(used: set<nat>, lo: nat, hi: nat) returns (v: nat)
    requires exists k :: lo <= k <= hi && k !in used
    ensures lo <= v <= hi && v !in used
  {
    v := lo;
    while v in used
      invariant lo <= v
      invariant exists k :: v <= k <= hi && k !in used
      decreases hi - v
    {
      v := v + 1;
    }
  }

  /** A candidate order identifier the generator may return for `orders`. */
  predicate FreshOrderId(orders: map<OrderId, Order>, oid: OrderId)
  {
    OrderIdLow <= oid <= OrderIdHigh && oid !in orders
  }

  /** Draws a seven-digit order identifier no existing order uses. */
  method GenerateOrderId(orders: map<OrderId, Order>) returns (oid: OrderId)
    requires exists k :: OrderIdLow <= k <= OrderIdHigh && k !in orders
    ensures OrderIdLow <= oid <= OrderIdHigh
    ensures oid !in orders
  {
    oid := DrawFresh(orders.Keys, OrderIdLow, OrderIdHigh);
  }

  /** The transaction identifiers held by stored payments. */
  function TxIdsInUse(payments: map<OrderId, Payment>): (used: set<TxId>)
    ensures forall o :: o in payments && payments[o].txId.Some? ==> payments[o].txId.value in used
    ensures forall t :: t in used ==> exists o :: o in payments && payments[o].txId == Some(t)
  {
    set o | o in payments && payments[o].txId.Some? :: payments[o].txId.value
  }

  /** A candidate transaction identifier the generator may return. */
  predicate FreshTxId(payments: map<OrderId, Payment>, tx: TxId)
  {
    TxIdLow <= tx <= TxIdHigh && forall o :: o in payments ==> payments[o].txId != Some(tx)
  }

  /** Draws a twelve-digit transaction identifier no stored payment holds. */
  method GenerateTransactionId(payments: map<OrderId, Payment>) returns (tx: TxId)
    requires exists k :: TxIdLow <= k <= TxIdHigh && k !in TxIdsInUse(payments)
    ensures FreshTxId(payments, tx)
  {
    tx := DrawFresh(TxIdsInUse(payments), TxIdLow, TxIdHigh);
  }

  /** What one item adds to the total of order `oid`. */
  function Contribution(it: OrderItem, oid: OrderId): Cents
  {
    if it.order == oid then it.totalPrice else 0
  }

  /** The sum of `total_price` over the items of order `oid`; 0 when it has none. */
  function Total(items: seq<OrderItem>, oid: OrderId): Cents
  {
    if |items| == 0 then 0 else Contribution(items[0], oid) + Total(items[1..], oid)
  }

  /** An order with no items has total 0. */
  lemma {:induction false} TotalOfNoItems(items: seq<OrderItem>, oid: OrderId)
    requires forall k :: 0 <= k < |items| ==> items[k].order != oid
    ensures Total(items, oid) == 0
  {
    if |items| > 0 {
      assert items[0].order != oid;
      TotalOfNoItems(items[1..], oid);
    }
  }

  /** The total over two blocks of rows is the sum of their totals. */
  lemma {:induction false} TotalConcat(a: seq<OrderItem>, b: seq<OrderItem>, oid: OrderId)
    ensures Total(a + b, oid) == Total(a, oid) + Total(b, oid)
  {
    if |a| == 0 {
      assert a + b == b;
    } else {
      assert (a + b)[1..] == a[1..] + b;
      TotalConcat(a[1..], b, oid);
    }
  }

  /** Replacing row `i` changes the total by the difference of the two rows' shares. */
  lemma TotalReplace(items: seq<OrderItem>, i: nat, it: OrderItem, oid: OrderId)
    requires i < |items|
    ensures Total(items[i := it], oid) == Total(items, oid) - Contribution(items[i], oid) + Contribution(it, oid)
  {
    var pre, post := items[..i], items[i + 1..];
    assert items == pre + [items[i]] + post;
    assert items[i := it] == pre + [it] + post;
    TotalConcat(pre + [items[i]], post, oid);
    TotalConcat(pre, [items[i]], oid);
    TotalConcat(pre + [it], post, oid);
    TotalConcat(pre, [it], oid);
  }

  /** Dropping row `i` takes its share out of the total. */
  lemma TotalRemove(items: seq<OrderItem>, i: nat, oid: OrderId)
    requires i < |items|
    ensures Total(items[..i] + items[i + 1..], oid) == Total(items, oid) - Contribution(items[i], oid)
  {
    var pre, post := items[..i], items[i + 1..];
    assert items == pre + [items[i]] + post;
    TotalConcat(pre + [items[i]], post, oid);
    TotalConcat(pre, [items[i]], oid);
    TotalConcat(pre, post, oid);
  }

  /** Appending a row adds its share to the total. */
  lemma TotalAppend(items: seq<OrderItem>, it: OrderItem, oid: OrderId)
    ensures Total(items + [it], oid) == Total(items, oid) + Contribution(it, oid)
  {
    TotalConcat(items, [it], oid);
  }

  /** Every order row refers to a customer of the catalog. */
  predicate CustomersKnown(st: Store)
  {
    forall o :: o in st.orders ==> st.orders[o].customer in st.customers
  }

  /** Every row refers to one of the orders `keys`. */
  predicate RowsReference(items: seq<OrderItem>, keys: set<OrderId>)
  {
    forall k :: 0 <= k < |items| ==> items[k].order in keys
  }

  /** Every item row refers to a stored order (a foreign key). */
  predicate ItemsReferenceOrders(st: Store)
  {
    RowsReference(st.items, st.orders.Keys)
  }

  /** Every payment row refers to a stored order (a one-to-one key). */
  predicate PaymentsReferenceOrders(st: Store)
  {
    st.payments.Keys <= st.orders.Keys
  }

  /**
    Order.save: refuses an order whose customer is not in the customer
    catalog and otherwise writes the row under `oid`.
   */
  function SaveOrder(st: Store, oid: OrderId, o: Order): (r: Result<Store>)
    ensures r.Ok? <==> o.customer in st.customers
    ensures r.Err? ==> r.error == InvalidCustomer
    ensures r.Ok? ==> r.value.orders.Keys == st.orders.Keys + {oid} && r.value.orders[oid] == o
    ensures r.Ok? ==> forall p :: p in st.orders && p != oid ==> r.value.orders[p] == st.orders[p]
    ensures r.Ok? ==>
              && r.value.customers == st.customers
              && r.value.stock == st.stock
              && r.value.items == st.items
              && r.value.payments == st.payments
              && r.value.history == st.history
  {
    if o.customer !in st.customers then Err(InvalidCustomer)
    else Ok(st.(orders := st.orders[oid := o]))
  }

  /**
    Order.update_total_amount: sets the order's total to the sum of its
    items' prices and saves the order, which re-checks its customer.
   */
  function UpdateTotalAmount(st: Store, oid: OrderId): (r: Result<Store>)
    requires oid in st.orders
    ensures r.Ok? <==> st.orders[oid].customer in st.customers
    ensures r.Err? ==> r.error == InvalidCustomer
    ensures r.Ok? ==> r.value.orders.Keys == st.orders.Keys
    ensures r.Ok? ==> r.value.orders[oid].total == Total(st.items, oid)
    ensures r.Ok? ==> r.value.orders[oid] == st.orders[oid].(total := r.value.orders[oid].total)
    ensures r.Ok? ==> forall p :: p in st.orders && p != oid ==> r.value.orders[p] == st.orders[p]
    ensures r.Ok? ==>
              && r.value.customers == st.customers
              && r.value.stock == st.stock
              && r.value.items == st.items
              && r.value.payments == st.payments
              && r.value.history == st.history
  {
    SaveOrder(st, oid, st.orders[oid].(total := Total(st.items, oid)))
  }

  /** Where the row with identifier `id` is, if there is one. */
  function FindItem(items: seq<OrderItem>, id: ItemId): (r: Option<nat>)
    ensures r.Some? ==> r.value < |items| && items[r.value].id == id
    ensures r.None? <==> forall k :: 0 <= k < |items| ==> items[k].id != id
  {
    if |items| == 0 then None
    else if items[|items| - 1].id == id then Some(|items| - 1)
    else FindItem(items[..|items| - 1], id)
  }

  /** Writes `it` over the row with its identifier, or adds it as a new row. */
  function Upsert(items: seq<OrderItem>, it: OrderItem): (r: seq<OrderItem>)
    ensures FindItem(items, it.id).None? ==> r == items + [it]
    ensures FindItem(items, it.id).Some? ==>
              |r| == |items| && r[FindItem(items, it.id).value] == it
              && forall k :: 0 <= k < |items| && k != FindItem(items, it.id).value ==> r[k] == items[k]
  {
    match FindItem(items, it.id)
    case Some(i) => items[i := it]
    case None => items + [it]
  }

  /** The item row the save hook writes: its price derived from quantity. */
  function Priced(it: OrderItem): (r: OrderItem)
    ensures r.totalPrice == it.unitPrice * it.quantity
    ensures r.id == it.id && r.order == it.order && r.product == it.product
    ensures r.quantity == it.quantity && r.unitPrice == it.unitPrice
  {
    it.(totalPrice := it.unitPrice * it.quantity)
  }

  /**
    OrderItem.save: refuses an unknown product or a quantity above the
    product's stock; otherwise writes the priced row, recomputes the order's
    total (saving the order, so its customer is checked again) and takes the
    quantity off the product's stock. The hook runs on every save, so saving
    an existing row checks and decrements stock again.
   */
  function SaveItem(st: Store, it: OrderItem): (r: Result<Store>)
    requires it.order in st.orders
    ensures it.product !in st.stock ==> r == Err(InvalidProduct)
    ensures it.product in st.stock && st.stock[it.product] < it.quantity ==> r == Err(InsufficientStock)
    ensures r.Ok? <==> (it.product in st.stock && st.stock[it.product] >= it.quantity
                        && st.orders[it.order].customer in st.customers)
    ensures r.Err? ==> r.error in {InvalidProduct, InsufficientStock, InvalidCustomer}
    ensures r.Ok? ==> r.value.items == Upsert(st.items, Priced(it))
    ensures r.Ok? ==> r.value.stock == st.stock[it.product := st.stock[it.product] - it.quantity]
    ensures r.Ok? ==> r.value.orders.Keys == st.orders.Keys
    ensures r.Ok? ==> r.value.orders[it.order] == st.orders[it.order].(total := Total(r.value.items, it.order))
    ensures r.Ok? ==> forall p :: p in st.orders && p != it.order ==> r.value.orders[p] == st.orders[p]
    ensures r.Ok? ==> r.value.customers == st.customers && r.value.payments == st.payments
                      && r.value.history == st.history
  {
    if it.product !in st.stock then Err(InvalidProduct)
    else if st.stock[it.product] < it.quantity then Err(InsufficientStock)
    else
      var st1 := st.(items := Upsert(st.items, Priced(it)));
      match UpdateTotalAmount(st1, it.order)
      case Err(e) => Err(e)
      case Ok(st2) => Ok(st2.(stock := st2.stock[it.product := st2.stock[it.product] - it.quantity]))
  }

  /**
    Payment.save for the payment of order `oid`. On success it keeps the
    payment's transaction identifier or takes the freshly drawn `draw`, dates
    the payment and snapshots the order's current total as the amount paid.
    On any other status it clears identifier, date and amount.
   */
  function SavePayment(st: Store, oid: OrderId, p: Payment, draw: TxId): (r: Store)
    requires oid in st.orders
    requires FreshTxId(st.payments, draw)
    ensures r.payments.Keys == st.payments.Keys + {oid}
    ensures forall o :: o in st.payments && o != oid ==> r.payments[o] == st.payments[o]
    ensures && r.customers == st.customers
            && r.stock == st.stock
            && r.orders == st.orders
            && r.items == st.items
            && r.history == st.history
    ensures r.payments[oid].id == p.id && r.payments[oid].payMethod == p.payMethod && r.payments[oid].status == p.status
    ensures p.status == PaySuccess && p.txId.Some? ==> r.payments[oid].txId == p.txId
    ensures p.status == PaySuccess && p.txId.None? ==> r.payments[oid].txId == Some(draw)
    ensures p.status == PaySuccess ==> r.payments[oid].dated && r.payments[oid].amountPaid == Some(st.orders[oid].total)
    ensures p.status != PaySuccess ==>
              r.payments[oid].txId.None? && !r.payments[oid].dated && r.payments[oid].amountPaid.None?
  {
    var saved :=
      if p.status == PaySuccess then
        p.(txId := if p.txId.Some? then p.txId else Some(draw),
           dated := true,
           amountPaid := Some(st.orders[oid].total))
      else
        p.(txId := None, dated := false, amountPaid := None);
    st.(payments := st.payments[oid := saved])
  }
}
