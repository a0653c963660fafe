/**
  The consistency rules the core keeps between orders, items, payments,
  stock and status history, and the proofs that every view action keeps
  them.
 */
module Invariants {
  import opened Domain
  import opened Models
  import opened Views

  /** Catalog stock never goes below zero. */
  predicate StockNonNegative(st: Store)
  {
    forall p :: p in st.stock ==> st.stock[p] >= 0
  }

  /** Every order identifier has seven digits. */
  predicate OrderIdsInRange(st: Store)
  {
    forall o :: o in st.orders ==> OrderIdLow <= o <= OrderIdHigh
  }

  /** No two item rows share an identifier. */
  predicate ItemIdsDistinct(items: seq<OrderItem>)
  {
    forall i, j :: 0 <= i < j < |items| ==> items[i].id != items[j].id
  }

  /** Every row's price is its unit price times its quantity. */
  predicate ItemsPriced(items: seq<OrderItem>)
  {
    forall k :: 0 <= k < |items| ==> items[k].totalPrice == items[k].unitPrice * items[k].quantity
  }

  /** Every order's total is the sum of its items' prices. */
  predicate TotalsConsistent(st: Store)
  {
    forall o :: o in st.orders ==> st.orders[o].total == Total(st.items, o)
  }

  /**
    A successful payment has a twelve-digit transaction identifier, a date
    and an amount paid; any other payment has none of the three.
   */
  predicate PaymentConsistent(p: Payment)
  {
    if p.status == PaySuccess then
      p.txId.Some? && TxIdLow <= p.txId.value <= TxIdHigh && p.dated && p.amountPaid.Some?
    else
      p.txId.None? && !p.dated && p.amountPaid.None?
  }

  predicate PaymentsConsistent(st: Store)
  {
    forall o :: o in st.payments ==> PaymentConsistent(st.payments[o])
  }

  /** No two payments hold the same transaction identifier. */
  predicate TxIdsDistinct(payments: map<OrderId, Payment>)
  {
    forall o1, o2 :: o1 in payments && o2 in payments && o1 != o2 && payments[o1].txId.Some?
                     ==> payments[o1].txId != payments[o2].txId
  }

  /** Every order has a non-empty history whose latest entry is its status. */
  predicate HistoryMatchesStatus(st: Store)
  {
    && st.history.Keys == st.orders.Keys
    && forall o :: o in st.orders ==> |st.history[o]| > 0 && st.history[o][|st.history[o]| - 1] == st.orders[o].status
  }

  predicate Valid(st: Store)
  {
    && StockNonNegative(st)
    && OrderIdsInRange(st)
    && CustomersKnown(st)
    && ItemIdsDistinct(st.items)
    && ItemsReferenceOrders(st)
    && ItemsPriced(st.items)
    && TotalsConsistent(st)
    && PaymentsReferenceOrders(st)
    && PaymentsConsistent(st)
    && TxIdsDistinct(st.payments)
    && HistoryMatchesStatus(st)
  }

  /** The store before any request: catalogs only. */
  lemma EmptyStoreValid(customers: set<CustomerId>, stock: map<ProductId, int>)
    requires forall p :: p in stock ==> stock[p] >= 0
    ensures Valid(Store(customers, stock, map[], [], map[], map[]))
  {
  }

  /** Adding a new order with total 0 and its status as its one history entry keeps the store consistent. */
  lemma AddOrderKeepsValid(st: Store, oid: OrderId, o: Order)
    requires Valid(st)
    requires FreshOrderId(st.orders, oid)
    requires o.customer in st.customers && o.total == 0
    ensures Valid(st.(orders := st.orders[oid := o], history := st.history[oid := [o.status]]))
  {
    forall k | 0 <= k < |st.items|
      ensures st.items[k].order != oid
    {
      assert st.items[k].order in st.orders;
    }
    TotalOfNoItems(st.items, oid);
  }

  /** A created order starts with total 0, the sum over its (no) items, and one pending history entry. */
  lemma CreateOrderKeepsValid(st: Store, customer: CustomerId, address: int, oid: OrderId)
    requires Valid(st)
    requires FreshOrderId(st.orders, oid)
    ensures CreateOrder(st, customer, address, oid).Ok? ==> Valid(CreateOrder(st, customer, address, oid).value)
    ensures CreateOrder(st, customer, address, oid).Ok? ==>
              CreateOrder(st, customer, address, oid).value.history[oid] == [Pending]
  {
    var r := CreateOrder(st, customer, address, oid);
    if r.Ok? {
      var o := Order(customer, address, 0, Pending);
      AddOrderKeepsValid(st, oid, o);
      assert oid !in st.history;
      assert HistoryOf(st.history, oid) + [Pending] == [Pending];
      assert r.value == st.(orders := st.orders[oid := o], history := st.history[oid := [Pending]]);
    }
  }

  /**
    Setting an order's status and logging it keeps the store consistent:
    the latest history entry is again the order's status.
   */
  lemma SetStatusKeepsValid(st: Store, oid: OrderId, s: OrderStatus)
    requires Valid(st)
    requires oid in st.orders
    ensures Valid(st.(orders := st.orders[oid := st.orders[oid].(status := s)],
                      history := AppendHistory(st.history, oid, s)))
  {
  }

  /** A status change keeps the store consistent. */
  lemma UpdateStatusKeepsValid(st: Store, oid: OrderId, requested: string)
    requires Valid(st)
    ensures UpdateStatus(st, oid, requested).Ok? ==> Valid(UpdateStatus(st, oid, requested).value)
  {
    var r := UpdateStatus(st, oid, requested);
    if r.Ok? {
      var s := r.value.orders[oid].status;
      SetStatusKeepsValid(st, oid, s);
      assert r.value == st.(orders := st.orders[oid := st.orders[oid].(status := s)],
                            history := AppendHistory(st.history, oid, s));
    }
  }

  /**
    Delivery is granted only to an order whose payment succeeded; a refused
    request leaves no trace in the order or its history.
   */
  lemma DeliveredOnlyWhenPaid(st: Store, oid: OrderId)
    requires UpdateStatus(st, oid, "delivered").Ok?
    ensures oid in st.payments && st.payments[oid].status == PaySuccess
    ensures UpdateStatus(st, oid, "delivered").value.orders[oid].status == Delivered
  {
    var s := UpdateStatus(st, oid, "delivered").value;
    assert StatusName(s.orders[oid].status) == "delivered";
  }

  /** Saving a row leaves the totals of every other order as they were. */
  lemma UpsertOtherTotals(items: seq<OrderItem>, it: OrderItem, o: OrderId)
    requires o != it.order
    requires FindItem(items, it.id).Some? ==> items[FindItem(items, it.id).value].order == it.order
    ensures Total(Upsert(items, it), o) == Total(items, o)
  {
    match FindItem(items, it.id)
    case Some(i) => TotalReplace(items, i, it, o);
    case None => TotalAppend(items, it, o);
  }

  /** Saving a row keeps the row identifiers distinct, the rows priced and their orders known. */
  lemma UpsertKeepsRows(items: seq<OrderItem>, it: OrderItem, keys: set<OrderId>)
    ensures ItemIdsDistinct(items) ==> ItemIdsDistinct(Upsert(items, it))
    ensures ItemsPriced(items) && it.totalPrice == it.unitPrice * it.quantity ==> ItemsPriced(Upsert(items, it))
    ensures RowsReference(items, keys) && it.order in keys ==> RowsReference(Upsert(items, it), keys)
  {
    var r := Upsert(items, it);
    forall k | 0 <= k < |r|
      ensures r[k] == it || (k < |items| && r[k] == items[k])
    {
    }
    if ItemIdsDistinct(items) {
      forall a, b | 0 <= a < b < |r|
        ensures r[a].id != r[b].id
      {
        match FindItem(items, it.id)
        case Some(i) =>
          if a == i {
            assert r[b] == items[b] && items[i].id != items[b].id;
          } else if b == i {
            assert r[a] == items[a] && items[a].id != items[i].id;
          } else {
            assert r[a] == items[a] && r[b] == items[b];
          }
        case None =>
          assert r[a] == items[a];
          if b == |items| { assert r[b] == it; } else { assert r[b] == items[b]; }
      }
    }
  }

  /** Dropping a row keeps the row identifiers distinct, the rows priced and their orders known. */
  lemma RemoveKeepsRows(items: seq<OrderItem>, i: nat, keys: set<OrderId>)
    requires i < |items|
    ensures ItemIdsDistinct(items) ==> ItemIdsDistinct(items[..i] + items[i + 1..])
    ensures ItemsPriced(items) ==> ItemsPriced(items[..i] + items[i + 1..])
    ensures RowsReference(items, keys) ==> RowsReference(items[..i] + items[i + 1..], keys)
  {
    var rest := items[..i] + items[i + 1..];
    RemoveAtIndex(items, i);
    forall k | 0 <= k < |rest|
      ensures rest[k] == items[if k < i then k else k + 1]
    {
    }
    if ItemIdsDistinct(items) {
      forall a, b | 0 <= a < b < |rest|
        ensures rest[a].id != rest[b].id
      {
        var a', b' := if a < i then a else a + 1, if b < i then b else b + 1;
        assert rest[a] == items[a'] && rest[b] == items[b'] && a' < b';
      }
    }
  }

  /**
    The item save hook keeps the store consistent, provided a saved row
    stays in its order (moving a row to another order would leave the old
    order's total stale; see MovedItemLeavesTotalStale).
   */
  lemma SaveItemKeepsValid(st: Store, it: OrderItem)
    requires Valid(st)
    requires it.order in st.orders
    requires FindItem(st.items, it.id).Some? ==> st.items[FindItem(st.items, it.id).value].order == it.order
    ensures SaveItem(st, it).Ok? ==> Valid(SaveItem(st, it).value)
  {
    var r := SaveItem(st, it);
    if r.Ok? {
      var s := r.value;
      var saved := Priced(it);
      assert s.items == Upsert(st.items, saved);
      UpsertKeepsRows(st.items, saved, st.orders.Keys);
      forall o | o in s.orders
        ensures s.orders[o].total == Total(s.items, o)
      {
        if o != it.order {
          UpsertOtherTotals(st.items, saved, o);
        }
      }
      assert TotalsConsistent(s);
      assert StockNonNegative(s);
      TotalsOnlyKeepHistory(st, s);
    }
  }

  /**
    A successful save of a new item: the row is priced as unit price times
    quantity, the order's total grows by exactly that price, the product's
    stock falls by exactly the quantity and stays non-negative, and no other
    product's stock changes.
   */
  lemma SaveNewItemEffect(st: Store, it: OrderItem)
    requires Valid(st)
    requires it.order in st.orders
    requires FindItem(st.items, it.id).None?
    ensures var r := SaveItem(st, it);
            r.Ok? ==>
              && r.value.items == st.items + [Priced(it)]
              && r.value.items[|st.items|].totalPrice == it.unitPrice * it.quantity
              && r.value.orders[it.order].total == st.orders[it.order].total + it.unitPrice * it.quantity
              && r.value.orders[it.order].total == Total(r.value.items, it.order)
              && r.value.stock[it.product] == st.stock[it.product] - it.quantity >= 0
              && forall p :: p in st.stock && p != it.product ==> r.value.stock[p] == st.stock[p]
  {
    var r := SaveItem(st, it);
    if r.Ok? {
      TotalAppend(st.items, Priced(it), it.order);
    }
  }

  /**
    Saving a stored row again re-checks and takes its quantity off the
    stock a second time.
   */
  lemma ResaveTakesStockAgain(st: Store, it: OrderItem)
    requires it.order in st.orders
    requires SaveItem(st, it).Ok?
    requires SaveItem(SaveItem(st, it).value, it).Ok?
    ensures SaveItem(SaveItem(st, it).value, it).value.stock[it.product] == st.stock[it.product] - 2 * it.quantity
    ensures |SaveItem(SaveItem(st, it).value, it).value.items| == |SaveItem(st, it).value.items|
  {
    var s1 := SaveItem(st, it).value;
    assert FindItem(s1.items, it.id).Some?;
  }

  /**
    Saving a row under a different order recomputes only the new order's
    total: the order it left keeps a total that still counts it.
   */
  lemma MovedItemLeavesTotalStale()
    ensures
      var row := OrderItem(1, 1000001, "p", 1, 500, 500);
      var st := Store({"c"}, map["p" := 5],
                      map[1000001 := Order("c", 0, 500, Pending), 1000002 := Order("c", 0, 0, Pending)],
                      [row], map[], map[1000001 := [Pending], 1000002 := [Pending]]);
      var r := SaveItem(st, row.(order := 1000002));
      && st.orders[1000001].total == Total(st.items, 1000001)
      && r.Ok?
      && r.value.orders[1000001].total == 500
      && Total(r.value.items, 1000001) == 0
  {
    var row := OrderItem(1, 1000001, "p", 1, 500, 500);
    var moved := row.(order := 1000002);
    assert Total([row], 1000001) == 500;
    assert FindItem([row], 1) == Some(0);
    assert Total([Priced(moved)], 1000001) == 0;
  }

  /** Every item's share of its order's total, for a batch of one order. */
  lemma {:induction false} NewRowsTotal(oid: OrderId, reqs: seq<ItemRequest>, ids: seq<ItemId>)
    requires |ids| == |reqs|
    ensures Total(NewRows(oid, reqs, ids), oid) == BatchPrice(reqs)
  {
    if |reqs| > 0 {
      NewRowsTotal(oid, reqs[1..], ids[1..]);
    }
  }

  /** The price of a batch: the sum of unit price times quantity. */
  function BatchPrice(reqs: seq<ItemRequest>): Cents
  {
    if |reqs| == 0 then 0 else reqs[0].unitPrice * reqs[0].quantity + BatchPrice(reqs[1..])
  }

  /** After one new row, the rest of a fresh batch is still fresh. */
  lemma FreshAfterOne(items: seq<OrderItem>, x: OrderItem, ids: seq<ItemId>)
    requires |ids| > 0 && x.id == ids[0]
    requires FreshItemIds(items, ids)
    ensures FindItem(items, ids[0]).None?
    ensures FreshItemIds(items + [x], ids[1..])
  {
    assert UnusedItemId(items, ids[0]);
    var items1, rest := items + [x], ids[1..];
    forall m | 0 <= m < |rest|
      ensures UnusedItemId(items1, rest[m])
    {
      assert rest[m] == ids[m + 1];
      assert UnusedItemId(items, ids[m + 1]);
      forall k | 0 <= k < |items1|
        ensures items1[k].id != rest[m]
      {
        if k < |items| { assert items1[k] == items[k]; }
      }
    }
  }

  /** The rows of a non-empty batch: its first element's row, then the rest's. */
  lemma NewRowsCons(oid: OrderId, reqs: seq<ItemRequest>, ids: seq<ItemId>)
    requires |ids| == |reqs| > 0
    ensures NewRows(oid, reqs, ids) == [Priced(RequestedItem(ids[0], oid, reqs[0]))] + NewRows(oid, reqs[1..], ids[1..])
  {
  }

  /** Saving a row under a new identifier appends it, priced. */
  lemma SaveNewRow(st: Store, it: OrderItem)
    requires it.order in st.orders
    requires FindItem(st.items, it.id).None?
    ensures SaveItem(st, it).Ok? ==> SaveItem(st, it).value.items == st.items + [Priced(it)]
  {
  }

  /** A batch of fresh rows is added after the existing rows, in order. */
  lemma {:induction false} SaveAllRows(st: Store, oid: OrderId, reqs: seq<ItemRequest>, ids: seq<ItemId>)
    requires |ids| == |reqs|
    requires oid in st.orders
    requires FreshItemIds(st.items, ids)
    ensures SaveAll(st, oid, reqs, ids).Ok? ==> SaveAll(st, oid, reqs, ids).value.items == st.items + NewRows(oid, reqs, ids)
    decreases |reqs|
  {
    if |reqs| > 0 {
      var it := RequestedItem(ids[0], oid, reqs[0]);
      FreshAfterOne(st.items, Priced(it), ids);
      SaveNewRow(st, it);
      var r1 := SaveItem(st, it);
      if r1.Ok? {
        SaveAllRows(r1.value, oid, reqs[1..], ids[1..]);
        NewRowsCons(oid, reqs, ids);
      }
    }
  }

  /** A batch of fresh rows keeps the store consistent. */
  lemma {:induction false} SaveAllKeepsValid(st: Store, oid: OrderId, reqs: seq<ItemRequest>, ids: seq<ItemId>)
    requires Valid(st)
    requires |ids| == |reqs|
    requires oid in st.orders
    requires FreshItemIds(st.items, ids)
    ensures SaveAll(st, oid, reqs, ids).Ok? ==> Valid(SaveAll(st, oid, reqs, ids).value)
    decreases |reqs|
  {
    if |reqs| > 0 {
      var it := RequestedItem(ids[0], oid, reqs[0]);
      FreshAfterOne(st.items, Priced(it), ids);
      SaveItemKeepsValid(st, it);
      var r1 := SaveItem(st, it);
      if r1.Ok? {
        SaveAllKeepsValid(r1.value, oid, reqs[1..], ids[1..]);
      }
    }
  }

  /** A batch takes from each product exactly the quantity it asks of it. */
  lemma {:induction false} SaveAllStock(st: Store, oid: OrderId, reqs: seq<ItemRequest>, ids: seq<ItemId>)
    requires |ids| == |reqs|
    requires oid in st.orders
    ensures SaveAll(st, oid, reqs, ids).Ok? ==>
              && SaveAll(st, oid, reqs, ids).value.stock.Keys == st.stock.Keys
              && forall p :: p in st.stock ==> SaveAll(st, oid, reqs, ids).value.stock[p] == st.stock[p] - Requested(reqs, p)
    decreases |reqs|
  {
    if |reqs| > 0 {
      var r1 := SaveItem(st, RequestedItem(ids[0], oid, reqs[0]));
      if r1.Ok? {
        SaveAllStock(r1.value, oid, reqs[1..], ids[1..]);
      }
    }
  }

  /** A batch touches only its own order, and neither payments nor history. */
  lemma {:induction false} SaveAllFrame(st: Store, oid: OrderId, reqs: seq<ItemRequest>, ids: seq<ItemId>)
    requires |ids| == |reqs|
    requires oid in st.orders
    ensures SaveAll(st, oid, reqs, ids).Ok? ==>
              var s := SaveAll(st, oid, reqs, ids).value;
              && (forall o :: o in st.orders && o != oid ==> s.orders[o] == st.orders[o])
              && s.orders[oid].customer == st.orders[oid].customer
              && s.orders[oid].status == st.orders[oid].status
              && s.customers == st.customers && s.payments == st.payments && s.history == st.history
    decreases |reqs|
  {
    if |reqs| > 0 {
      var r1 := SaveItem(st, RequestedItem(ids[0], oid, reqs[0]));
      if r1.Ok? {
        SaveAllFrame(r1.value, oid, reqs[1..], ids[1..]);
      }
    }
  }

  /** Every element of the batch names a product of the catalog. */
  predicate ProductsKnown(stock: map<ProductId, int>, reqs: seq<ItemRequest>)
  {
    forall k :: 0 <= k < |reqs| ==> reqs[k].product in stock
  }

  /** For every product, the batch asks for no more than its stock. */
  predicate StockCovers(stock: map<ProductId, int>, reqs: seq<ItemRequest>)
  {
    forall p :: p in stock ==> Requested(reqs, p) <= stock[p]
  }

  /** The first element of a known product leaves the rest to be checked against the same catalog. */
  lemma ProductsKnownCons(stock: map<ProductId, int>, stock1: map<ProductId, int>, reqs: seq<ItemRequest>)
    requires |reqs| > 0 && reqs[0].product in stock
    requires stock1.Keys == stock.Keys
    ensures ProductsKnown(stock, reqs) <==> ProductsKnown(stock1, reqs[1..])
  {
    var rest := reqs[1..];
    if ProductsKnown(stock1, rest) {
      forall k | 0 <= k < |reqs|
        ensures reqs[k].product in stock
      {
        if k > 0 { assert reqs[k] == rest[k - 1]; }
      }
    }
  }

  /**
    Once the first element's quantity is taken off its product, the rest of
    the batch must fit in what is left.
   */
  lemma StockCoversCons(stock: map<ProductId, int>, reqs: seq<ItemRequest>)
    requires |reqs| > 0 && reqs[0].product in stock
    ensures StockCovers(stock, reqs) <==>
              && stock[reqs[0].product] >= reqs[0].quantity
              && StockCovers(stock[reqs[0].product := stock[reqs[0].product] - reqs[0].quantity], reqs[1..])
  {
    var q := reqs[0];
    var stock1 := stock[q.product := stock[q.product] - q.quantity];
    forall p | p in stock
      ensures Requested(reqs, p) == (if q.product == p then q.quantity else 0) + Requested(reqs[1..], p)
    {
    }
    if StockCovers(stock, reqs) {
      assert Requested(reqs, q.product) <= stock[q.product];
    }
  }

  /**
    For an order whose customer is known, a batch goes through exactly when
    every element names a known product and, product by product, the
    quantities asked add up to no more than the stock.
   */
  lemma {:induction false} SaveAllSucceedsIff(st: Store, oid: OrderId, reqs: seq<ItemRequest>, ids: seq<ItemId>)
    requires |ids| == |reqs|
    requires oid in st.orders
    requires st.orders[oid].customer in st.customers
    requires StockNonNegative(st)
    ensures SaveAll(st, oid, reqs, ids).Ok? <==> ProductsKnown(st.stock, reqs) && StockCovers(st.stock, reqs)
    decreases |reqs|
  {
    if |reqs| == 0 {
      assert ProductsKnown(st.stock, reqs);
    } else {
      var q := reqs[0];
      if q.product !in st.stock {
        assert !ProductsKnown(st.stock, reqs);
      } else {
        StockCoversCons(st.stock, reqs);
        if st.stock[q.product] >= q.quantity {
          var s1 := SaveItem(st, RequestedItem(ids[0], oid, q)).value;
          SaveAllSucceedsIff(s1, oid, reqs[1..], ids[1..]);
          ProductsKnownCons(st.stock, s1.stock, reqs);
        }
      }
    }
  }

  /**
    The item-creation view for an order of a consistent store. It succeeds
    exactly when the order exists, every product is known and every
    product's stock covers what the batch asks of it. On success the
    batch's rows are added after the existing ones, the order's total grows
    by the batch price and again equals the sum over all its items, each
    product's stock falls by what the batch asks of it, and nothing else
    changes. On failure the result carries no store: nothing is saved.
   */
  lemma AddItemsEffect(st: Store, oid: OrderId, reqs: seq<ItemRequest>, ids: seq<ItemId>)
    requires Valid(st)
    requires |ids| == |reqs|
    requires FreshItemIds(st.items, ids)
    ensures AddItems(st, oid, reqs, ids).Ok? <==>
              oid in st.orders && ProductsKnown(st.stock, reqs) && StockCovers(st.stock, reqs)
    ensures AddItems(st, oid, reqs, ids).Ok? ==>
              var s := AddItems(st, oid, reqs, ids).value;
              && Valid(s)
              && s.items == st.items + NewRows(oid, reqs, ids)
              && s.orders[oid].total == st.orders[oid].total + BatchPrice(reqs)
              && s.orders[oid].total == Total(s.items, oid)
              && s.stock.Keys == st.stock.Keys
              && (forall p :: p in st.stock ==> s.stock[p] == st.stock[p] - Requested(reqs, p))
              && (forall o :: o in st.orders && o != oid ==> s.orders[o] == st.orders[o])
              && s.payments == st.payments && s.history == st.history
  {
    if oid in st.orders {
      assert st.orders[oid].customer in st.customers;
      SaveAllSucceedsIff(st, oid, reqs, ids);
      SaveAllKeepsValid(st, oid, reqs, ids);
      SaveAllRows(st, oid, reqs, ids);
      SaveAllStock(st, oid, reqs, ids);
      SaveAllFrame(st, oid, reqs, ids);
      var r := SaveAll(st, oid, reqs, ids);
      if r.Ok? {
        TotalConcat(st.items, NewRows(oid, reqs, ids), oid);
        NewRowsTotal(oid, reqs, ids);
      }
    }
  }

  /** The rows left after dropping row `i`, in their old order. */
  lemma RemoveAtIndex(items: seq<OrderItem>, i: nat)
    requires i < |items|
    ensures |items[..i] + items[i + 1..]| == |items| - 1
    ensures forall k :: 0 <= k < |items| - 1 ==>
              (items[..i] + items[i + 1..])[k] == (if k < i then items[k] else items[k + 1])
  {
  }

  /**
    Deleting an item removes exactly that row: every other row stays, and
    no row with its identifier is left.
   */
  lemma DeleteItemRows(st: Store, id: ItemId)
    requires ItemsReferenceOrders(st)
    requires CustomersKnown(st)
    requires ItemIdsDistinct(st.items)
    ensures DeleteItem(st, id).Ok? <==> FindItem(st.items, id).Some?
    ensures DeleteItem(st, id).Ok? ==>
              var s := DeleteItem(st, id).value;
              && |s.items| == |st.items| - 1
              && (forall k :: 0 <= k < |s.items| ==> s.items[k].id != id)
              && (forall k :: 0 <= k < |st.items| && st.items[k].id != id ==> st.items[k] in s.items)
              && s.stock == st.stock
  {
    match FindItem(st.items, id)
    case None =>
    case Some(i) =>
      assert st.items[i].order in st.orders;
      var rest := st.items[..i] + st.items[i + 1..];
      RemoveAtIndex(st.items, i);
      forall k | 0 <= k < |rest|
        ensures rest[k].id != id
      {
        if k < i { assert st.items[k].id != st.items[i].id; }
        else { assert st.items[i].id != st.items[k + 1].id; }
      }
      forall k | 0 <= k < |st.items| && st.items[k].id != id
        ensures st.items[k] in rest
      {
        if k < i { assert rest[k] == st.items[k]; }
        else { assert k != i && rest[k - 1] == st.items[k]; }
      }
  }

  /** Changing only orders' totals leaves every order's history matching its status. */
  lemma TotalsOnlyKeepHistory(st: Store, s: Store)
    requires HistoryMatchesStatus(st)
    requires s.history == st.history && s.orders.Keys == st.orders.Keys
    requires forall o :: o in st.orders ==> s.orders[o].status == st.orders[o].status
    ensures HistoryMatchesStatus(s)
  {
  }

  /**
    Dropping row `i` and recomputing its order's total keeps every order's
    total the sum of its remaining items' prices.
   */
  lemma RemoveKeepsTotals(orders: map<OrderId, Order>, items: seq<OrderItem>, i: nat, orders': map<OrderId, Order>)
    requires i < |items| && items[i].order in orders
    requires forall o :: o in orders ==> orders[o].total == Total(items, o)
    requires orders'.Keys == orders.Keys
    requires orders'[items[i].order].total == Total(items[..i] + items[i + 1..], items[i].order)
    requires forall o :: o in orders && o != items[i].order ==> orders'[o] == orders[o]
    ensures forall o :: o in orders' ==> orders'[o].total == Total(items[..i] + items[i + 1..], o)
  {
    forall o | o in orders' && o != items[i].order
      ensures orders'[o].total == Total(items[..i] + items[i + 1..], o)
    {
      TotalRemove(items, i, o);
    }
  }

  /**
    Deleting an item recomputes its order's total over the remaining rows,
    which is the old total less the row's price, and keeps the store
    consistent.
   */
  lemma DeleteItemKeepsValid(st: Store, id: ItemId)
    requires Valid(st)
    ensures DeleteItem(st, id).Ok? ==>
              var s := DeleteItem(st, id).value;
              var gone := st.items[FindItem(st.items, id).value];
              && Valid(s)
              && s.orders[gone.order].total == st.orders[gone.order].total - gone.totalPrice
  {
    match FindItem(st.items, id)
    case None =>
    case Some(i) =>
      var gone := st.items[i];
      assert gone.order in st.orders;
      var s := DeleteItem(st, id).value;
      TotalRemove(st.items, i, gone.order);
      RemoveKeepsTotals(st.orders, st.items, i, s.orders);
      RemoveKeepsRows(st.items, i, st.orders.Keys);
      TotalsOnlyKeepHistory(st, s);
  }

  /**
    The payment save hook keeps payments consistent and their transaction
    identifiers distinct, provided an identifier it keeps is the payment's
    own stored one.
   */
  lemma SavedPaymentsConsistent(st: Store, oid: OrderId, p: Payment, draw: TxId)
    requires oid in st.orders
    requires PaymentsConsistent(st) && TxIdsDistinct(st.payments)
    requires FreshTxId(st.payments, draw)
    requires p.txId.Some? ==> oid in st.payments && st.payments[oid].txId == p.txId && st.payments[oid].status == PaySuccess
    ensures PaymentsConsistent(SavePayment(st, oid, p, draw))
    ensures TxIdsDistinct(SavePayment(st, oid, p, draw).payments)
  {
    var s := SavePayment(st, oid, p, draw);
    if p.txId.Some? {
      assert PaymentConsistent(st.payments[oid]);
    }
    assert PaymentConsistent(s.payments[oid]);
    forall o1, o2 | o1 in s.payments && o2 in s.payments && o1 != o2 && s.payments[o1].txId.Some?
      ensures s.payments[o1].txId != s.payments[o2].txId
    {
      if o1 != oid && o2 != oid {
        assert s.payments[o1] == st.payments[o1] && s.payments[o2] == st.payments[o2];
      }
    }
  }

  /** The payment save hook keeps the store consistent. */
  lemma SavePaymentKeepsValid(st: Store, oid: OrderId, p: Payment, draw: TxId)
    requires Valid(st)
    requires oid in st.orders
    requires FreshTxId(st.payments, draw)
    requires p.txId.Some? ==> oid in st.payments && st.payments[oid].txId == p.txId && st.payments[oid].status == PaySuccess
    ensures Valid(SavePayment(st, oid, p, draw))
  {
    SavedPaymentsConsistent(st, oid, p, draw);
  }

  /**
    Creating a payment never replaces one: the order had none, now has
    exactly the new one, and every other order's payment is unchanged.
   */
  lemma CreatePaymentEffect(st: Store, oid: OrderId, pid: PaymentId, how: PaymentMethod, status: PaymentStatus,
                            draw: TxId)
    requires Valid(st)
    requires FreshTxId(st.payments, draw)
    ensures var r := CreatePayment(st, oid, pid, how, status, draw);
            r.Ok? ==>
              && oid !in st.payments
              && r.value.payments.Keys == st.payments.Keys + {oid}
              && r.value.payments[oid].id == pid
              && (forall o :: o in st.payments ==> r.value.payments[o] == st.payments[o])
              && (status == PaySuccess ==> r.value.payments[oid].txId == Some(draw)
                                           && r.value.payments[oid].amountPaid == Some(Total(st.items, oid)))
              && Valid(r.value)
  {
    var r := CreatePayment(st, oid, pid, how, status, draw);
    if r.Ok? {
      SavePaymentKeepsValid(st, oid, Payment(pid, how, status, None, false, None), draw);
    }
  }

  /** Updating a payment keeps the store consistent. */
  lemma UpdatePaymentKeepsValid(st: Store, oid: OrderId, how: PaymentMethod, status: PaymentStatus, draw: TxId)
    requires Valid(st)
    requires FreshTxId(st.payments, draw)
    ensures UpdatePayment(st, oid, how, status, draw).Ok? ==> Valid(UpdatePayment(st, oid, how, status, draw).value)
  {
    if oid in st.payments {
      var p := st.payments[oid].(payMethod := how, status := status);
      assert PaymentConsistent(st.payments[oid]);
      SavePaymentKeepsValid(st, oid, p, draw);
    }
  }

  /**
    A successful payment that is updated to any other status loses its
    transaction identifier, date and amount; confirming it again stamps the
    new draw `d2`. Since the failure freed the first identifier, that draw
    may be the first identifier again.
   */
  lemma TxIdNotKeptAcrossFailure(st: Store, oid: OrderId, d1: TxId, d0: TxId, d2: TxId)
    requires Valid(st)
    requires oid in st.payments && st.payments[oid].status != PaySuccess
    requires FreshTxId(st.payments, d1)
    requires ConfirmPayment(st, oid, d1).Ok?
    requires FreshTxId(ConfirmPayment(st, oid, d1).value.payments, d0)
    requires var s1 := ConfirmPayment(st, oid, d1).value;
             var s2 := UpdatePayment(s1, oid, s1.payments[oid].payMethod, PayFailed, d0).value;
             FreshTxId(s2.payments, d2)
    ensures var s1 := ConfirmPayment(st, oid, d1).value;
            var s2 := UpdatePayment(s1, oid, s1.payments[oid].payMethod, PayFailed, d0).value;
            && s1.payments[oid].txId == Some(d1)
            && s2.payments[oid].txId.None? && !s2.payments[oid].dated && s2.payments[oid].amountPaid.None?
            && ConfirmPayment(s2, oid, d2).Ok?
            && ConfirmPayment(s2, oid, d2).value.payments[oid].txId == Some(d2)
  {
    assert PaymentConsistent(st.payments[oid]);
  }

  /**
    Confirming a payment: the payment succeeds with the drawn transaction
    identifier and the order's current total (the sum of its items' prices)
    as the amount paid, the order ships, and one shipped entry is logged.
   */
  lemma ConfirmPaymentEffect(st: Store, oid: OrderId, draw: TxId)
    requires Valid(st)
    requires FreshTxId(st.payments, draw)
    ensures var r := ConfirmPayment(st, oid, draw);
            r.Ok? ==>
              && r.value.payments[oid].txId == Some(draw)
              && r.value.payments[oid].amountPaid == Some(Total(st.items, oid))
              && r.value.orders[oid].status == Shipped
              && r.value.history[oid] == st.history[oid] + [Shipped]
  {
    if ConfirmPayment(st, oid, draw).Ok? {
      assert PaymentConsistent(st.payments[oid]);
    }
  }

  /** Confirming a payment keeps the store consistent. */
  lemma ConfirmPaymentKeepsValid(st: Store, oid: OrderId, draw: TxId)
    requires Valid(st)
    requires FreshTxId(st.payments, draw)
    ensures ConfirmPayment(st, oid, draw).Ok? ==> Valid(ConfirmPayment(st, oid, draw).value)
  {
    var r := ConfirmPayment(st, oid, draw);
    if r.Ok? {
      var p := st.payments[oid].(status := PaySuccess);
      assert PaymentConsistent(st.payments[oid]);
      SavePaymentKeepsValid(st, oid, p, draw);
      var s1 := SavePayment(st, oid, p, draw);
      SetStatusKeepsValid(s1, oid, Shipped);
      assert r.value == s1.(orders := s1.orders[oid := s1.orders[oid].(status := Shipped)],
                            history := AppendHistory(s1.history, oid, Shipped));
    }
  }
}
