# Order service: consistency rules in Dafny

This project models the consistency rules of a Django order service:

- orders, each belonging to a customer and carrying a total and a status;
- their line items, each priced as unit price times quantity and taken off a product's stock;
- one payment per order, with a transaction identifier, a payment date and an amount paid while it is successful;
- a per-order status history.

Everything lives in one immutable `Store` (module `Domain`). It holds:

- the customer catalog, as a set;
- the product stock, as a map;
- orders keyed by order id;
- item rows, as a sequence;
- payments keyed by the order they belong to;
- each order's history entries.

Every operation is a pure function that returns `Ok(store)` or `Err(error)`. An `Err` carries no store, so in the model a refused request saves nothing. Two service paths that run outside a transaction are the exception; see `Models.SaveItem` and `Views.ConfirmPayment` under "## Left out".

- `Models` holds the persistence hooks:
  - the two identifier generators;
  - `Order.save`, which checks the customer against the catalog;
  - `Order.update_total_amount`;
  - `OrderItem.save`: product and stock check, price, total recomputation, stock decrement;
  - `Payment.save`: transaction identifier, date and amount while successful, all three cleared otherwise.
- `Views` holds the view actions:
  - create an order;
  - change its status;
  - create a batch of items;
  - delete an item;
  - create, update and confirm a payment.
- `Invariants` defines `Valid`, the conjunction of the rules the modelled actions keep:
  - stock never goes negative;
  - order ids have seven digits;
  - every order's customer is in the customer catalog;
  - item ids are distinct;
  - every item row refers to a stored order and is priced;
  - every order's total is the sum of its items' prices;
  - payments refer to stored orders;
  - a payment has its transaction id, date and amount exactly when it is successful;
  - transaction ids are distinct;
  - every order's latest history entry is its status.

  It proves that each action keeps `Valid`, and states what each action does.

Modelling decisions:

- Money is integer cents. Every monetary column has two decimal places, so prices and sums are exact.
- The random identifier generators are modelled as a choice of an unused value in their range.
  - `GenerateOrderId` and `GenerateTransactionId` are methods built on `DrawFresh`.
  - The view functions take the drawn value as a parameter, with a precondition equal to the generators' guarantee.
  - Transaction identifiers are the first twelve digits of a version-4 UUID's integer. That integer is at least 2^78, so the identifier always has twelve digits.
- The item save hook and the item delete both recompute the order's total and save the order. The status change and the payment confirmation also save the order. Each order save re-checks the customer against the catalog, so all four can fail with `InvalidCustomer` when the order's customer has left the catalog. The payment save hook only reads the order's total and does not save the order.
- `update_status` to `delivered` on an order with no payment raises in the service, because the payment is looked up. This is modelled as `PaymentNotFound`.
- A failed payment keeps no transaction identifier: a non-success save clears it (models.py line 159), and a later confirmation draws again. The draw may return the cleared identifier, which no stored payment holds any more.
- Each view action is treated as one atomic step.

## Model

| member | source | states |
|---|---|---|
| Models.DrawFresh | OrderService/order_service/order_app/models.py:11-14 | returns a value of the range outside the used set, whenever one exists (the generators' retry loop) |
| Models.GenerateOrderId | OrderService/order_service/order_app/models.py:9-14 | the order id lies in [1000000, 9999999] and no stored order has it |
| Models.GenerateTransactionId | OrderService/order_service/order_app/models.py:144-149 | the transaction id has twelve digits and no stored payment holds it |
| Domain.ParseStatus | OrderService/order_service/order_app/views.py:95-96 | a requested status is accepted exactly when it is one of pending, shipped, delivered, and is then read as the choice with that stored value |
| Domain.ParseStatusName | OrderService/order_service/order_app/models.py:20-24 | every status choice is accepted back under its stored value |
| Domain.AppendHistory | OrderService/order_service/order_app/views.py:107 | logging adds exactly one entry, at the end of that order's history, and leaves every other order's history as it was |
| Models.TotalOfNoItems | OrderService/order_service/order_app/models.py:43 | the total of an order no row belongs to is 0, the `or 0.00` case of the aggregate |
| Models.TxIdsInUse | OrderService/order_service/order_app/models.py:148 | exactly the transaction ids some stored payment holds, the set the generator's uniqueness lookup searches |
| Models.TotalConcat | OrderService/order_service/order_app/models.py:43 | the total over two blocks of rows is the sum of the two totals |
| Models.TotalRemove | OrderService/order_service/order_app/views.py:169-170 | dropping a row takes exactly its price out of its order's total |
| Models.SaveOrder | OrderService/order_service/order_app/models.py:46-57 | the save succeeds exactly when the customer is in the catalog and otherwise fails with InvalidCustomer; on success only that order's row is written |
| Models.UpdateTotalAmount | OrderService/order_service/order_app/models.py:41-44 | the order's total becomes the sum of its items' prices, nothing else about it changes, and the customer is re-checked |
| Models.FindItem | OrderService/order_service/order_app/views.py:140-144 | the row found has the id, and nothing is found exactly when no row has it |
| Models.Upsert | OrderService/order_service/order_app/models.py:104 | a row with a new id is appended; otherwise the stored row is replaced in place and every other row stays |
| Models.Priced | OrderService/order_service/order_app/models.py:103 | the row's price is unit price times quantity and its other fields are kept |
| Models.SaveItem | OrderService/order_service/order_app/models.py:88-112 | unknown product gives InvalidProduct, stock below quantity gives InsufficientStock, and success holds exactly when both checks and the customer check pass; the priced row is written, the order's total is recomputed over its items, that product's stock falls by the quantity, and nothing else changes |
| Models.SavePayment | OrderService/order_service/order_app/models.py:151-162 | on success the stored transaction id is kept, or else the fresh draw is taken, the payment is dated and the order's current total is recorded as the amount paid; on any other status id, date and amount are cleared; other payments are untouched |
| Views.CreateOrder | OrderService/order_service/order_app/views.py:62-72 | creation succeeds exactly when the customer is known; the new order is pending with total 0 under the fresh id, and exactly one pending history entry is logged |
| Views.UpdateStatus | OrderService/order_service/order_app/views.py:89-109 | the errors in the order the view raises them; success holds exactly when the order exists, the status is a choice, delivered has a successful payment, and the customer is known; on success only the status changes and one entry with it is appended |
| Views.NewRows | OrderService/order_service/order_app/views.py:156-159 | the rows a batch writes: one per element, in order, each priced |
| Views.SaveAll | OrderService/order_service/order_app/views.py:156-159 | the batch's saves one after the other keep the set of orders and fail only with an item-save error |
| Views.AddItems | OrderService/order_service/order_app/views.py:146-161 | an unknown order gives OrderNotFound; otherwise the result is the batch of saves, whose only errors are the item-save errors |
| Views.DeleteItem | OrderService/order_service/order_app/views.py:163-172 | an unknown id gives ItemNotFound; otherwise exactly that row is removed, its order's total is recomputed over the rest, and stock is not restored |
| Views.CreatePayment | OrderService/order_service/order_app/views.py:188-200 | refused with OrderNotFound for an unknown order and with DuplicatePayment when the order already has a payment; otherwise the new payment goes through the payment save |
| Views.UpdatePayment | OrderService/order_service/order_app/views.py:208-215 | PaymentNotFound when the order has no payment; otherwise the payment with its new method and status goes through the payment save |
| Views.ConfirmPayment | OrderService/order_service/order_app/views.py:217-233 | PaymentNotFound without a payment, AlreadyConfirmed when it is already successful; otherwise the payment is saved as successful, the order becomes shipped and one shipped entry is logged |
| Invariants.AddOrderKeepsValid | OrderService/order_service/order_app/views.py:64-70 | a fresh order of a known customer with total 0 and its status as its only history entry keeps the store consistent |
| Invariants.CreateOrderKeepsValid | OrderService/order_service/order_app/views.py:62-72 | order creation keeps the store consistent and the new order's history is exactly one pending entry |
| Invariants.UpdateStatusKeepsValid | OrderService/order_service/order_app/views.py:104-107 | a status change keeps the store consistent: its latest history entry is again the order's status |
| Invariants.DeliveredOnlyWhenPaid | OrderService/order_service/order_app/views.py:98-102 | an order becomes delivered only if its payment is successful |
| Invariants.UpsertOtherTotals | OrderService/order_service/order_app/models.py:104-105 | saving a row that stays in its order leaves every other order's total unchanged |
| Invariants.UpsertKeepsRows | OrderService/order_service/order_app/models.py:103-104 | saving a row keeps row ids distinct, rows priced and their orders stored |
| Invariants.RemoveKeepsRows | OrderService/order_service/order_app/views.py:169 | removing a row keeps row ids distinct, rows priced and their orders stored |
| Invariants.SaveItemKeepsValid | OrderService/order_service/order_app/models.py:88-112 | an item save keeps the store consistent: totals are sums of prices and stock stays non-negative |
| Invariants.SaveNewItemEffect | OrderService/order_service/order_app/models.py:103-112 | a new item is appended with price unit price times quantity; the order's total grows by exactly that and equals the sum over all its items; its product's stock falls by exactly the quantity and stays non-negative; no other stock changes |
| Invariants.ResaveTakesStockAgain | OrderService/order_service/order_app/models.py:88-112 | saving the same row twice adds no row but takes its quantity off the stock twice |
| Invariants.MovedItemLeavesTotalStale | OrderService/order_service/order_app/models.py:104-105 | a row re-saved under another order leaves the old order's total counting a row it no longer has |
| Invariants.NewRowsTotal | OrderService/order_service/order_app/models.py:103 | the rows of a batch add exactly the batch price to their order's total |
| Invariants.SaveAllRows | OrderService/order_service/order_app/views.py:154-159 | a batch of fresh ids appends its rows after the existing rows, in request order |
| Invariants.SaveAllKeepsValid | OrderService/order_service/order_app/views.py:154-159 | a batch keeps the store consistent |
| Invariants.SaveAllStock | OrderService/order_service/order_app/views.py:154-159 | each product's stock falls by exactly the quantity the batch asks of it |
| Invariants.SaveAllFrame | OrderService/order_service/order_app/views.py:154-159 | a batch changes no other order, no payment and no history |
| Invariants.StockCoversCons | OrderService/order_service/order_app/models.py:96-100 | a batch fits the stock exactly when its first element fits and the rest fits what the first element leaves |
| Invariants.SaveAllSucceedsIff | OrderService/order_service/order_app/views.py:154-159 | a batch succeeds exactly when every product is known and each product's stock covers the batch's total request for it |
| Invariants.AddItemsEffect | OrderService/order_service/order_app/views.py:146-161 | item creation is all-or-nothing. On a consistent store, where the order's customer is in the catalog, it succeeds exactly when the order exists and the batch fits the catalog and stock. On success: the rows are appended, the total grows by the batch price and equals the sum over the items, stock falls by what was asked, nothing else changes, and the store stays consistent |
| Invariants.DeleteItemRows | OrderService/order_service/order_app/views.py:163-172 | on a consistent store delete succeeds exactly when the id is stored; exactly that row goes, every other row stays, and stock is unchanged |
| Invariants.RemoveKeepsTotals | OrderService/order_service/order_app/views.py:169-170 | after a row is dropped and its order's total recomputed, every order's total is again the sum over its remaining rows |
| Invariants.DeleteItemKeepsValid | OrderService/order_service/order_app/views.py:163-172 | delete keeps the store consistent and the order's total falls by the removed row's price |
| Invariants.SavedPaymentsConsistent | OrderService/order_service/order_app/models.py:144-162 | the payment save keeps each payment's id, date and amount present exactly when it is successful, and keeps transaction ids distinct |
| Invariants.SavePaymentKeepsValid | OrderService/order_service/order_app/models.py:151-162 | the payment save keeps the whole store consistent |
| Invariants.CreatePaymentEffect | OrderService/order_service/order_app/views.py:188-200 | a created payment never replaces one: the order had none, gets exactly the new one, and every other payment is unchanged; created as successful, it holds the fresh draw and the order's total |
| Invariants.UpdatePaymentKeepsValid | OrderService/order_service/order_app/views.py:208-215 | a payment update keeps the store consistent |
| Invariants.TxIdNotKeptAcrossFailure | OrderService/order_service/order_app/models.py:153-161 | confirm, then update to failed, then confirm again: the failure clears id, date and amount, and the second confirmation holds the new draw; since the failure freed the first id, that draw may equal it |
| Invariants.ConfirmPaymentEffect | OrderService/order_service/order_app/views.py:220-231 | confirmation records the fresh transaction id and the order's item total as the amount paid, ships the order and appends exactly one shipped entry |
| Invariants.ConfirmPaymentKeepsValid | OrderService/order_service/order_app/views.py:217-233 | confirmation keeps the store consistent |

## Left out

- HTTP routing, response bodies and status codes, permissions and throttling: transport and authorisation only. Errors are the `Error` values, not HTTP responses.
- The first `OrderViewSet.create` (views.py line 39): Python replaces it with the second definition at line 62, so it never runs.
- Serializer validation and the nested order serializer.
  - An order is created with the model defaults: a generated id, status pending, total 0, no items, no payment. A client-supplied `order_id`, `status`, `total_amount`, nested `order_items` or a nested `payment` in the create request are not modelled. The serializer accepts all of them, so a client-chosen id of up to 20 characters breaks `OrderIdsInRange`, and a client-chosen status or total breaks the history and total rules. The nested create only chains the item and payment save hooks, which are modelled.
  - Client-supplied `transaction_id`, `amount_paid` or `payment_date` on payment create or update are not modelled either. A created payment starts without them, and an update changes only method and status.
- `OrderViewSet.update`/`destroy`, `status_history`, and the list and retrieve actions: generic framework actions. The order update writes the client's `total_amount` and `status` directly, with no history entry. So it can break `TotalsConsistent` and `HistoryMatchesStatus`; `Valid` is kept only by the modelled actions.
- Item update through the generic update action: only its save hook (`SaveItem`) is modelled, including the re-check and second stock decrement of a re-save.
- Filtering item lookups by an order id in the URL: the routes register items without one, so items are looked up by their own id.
- Views.AddItems: takes the order id `oid` as a parameter. The routes give the item-creation view no `order_id`, so in the service the order lookup runs with `None` and refuses every request with a 404. The model describes the view as written for an order id it is given.
- Timestamps (`order_date`, `order_time`, `created_at`, `updated_at`, `changed_at`, the payment date's value) and the IST time zone: clock readings. A payment's date is modelled only as present or absent.
- Randomness and exhaustion of the identifier ranges: the generators' preconditions require an unused value to exist. The service's loop would not terminate otherwise.
- The decimal `max_digits` limits: enforced by the database.
- Concurrency, isolation and row locking: each view action is one sequential step.
- Models.SaveItem: treated as atomic. The hook writes the row (models.py line 104) before the customer check that runs when the order is saved (lines 105, 44 and 54-55). Inside the batch create's transaction a refusal undoes the row. The generic item update has no transaction, so there a refused save leaves the re-saved row with its new price, while the order's total and the stock stay unchanged. The model refuses the whole save and stores nothing.
- Invariants.AddItemsEffect: its success condition assumes a consistent store, so every order's customer is in the catalog. The model has no operation that changes the customer or product catalogs. The service's other case, a customer who has left the catalog, is outside this equivalence: there the first item save fails with `InvalidCustomer`, as `Models.SaveItem` states.
- Views.ConfirmPayment: treated as atomic. The service does not wrap confirmation in a transaction. If the order save then fails its customer check, the payment has already been stored as successful; the model instead refuses the whole confirmation and stores nothing.
- Invariants.SaveItemKeepsValid: requires that a re-saved row stays in its order. Moving a row to another order leaves the old order's total stale (`MovedItemLeavesTotalStale` shows it), so consistency is not kept then.
