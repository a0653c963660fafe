/**
  The records of the order service (orders, line items, payments and the
  per-order status history) together with the outside catalogs they are
  checked against, all held in one immutable `Store`.

  Money is integer cents: every monetary column has two decimal places, so
  `unit_price * quantity` and the sum of item prices are exact in cents.
 */
module Domain {

  /** The seven-digit numeric order identifier, read as a number. */
  type OrderId = nat
  type CustomerId = string
  type ProductId = string
  /** Opaque unique tokens (UUIDs in the service). */
  type ItemId = nat
  type PaymentId = nat
  /** The twelve-digit transaction identifier, read as a number. */
  type TxId = nat
  type Cents = int

  datatype Option<T> = None | Some(value: T)

  /** The ways an operation of the core can refuse a request. */
  datatype Error =
    | InvalidCustomer        // "Invalid customer ID" raised by Order.save
    | InvalidProduct         // "Invalid product ID" raised by OrderItem.save
    | InsufficientStock      // "Insufficient stock for product"
    | InvalidStatus          // requested order status outside the three choices
    | DeliveryNeedsPayment   // delivered requested without a successful payment
    | DuplicatePayment       // the order already has its payment
    | AlreadyConfirmed       // confirm on a payment that is already success
    | OrderNotFound
    | ItemNotFound
    | PaymentNotFound

  datatype Result<T> = Ok(value: T) | Err(error: Error)

  /** The three order status choices. */
  datatype OrderStatus = Pending | Shipped | Delivered

  /** The three payment status choices. */
  datatype PaymentStatus = PaySuccess | PayPending | PayFailed

  /** The four payment method choices. */
  datatype PaymentMethod = Upi | Card | NetBanking | CashOnDelivery

  /** The stored value of each order status choice. */
  function StatusName(s: OrderStatus): string
  {
    match s
    case Pending => "pending"
    case Shipped => "shipped"
    case Delivered => "delivered"
  }

  /** Reads a requested status against the order status choices. */
  function ParseStatus(text: string): (r: Option<OrderStatus>)
    ensures r.Some? <==> (text == "pending" || text == "shipped" || text == "delivered")
    ensures r.Some? ==> StatusName(r.value) == text
  {
    if text == "pending" then Some(Pending)
    else if text == "shipped" then Some(Shipped)
    else if text == "delivered" then Some(Delivered)
    else None
  }

  /** Every status choice is accepted back under its own stored value. */
  lemma ParseStatusName(s: OrderStatus)
    ensures ParseStatus(StatusName(s)) == Some(s)
  {
  }

  /** Creation and update timestamps are left out; `total` is derived. */
  datatype Order = Order(customer: CustomerId, address: int, total: Cents, status: OrderStatus)

  /** `totalPrice` is derived by the save hook from `unitPrice` and `quantity`. */
  datatype OrderItem = OrderItem(
    id: ItemId,
    order: OrderId,
    product: ProductId,
    quantity: nat,
    unitPrice: Cents,
    totalPrice: Cents)

  /** `dated` records whether `payment_date` is set; its value is a clock reading. */
  datatype Payment = Payment(
    id: PaymentId,
    payMethod: PaymentMethod,
    status: PaymentStatus,
    txId: Option<TxId>,
    dated: bool,
    amountPaid: Option<Cents>)

  /**
    The whole state the core reads and writes.
    `customers` and `stock` stand for the customer and product catalogs;
    `payments` is keyed by the order it belongs to (one payment per order);
    `history` holds each order's status entries, oldest first.
   */
  datatype Store = Store(
    customers: set<CustomerId>,
    stock: map<ProductId, int>,
    orders: map<OrderId, Order>,
    items: seq<OrderItem>,
    payments: map<OrderId, Payment>,
    history: map<OrderId, seq<OrderStatus>>)

  /** The history entries of an order; none when it has no row yet. */
  function HistoryOf(h: map<OrderId, seq<OrderStatus>>, oid: OrderId): seq<OrderStatus>
  {
    if oid in h then h[oid] else []
  }

  /** Inserts one status history row for `oid`. */
  function AppendHistory(h: map<OrderId, seq<OrderStatus>>, oid: OrderId, s: OrderStatus): (h': map<OrderId, seq<OrderStatus>>)
    ensures h'.Keys == h.Keys + {oid}
    ensures h'[oid] == HistoryOf(h, oid) + [s]
    ensures forall o :: o in h && o != oid ==> h'[o] == h[o]
  {
    h[oid := HistoryOf(h, oid) + [s]]
  }
}
