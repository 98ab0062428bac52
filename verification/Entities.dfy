/** The rows of the settlement kernel. Ids stand for primary keys. */
module Entities {
  import opened Money

  datatype Status =
    | Draft | Held | Open | Sent | Served | Unpaid
    | Paid | FolioPending
    | Voided | Cancelled | Refunded | Merged | Closed

  datatype Action = Edit | Hold | Resume | Pay | Void | Refunding | TransferTable | MergeTable

  /** The states in which an order may still be edited, paid, moved or merged. */
  predicate Active(s: Status) {
    s in {Draft, Held, Open, Sent, Served, Unpaid}
  }

  predicate Settled(s: Status) {
    s == Paid || s == FolioPending
  }

  function ActionStates(a: Action): set<Status> {
    match a
    case Edit => {Draft, Held, Open, Sent, Served, Unpaid}
    case Hold => {Draft, Open, Sent, Served, Unpaid}
    case Resume => {Held}
    case Pay => {Draft, Held, Open, Sent, Served, Unpaid}
    case Void => {Draft, Held, Open, Sent, Served, Unpaid, Paid, FolioPending}
    case Refunding => {Paid, FolioPending, Refunded}
    case TransferTable => {Draft, Held, Open, Sent, Served, Unpaid}
    case MergeTable => {Draft, Held, Open, Sent, Served, Unpaid}
  }

  datatype Tender = Cash | GCash | Card | BankTransfer | RoomCharge

  /** `price` is the list price in cents; rates are in 1/1000000; `sku` is the external product id, if any. */
  datatype CatalogItem = CatalogItem(
    price: int,
    taxRate: int,
    serviceRate: int,
    active: bool,
    available: bool,
    sku: Option<int>)

  type Catalog = map<int, CatalogItem>

  /** Quantity in 1/10000, money in cents; `sku` is the product id the item had when the line was priced. */
  datatype Line = Line(
    id: int,
    item: int,
    sku: Option<int>,
    quantity: int,
    unitPrice: int,
    discount: int,
    total: int)

  /** `posting` says whether the room-charge posting of this payment row exists. */
  datatype Payment = Payment(tender: Tender, applied: int, received: int, change: int, posting: bool)

  /** A refund line without an order line is an order-level adjustment or an amount refund. */
  datatype RefundLine = RefundLine(line: Option<int>, quantity: int, discount: int, total: int)

  datatype RefundPayment = RefundPayment(tender: Tender, amount: int)

  datatype Refund = Refund(amount: int, lines: seq<RefundLine>, payments: seq<RefundPayment>)

  datatype Totals = Totals(subtotal: int, discount: int, tax: int, service: int, total: int)

  datatype Order = Order(
    session: nat,
    status: Status,
    lines: seq<Line>,
    totals: Totals,
    payments: seq<Payment>,
    paidAmount: int,
    refunds: seq<Refund>)
}
