/** The cash ledger and the balance each register session caches from it. */
module Drawer {
  import opened Money
  import opened Entities
  import opened Refunds

  datatype Direction = In | Out

  datatype Kind = OpeningFloat | CashSale | OrderRefund | Manual(entry: ManualKind)

  datatype ManualKind =
    | PaidIn | PaidOut | FloatAddition | SafeDrop | BankDeposit
    | DrawerTransfer | OwnerWithdrawal | AdjustmentIn | AdjustmentOut | CashAdjustment

  /** Free text of a manual entry; a replay must repeat it. */
  datatype Details = Details(note: string, reference: string, category: string)

  /** The accounts a manual entry moves money between, as resolved when it was entered, and the register it
      names as destination; a replay must resolve to the same. */
  datatype Route = Route(source: Option<int>, target: Option<int>, register: Option<int>)

  datatype Movement = Movement(
    session: nat,
    order: Option<nat>,
    direction: Direction,
    kind: Kind,
    amount: int,
    request: Option<int>,
    details: Details,
    route: Route)

  const NO_DETAILS := Details("", "", "")
  const NO_ROUTE := Route(None, None, None)

  /** `closedAt` is the length of the ledger when the session was last closed. */
  datatype Session = Session(
    register: int,
    open: bool,
    expected: int,
    actual: Option<int>,
    variance: int,
    closedAt: nat)

  function Signed(m: Movement): int { if m.direction == In then m.amount else -m.amount }

  /** One direction of a session's movements, as the expected-cash query sums it. */
  function Flow(ledger: seq<Movement>, session: nat, d: Direction): int {
    if ledger == [] then 0
    else
      var m := ledger[|ledger| - 1];
      Flow(ledger[..|ledger| - 1], session, d) + if m.session == session && m.direction == d then m.amount else 0
  }

  /** The running balance of a drawer: its signed movements, in order. */
  function SessionCash(ledger: seq<Movement>, session: nat): int {
    if ledger == [] then 0
    else
      var m := ledger[|ledger| - 1];
      SessionCash(ledger[..|ledger| - 1], session) + if m.session == session then Signed(m) else 0
  }

  /** The signed movements sourced from one order. */
  function OrderCash(ledger: seq<Movement>, order: nat): int {
    if ledger == [] then 0
    else
      var m := ledger[|ledger| - 1];
      OrderCash(ledger[..|ledger| - 1], order) + if m.order == Some(order) then Signed(m) else 0
  }

  lemma {:induction false} InLessOut(ledger: seq<Movement>, session: nat)
    ensures Flow(ledger, session, In) - Flow(ledger, session, Out) == SessionCash(ledger, session)
  {
    if ledger != [] {
      InLessOut(ledger[..|ledger| - 1], session);
    }
  }

  lemma {:induction false} CashConcat(a: seq<Movement>, b: seq<Movement>, id: nat)
    ensures SessionCash(a + b, id) == SessionCash(a, id) + SessionCash(b, id)
    ensures OrderCash(a + b, id) == OrderCash(a, id) + OrderCash(b, id)
  {
    if b == [] {
      assert a + b == a;
    } else {
      CashConcat(a, b[..|b| - 1], id);
      assert (a + b)[..|a + b| - 1] == a + b[..|b| - 1];
    }
  }

  lemma {:induction false} NoCashElsewhere(ms: seq<Movement>, id: nat)
    ensures (forall m <- ms :: m.session != id) ==> SessionCash(ms, id) == 0
    ensures (forall m <- ms :: m.order != Some(id)) ==> OrderCash(ms, id) == 0
  {
    if ms != [] {
      assert ms[|ms| - 1] in ms;
      NoCashElsewhere(ms[..|ms| - 1], id);
    }
  }

  // ----- the rows settlement writes

  function OrderRow(session: nat, order: nat, d: Direction, amount: int): Movement {
    Movement(session, Some(order), d, if d == In then CashSale else OrderRefund, amount, None, NO_DETAILS, NO_ROUTE)
  }

  /** One movement for every cash payment row, in row order. */
  function CashRows(session: nat, order: nat, d: Direction, ps: seq<Payment>): seq<Movement> {
    if ps == [] then []
    else
      var p, earlier := ps[|ps| - 1], CashRows(session, order, d, ps[..|ps| - 1]);
      if p.tender == Cash && p.applied > 0 then earlier + [OrderRow(session, order, d, p.applied)] else earlier
  }

  function RefundRows(session: nat, order: nat, ps: seq<RefundPayment>): seq<Movement> {
    if ps == [] then []
    else
      var p, earlier := ps[|ps| - 1], RefundRows(session, order, ps[..|ps| - 1]);
      if p.tender == Cash && p.amount > 0 then earlier + [OrderRow(session, order, Out, p.amount)] else earlier
  }

  predicate FromOrder(m: Movement, session: nat, order: nat, d: Direction) {
    m.session == session && m.order == Some(order) && m.direction == d && m.amount > 0 && m.request.None?
    && m.kind == (if d == In then CashSale else OrderRefund)
  }

  lemma {:induction false} CashRowsLaw(session: nat, order: nat, d: Direction, ps: seq<Payment>)
    requires forall p <- ps :: p.applied > 0
    ensures forall m <- CashRows(session, order, d, ps) :: FromOrder(m, session, order, d)
    ensures OrderCash(CashRows(session, order, d, ps), order)
        == (if d == In then AppliedBy(ps, Cash) else -AppliedBy(ps, Cash))
  {
    if ps != [] {
      assert ps[|ps| - 1] in ps;
      CashRowsLaw(session, order, d, ps[..|ps| - 1]);
      var now, earlier := CashRows(session, order, d, ps), CashRows(session, order, d, ps[..|ps| - 1]);
      if now != earlier {
        assert now[..|now| - 1] == earlier;
      }
    }
  }

  lemma {:induction false} RefundRowsLaw(session: nat, order: nat, ps: seq<RefundPayment>)
    requires forall p <- ps :: p.amount > 0
    ensures forall m <- RefundRows(session, order, ps) :: FromOrder(m, session, order, Out)
    ensures OrderCash(RefundRows(session, order, ps), order) == -TenderMoney(ps, Cash)
  {
    if ps != [] {
      assert ps[|ps| - 1] in ps;
      RefundRowsLaw(session, order, ps[..|ps| - 1]);
      var now, earlier := RefundRows(session, order, ps), RefundRows(session, order, ps[..|ps| - 1]);
      if now != earlier {
        assert now[..|now| - 1] == earlier;
      }
    }
  }
}
