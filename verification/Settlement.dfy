/** The settlement kernel as a transition system: what each committed transaction does to the
    orders, the register sessions and the cash ledger. A rejected request changes nothing. */
module Settlement {
  import opened Money
  import opened Entities
  import opened Refunds
  import opened Payments
  import opened Drawer
  import Pricing

  /** Orders and sessions are numbered in the order they were created; rows are never deleted. */
  datatype State = State(orders: seq<Order>, sessions: seq<Session>, ledger: seq<Movement>, nextLine: nat)

  const EMPTY := State([], [], [], 0)

  /** `flagged` says whether the client itself asks for an approval. */
  datatype CashEntry = CashEntry(
    session: nat,
    direction: Direction,
    kind: ManualKind,
    amount: Exact,
    request: Option<int>,
    details: Details,
    source: Option<int>,
    target: Option<int>,
    register: Option<int>,
    flagged: bool,
    approved: bool)

  /** The account the session's register is mapped to when a request comes in, and those of all registers. */
  datatype Mapping = Mapping(drawer: Option<int>, registers: map<int, Option<int>>)

  /** `approved` says whether a consumed manager approval comes with the request; `current` whether the
      business date of the session is acceptable for a new order. */
  datatype Command =
    | OpenSession(register: int, mapped: bool, float: Exact)
    | CloseSession(session: nat, mapped: bool, actual: Exact)
    | ReopenSession(session: nat, approved: bool)
    | CreateOrder(session: nat, current: bool, lines: seq<Pricing.LineRequest>, catalog: Catalog, approved: bool)
    | EditOrder(order: nat, replacement: Option<seq<Pricing.LineRequest>>, catalog: Catalog, approved: bool)
    | SetStatus(order: nat, hold: bool)
    | MergeOrders(source: nat, target: Option<nat>, catalog: Catalog)
    | PayOrder(order: nat, entries: seq<Entry>)
    | RefundOrder(order: nat, request: Request, approved: bool)
    | VoidOrder(order: nat, approved: bool)
    | EnterCash(entry: CashEntry, mapping: Mapping)

  // ----- drawer writes

  function Expected(ledger: seq<Movement>, session: nat): int {
    Flow(ledger, session, In) - Flow(ledger, session, Out)
  }

  function Recomputed(s: State, session: nat): State
    requires session < |s.sessions|
  {
    s.(sessions := s.sessions[session := s.sessions[session].(expected := Expected(s.ledger, session))])
  }

  /** Appends the movements of one session and refreshes its cached balance. */
  function Posted(s: State, session: nat, ms: seq<Movement>): State
    requires session < |s.sessions|
  {
    if ms == [] then s else Recomputed(s.(ledger := s.ledger + ms), session)
  }

  // ----- sessions

  predicate HasOpen(sessions: seq<Session>, register: int) {
    exists k :: 0 <= k < |sessions| && sessions[k].register == register && sessions[k].open
  }

  function FloatRows(session: nat, float: int): seq<Movement> {
    if float > 0 then [Movement(session, None, In, OpeningFloat, float, None, NO_DETAILS, NO_ROUTE)] else []
  }

  function AfterOpen(s: State, register: int, mapped: bool, float: Exact): Outcome<State> {
    if !mapped || HasOpen(s.sessions, register) || float.num < 0 then Rejected
    else
      var k := |s.sessions|;
      var created := s.(sessions := s.sessions + [Session(register, true, Cents(float), None, 0, 0)]);
      Ok(Posted(created, k, FloatRows(k, Cents(float))))
  }

  function AfterClose(s: State, k: nat, mapped: bool, actual: Exact): Outcome<State> {
    if k >= |s.sessions| || !s.sessions[k].open || !mapped || actual.num < 0 then Rejected
    else
      var r := Recomputed(s, k);
      var closed := r.sessions[k].(open := false, actual := Some(Cents(actual)),
                                   variance := Cents(actual) - r.sessions[k].expected, closedAt := |s.ledger|);
      Ok(r.(sessions := r.sessions[k := closed]))
  }

  function AfterReopen(s: State, k: nat): Outcome<State> {
    if k >= |s.sessions| || s.sessions[k].open || HasOpen(s.sessions, s.sessions[k].register) then Rejected
    else Ok(s.(sessions := s.sessions[k := s.sessions[k].(open := true, actual := None, variance := 0)]))
  }

  // ----- orders before payment

  /** A discounted order is stored with a manager's approval only. */
  predicate DiscountApproved(t: Totals, approved: bool) { t.discount > 0 ==> approved }

  function AfterCreate(s: State, k: nat, current: bool, rs: seq<Pricing.LineRequest>, catalog: Catalog, approved: bool)
    : Outcome<State>
  {
    if k >= |s.sessions| || !s.sessions[k].open || !current || rs == []
        || !Pricing.Acceptable(rs, [], catalog) then Rejected
    else
      var lines := Pricing.NewLines(rs, s.nextLine, catalog);
      var o := Order(k, Draft, lines, Pricing.TotalsOf(lines, catalog), [], 0, []);
      if DiscountApproved(o.totals, approved) then Ok(s.(orders := s.orders + [o], nextLine := s.nextLine + |rs|))
      else Rejected
  }

  function AfterReplace(s: State, i: nat, rs: seq<Pricing.LineRequest>, catalog: Catalog,
      approved: bool): Outcome<State> {
    if i >= |s.orders| || s.orders[i].status !in ActionStates(Edit)
       || !Pricing.Acceptable(rs, s.orders[i].lines, catalog) then Rejected
    else
      var lines := Pricing.NewLines(rs, s.nextLine, catalog);
      var o := s.orders[i].(lines := lines, totals := Pricing.TotalsOf(lines, catalog));
      if DiscountApproved(o.totals, approved) then Ok(s.(orders := s.orders[i := o], nextLine := s.nextLine + |rs|))
      else Rejected
  }

  /** An edit without a line list leaves lines and totals alone, and still needs the approval of a discount. */
  function AfterEdit(s: State, i: nat, replacement: Option<seq<Pricing.LineRequest>>, catalog: Catalog, approved: bool)
    : Outcome<State>
  {
    if replacement.Some? then AfterReplace(s, i, replacement.value, catalog, approved)
    else if i >= |s.orders| || s.orders[i].status !in ActionStates(Edit)
            || !DiscountApproved(s.orders[i].totals, approved) then Rejected
    else Ok(s)
  }

  function AfterSetStatus(s: State, i: nat, hold: bool): Outcome<State> {
    if i >= |s.orders| || s.orders[i].status !in ActionStates(if hold then Hold else Resume) then Rejected
    else Ok(s.(orders := s.orders[i := s.orders[i].(status := if hold then Held else Draft)]))
  }

  predicate Mergeable(s: State, i: nat, j: nat) {
    && i < |s.orders| && j < |s.orders| && i != j
    && Active(s.orders[i].status) && Active(s.orders[j].status)
    && s.orders[i].paidAmount <= 0 && s.orders[i].payments == [] && s.orders[i].refunds == []
    && s.orders[i].session == s.orders[j].session
  }

  function AfterMerge(s: State, i: nat, j: Option<nat>, catalog: Catalog): Outcome<State> {
    if j.None? || !Mergeable(s, i, j.value) then Rejected
    else
      var lines := s.orders[j.value].lines + s.orders[i].lines;
      if exists l <- lines :: !Pricing.Remergeable(l, catalog) then Rejected
      else
        var target := s.orders[j.value].(lines := lines, totals := Pricing.TotalsOf(lines, catalog));
        var source := s.orders[i].(lines := [], status := Merged);
        Ok(s.(orders := s.orders[j.value := target][i := source]))
  }

  // ----- money

  function FolioTotal(ps: seq<Payment>): int { AppliedBy(ps, RoomCharge) }

  function PaidWith(o: Order, ps: seq<Payment>): Order {
    o.(payments := ps, paidAmount := Applied(ps) - FolioTotal(ps),
       status := if FolioTotal(ps) > 0 then FolioPending else Paid)
  }

  function AfterPay(s: State, i: nat, es: seq<Entry>): Outcome<State> {
    if i >= |s.orders| || s.orders[i].session >= |s.sessions| || s.orders[i].lines == []
       || !PaymentControl(s.orders[i].status, s.orders[i].totals.total, es)
       || (exists e <- es :: !Postable(e)) then Rejected
    else
      var o, ps := s.orders[i], Rows(es);
      var rows := CashRows(o.session, i, In, ps);
      if rows != [] && !s.sessions[o.session].open then Rejected
      else Ok(Posted(s.(orders := s.orders[i := PaidWith(o, ps)]), o.session, rows))
  }

  function AfterRefund(s: State, i: nat, request: Request): Outcome<State> {
    if i >= |s.orders| || s.orders[i].session >= |s.sessions| then Rejected
    else
      var o := s.orders[i];
      var r := Decision(o, request);
      if r.Rejected? then Rejected
      else Ok(Posted(s.(orders := s.orders[i := o.(refunds := o.refunds + [r.value])]),
                     o.session, RefundRows(o.session, i, r.value.payments)))
  }

  /** A void pays out every cash tender again, whatever was refunded before. */
  function AfterVoid(s: State, i: nat): Outcome<State> {
    if i >= |s.orders| || s.orders[i].session >= |s.sessions| || s.orders[i].status !in ActionStates(Void) then Rejected
    else
      var o := s.orders[i];
      Ok(Posted(s.(orders := s.orders[i := o.(status := Voided)]), o.session, CashRows(o.session, i, Out, o.payments)))
  }

  // ----- manual cash entries

  /** The direction a manual movement type must use; None for a cash adjustment, which may use either. */
  function RequiredDirection(k: ManualKind): Option<Direction> {
    match k
    case PaidIn => Some(In) case FloatAddition => Some(In) case AdjustmentIn => Some(In)
    case PaidOut => Some(Out) case SafeDrop => Some(Out) case BankDeposit => Some(Out) case DrawerTransfer => Some(Out)
    case OwnerWithdrawal => Some(Out) case AdjustmentOut => Some(Out)
    case CashAdjustment => None
  }

  predicate Sensitive(k: ManualKind) { k != PaidIn && k != FloatAddition }

  predicate Transfer(k: ManualKind) { k in {SafeDrop, BankDeposit, DrawerTransfer} }

  /** An account the request leaves out is the drawer's; a mapped destination register overrides the target. */
  function RouteOf(e: CashEntry, m: Mapping): Route {
    var source := if e.source.Some? then e.source else m.drawer;
    var mapped := if e.register.Some? && e.register.value in m.registers then m.registers[e.register.value] else None;
    Route(source, if mapped.Some? then mapped else e.target, e.register)
  }

  predicate EntryAllowed(e: CashEntry, m: Mapping) {
    && WholeCents(e.amount) && Cents(e.amount) > 0
    && (RequiredDirection(e.kind).Some? ==> RequiredDirection(e.kind) == Some(e.direction))
    && (Sensitive(e.kind) ==> e.details.note != "" && e.details.reference != "")
    && (Sensitive(e.kind) || e.flagged ==> e.approved)
    && (e.register.Some? ==> e.register.value in m.registers)
    && (Transfer(e.kind) ==> RouteOf(e, m).source.Some? && RouteOf(e, m).target.Some?)
    && (e.kind == DrawerTransfer ==> e.register.Some?)
  }

  function EntryRow(e: CashEntry, m: Mapping): Movement {
    Movement(e.session, None, e.direction, Manual(e.kind), Cents(e.amount), e.request, e.details, RouteOf(e, m))
  }

  /** The stored row with this event id, if any. Ids derived from request ids are injective. */
  function Stored(ledger: seq<Movement>, request: Option<int>): (r: Option<Movement>)
    ensures r.Some? ==> r.value in ledger && r.value.request == request && request.Some?
    ensures r.None? && request.Some? ==> forall m <- ledger :: m.request != request
  {
    if ledger == [] || request.None? then None
    else if ledger[0].request == request then Some(ledger[0])
    else Stored(ledger[1..], request)
  }

  /** A request id that is already stored is a replay when it would write the same row, and a conflict
      otherwise; a row that is really new needs an open session. */
  function AfterEntry(s: State, e: CashEntry, m: Mapping): Outcome<State> {
    if e.session >= |s.sessions| || !EntryAllowed(e, m) then Rejected
    else
      var stored := Stored(s.ledger, e.request);
      if stored.Some? then if stored.value == EntryRow(e, m) then Ok(s) else Rejected
      else if !s.sessions[e.session].open then Rejected
      else Ok(Posted(s, e.session, [EntryRow(e, m)]))
  }

  // ----- runs

  /** A reopen, refund or void without a manager's approval is rejected. */
  function IfApproved(approved: bool, r: Outcome<State>): Outcome<State> { if approved then r else Rejected }

  function After(s: State, c: Command): Outcome<State> {
    match c
    case OpenSession(register, mapped, float) => AfterOpen(s, register, mapped, float)
    case CloseSession(k, mapped, actual) => AfterClose(s, k, mapped, actual)
    case ReopenSession(k, approved) => IfApproved(approved, AfterReopen(s, k))
    case CreateOrder(k, current, lines, catalog, approved) => AfterCreate(s, k, current, lines, catalog, approved)
    case EditOrder(i, replacement, catalog, approved) => AfterEdit(s, i, replacement, catalog, approved)
    case SetStatus(i, hold) => AfterSetStatus(s, i, hold)
    case MergeOrders(i, j, catalog) => AfterMerge(s, i, j, catalog)
    case PayOrder(i, es) => AfterPay(s, i, es)
    case RefundOrder(i, request, approved) => IfApproved(approved, AfterRefund(s, i, request))
    case VoidOrder(i, approved) => IfApproved(approved, AfterVoid(s, i))
    case EnterCash(e, m) => AfterEntry(s, e, m)
  }

  function Step(s: State, c: Command): State {
    var r := After(s, c);
    if r.Ok? then r.value else s
  }

  function Run(s: State, cs: seq<Command>): State {
    if cs == [] then s else Step(Run(s, cs[..|cs| - 1]), cs[|cs| - 1])
  }
}
