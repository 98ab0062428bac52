/** Conservation over whole runs of the settlement kernel. */
module Conservation {
  import opened Money
  import opened Entities
  import opened Refunds
  import opened RefundLaws
  import opened Payments
  import opened Drawer
  import opened Settlement
  import opened SettlementLaws
  import opened PricingAnswers
  import Pricing

  /** The states the system can be in: any sequence of requests from an empty database. */
  ghost predicate Reachable(s: State) { exists cs :: s == Run(EMPTY, cs) }

  lemma ReachableOk(s: State)
    requires Reachable(s)
    ensures Inv(s)
  {
    var cs :| s == Run(EMPTY, cs);
    RunKeeps(EMPTY, cs);
  }

  /** In every reachable state, through every edit and merge and whatever the catalog became, each line
      total is its gross less its discount and each order's stored total agrees with its stored parts. */
  lemma TotalsAlwaysAgree(s: State, i: nat)
    requires Reachable(s) && i < |s.orders|
    ensures var o := s.orders[i];
            && Pricing.TotalsAgree(o.totals)
            && (forall l <- o.lines ::
                  l.total == Pricing.LineGross(l) - l.discount && 0 <= l.discount <= Pricing.LineGross(l))
            && (o.status != Merged ==>
                  o.totals.subtotal == Pricing.Subtotal(o.lines) && o.totals.discount == Pricing.Discounts(o.lines))
  {
    ReachableOk(s);
    var o := s.orders[i];
    assert OrderOk(o, |s.sessions|, s.nextLine);
    forall l <- o.lines ensures Pricing.WellPriced(l) {
    }
  }

  // ----- order cash and drawer balance

  /** The movements sourced from an order add up to its cash tender, unless voided, less its cash refunds. */
  lemma OrderCashIdentity(s: State, i: nat)
    requires Reachable(s) && i < |s.orders|
    ensures OrderCash(s.ledger, i)
            == (if s.orders[i].status == Voided then 0 else AppliedBy(s.orders[i].payments, Cash))
               - TenderMoney(AllPayments(s.orders[i].refunds), Cash)
  {
    ReachableOk(s);
  }

  /** The cached closing balance is the fold of the session's movements in every reachable state. */
  lemma CachedBalance(s: State, k: nat)
    requires Reachable(s) && k < |s.sessions|
    ensures s.sessions[k].expected == SessionCash(s.ledger, k)
  {
    ReachableOk(s);
    assert DrawerOk(s, k);
  }

  /** As coded: voiding a settled order pays the whole cash tender out once more, so what was refunded
      in cash before is lost to the drawer. */
  lemma VoidPaysTheTenderAgain(s: State, i: nat)
    requires Reachable(s) && i < |s.orders| && Settled(s.orders[i].status)
    ensures AfterVoid(s, i).Ok?
    ensures var t := AfterVoid(s, i).value;
            && |t.orders| == |s.orders| && t.orders[i].status == Voided
            && OrderCash(t.ledger, i) == OrderCash(s.ledger, i) - AppliedBy(s.orders[i].payments, Cash)
            && OrderCash(t.ledger, i) == -TenderMoney(AllPayments(s.orders[i].refunds), Cash)
  {
    ReachableOk(s);
    VoidedCash(s, i);
  }

  lemma VoidedRow(s: State, i: nat)
    requires i < |s.orders| && s.orders[i].session < |s.sessions| && Settled(s.orders[i].status)
    ensures AfterVoid(s, i).Ok? && |AfterVoid(s, i).value.orders| == |s.orders|
    ensures AfterVoid(s, i).value.orders[i] == s.orders[i].(status := Voided)
  {
  }

  lemma VoidedCash(s: State, i: nat)
    requires Inv(s) && i < |s.orders| && Settled(s.orders[i].status)
    ensures AfterVoid(s, i).Ok? && |AfterVoid(s, i).value.orders| == |s.orders|
    ensures var o, t := s.orders[i], AfterVoid(s, i).value;
            && t.orders[i] == o.(status := Voided)
            && OrderCash(t.ledger, i) == OrderCash(s.ledger, i) - AppliedBy(o.payments, Cash)
            && OrderCash(t.ledger, i) == -TenderMoney(AllPayments(o.refunds), Cash)
  {
    assert OrderOk(s.orders[i], |s.sessions|, s.nextLine);
    VoidedRow(s, i);
    VoidKeeps(s, i);
    assert OrderCash(AfterVoid(s, i).value.ledger, i) == CashOwed(AfterVoid(s, i).value.orders[i]);
  }

  /** Voiding settles an order's cash exactly when none of it was refunded in cash before. */
  lemma VoidBalancesExactly(s: State, i: nat)
    requires Reachable(s) && i < |s.orders| && Settled(s.orders[i].status)
    ensures AfterVoid(s, i).Ok?
    ensures OrderCash(AfterVoid(s, i).value.ledger, i) == 0
        <==> TenderMoney(AllPayments(s.orders[i].refunds), Cash) == 0
    ensures OrderCash(AfterVoid(s, i).value.ledger, i) <= 0
  {
    VoidPaysTheTenderAgain(s, i);
    ReachableOk(s);
    assert OrderOk(s.orders[i], |s.sessions|, s.nextLine);
  }

  // ----- what never changes

  /** The rows one command writes. */
  function Added(s: State, c: Command): seq<Movement> {
    if After(s, c).Rejected? then []
    else match c
      case OpenSession(register, mapped, float) => FloatRows(|s.sessions|, Cents(float))
      case PayOrder(i, es) => CashRows(s.orders[i].session, i, In, Rows(es))
      case RefundOrder(i, q, approved) => RefundRows(s.orders[i].session, i, Decision(s.orders[i], q).value.payments)
      case VoidOrder(i, approved) => CashRows(s.orders[i].session, i, Out, s.orders[i].payments)
      case EnterCash(e, m) => if Stored(s.ledger, e.request).Some? then [] else [EntryRow(e, m)]
      case _ => []
  }

  lemma AddedRows(s: State, c: Command)
    ensures Step(s, c).ledger == s.ledger + Added(s, c)
  {
    assert s.ledger + [] == s.ledger;
  }

  lemma RowsGrow(s: State, c: Command)
    ensures |s.orders| <= |Step(s, c).orders| && |s.sessions| <= |Step(s, c).sessions|
  {
  }

  lemma {:induction false} RunGrows(s: State, cs: seq<Command>)
    ensures s.ledger <= Run(s, cs).ledger
    ensures |s.orders| <= |Run(s, cs).orders| && |s.sessions| <= |Run(s, cs).sessions|
  {
    if cs != [] {
      RunGrows(s, cs[..|cs| - 1]);
      AddedRows(Run(s, cs[..|cs| - 1]), cs[|cs| - 1]);
      RowsGrow(Run(s, cs[..|cs| - 1]), cs[|cs| - 1]);
    }
  }

  /** The rows an order keeps once it leaves the active states. */
  predicate SameSale(a: Order, b: Order) {
    a.lines == b.lines && a.totals == b.totals && a.payments == b.payments && a.paidAmount == b.paidAmount
    && a.refunds <= b.refunds && !Active(b.status)
  }

  /** Only a refund or a void of its own touches an order that has left the active states. */
  lemma OnlyRefundOrVoid(s: State, c: Command, i: nat)
    requires i < |s.orders| && !Active(s.orders[i].status) && After(s, c).Ok?
    ensures var o, t := s.orders[i], After(s, c).value;
            && i < |t.orders|
            && (t.orders[i] == o
                || (c == VoidOrder(i, true) && o.status in ActionStates(Void) && t.orders[i] == o.(status := Voided))
                || (c.RefundOrder? && c.order == i && c.approved && Decision(o, c.request).Ok?
                    && t.orders[i] == WithRefund(o, Decision(o, c.request).value)))
  {
  }

  lemma SaleFrozen(s: State, c: Command, i: nat)
    requires i < |s.orders| && !Active(s.orders[i].status)
    ensures i < |Step(s, c).orders| && SameSale(s.orders[i], Step(s, c).orders[i])
  {
    if After(s, c).Ok? {
      OnlyRefundOrVoid(s, c, i);
    }
  }

  /** Lines, totals and payments are frozen for the rest of every run; refunds are only added. */
  lemma {:induction false} FrozenForever(s: State, cs: seq<Command>, i: nat)
    requires i < |s.orders| && !Active(s.orders[i].status)
    ensures i < |Run(s, cs).orders| && SameSale(s.orders[i], Run(s, cs).orders[i])
  {
    if cs != [] {
      var init := cs[..|cs| - 1];
      FrozenForever(s, init, i);
      SaleFrozen(Run(s, init), cs[|cs| - 1], i);
    }
  }

  // ----- closed sessions

  /** What the rows of one session, all paid out, amount to. */
  function PaidOut(ledger: seq<Movement>, k: nat): int { -SessionCash(ledger, k) }

  predicate Reopens(c: Command, k: nat) { c.ReopenSession? && c.session == k }

  lemma ClosedUntouched(s: State, k: nat, c: Command)
    requires k < |s.sessions| && !s.sessions[k].open && !Reopens(c, k)
    ensures k < |Step(s, c).sessions| && !Step(s, c).sessions[k].open
    ensures Step(s, c).sessions[k].actual == s.sessions[k].actual
    ensures Step(s, c).sessions[k].variance == s.sessions[k].variance
    ensures Step(s, c).sessions[k].closedAt == s.sessions[k].closedAt
  {
  }

  lemma {:induction false} ClosedStays(s: State, k: nat, cs: seq<Command>)
    requires k < |s.sessions| && !s.sessions[k].open && forall c <- cs :: !Reopens(c, k)
    ensures k < |Run(s, cs).sessions| && !Run(s, cs).sessions[k].open
    ensures Run(s, cs).sessions[k].actual == s.sessions[k].actual
    ensures Run(s, cs).sessions[k].variance == s.sessions[k].variance
    ensures Run(s, cs).sessions[k].closedAt == s.sessions[k].closedAt
  {
    if cs != [] {
      ClosedStays(s, k, cs[..|cs| - 1]);
      ClosedUntouched(Run(s, cs[..|cs| - 1]), k, cs[|cs| - 1]);
    }
  }

  /** Reconciliation: count a drawer, close it, and let any requests follow that do not reopen it. Then
      the count less the balance now expected is the recorded variance plus the order refunds posted
      since the close, and nothing else can have been posted to it. */
  lemma ClosedReconciliation(s: State, k: nat, mapped: bool, actual: Exact, later: seq<Command>)
    requires Reachable(s) && AfterClose(s, k, mapped, actual).Ok? && forall c <- later :: !Reopens(c, k)
    ensures var u := Run(AfterClose(s, k, mapped, actual).value, later);
            && k < |u.sessions| && s.ledger <= u.ledger
            && var since := u.ledger[|s.ledger|..];
               && u.sessions[k].actual == Some(Cents(actual))
               && u.sessions[k].variance == Cents(actual) - SessionCash(s.ledger, k)
               && Cents(actual) - u.sessions[k].expected == u.sessions[k].variance + PaidOut(since, k)
               && forall m <- since :: m.session == k ==> LateRow(m)
  {
    ReachableOk(s);
    var t := AfterClose(s, k, mapped, actual).value;
    CloseKeeps(s, k, mapped, actual);
    JustClosed(s, k, mapped, actual);
    RunKeeps(t, later);
    RunGrows(t, later);
    ClosedStays(t, k, later);
    SinceClose(s.ledger, Run(t, later), k);
  }

  lemma JustClosed(s: State, k: nat, mapped: bool, actual: Exact)
    requires AfterClose(s, k, mapped, actual).Ok?
    ensures var t := AfterClose(s, k, mapped, actual).value;
            && t.ledger == s.ledger && k < |t.sessions| && !t.sessions[k].open && t.sessions[k].closedAt == |s.ledger|
            && t.sessions[k].actual == Some(Cents(actual))
            && t.sessions[k].variance == Cents(actual) - SessionCash(s.ledger, k)
  {
    InLessOut(s.ledger, k);
  }

  lemma SinceClose(closed: seq<Movement>, u: State, k: nat)
    requires k < |u.sessions| && DrawersOk(u) && !u.sessions[k].open
    requires closed <= u.ledger && u.sessions[k].closedAt == |closed|
    ensures var since := u.ledger[|closed|..];
            && u.sessions[k].actual.Some?
            && u.sessions[k].actual.value - u.sessions[k].expected == u.sessions[k].variance + PaidOut(since, k)
            && forall m <- since :: m.session == k ==> LateRow(m)
  {
    assert DrawerOk(u, k);
    assert u.ledger[..|closed|] == closed;
    CashConcat(closed, u.ledger[|closed|..], k);
    assert closed + u.ledger[|closed|..] == u.ledger;
  }

  // ----- refunds over runs

  /** In every reachable state, every refund balances three ways, refunds never exceed the order total,
      and no tender type is refunded beyond what it paid, however many payment rows it has. */
  lemma RefundSafetyOfRuns(s: State, i: nat)
    requires Reachable(s) && i < |s.orders|
    ensures var o := s.orders[i];
            && (forall r <- o.refunds :: LinesMoney(r.lines) == r.amount == PaymentsMoney(r.payments) && r.amount > 0)
            && (o.refunds != [] ==> RefundedTotal(o.refunds) <= o.totals.total)
            && (forall t :: TenderMoney(AllPayments(o.refunds), t) <= AppliedBy(o.payments, t))
            && (forall l <- o.lines :: LineQuantity(AllLines(o.refunds), l.id) <= l.quantity)
  {
    ReachableOk(s);
    var o := s.orders[i];
    assert OrderOk(o, |s.sessions|, s.nextLine);
    forall r <- o.refunds ensures Balanced(r) {
    }
    forall l <- o.lines ensures LineQuantity(AllLines(o.refunds), l.id) <= l.quantity {
      assert Pricing.WellPriced(l);
    }
  }

  /** In every reachable state the money refunded for a line is within half a cent per refund line of the
      exact share of the quantity refunded. */
  lemma ProportionalRefunds(s: State, i: nat, l: Line)
    requires Reachable(s) && i < |s.orders| && l in s.orders[i].lines
    ensures var done := AllLines(s.orders[i].refunds);
            var n, money, quantity := LineCount(done, l.id), LineMoney(done, l.id), LineQuantity(done, l.id);
            -(n * l.quantity) <= 2 * (money * l.quantity - l.total * quantity) <= n * l.quantity
  {
    ReachableOk(s);
    var o := s.orders[i];
    assert OrderOk(o, |s.sessions|, s.nextLine) && Pricing.WellPriced(l);
    assert SharesOf(l, AllLines(o.refunds));
    ProportionalDrift(l, AllLines(o.refunds));
  }

  /** In every reachable state, a settled order accepts every refund up to its balance if and only if no
      tender type is both split over rows and partly refunded; then a full refund also empties it for good. */
  lemma RefundCompletenessOfRuns(s: State, i: nat)
    requires Reachable(s) && i < |s.orders| && Settled(s.orders[i].status)
    ensures var o := s.orders[i];
            var completable := Completable(o.payments, AllPayments(o.refunds));
            && ((forall cents :: 0 < cents <= Remaining(o) ==> Decision(o, ByAmount(Typed(cents))).Ok?)
                <==> completable)
            && (completable && Remaining(o) >= 1 ==>
                  && Decision(o, Full).Ok?
                  && Remaining(WithRefund(o, Decision(o, Full).value)) == 0
                  && forall next :: Decision(WithRefund(o, Decision(o, Full).value), next).Rejected?)
  {
    ReachableOk(s);
    var o := s.orders[i];
    assert OrderOk(o, |s.sessions|, s.nextLine);
    RefundCompleteness(o);
    if Remaining(o) >= 1 {
      FullRefundCompletes(o);
    }
  }

  // ----- the stuck history, from an empty database

  const ONE_ITEM: Catalog := map[0 := CatalogItem(200, 0, 0, true, true, None)]
  const ONE_SALE := Pricing.LineRequest(0, Decimal(1, 1), 200, None, None)
  const NO_ROOM := RoomDetails(false, NoBooking, false, false)
  const HALF_IN_CASH := Entry(Some(Cash), Decimal(100, 100), None, None, true, NO_ROOM)

  const SOLD_LINE := Line(0, 0, None, 10000, 200, 0, 200)
  const HALF_ROW := Payment(Cash, 100, 100, 0, false)

  lemma OneSalePriced()
    ensures Pricing.Acceptable([ONE_SALE], [], ONE_ITEM) && Pricing.NewLines([ONE_SALE], 0, ONE_ITEM) == [SOLD_LINE]
    ensures Pricing.TotalsOf([SOLD_LINE], ONE_ITEM) == Totals(200, 0, 0, 0, 200)
  {
    RoundExact(10000, 1);
    RoundExact(200, QUANTITY_SCALE);
    RoundExact(0, RATE_SCALE);
    RoundExact(200, RATE_SCALE);
    assert Pricing.NewLine(ONE_SALE, 0, ONE_ITEM) == SOLD_LINE;
    Pricing.OneLineSums(SOLD_LINE, ONE_ITEM);
  }

  lemma TwoHalvesPay()
    ensures PaymentControl(Draft, 200, [HALF_IN_CASH, HALF_IN_CASH])
    ensures Rows([HALF_IN_CASH, HALF_IN_CASH]) == [HALF_ROW, HALF_ROW]
    ensures FolioTotal([HALF_ROW, HALF_ROW]) == 0
  {
    RoundExact(100, 100);
    var es, ps := [HALF_IN_CASH, HALF_IN_CASH], [HALF_ROW, HALF_ROW];
    assert es[..1] == [HALF_IN_CASH] && es[..1][..0] == [];
    assert ps[..1] == [HALF_ROW] && ps[..1][..0] == [];
    assert Row(HALF_IN_CASH) == HALF_ROW;
    assert EntriesTotal(es[..1]) == 100;
    assert AppliedBy(ps[..1], RoomCharge) == 0;
  }

  /** One item of 2.00, settled as 1.00 in cash and again 1.00 in cash. */
  function SplitPurchase(): seq<Command> {
    [OpenSession(0, true, Decimal(0, 1)),
     CreateOrder(0, true, [ONE_SALE], ONE_ITEM, false),
     PayOrder(0, [HALF_IN_CASH, HALF_IN_CASH])]
  }

  lemma SplitPurchaseRuns()
    ensures var s := Run(EMPTY, SplitPurchase());
            && |s.orders| == 1 && s.orders[0].session < |s.sessions|
            && Settled(s.orders[0].status) && s.orders[0].refunds == [] && TwoCashRows(s.orders[0].payments, 100)
  {
    var cs := SplitPurchase();
    RoundExact(0, 1);
    OneSalePriced();
    TwoHalvesPay();
    var drawer := Session(0, true, 0, None, 0, 0);
    var s1 := State([], [drawer], [], 0);
    var o := Order(0, Draft, [SOLD_LINE], Totals(200, 0, 0, 0, 200), [], 0, []);
    var s2 := State([o], [drawer], [], 1);
    assert Step(EMPTY, cs[0]) == s1;
    assert Step(s1, cs[1]) == s2;
    assert cs[..|cs| - 1] == cs[..2] && cs[..2][..1] == cs[..1] && cs[..1][..0] == [];
    assert Run(EMPTY, cs[..1]) == s1;
    assert Run(EMPTY, cs[..2]) == s2;
  }

  /** The same bill with one half of it refunded. */
  function SplitAndRefunded(): seq<Command> { SplitPurchase() + [RefundOrder(0, ByAmount(Typed(100)), true)] }

  lemma SplitPurchaseRefunds()
    ensures var s := Run(EMPTY, SplitAndRefunded());
            && |s.orders| == 1 && Settled(s.orders[0].status) && AppliedBy(s.orders[0].payments, Cash) == 200
            && Remaining(s.orders[0]) == 100 && TenderMoney(AllPayments(s.orders[0].refunds), Cash) == 100
            && forall next :: Decision(s.orders[0], next).Rejected?
  {
    var cs := SplitPurchase();
    var before := Run(EMPTY, cs);
    SplitPurchaseRuns();
    ReachableOk(before);
    var o := before.orders[0];
    assert OrderOk(o, |before.sessions|, before.nextLine);
    SplitCashGetsStuck(o, 100);
    TwoCashSums(o.payments, 100, []);
    AppendRun(cs, RefundOrder(0, ByAmount(Typed(100)), true));
  }

  /** Such a history does happen: refund one half of a bill settled in two cash rows, and the other half
      can never be refunded. */
  lemma StuckOrderIsReachable()
    ensures var s := Run(EMPTY, SplitAndRefunded());
            && |s.orders| == 1 && Remaining(s.orders[0]) == 100
            && forall next :: AfterRefund(s, 0, next).Rejected?
  {
    SplitPurchaseRefunds();
  }

  /** Voiding it instead of refunding the rest pays the first half out twice: 1.00 is missing. */
  lemma VoidLosesMoney()
    ensures var s := Run(EMPTY, SplitAndRefunded() + [VoidOrder(0, true)]);
            |s.orders| == 1 && s.orders[0].status == Voided && OrderCash(s.ledger, 0) == -100
  {
    var s := Run(EMPTY, SplitAndRefunded());
    SplitPurchaseRefunds();
    AppendRun(SplitAndRefunded(), VoidOrder(0, true));
    VoidPaysTheTenderAgain(s, 0);
  }

  /** In every reachable state a settled order is folio-pending when one of its payment rows is a room charge,
      and paid when none is; its paid amount is what the other rows applied. */
  lemma FolioExactly(s: State, i: nat)
    requires Reachable(s) && i < |s.orders| && (s.orders[i].status == Paid || s.orders[i].status == FolioPending)
    ensures s.orders[i].status == FolioPending <==> exists p <- s.orders[i].payments :: p.tender == RoomCharge
    ensures s.orders[i].paidAmount == Sum(s.orders[i].payments, Immediate())
  {
    ReachableOk(s);
    assert OrderOk(s.orders[i], |s.sessions|, s.nextLine);
    ImmediateSum(s.orders[i].payments);
  }

  function Immediate(): Payment -> int { (p: Payment) => if p.tender == RoomCharge then 0 else p.applied }

  lemma {:induction false} ImmediateSum(ps: seq<Payment>)
    ensures Applied(ps) - AppliedBy(ps, RoomCharge) == Sum(ps, Immediate())
  {
    if ps != [] {
      ImmediateSum(ps[..|ps| - 1]);
    }
  }

  // ----- merging

  /** A merge moves every source line to the target exactly once and adds subtotals and discounts exactly;
      under the rates both orders were priced with, the new total is within a cent of the two old ones. */
  lemma MergeConserves(s: State, i: nat, j: nat, catalog: Catalog)
    requires Reachable(s) && AfterMerge(s, i, Some(j), catalog).Ok?
    ensures var t := AfterMerge(s, i, Some(j), catalog).value;
            var a, b, m := s.orders[j], s.orders[i], t.orders[j];
            && t.orders[i].lines == [] && t.orders[i].status == Merged
            && multiset(m.lines) == multiset(a.lines) + multiset(b.lines)
            && DistinctIds(m.lines)
            && m.totals.subtotal == a.totals.subtotal + b.totals.subtotal
            && m.totals.discount == a.totals.discount + b.totals.discount
            && (a.totals == Pricing.TotalsOf(a.lines, catalog) && b.totals == Pricing.TotalsOf(b.lines, catalog)
                ==> Pricing.WithinOne(m.totals.total, a.totals.total + b.totals.total))
            && forall k :: 0 <= k < |s.orders| && k != i && k != j ==> t.orders[k] == s.orders[k]
  {
    ReachableOk(s);
    var a, b := s.orders[j], s.orders[i];
    assert OrderOk(a, |s.sessions|, s.nextLine) && OrderOk(b, |s.sessions|, s.nextLine);
    MergeOrdersKeep(s, i, j, catalog);
    var t := AfterMerge(s, i, Some(j), catalog).value;
    assert OrderOk(t.orders[j], |t.sessions|, t.nextLine);
    forall l | l in a.lines || l in b.lines ensures Pricing.Remergeable(l, catalog) {
      assert l in a.lines + b.lines;
    }
    Pricing.MergeConservation(a.lines, b.lines, catalog);
  }

  predicate Carries(c: Command, catalog: Catalog) {
    c.CreateOrder? || c.EditOrder? || c.MergeOrders? ==> c.catalog == catalog
  }

  predicate PricedBy(o: Order, catalog: Catalog) {
    o.status != Merged ==> o.totals == Pricing.TotalsOf(o.lines, catalog)
  }

  lemma StepPricedBy(s: State, c: Command, catalog: Catalog)
    requires Carries(c, catalog) && forall o <- s.orders :: PricedBy(o, catalog)
    ensures forall o <- Step(s, c).orders :: PricedBy(o, catalog)
  {
    var t := Step(s, c);
    forall i | 0 <= i < |t.orders| ensures PricedBy(t.orders[i], catalog) {
      if i < |s.orders| {
        assert PricedBy(s.orders[i], catalog);
      }
    }
  }

  /** While the catalog stays the same, every order is priced by it. */
  lemma {:induction false} OneCatalog(cs: seq<Command>, catalog: Catalog)
    requires forall c <- cs :: Carries(c, catalog)
    ensures forall o <- Run(EMPTY, cs).orders :: PricedBy(o, catalog)
  {
    if cs != [] {
      OneCatalog(cs[..|cs| - 1], catalog);
      StepPricedBy(Run(EMPTY, cs[..|cs| - 1]), cs[|cs| - 1], catalog);
    }
  }

  /** In every run under one catalog, the tax, service charge and total an order stores are the nearest cents of
      what its lines add up to at the catalog's rates. */
  lemma OneCatalogTotals(cs: seq<Command>, catalog: Catalog, i: nat)
    requires (forall c <- cs :: Carries(c, catalog)) && i < |Run(EMPTY, cs).orders|
    requires Run(EMPTY, cs).orders[i].status != Merged
    ensures var o := Run(EMPTY, cs).orders[i]; TotalsAnswer(o.totals, o.lines, catalog)
  {
    OneCatalog(cs, catalog);
    var s := Run(EMPTY, cs);
    var o := s.orders[i];
    ReachableOk(s);
    assert OrderOk(o, |s.sessions|, s.nextLine) && PricedBy(o, catalog);
    TotalsAreNearest(o.lines, catalog);
  }

  /** In every run under one catalog, a merge changes the two orders' total by at most one cent. */
  lemma MergeTotals(cs: seq<Command>, i: nat, j: nat, catalog: Catalog)
    requires (forall c <- cs :: Carries(c, catalog)) && AfterMerge(Run(EMPTY, cs), i, Some(j), catalog).Ok?
    ensures var s := Run(EMPTY, cs); var t := AfterMerge(s, i, Some(j), catalog).value;
            |t.orders| == |s.orders|
            && Pricing.WithinOne(t.orders[j].totals.total, s.orders[j].totals.total + s.orders[i].totals.total)
  {
    OneCatalog(cs, catalog);
    var s := Run(EMPTY, cs);
    assert PricedBy(s.orders[i], catalog) && PricedBy(s.orders[j], catalog);
    MergeConserves(s, i, j, catalog);
  }

  // ----- manual cash retries

  predicate Retryable(c: Command) { c.EnterCash? && c.entry.request.Some? }

  /** The ids of the manual entries a run has accepted. */
  function AcceptedIds(cs: seq<Command>): set<int> {
    if cs == [] then {}
    else
      var init, c := cs[..|cs| - 1], cs[|cs| - 1];
      if Retryable(c) && After(Run(EMPTY, init), c).Ok? then AcceptedIds(init) + {c.entry.request.value}
      else AcceptedIds(init)
  }

  /** The run with only the first accepted request of each id kept; everything else stays. */
  function FirstAccepted(cs: seq<Command>): seq<Command> {
    if cs == [] then []
    else
      var init, c := cs[..|cs| - 1], cs[|cs| - 1];
      if Retryable(c) && (c.entry.request.value in AcceptedIds(init) || After(Run(EMPTY, init), c).Rejected?)
      then FirstAccepted(init)
      else FirstAccepted(init) + [c]
  }

  predicate Known(ledger: seq<Movement>, id: int) { exists m <- ledger :: m.request == Some(id) }

  lemma {:induction false} IdsAreStored(cs: seq<Command>)
    ensures forall id :: id in AcceptedIds(cs) <==> Known(Run(EMPTY, cs).ledger, id)
  {
    if cs != [] {
      var init, c := cs[..|cs| - 1], cs[|cs| - 1];
      IdsAreStored(init);
      forall id ensures id in AcceptedIds(cs) <==> Known(Run(EMPTY, cs).ledger, id) {
        NewRequests(Run(EMPTY, init), c, id);
      }
    }
  }

  predicate Plain(ms: seq<Movement>) { forall m <- ms :: m.request.None? }

  lemma PlainAdded(s: State, c: Command)
    requires !c.EnterCash?
    ensures Plain(Added(s, c))
  {
    if After(s, c).Ok? {
      match c
      case PayOrder(i, es) => CashRowsPlain(s.orders[i].session, i, In, Rows(es));
      case VoidOrder(i, approved) => CashRowsPlain(s.orders[i].session, i, Out, s.orders[i].payments);
      case RefundOrder(i, q, approved) =>
          RefundRowsPlain(s.orders[i].session, i, Decision(s.orders[i], q).value.payments);
      case _ =>
    }
  }

  lemma PlainKnown(ledger: seq<Movement>, ms: seq<Movement>, id: int)
    requires Plain(ms)
    ensures Known(ledger + ms, id) <==> Known(ledger, id)
  {
    if Known(ledger, id) {
      var m :| m in ledger && m.request == Some(id);
      assert m in ledger + ms;
    }
  }

  lemma EntryKnown(s: State, e: CashEntry, mapping: Mapping, id: int)
    ensures Known(s.ledger + Added(s, EnterCash(e, mapping)), id)
            <==> (Known(s.ledger, id) || (AfterEntry(s, e, mapping).Ok? && e.request == Some(id)))
  {
    var ms := Added(s, EnterCash(e, mapping));
    if Known(s.ledger, id) {
      var m :| m in s.ledger && m.request == Some(id);
      assert m in s.ledger + ms;
    }
    if ms != [] {
      assert ms == [EntryRow(e, mapping)] && EntryRow(e, mapping) in s.ledger + ms;
    }
  }

  /** Only an accepted manual entry brings a request id into the ledger. */
  lemma NewRequests(s: State, c: Command, id: int)
    ensures Known(Step(s, c).ledger, id)
            <==> (Known(s.ledger, id) || (Retryable(c) && After(s, c).Ok? && c.entry.request == Some(id)))
  {
    AddedRows(s, c);
    if c.EnterCash? {
      EntryKnown(s, c.entry, c.mapping, id);
    } else {
      PlainAdded(s, c);
      PlainKnown(s.ledger, Added(s, c), id);
    }
  }

  lemma {:induction false} CashRowsPlain(session: nat, order: nat, d: Direction, ps: seq<Payment>)
    ensures Plain(CashRows(session, order, d, ps))
  {
    if ps != [] {
      CashRowsPlain(session, order, d, ps[..|ps| - 1]);
    }
  }

  lemma {:induction false} RefundRowsPlain(session: nat, order: nat, ps: seq<RefundPayment>)
    ensures Plain(RefundRows(session, order, ps))
  {
    if ps != [] {
      RefundRowsPlain(session, order, ps[..|ps| - 1]);
    }
  }

  lemma AppendRun(cs: seq<Command>, c: Command)
    ensures Run(EMPTY, cs + [c]) == Step(Run(EMPTY, cs), c)
  {
    var more := cs + [c];
    assert more[..|more| - 1] == cs && more[|more| - 1] == c;
  }

  lemma KnownIsNoOp(s: State, c: Command)
    requires Retryable(c) && Known(s.ledger, c.entry.request.value)
    ensures Step(s, c) == s
  {
  }

  /** Retrying is harmless: every run ends in the state of the run that keeps only the first accepted
      request of each id, whatever is repeated, conflicting, rejected or late. */
  lemma {:induction false} RetriesAreHarmless(cs: seq<Command>)
    ensures Run(EMPTY, FirstAccepted(cs)) == Run(EMPTY, cs)
  {
    if cs != [] {
      var init, c := cs[..|cs| - 1], cs[|cs| - 1];
      RetriesAreHarmless(init);
      IdsAreStored(init);
      if FirstAccepted(cs) == FirstAccepted(init) {
        if c.EnterCash? && c.entry.request.Some? && Known(Run(EMPTY, init).ledger, c.entry.request.value) {
          KnownIsNoOp(Run(EMPTY, init), c);
        }
      } else {
        AppendRun(FirstAccepted(init), c);
      }
    }
  }

  /** An accepted entry can be retried in any later state, open or closed, under any mapping of the registers:
      nothing is written, and it is accepted exactly when it is still allowed and resolves to the same accounts. */
  lemma ReplayForever(s: State, e: CashEntry, mapping: Mapping, later: seq<Command>, now: Mapping)
    requires Reachable(s) && e.request.Some? && AfterEntry(s, e, mapping).Ok?
    ensures var u := Run(AfterEntry(s, e, mapping).value, later);
            AfterEntry(u, e, now)
            == if EntryAllowed(e, now) && RouteOf(e, now) == RouteOf(e, mapping) then Ok(u) else Rejected
  {
    ReachableOk(s);
    var t := AfterEntry(s, e, mapping).value;
    EntryKeeps(s, e, mapping);
    RunKeeps(t, later);
    RunGrows(t, later);
    assert EntryRow(e, mapping) in t.ledger;
    StoredIsEntry(Run(t, later), e, mapping);
  }

  /** An entry that names its account and no destination register does not depend on the mapping. */
  lemma ReplayWithOwnAccount(s: State, e: CashEntry, mapping: Mapping, later: seq<Command>, now: Mapping)
    requires Reachable(s) && e.request.Some? && AfterEntry(s, e, mapping).Ok? && e.source.Some? && e.register.None?
    ensures var u := Run(AfterEntry(s, e, mapping).value, later);
            AfterEntry(u, e, now) == Ok(u)
  {
    ReplayForever(s, e, mapping, later, now);
  }

  lemma StoredIsEntry(u: State, e: CashEntry, mapping: Mapping)
    requires RequestsUnique(u.ledger) && EntryRow(e, mapping) in u.ledger && e.request.Some?
    ensures Stored(u.ledger, e.request) == Some(EntryRow(e, mapping))
  {
    var a :| 0 <= a < |u.ledger| && u.ledger[a] == EntryRow(e, mapping);
    var stored := Stored(u.ledger, e.request);
    var b :| 0 <= b < |u.ledger| && u.ledger[b] == stored.value;
  }
}
