/** What every run of the settlement kernel keeps. */
module SettlementLaws {
  import opened Money
  import opened Entities
  import opened Refunds
  import opened RefundLaws
  import opened Payments
  import opened Drawer
  import opened Settlement
  import Pricing

  // ----- the invariant, in four parts

  predicate NotPaid(o: Order) { o.payments == [] && o.refunds == [] && o.paidAmount == 0 }

  ghost predicate PaidFor(o: Order) {
    && PaidUp(o) && RefundsSound(o) && o.totals.total > 0
    && o.paidAmount == Applied(o.payments) - AppliedBy(o.payments, RoomCharge)
  }

  predicate OnFolio(ps: seq<Payment>) { exists p <- ps :: p.tender == RoomCharge }

  ghost predicate OrderOk(o: Order, sessions: nat, nextLine: nat) {
    && o.session < sessions
    && Pricing.AllWellPriced(o.lines) && DistinctIds(o.lines)
    && (forall l <- o.lines :: l.id < nextLine)
    && Pricing.TotalsAgree(o.totals)
    && (o.status != Merged ==>
          o.totals.subtotal == Pricing.Subtotal(o.lines) && o.totals.discount == Pricing.Discounts(o.lines))
    && o.status in {Draft, Held, Paid, FolioPending, Voided, Merged}
    && (Active(o.status) || o.status == Merged ==> NotPaid(o))
    && (Settled(o.status) ==> PaidFor(o) && o.status == if OnFolio(o.payments) then FolioPending else Paid)
    && (o.status == Voided ==> NotPaid(o) || PaidFor(o))
  }

  predicate Disjoint(a: seq<Line>, b: seq<Line>) {
    forall l <- a, l' <- b :: l.id != l'.id
  }

  ghost predicate OrdersOk(s: State) {
    && (forall i :: 0 <= i < |s.orders| ==> OrderOk(s.orders[i], |s.sessions|, s.nextLine))
    && (forall i, j :: 0 <= i < j < |s.orders| ==> Disjoint(s.orders[i].lines, s.orders[j].lines))
  }

  /** What the drawer owes to one order: its cash tender unless voided, less its cash refunds. */
  function CashOwed(o: Order): int {
    (if o.status == Voided then 0 else AppliedBy(o.payments, Cash)) - TenderMoney(AllPayments(o.refunds), Cash)
  }

  predicate CashOk(s: State) {
    && (forall i :: 0 <= i < |s.orders| ==> OrderCash(s.ledger, i) == CashOwed(s.orders[i]))
    && (forall m <- s.ledger :: m.session < |s.sessions| && (m.order.Some? ==> m.order.value < |s.orders|))
  }

  predicate LateRow(m: Movement) {
    m.order.Some? && m.kind == OrderRefund && m.direction == Out && m.amount > 0
  }

  predicate DrawerOk(s: State, k: nat)
    requires k < |s.sessions|
  {
    var x := s.sessions[k];
    && x.expected == SessionCash(s.ledger, k)
    && x.closedAt <= |s.ledger|
    && (!x.open ==>
          && x.actual.Some?
          && x.actual.value - SessionCash(s.ledger[..x.closedAt], k) == x.variance
          && forall m <- s.ledger[x.closedAt..] :: m.session == k ==> LateRow(m))
  }

  predicate DrawersOk(s: State) {
    && (forall k :: 0 <= k < |s.sessions| ==> DrawerOk(s, k))
    && (forall j, k :: 0 <= j < k < |s.sessions| && s.sessions[j].open && s.sessions[k].open
                       ==> s.sessions[j].register != s.sessions[k].register)
  }

  predicate RequestsUnique(ledger: seq<Movement>) {
    forall a, b :: 0 <= a < b < |ledger| && ledger[a].request.Some? ==> ledger[a].request != ledger[b].request
  }

  ghost predicate Inv(s: State) {
    OrdersOk(s) && CashOk(s) && DrawersOk(s) && RequestsUnique(s.ledger)
  }

  // ----- writing movements

  /** Rows of one session that may be written now: any row while it is open, order refunds always. */
  predicate Writable(s: State, k: nat, ms: seq<Movement>)
    requires k < |s.sessions|
  {
    forall m <- ms :: m.session == k && (s.sessions[k].open || LateRow(m))
  }

  lemma PostedDrawer(s: State, k: nat, ms: seq<Movement>, j: nat)
    requires k < |s.sessions| && j < |s.sessions| && DrawerOk(s, j) && Writable(s, k, ms)
    ensures DrawerOk(Posted(s, k, ms), j)
  {
    var t := Posted(s, k, ms);
    CashConcat(s.ledger, ms, j);
    InLessOut(s.ledger + ms, k);
    if j != k {
      NoCashElsewhere(ms, j);
    }
    var at := s.sessions[j].closedAt;
    assert (s.ledger + ms)[..at] == s.ledger[..at];
    assert (s.ledger + ms)[at..] == s.ledger[at..] + ms;
  }

  lemma PostedDrawers(s: State, k: nat, ms: seq<Movement>)
    requires k < |s.sessions| && DrawersOk(s) && Writable(s, k, ms)
    ensures DrawersOk(Posted(s, k, ms))
    ensures Posted(s, k, ms).ledger == s.ledger + ms && Posted(s, k, ms).orders == s.orders
    ensures Posted(s, k, ms).nextLine == s.nextLine && |Posted(s, k, ms).sessions| == |s.sessions|
  {
    assert s.ledger + [] == s.ledger;
    forall j | 0 <= j < |s.sessions| ensures DrawerOk(Posted(s, k, ms), j) {
      PostedDrawer(s, k, ms, j);
    }
  }

  lemma PostedRequests(ledger: seq<Movement>, ms: seq<Movement>)
    requires RequestsUnique(ledger)
    requires forall m <- ms :: m.request.None?
    ensures RequestsUnique(ledger + ms)
  {
    forall a, b | 0 <= a < b < |ledger + ms| && (ledger + ms)[a].request.Some?
      ensures (ledger + ms)[a].request != (ledger + ms)[b].request
    {
      if b >= |ledger| {
        assert (ledger + ms)[b] in ms;
        if a >= |ledger| { assert (ledger + ms)[a] in ms; }
      }
    }
  }

  /** Writing the cash rows of one order moves only that order's cash. */
  lemma OrderRowsCash(s: State, i: nat, o: Order, ms: seq<Movement>, d: Direction)
    requires CashOk(s) && i < |s.orders| && o.session < |s.sessions|
    requires forall m <- ms :: FromOrder(m, o.session, i, d)
    requires OrderCash(s.ledger, i) + OrderCash(ms, i) == CashOwed(o)
    ensures CashOk(State(s.orders[i := o], s.sessions, s.ledger + ms, s.nextLine))
  {
    forall j: nat | j < |s.orders|
      ensures OrderCash(s.ledger + ms, j) == OrderCash(s.ledger, j) + (if j == i then OrderCash(ms, i) else 0)
    {
      CashConcat(s.ledger, ms, j);
      if j != i {
        NoCashElsewhere(ms, j);
      }
    }
  }

  // ----- orders

  lemma OneOrderChanges(s: State, i: nat, o: Order, nextLine: nat)
    requires OrdersOk(s) && i < |s.orders| && nextLine >= s.nextLine
    requires OrderOk(o, |s.sessions|, nextLine)
    requires o.lines == s.orders[i].lines || forall l <- o.lines :: l.id >= s.nextLine
    ensures OrdersOk(State(s.orders[i := o], s.sessions, s.ledger, nextLine))
  {
    var t := State(s.orders[i := o], s.sessions, s.ledger, nextLine);
    forall j | 0 <= j < |t.orders| ensures OrderOk(t.orders[j], |t.sessions|, nextLine) {
      if j != i { assert OrderOk(s.orders[j], |s.sessions|, s.nextLine); }
    }
    forall a, b | 0 <= a < b < |t.orders| ensures Disjoint(t.orders[a].lines, t.orders[b].lines) {
      assert Disjoint(s.orders[a].lines, s.orders[b].lines);
      assert OrderOk(s.orders[a], |s.sessions|, s.nextLine) && OrderOk(s.orders[b], |s.sessions|, s.nextLine);
    }
  }

  lemma NewLinesOk(rs: seq<Pricing.LineRequest>, accepted: seq<Line>, catalog: Catalog, nextLine: nat)
    requires Pricing.Acceptable(rs, accepted, catalog)
    ensures var lines := Pricing.NewLines(rs, nextLine, catalog);
            && Pricing.AllWellPriced(lines) && DistinctIds(lines) && Pricing.RatesFor(lines, catalog)
            && Pricing.TotalsAgree(Pricing.TotalsOf(lines, catalog))
            && forall l <- lines :: nextLine <= l.id < nextLine + |rs|
  {
    Pricing.NewLinesWellPriced(rs, catalog, nextLine);
    Pricing.PricingLaw(Pricing.NewLines(rs, nextLine, catalog), catalog);
  }

  lemma CreateKeeps(s: State, k: nat, current: bool, rs: seq<Pricing.LineRequest>, catalog: Catalog, approved: bool)
    requires Inv(s) && AfterCreate(s, k, current, rs, catalog, approved).Ok?
    ensures Inv(AfterCreate(s, k, current, rs, catalog, approved).value)
  {
    var t := AfterCreate(s, k, current, rs, catalog, approved).value;
    NewLinesOk(rs, [], catalog, s.nextLine);
    var n := |s.orders|;
    forall j | 0 <= j < |t.orders| ensures OrderOk(t.orders[j], |t.sessions|, t.nextLine) {
      if j < n { assert OrderOk(s.orders[j], |s.sessions|, s.nextLine); }
    }
    forall a, b | 0 <= a < b < |t.orders| ensures Disjoint(t.orders[a].lines, t.orders[b].lines) {
      assert OrderOk(s.orders[a], |s.sessions|, s.nextLine);
      if b < n { assert Disjoint(s.orders[a].lines, s.orders[b].lines); }
    }
    NoCashElsewhere(s.ledger, n);
    SameDrawers(s, t);
  }

  lemma SameDrawers(s: State, t: State)
    requires DrawersOk(s) && t.sessions == s.sessions && t.ledger == s.ledger
    ensures DrawersOk(t)
  {
    forall k | 0 <= k < |t.sessions| ensures DrawerOk(t, k) { assert DrawerOk(s, k); }
  }

  lemma ReplaceKeeps(s: State, i: nat, rs: seq<Pricing.LineRequest>, catalog: Catalog, approved: bool)
    requires Inv(s) && AfterReplace(s, i, rs, catalog, approved).Ok?
    ensures Inv(AfterReplace(s, i, rs, catalog, approved).value)
  {
    var t := AfterReplace(s, i, rs, catalog, approved).value;
    assert OrderOk(s.orders[i], |s.sessions|, s.nextLine);
    NewLinesOk(rs, s.orders[i].lines, catalog, s.nextLine);
    OneOrderChanges(s, i, t.orders[i], t.nextLine);
    SameDrawers(s, t);
  }

  lemma SetStatusKeeps(s: State, i: nat, hold: bool)
    requires Inv(s) && AfterSetStatus(s, i, hold).Ok?
    ensures Inv(AfterSetStatus(s, i, hold).value)
  {
    var t := AfterSetStatus(s, i, hold).value;
    assert OrderOk(s.orders[i], |s.sessions|, s.nextLine);
    OneOrderChanges(s, i, t.orders[i], s.nextLine);
    SameDrawers(s, t);
  }

  lemma JoinedLines(a: seq<Line>, b: seq<Line>)
    requires Pricing.AllWellPriced(a) && Pricing.AllWellPriced(b)
    requires DistinctIds(a) && DistinctIds(b) && Disjoint(a, b)
    ensures Pricing.AllWellPriced(a + b) && DistinctIds(a + b)
  {
    forall x, y | 0 <= x < y < |a + b| ensures (a + b)[x].id != (a + b)[y].id {
      if x < |a| <= y { assert (a + b)[x] in a && (a + b)[y] in b; }
    }
  }

  lemma MergeOrdersKeep(s: State, i: nat, j: nat, catalog: Catalog)
    requires OrdersOk(s) && AfterMerge(s, i, Some(j), catalog).Ok?
    ensures OrdersOk(AfterMerge(s, i, Some(j), catalog).value)
  {
    var t := AfterMerge(s, i, Some(j), catalog).value;
    var a, b := s.orders[j].lines, s.orders[i].lines;
    assert OrderOk(s.orders[i], |s.sessions|, s.nextLine) && OrderOk(s.orders[j], |s.sessions|, s.nextLine);
    assert Disjoint(a, b) by {
      assert i < j ==> Disjoint(b, a);
      assert j < i ==> Disjoint(a, b);
    }
    JoinedLines(a, b);
    assert forall l <- a + b :: Pricing.Remergeable(l, catalog);
    Pricing.PricingLaw(a + b, catalog);
    assert OrderOk(t.orders[i], |t.sessions|, t.nextLine);
    assert OrderOk(t.orders[j], |t.sessions|, t.nextLine);
    forall k | 0 <= k < |t.orders| ensures OrderOk(t.orders[k], |t.sessions|, t.nextLine) {
      if k != i && k != j { assert OrderOk(s.orders[k], |s.sessions|, s.nextLine); }
    }
    MergeDisjoint(s, t, i, j);
  }

  lemma MergeDisjoint(s: State, t: State, i: nat, j: nat)
    requires OrdersOk(s) && i < |s.orders| && j < |s.orders| && i != j && |t.orders| == |s.orders|
    requires t.orders[i].lines == [] && t.orders[j].lines == s.orders[j].lines + s.orders[i].lines
    requires forall k :: 0 <= k < |t.orders| && k != i && k != j ==> t.orders[k].lines == s.orders[k].lines
    ensures forall x, y :: 0 <= x < y < |t.orders| ==> Disjoint(t.orders[x].lines, t.orders[y].lines)
  {
    forall x, y | 0 <= x < y < |t.orders| ensures Disjoint(t.orders[x].lines, t.orders[y].lines) {
      if x == i || y == i {
      } else if x == j {
        MergedDisjoint(s, i, j, y);
      } else if y == j {
        MergedDisjoint(s, i, j, x);
      } else {
        assert Disjoint(s.orders[x].lines, s.orders[y].lines);
      }
    }
  }

  lemma MergedDisjoint(s: State, i: nat, j: nat, k: nat)
    requires OrdersOk(s) && i < |s.orders| && j < |s.orders| && k < |s.orders| && k != i && k != j
    ensures Disjoint(s.orders[k].lines, s.orders[j].lines + s.orders[i].lines)
  {
    assert k < i ==> Disjoint(s.orders[k].lines, s.orders[i].lines);
    assert i < k ==> Disjoint(s.orders[i].lines, s.orders[k].lines);
    assert k < j ==> Disjoint(s.orders[k].lines, s.orders[j].lines);
    assert j < k ==> Disjoint(s.orders[j].lines, s.orders[k].lines);
  }

  lemma MergeKeeps(s: State, i: nat, j: nat, catalog: Catalog)
    requires Inv(s) && AfterMerge(s, i, Some(j), catalog).Ok?
    ensures Inv(AfterMerge(s, i, Some(j), catalog).value)
  {
    var t := AfterMerge(s, i, Some(j), catalog).value;
    MergeOrdersKeep(s, i, j, catalog);
    SameDrawers(s, t);
  }

  // ----- money

  /** The shared end of payment, refund and void: one order row and its cash rows are written together. */
  lemma OrderWriteKeeps(s: State, i: nat, o: Order, ms: seq<Movement>, d: Direction)
    requires Inv(s) && i < |s.orders|
    requires OrderOk(o, |s.sessions|, s.nextLine) && o.lines == s.orders[i].lines && o.session == s.orders[i].session
    requires forall m <- ms :: FromOrder(m, o.session, i, d)
    requires d == Out || s.sessions[o.session].open || ms == []
    requires OrderCash(ms, i) == CashOwed(o) - CashOwed(s.orders[i])
    ensures Inv(Posted(s.(orders := s.orders[i := o]), o.session, ms))
  {
    var u := s.(orders := s.orders[i := o]);
    SameDrawers(s, u);
    PostedDrawers(u, o.session, ms);
    OneOrderChanges(s, i, o, s.nextLine);
    OrderRowsCash(s, i, o, ms, d);
    PostedRequests(s.ledger, ms);
  }

  lemma {:induction false} PaidUpAfterPay(lines: seq<Line>, es: seq<Entry>)
    requires forall e <- es :: EntryValid(e)
    ensures forall p <- Rows(es) :: p.applied > 0 && (p.tender == RoomCharge ==> p.posting)
  {
    forall p <- Rows(es) ensures p.applied > 0 && (p.tender == RoomCharge ==> p.posting) {
      var k :| 0 <= k < |es| && p == Row(es[k]);
      assert es[k] in es;
    }
  }

  lemma {:induction false} NothingRefunded(ps: seq<Payment>, t: Tender)
    requires forall p <- ps :: p.applied > 0
    ensures AppliedBy(ps, t) >= 0
  {
    CapacityOfTender(ps, 0, t);
  }

  lemma {:induction false} FolioIsRoomCharge(ps: seq<Payment>)
    requires forall p <- ps :: p.applied > 0
    ensures AppliedBy(ps, RoomCharge) > 0 <==> OnFolio(ps)
    ensures AppliedBy(ps, RoomCharge) >= 0
  {
    if ps != [] {
      var init, p := ps[..|ps| - 1], ps[|ps| - 1];
      assert p in ps && ps == init + [p];
      FolioIsRoomCharge(init);
    }
  }

  /** Settling one order: the row that results and the cash it brings in. */
  lemma PaidOrder(o: Order, es: seq<Entry>, i: nat, sessions: nat, nextLine: nat)
    requires OrderOk(o, sessions, nextLine) && PaymentControl(o.status, o.totals.total, es)
    ensures var o', ms := PaidWith(o, Rows(es)), CashRows(o.session, i, In, Rows(es));
            && OrderOk(o', sessions, nextLine) && (forall m <- ms :: FromOrder(m, o.session, i, In))
            && OrderCash(ms, i) == CashOwed(o') - CashOwed(o)
  {
    var ps := Rows(es);
    var o' := PaidWith(o, ps);
    PaidUpAfterPay(o.lines, es);
    RowsTotal(es);
    FolioIsRoomCharge(ps);
    forall t ensures AppliedBy(ps, t) >= 0 { NothingRefunded(ps, t); }
    assert PaidUp(o');
    assert RefundsSound(o');
    assert PaidFor(o');
    CashRowsLaw(o.session, i, In, ps);
  }

  lemma PayKeeps(s: State, i: nat, es: seq<Entry>)
    requires Inv(s) && AfterPay(s, i, es).Ok?
    ensures Inv(AfterPay(s, i, es).value)
  {
    var o := s.orders[i];
    PaidOrder(o, es, i, |s.sessions|, s.nextLine);
    OrderWriteKeeps(s, i, PaidWith(o, Rows(es)), CashRows(o.session, i, In, Rows(es)), In);
  }

  /** Refunding one order: the row that results and the cash it takes out. */
  lemma RefundedOrder(o: Order, request: Request, i: nat, sessions: nat, nextLine: nat)
    requires OrderOk(o, sessions, nextLine) && Decision(o, request).Ok?
    ensures var r := Decision(o, request).value;
            var o', ms := WithRefund(o, r), RefundRows(o.session, i, r.payments);
            && OrderOk(o', sessions, nextLine) && (forall m <- ms :: FromOrder(m, o.session, i, Out))
            && OrderCash(ms, i) == CashOwed(o') - CashOwed(o)
  {
    var r := Decision(o, request).value;
    RefundSafety(o, request);
    var done := AllPayments(o.refunds);
    SharesPositive(o.payments, done, r.amount, false);
    SharesPositive(o.payments, done, r.amount, true);
    RefundRowsLaw(o.session, i, r.payments);
    HistoryGrows(o.refunds, r);
    PaymentSumsConcat(done, r.payments, Cash);
  }

  lemma RefundKeeps(s: State, i: nat, request: Request)
    requires Inv(s) && AfterRefund(s, i, request).Ok?
    ensures Inv(AfterRefund(s, i, request).value)
  {
    var o := s.orders[i];
    RefundedOrder(o, request, i, |s.sessions|, s.nextLine);
    var r := Decision(o, request).value;
    OrderWriteKeeps(s, i, WithRefund(o, r), RefundRows(o.session, i, r.payments), Out);
  }

  /** Voiding one order: the row that results and the cash it takes out. */
  lemma VoidedOrder(o: Order, i: nat, sessions: nat, nextLine: nat)
    requires OrderOk(o, sessions, nextLine) && o.status in ActionStates(Void)
    ensures var o', ms := o.(status := Voided), CashRows(o.session, i, Out, o.payments);
            && OrderOk(o', sessions, nextLine) && (forall m <- ms :: FromOrder(m, o.session, i, Out))
            && OrderCash(ms, i) == CashOwed(o') - CashOwed(o)
  {
    CashRowsLaw(o.session, i, Out, o.payments);
  }

  lemma VoidKeeps(s: State, i: nat)
    requires Inv(s) && AfterVoid(s, i).Ok?
    ensures Inv(AfterVoid(s, i).value)
  {
    var o := s.orders[i];
    VoidedOrder(o, i, |s.sessions|, s.nextLine);
    OrderWriteKeeps(s, i, o.(status := Voided), CashRows(o.session, i, Out, o.payments), Out);
  }

  /** A row without an order, of an open session, under a request id that is not stored yet. */
  lemma ManualRowKeeps(s: State, m: Movement)
    requires Inv(s) && m.session < |s.sessions| && s.sessions[m.session].open && m.order.None?
    requires m.request.Some? ==> forall x <- s.ledger :: x.request != m.request
    ensures Inv(Posted(s, m.session, [m]))
  {
    PostedDrawers(s, m.session, [m]);
    forall j: nat | j < |s.orders| ensures OrderCash(s.ledger + [m], j) == OrderCash(s.ledger, j) {
      CashConcat(s.ledger, [m], j);
      NoCashElsewhere([m], j);
    }
  }

  lemma EntryKeeps(s: State, e: CashEntry, mapping: Mapping)
    requires Inv(s) && AfterEntry(s, e, mapping).Ok?
    ensures Inv(AfterEntry(s, e, mapping).value)
  {
    if Stored(s.ledger, e.request).None? {
      ManualRowKeeps(s, EntryRow(e, mapping));
    }
  }

  // ----- sessions

  lemma NoSessionYet(s: State)
    requires CashOk(s)
    ensures SessionCash(s.ledger, |s.sessions|) == 0
  {
    NoCashElsewhere(s.ledger, |s.sessions|);
  }

  /** A new session and its float leave every order as it is. */
  lemma OpenOrders(s: State, t: State)
    requires OrdersOk(s) && t.orders == s.orders && t.nextLine == s.nextLine && |t.sessions| == |s.sessions| + 1
    ensures OrdersOk(t)
  {
    forall i | 0 <= i < |t.orders| ensures OrderOk(t.orders[i], |t.sessions|, t.nextLine) {
      assert OrderOk(s.orders[i], |s.sessions|, s.nextLine);
    }
  }

  lemma FloatCash(s: State, t: State, float: int)
    requires CashOk(s) && t.orders == s.orders && |t.sessions| == |s.sessions| + 1
    requires t.ledger == s.ledger + FloatRows(|s.sessions|, float)
    ensures CashOk(t)
  {
    var ms := FloatRows(|s.sessions|, float);
    forall j: nat | j < |s.orders| ensures OrderCash(t.ledger, j) == OrderCash(s.ledger, j) {
      CashConcat(s.ledger, ms, j);
      NoCashElsewhere(ms, j);
    }
  }

  lemma OpenKeeps(s: State, register: int, mapped: bool, float: Exact)
    requires Inv(s) && AfterOpen(s, register, mapped, float).Ok?
    ensures Inv(AfterOpen(s, register, mapped, float).value)
  {
    var t := AfterOpen(s, register, mapped, float).value;
    var x := Session(register, true, Cents(float), None, 0, 0);
    var ms := FloatRows(|s.sessions|, Cents(float));
    RoundNonNegative(100 * float.num, float.den);
    NoSessionYet(s);
    OpenDrawers(s, x, ms);
    assert t.ledger == s.ledger + ms;
    OpenOrders(s, t);
    FloatCash(s, t, Cents(float));
    PostedRequests(s.ledger, ms);
  }

  lemma NewSessionRow(s: State, x: Session)
    requires DrawersOk(s) && SessionCash(s.ledger, |s.sessions|) == 0
    requires x.open && !HasOpen(s.sessions, x.register) && x.closedAt == 0
    ensures var u := s.(sessions := s.sessions + [x.(expected := 0)]); DrawersOk(u)
  {
    var k := |s.sessions|;
    var u := s.(sessions := s.sessions + [x.(expected := 0)]);
    forall j | 0 <= j < |u.sessions| ensures DrawerOk(u, j) {
      if j < k { assert DrawerOk(s, j); }
    }
    forall a, b | 0 <= a < b < |u.sessions| && u.sessions[a].open && u.sessions[b].open
      ensures u.sessions[a].register != u.sessions[b].register
    {
      assert s.sessions[a].open;
    }
  }

  /** The drawer of a new session starts from its float. */
  lemma OpenDrawers(s: State, x: Session, ms: seq<Movement>)
    requires DrawersOk(s) && SessionCash(s.ledger, |s.sessions|) == 0
    requires x.open && !HasOpen(s.sessions, x.register) && x.closedAt == 0
    requires ms == FloatRows(|s.sessions|, x.expected) && x.expected >= 0
    ensures var t := Posted(s.(sessions := s.sessions + [x]), |s.sessions|, ms);
            DrawersOk(t) && |t.sessions| == |s.sessions| + 1 && t.ledger == s.ledger + ms
  {
    var k := |s.sessions|;
    var u, v := s.(sessions := s.sessions + [x]), s.(sessions := s.sessions + [x.(expected := 0)]);
    NewSessionRow(s, x);
    if x.expected == 0 {
      assert u == v && s.ledger + [] == s.ledger;
    } else {
      PostedDrawers(v, k, ms);
      assert Posted(u, k, ms) == Posted(v, k, ms);
    }
  }

  lemma SessionRowChanges(s: State, k: nat, x: Session)
    requires Inv(s) && k < |s.sessions|
    requires var t := s.(sessions := s.sessions[k := x]); DrawerOk(t, k)
    requires x.register == s.sessions[k].register
    requires x.open && !s.sessions[k].open ==> !HasOpen(s.sessions, x.register)
    ensures Inv(s.(sessions := s.sessions[k := x]))
  {
    var t := s.(sessions := s.sessions[k := x]);
    forall j | 0 <= j < |t.sessions| ensures DrawerOk(t, j) {
      if j != k { assert DrawerOk(s, j); }
    }
    forall i | 0 <= i < |t.orders| ensures OrderOk(t.orders[i], |t.sessions|, t.nextLine) {
      assert OrderOk(s.orders[i], |s.sessions|, s.nextLine);
    }
  }

  lemma CloseKeeps(s: State, k: nat, mapped: bool, actual: Exact)
    requires Inv(s) && AfterClose(s, k, mapped, actual).Ok?
    ensures Inv(AfterClose(s, k, mapped, actual).value)
  {
    InLessOut(s.ledger, k);
    var t := AfterClose(s, k, mapped, actual).value;
    assert s.ledger[..|s.ledger|] == s.ledger;
    assert t == s.(sessions := s.sessions[k := t.sessions[k]]);
    SessionRowChanges(s, k, t.sessions[k]);
  }

  lemma ReopenKeeps(s: State, k: nat)
    requires Inv(s) && AfterReopen(s, k).Ok?
    ensures Inv(AfterReopen(s, k).value)
  {
    assert DrawerOk(s, k);
    SessionRowChanges(s, k, AfterReopen(s, k).value.sessions[k]);
  }

  // ----- the invariant of every run

  lemma StepKeeps(s: State, c: Command)
    requires Inv(s)
    ensures Inv(Step(s, c))
  {
    if After(s, c).Ok? {
      match c
      case OpenSession(register, mapped, float) => OpenKeeps(s, register, mapped, float);
      case CloseSession(k, mapped, actual) => CloseKeeps(s, k, mapped, actual);
      case ReopenSession(k, approved) => ReopenKeeps(s, k);
      case CreateOrder(k, current, lines, catalog, approved) => CreateKeeps(s, k, current, lines, catalog, approved);
      case EditOrder(i, replacement, catalog, approved) =>
        if replacement.Some? { ReplaceKeeps(s, i, replacement.value, catalog, approved); }
      case SetStatus(i, hold) => SetStatusKeeps(s, i, hold);
      case MergeOrders(i, j, catalog) => MergeKeeps(s, i, j.value, catalog);
      case PayOrder(i, es) => PayKeeps(s, i, es);
      case RefundOrder(i, request, approved) => RefundKeeps(s, i, request);
      case VoidOrder(i, approved) => VoidKeeps(s, i);
      case EnterCash(e, mapping) => EntryKeeps(s, e, mapping);
    }
  }

  lemma {:induction false} RunKeeps(s: State, cs: seq<Command>)
    requires Inv(s)
    ensures Inv(Run(s, cs))
  {
    if cs != [] {
      RunKeeps(s, cs[..|cs| - 1]);
      StepKeeps(Run(s, cs[..|cs| - 1]), cs[|cs| - 1]);
    }
  }
}
