/** The settlement services as they run: rows are changed in place inside one transaction, which
    commits when the method returns true and is rolled back when it returns false. */
module Database {
  import opened Money
  import opened Entities
  import opened Refunds
  import opened Payments
  import opened Drawer
  import opened Settlement
  import Pricing

  lemma PostedTwice(s: State, k: nat, a: seq<Movement>, m: Movement)
    requires k < |s.sessions|
    ensures Posted(Posted(s, k, a), k, [m]) == Posted(s, k, a + [m])
  {
    assert s.ledger + a + [m] == s.ledger + (a + [m]);
    assert s.ledger + [] == s.ledger;
  }

  class Tables {
    var orders: seq<Order>
    var sessions: seq<Session>
    var ledger: seq<Movement>
    var nextLine: nat

    function Snapshot(): State
      reads this
    {
      State(orders, sessions, ledger, nextLine)
    }

    constructor ()
      ensures Snapshot() == EMPTY
    {
      orders, sessions, ledger, nextLine := [], [], [], 0;
    }

    method Rollback(s: State)
      modifies this
      ensures Snapshot() == s
    {
      orders, sessions, ledger, nextLine := s.orders, s.sessions, s.ledger, s.nextLine;
    }

    // ----- the drawer

    /** Sums the session's movements by direction and caches the difference. */
    method ComputeSessionExpectedCash(k: nat)
      requires k < |sessions|
      modifies this`sessions
      ensures Snapshot() == Recomputed(old(Snapshot()), k)
    {
      var totalIn, totalOut := 0, 0;
      for i := 0 to |ledger|
        invariant totalIn == Flow(ledger[..i], k, In) && totalOut == Flow(ledger[..i], k, Out)
        invariant Snapshot() == old(Snapshot())
      {
        assert ledger[..i + 1][..i] == ledger[..i];
        if ledger[i].session == k {
          if ledger[i].direction == In {
            totalIn := totalIn + ledger[i].amount;
          } else {
            totalOut := totalOut + ledger[i].amount;
          }
        }
      }
      assert ledger[..|ledger|] == ledger;
      sessions := sessions[k := sessions[k].(expected := totalIn - totalOut)];
    }

    /** Only the payouts of an order may still reach a closed drawer. */
    method WriteMovement(m: Movement) returns (ok: bool)
      requires m.session < |sessions|
      modifies this
      ensures ok <==> old(sessions[m.session].open) || (m.order.Some? && m.kind != CashSale)
      ensures Snapshot() == if ok then Posted(old(Snapshot()), m.session, [m]) else old(Snapshot())
    {
      if !sessions[m.session].open && (m.order.None? || m.kind == CashSale) {
        return false;
      }
      ledger := ledger + [m];
      ComputeSessionExpectedCash(m.session);
      ok := true;
    }

    method FindOpen(register: int) returns (found: bool)
      ensures found <==> HasOpen(sessions, register)
    {
      for k := 0 to |sessions|
        invariant forall j :: 0 <= j < k ==> !(sessions[j].register == register && sessions[j].open)
      {
        if sessions[k].register == register && sessions[k].open {
          return true;
        }
      }
      found := false;
    }

    method OpenRegisterSession(register: int, mapped: bool, float: Exact) returns (ok: bool)
      modifies this
      ensures ok <==> AfterOpen(old(Snapshot()), register, mapped, float).Ok?
      ensures Snapshot() == Step(old(Snapshot()), OpenSession(register, mapped, float))
    {
      var occupied := FindOpen(register);
      if !mapped || occupied || float.num < 0 {
        return false;
      }
      var k := |sessions|;
      sessions := sessions + [Session(register, true, Cents(float), None, 0, 0)];
      if Cents(float) > 0 {
        ok := WriteMovement(Movement(k, None, In, OpeningFloat, Cents(float), None, NO_DETAILS, NO_ROUTE));
      }
      ok := true;
    }

    method CloseRegisterSession(k: nat, mapped: bool, actual: Exact) returns (ok: bool)
      modifies this
      ensures ok <==> AfterClose(old(Snapshot()), k, mapped, actual).Ok?
      ensures Snapshot() == Step(old(Snapshot()), CloseSession(k, mapped, actual))
    {
      if k >= |sessions| || !sessions[k].open || !mapped {
        return false;
      }
      var before := Snapshot();
      ComputeSessionExpectedCash(k);
      if actual.num < 0 {
        Rollback(before);
        return false;
      }
      var row := sessions[k];
      sessions := sessions[k := row.(open := false, actual := Some(Cents(actual)),
                                     variance := Cents(actual) - row.expected, closedAt := |ledger|)];
      ok := true;
    }

    method ReopenRegisterSession(k: nat, approved: bool) returns (ok: bool)
      modifies this
      ensures ok <==> After(old(Snapshot()), ReopenSession(k, approved)).Ok?
      ensures Snapshot() == Step(old(Snapshot()), ReopenSession(k, approved))
    {
      if k >= |sessions| || sessions[k].open {
        return false;
      }
      var occupied := FindOpen(sessions[k].register);
      if occupied || !approved {
        return false;
      }
      sessions := sessions[k := sessions[k].(open := true, actual := None, variance := 0)];
      ok := true;
    }

    // ----- orders

    method CreateOrder(k: nat, current: bool, rs: seq<Pricing.LineRequest>, catalog: Catalog, approved: bool)
      returns (ok: bool)
      modifies this
      ensures ok <==> AfterCreate(old(Snapshot()), k, current, rs, catalog, approved).Ok?
      ensures Snapshot() == Step(old(Snapshot()), Command.CreateOrder(k, current, rs, catalog, approved))
    {
      if k >= |sessions| || !sessions[k].open || !current || rs == [] {
        return false;
      }
      var priced := Pricing.PriceLines(rs, [], catalog, nextLine);
      if priced.Rejected? {
        return false;
      }
      var before := Snapshot();
      orders := orders + [Order(k, Draft, priced.value.lines, priced.value.totals, [], 0, [])];
      nextLine := nextLine + |rs|;
      ok := DiscountApproved(priced.value.totals, approved);
      if !ok {
        Rollback(before);
      }
    }

    method UpdateOrder(i: nat, replacement: Option<seq<Pricing.LineRequest>>, catalog: Catalog, approved: bool)
      returns (ok: bool)
      modifies this
      ensures ok <==> AfterEdit(old(Snapshot()), i, replacement, catalog, approved).Ok?
      ensures Snapshot() == Step(old(Snapshot()), EditOrder(i, replacement, catalog, approved))
    {
      if i >= |orders| || orders[i].status !in ActionStates(Edit) {
        return false;
      }
      var before := Snapshot();
      if replacement.Some? {
        var priced := Pricing.PriceLines(replacement.value, orders[i].lines, catalog, nextLine);
        if priced.Rejected? {
          return false;
        }
        orders := orders[i := orders[i].(lines := priced.value.lines, totals := priced.value.totals)];
        nextLine := nextLine + |replacement.value|;
      }
      ok := DiscountApproved(orders[i].totals, approved);
      if !ok {
        Rollback(before);
      }
    }

    method SetOrderStatus(i: nat, hold: bool) returns (ok: bool)
      modifies this
      ensures ok <==> AfterSetStatus(old(Snapshot()), i, hold).Ok?
      ensures Snapshot() == Step(old(Snapshot()), SetStatus(i, hold))
    {
      if i >= |orders| || orders[i].status !in ActionStates(if hold then Hold else Resume) {
        return false;
      }
      orders := orders[i := orders[i].(status := if hold then Held else Draft)];
      ok := true;
    }

    /** Moves the source's lines over first, then prices the target again. */
    method MergeOrderTable(i: nat, j: Option<nat>, catalog: Catalog) returns (ok: bool)
      modifies this
      ensures ok <==> AfterMerge(old(Snapshot()), i, j, catalog).Ok?
      ensures Snapshot() == Step(old(Snapshot()), MergeOrders(i, j, catalog))
    {
      if j.None? || !Mergeable(Snapshot(), i, j.value) {
        return false;
      }
      var before := Snapshot();
      var moved := orders[i].lines;
      orders := orders[i := orders[i].(lines := [])];
      orders := orders[j.value := orders[j.value].(lines := orders[j.value].lines + moved)];
      var totals := Pricing.PriceMerged(orders[j.value].lines, catalog);
      if totals.Rejected? {
        Rollback(before);
        return false;
      }
      orders := orders[j.value := orders[j.value].(totals := totals.value)];
      orders := orders[i := orders[i].(status := Merged)];
      ok := true;
      assert orders == Step(before, MergeOrders(i, j, catalog)).orders;
    }

    // ----- money

    /** The tender loop: builds the payment rows and the immediate and folio totals. */
    method BuildPayments(es: seq<Entry>) returns (r: Outcome<seq<Payment>>, immediate: int, folio: int)
      requires forall e <- es :: EntryValid(e)
      ensures r.Ok? <==> forall e <- es :: Postable(e)
      ensures r.Ok? ==> r.value == Rows(es) && folio == FolioTotal(Rows(es)) && immediate == Applied(Rows(es)) - folio
    {
      var ps: seq<Payment> := [];
      immediate, folio := 0, 0;
      for i := 0 to |es|
        invariant ps == Rows(es[..i])
        invariant forall e <- es[..i] :: Postable(e)
        invariant folio == FolioTotal(ps) && immediate == Applied(ps) - folio
      {
        assert es[i] in es;
        if !Postable(es[i]) {
          return Rejected, immediate, folio;
        }
        var p := Row(es[i]);
        if p.tender == RoomCharge {
          folio := folio + p.applied;
        } else {
          immediate := immediate + p.applied;
        }
        assert (ps + [p])[..i] == ps;
        ps := ps + [p];
      }
      assert es[..|es|] == es;
      r := Ok(ps);
    }

    /** Writes the cash rows of a settled or voided order; a sale fails on a closed drawer. */
    method WriteCashRows(k: nat, i: nat, d: Direction, ps: seq<Payment>) returns (ok: bool)
      requires k < |sessions|
      modifies this
      ensures ok <==> d == Out || CashRows(k, i, d, ps) == [] || old(sessions[k].open)
      ensures ok ==> Snapshot() == Posted(old(Snapshot()), k, CashRows(k, i, d, ps))
    {
      ghost var before := Snapshot();
      for n := 0 to |ps|
        invariant k < |sessions|
        invariant Snapshot() == Posted(before, k, CashRows(k, i, d, ps[..n]))
        invariant d == Out || CashRows(k, i, d, ps[..n]) == [] || before.sessions[k].open
      {
        assert ps[..n + 1][..n] == ps[..n];
        if ps[n].tender == Cash && ps[n].applied > 0 {
          ghost var sofar := CashRows(k, i, d, ps[..n]);
          var m := OrderRow(k, i, d, ps[n].applied);
          var written := WriteMovement(m);
          if !written {
            RowsOnlyGrow(k, i, d, ps, n + 1);
            return false;
          }
          PostedTwice(before, k, sofar, m);
        }
      }
      assert ps[..|ps|] == ps;
      ok := true;
    }

    static lemma {:induction false} RowsOnlyGrow(k: nat, i: nat, d: Direction, ps: seq<Payment>, n: nat)
      requires n <= |ps| && CashRows(k, i, d, ps[..n]) != []
      ensures CashRows(k, i, d, ps) != []
      decreases |ps|
    {
      if n < |ps| {
        assert ps[..|ps| - 1][..n] == ps[..n];
        RowsOnlyGrow(k, i, d, ps[..|ps| - 1], n);
      } else {
        assert ps[..n] == ps;
      }
    }

    method PayOrder(i: nat, es: seq<Entry>) returns (ok: bool)
      modifies this
      ensures ok <==> AfterPay(old(Snapshot()), i, es).Ok?
      ensures Snapshot() == Step(old(Snapshot()), Command.PayOrder(i, es))
    {
      if i >= |orders| || orders[i].session >= |sessions| || orders[i].lines == [] {
        return false;
      }
      var o := orders[i];
      var allowed := ValidatePaymentControl(o.status, o.totals.total, es);
      if !allowed {
        return false;
      }
      var before := Snapshot();
      var rows, immediate, folio := BuildPayments(es);
      if rows.Rejected? {
        return false;
      }
      orders := orders[i := o.(payments := rows.value, paidAmount := immediate,
                               status := if folio > 0 then FolioPending else Paid)];
      ok := WriteCashRows(o.session, i, In, rows.value);
      if !ok {
        Rollback(before);
      }
    }

    /** Pays the cash part of a refund out of the drawer, open or closed. */
    method WriteRefundRows(k: nat, i: nat, ps: seq<RefundPayment>)
      requires k < |sessions|
      modifies this
      ensures Snapshot() == Posted(old(Snapshot()), k, RefundRows(k, i, ps))
    {
      ghost var before := Snapshot();
      for n := 0 to |ps|
        invariant k < |sessions|
        invariant Snapshot() == Posted(before, k, RefundRows(k, i, ps[..n]))
      {
        assert ps[..n + 1][..n] == ps[..n];
        if ps[n].tender == Cash && ps[n].amount > 0 {
          ghost var sofar := RefundRows(k, i, ps[..n]);
          var m := OrderRow(k, i, Out, ps[n].amount);
          var written := WriteMovement(m);
          PostedTwice(before, k, sofar, m);
        }
      }
      assert ps[..|ps|] == ps;
    }

    /** The refund a request leads to, from the history, the plan and the allocation. */
    method DecideRefund(o: Order, request: Request) returns (r: Outcome<Refund>)
      ensures r == Decision(o, request)
    {
      if !Settled(o.status) {
        return Rejected;
      }
      var remaining := o.totals.total - RefundedTotal(o.refunds);
      if remaining < 1 {
        return Rejected;
      }
      var quantities, tenders := GatherHistory(o.refunds);
      var plan := PrepareRefundLines(o.lines, AllLines(o.refunds), quantities, request, remaining);
      if plan.Rejected? {
        return Rejected;
      }
      var ps := AllocateTenders(o.payments, AllPayments(o.refunds), tenders, plan.value.amount);
      if ps.Rejected? {
        return Rejected;
      }
      r := Ok(Refund(plan.value.amount, plan.value.lines, ps.value));
    }

    method CreateRefund(i: nat, request: Request, approved: bool) returns (ok: bool)
      modifies this
      ensures ok <==> After(old(Snapshot()), RefundOrder(i, request, approved)).Ok?
      ensures Snapshot() == Step(old(Snapshot()), RefundOrder(i, request, approved))
    {
      if i >= |orders| || orders[i].session >= |sessions| {
        return false;
      }
      var o := orders[i];
      var refund := DecideRefund(o, request);
      if refund.Rejected? || !approved {
        return false;
      }
      orders := orders[i := o.(refunds := o.refunds + [refund.value])];
      WriteRefundRows(o.session, i, refund.value.payments);
      ok := true;
    }

    method VoidOrder(i: nat, approved: bool) returns (ok: bool)
      modifies this
      ensures ok <==> After(old(Snapshot()), Command.VoidOrder(i, approved)).Ok?
      ensures Snapshot() == Step(old(Snapshot()), Command.VoidOrder(i, approved))
    {
      if i >= |orders| || orders[i].session >= |sessions| || orders[i].status !in ActionStates(Void) || !approved {
        return false;
      }
      var o := orders[i];
      orders := orders[i := o.(status := Voided)];
      ok := WriteCashRows(o.session, i, Out, o.payments);
    }

    method FindStored(request: Option<int>) returns (r: Option<Movement>)
      ensures r == Stored(ledger, request)
    {
      if request.None? {
        return None;
      }
      for a := 0 to |ledger|
        invariant Stored(ledger, request) == Stored(ledger[a..], request)
      {
        assert ledger[a..][1..] == ledger[a + 1..];
        if ledger[a].request == request {
          return Some(ledger[a]);
        }
      }
      r := None;
    }

    method CreateCashMovement(e: CashEntry, mapping: Mapping) returns (ok: bool)
      modifies this
      ensures ok <==> AfterEntry(old(Snapshot()), e, mapping).Ok?
      ensures Snapshot() == Step(old(Snapshot()), EnterCash(e, mapping))
    {
      if e.session >= |sessions| || !EntryAllowed(e, mapping) {
        return false;
      }
      var stored := FindStored(e.request);
      if stored.Some? {
        return stored.value == EntryRow(e, mapping);
      }
      ok := WriteMovement(EntryRow(e, mapping));
    }
  }
}
