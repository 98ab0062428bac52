/** What each transaction of the till is answered and writes, said from the request and the rows alone. */
module TillAnswers {
  import opened Money
  import opened Entities
  import opened Refunds
  import opened RefundLaws
  import opened Payments
  import opened PaymentAnswers
  import opened PricingAnswers
  import opened Drawer
  import opened Settlement
  import opened SettlementLaws
  import Pricing

  /** The state policy: what is still being worked on may be edited, paid, moved and merged; held orders may
      only be resumed where others may be held; voiding also reaches settled orders. */
  lemma PolicyAnswer()
    ensures forall a <- [Edit, Pay, TransferTable, MergeTable] ::
              ActionStates(a) == {Draft, Held, Open, Sent, Served, Unpaid}
    ensures ActionStates(Hold) == {Draft, Open, Sent, Served, Unpaid} && ActionStates(Resume) == {Held}
    ensures ActionStates(Void) == ActionStates(Edit) + {Paid, FolioPending}
    ensures ActionStates(Refunding) == {Paid, FolioPending, Refunded}
    ensures forall st :: (Active(st) <==> st in ActionStates(Edit)) && (Settled(st) <==> st in {Paid, FolioPending})
  {
  }

  // ----- sessions

  predicate OpenOn(s: State, register: int) {
    exists k :: 0 <= k < |s.sessions| && s.sessions[k].register == register && s.sessions[k].open
  }

  predicate OnlySession(s: State, t: State, k: nat) {
    && t.orders == s.orders && t.nextLine == s.nextLine && |t.sessions| >= |s.sessions|
    && forall j :: 0 <= j < |s.sessions| && j != k ==> t.sessions[j] == s.sessions[j]
  }

  /** Opening: only on a mapped register without an open session, with a float that is not negative. The drawer
      then holds the nearest cents of the float, brought in by one movement unless it is nothing. */
  lemma OpenAnswer(s: State, register: int, mapped: bool, float: Exact)
    requires Inv(s)
    ensures var r := After(s, OpenSession(register, mapped, float));
            && (r.Ok? <==> mapped && float.num >= 0 && !OpenOn(s, register))
            && (r.Ok? ==>
                  var t, k := r.value, |s.sessions|;
                  && OnlySession(s, t, k) && |t.sessions| == k + 1
                  && var x := t.sessions[k];
                     && x.register == register && x.open && x.actual == None && x.variance == 0
                     && NearestHalfUp(100 * float.num, float.den, x.expected)
                     && t.ledger == s.ledger
                        + (if x.expected > 0
                           then [Movement(k, None, In, OpeningFloat, x.expected, None, NO_DETAILS, NO_ROUTE)] else []))
  {
    var r := After(s, OpenSession(register, mapped, float));
    if r.Ok? {
      var k := |s.sessions|;
      CentsNearest(float);
      RoundNonNegative(100 * float.num, float.den);
      NoSessionYet(s);
      OpenedDrawer(s, k, Cents(float));
    }
  }

  lemma OpenedDrawer(s: State, k: nat, float: int)
    requires SessionCash(s.ledger, k) == 0 && float >= 0
    ensures Expected(s.ledger + FloatRows(k, float), k) == float
  {
    var ms := FloatRows(k, float);
    CashConcat(s.ledger, ms, k);
    InLessOut(s.ledger + ms, k);
    if float > 0 {
      assert ms[..0] == [];
      assert SessionCash(ms[..0], k) == 0;
      assert SessionCash(ms, k) == float;
    }
  }

  /** Closing: an open, mapped session and a count that is not negative. The count is kept to the nearest cent,
      and the variance is the count less what the movements say. */
  lemma CloseAnswer(s: State, k: nat, mapped: bool, actual: Exact)
    ensures var r := After(s, CloseSession(k, mapped, actual));
            && (r.Ok? <==> k < |s.sessions| && s.sessions[k].open && mapped && actual.num >= 0)
            && (r.Ok? ==>
                  var t := r.value;
                  && OnlySession(s, t, k) && |t.sessions| == |s.sessions| && t.ledger == s.ledger
                  && var x := t.sessions[k];
                     && x.register == s.sessions[k].register && !x.open
                     && x.expected == SessionCash(s.ledger, k)
                     && x.actual.Some? && NearestHalfUp(100 * actual.num, actual.den, x.actual.value)
                     && x.variance == x.actual.value - SessionCash(s.ledger, k))
  {
    CentsNearest(actual);
    InLessOut(s.ledger, k);
  }

  /** Reopening: with approval, a closed session whose register has no open one; count and variance are cleared
      and the balance stays. */
  lemma ReopenAnswer(s: State, k: nat, approved: bool)
    ensures var r := After(s, ReopenSession(k, approved));
            && (r.Ok? <==> approved && k < |s.sessions| && !s.sessions[k].open && !OpenOn(s, s.sessions[k].register))
            && (r.Ok? ==>
                  var t := r.value;
                  && OnlySession(s, t, k) && |t.sessions| == |s.sessions| && t.ledger == s.ledger
                  && var x := t.sessions[k];
                     && x.register == s.sessions[k].register && x.open && x.expected == s.sessions[k].expected
                     && x.actual == None && x.variance == 0)
  {
  }

  // ----- orders before payment

  predicate OnlyOrder(s: State, t: State, i: nat) {
    && |t.orders| >= |s.orders| && forall j :: 0 <= j < |s.orders| && j != i ==> t.orders[j] == s.orders[j]
  }

  /** A new order: a draft of its session with the priced lines and their totals, nothing paid and nothing
      refunded; nothing is posted. A discount needs approval. */
  lemma CreateAnswer(s: State, k: nat, current: bool, rs: seq<Pricing.LineRequest>, catalog: Catalog, approved: bool)
    ensures var r := After(s, CreateOrder(k, current, rs, catalog, approved));
            var lines := Pricing.NewLines(rs, s.nextLine, catalog);
            && (r.Ok? <==> k < |s.sessions| && s.sessions[k].open && current && rs != []
                           && Pricing.Acceptable(rs, [], catalog) && (Sum(lines, LineDiscount()) > 0 ==> approved))
            && (r.Ok? ==>
                  var t, n := r.value, |s.orders|;
                  && OnlyOrder(s, t, n) && |t.orders| == n + 1 && t.sessions == s.sessions && t.ledger == s.ledger
                  && var o := t.orders[n];
                     && o.session == k && o.status == Draft && o.lines == lines
                         && TotalsAnswer(o.totals, lines, catalog)
                     && o.payments == [] && o.paidAmount == 0 && o.refunds == [])
  {
    if Pricing.Acceptable(rs, [], catalog) {
      Pricing.NewLinesWellPriced(rs, catalog, s.nextLine);
      TotalsAreNearest(Pricing.NewLines(rs, s.nextLine, catalog), catalog);
    }
  }

  /** An edit: an order still being worked on gets the priced lines and their totals, and nothing else of it
      changes; without a line list nothing changes at all. A discount needs approval either way. */
  lemma EditAnswer(s: State, i: nat, rs: seq<Pricing.LineRequest>, catalog: Catalog, approved: bool)
    ensures var r := After(s, EditOrder(i, Some(rs), catalog, approved));
            var lines := Pricing.NewLines(rs, s.nextLine, catalog);
            && (r.Ok? <==> i < |s.orders| && s.orders[i].status in {Draft, Held, Open, Sent, Served, Unpaid}
                           && Pricing.Acceptable(rs, s.orders[i].lines, catalog)
                           && (Sum(lines, LineDiscount()) > 0 ==> approved))
            && (r.Ok? ==>
                  var t := r.value;
                  && OnlyOrder(s, t, i) && |t.orders| == |s.orders| && t.sessions == s.sessions && t.ledger == s.ledger
                  && TotalsAnswer(t.orders[i].totals, lines, catalog)
                  && t.orders[i] == s.orders[i].(lines := lines, totals := t.orders[i].totals))
    ensures var r := After(s, EditOrder(i, None, catalog, approved));
            && (r.Ok? <==> i < |s.orders| && s.orders[i].status in {Draft, Held, Open, Sent, Served, Unpaid}
                           && (s.orders[i].totals.discount > 0 ==> approved))
            && (r.Ok? ==> r.value == s)
  {
    if i < |s.orders| && Pricing.Acceptable(rs, s.orders[i].lines, catalog) {
      Pricing.NewLinesWellPriced(rs, catalog, s.nextLine);
      TotalsAreNearest(Pricing.NewLines(rs, s.nextLine, catalog), catalog);
    }
  }

  /** Holding turns a draft into a held order, and resuming turns it back; only the status changes. */
  lemma StatusAnswer(s: State, i: nat, hold: bool)
    ensures var r := After(s, SetStatus(i, hold));
            && (r.Ok? <==> i < |s.orders|
                           && s.orders[i].status in (if hold then {Draft, Open, Sent, Served, Unpaid} else {Held}))
            && (r.Ok? ==> r.value == s.(orders := s.orders[i := s.orders[i].(status := if hold then Held else Draft)]))
  {
  }

  /** Merging: two different orders of one session, both still being worked on, nothing paid on the source, and
      every line still priceable; the target takes the source's lines behind its own. */
  lemma MergeAnswer(s: State, i: nat, j: nat, catalog: Catalog)
    requires Inv(s)
    ensures var r := After(s, MergeOrders(i, Some(j), catalog));
            && (r.Ok? <==> && i < |s.orders| && j < |s.orders| && i != j
                           && s.orders[i].status in {Draft, Held, Open, Sent, Served, Unpaid}
                           && s.orders[j].status in {Draft, Held, Open, Sent, Served, Unpaid}
                           && s.orders[i].session == s.orders[j].session
                           && forall l <- s.orders[j].lines + s.orders[i].lines ::
                                (l.item in catalog && catalog[l.item].price >= 0
                                 && 0 <= catalog[l.item].taxRate <= 1000000
                                     && 0 <= catalog[l.item].serviceRate <= 1000000))
            && (r.Ok? ==>
                  var t, lines := r.value, s.orders[j].lines + s.orders[i].lines;
                  && |t.orders| == |s.orders| && t.sessions == s.sessions && t.ledger == s.ledger
                  && (forall k :: 0 <= k < |s.orders| && k != i && k != j ==> t.orders[k] == s.orders[k])
                  && t.orders[i] == s.orders[i].(lines := [], status := Merged)
                  && TotalsAnswer(t.orders[j].totals, lines, catalog)
                  && t.orders[j] == s.orders[j].(lines := lines, totals := t.orders[j].totals))
    ensures After(s, MergeOrders(i, None, catalog)).Rejected?
  {
    if i < |s.orders| && j < |s.orders| {
      assert OrderOk(s.orders[i], |s.sessions|, s.nextLine) && OrderOk(s.orders[j], |s.sessions|, s.nextLine);
      var lines := s.orders[j].lines + s.orders[i].lines;
      forall l <- lines
        ensures Pricing.Remergeable(l, catalog)
                <==> l.item in catalog && catalog[l.item].price >= 0
                     && 0 <= catalog[l.item].taxRate <= 1000000 && 0 <= catalog[l.item].serviceRate <= 1000000
      {
        assert Pricing.WellPriced(l);
      }
      TotalsAreNearest(lines, catalog);
    }
  }

  // ----- money

  /** Settling: a checkout that covers the order, every tender line postable, and an open drawer if any of it is
      cash. */
  lemma PayAccepted(s: State, i: nat, es: seq<Entry>)
    requires Inv(s)
    ensures After(s, PayOrder(i, es)).Ok?
            <==> && i < |s.orders| && s.orders[i].lines != []
                 && PaymentControl(s.orders[i].status, s.orders[i].totals.total, es)
                 && (forall e <- es :: Postable(e))
                 && ((exists e <- es :: e.tender == Some(Cash)) ==> s.sessions[s.orders[i].session].open)
  {
    if i < |s.orders| {
      assert OrderOk(s.orders[i], |s.sessions|, s.nextLine);
      if PaymentControl(s.orders[i].status, s.orders[i].totals.total, es) {
        CashNeedsDrawer(s.orders[i].session, i, es);
      }
    }
  }

  /** The rows are the tender lines', in order, and the status tells whether one of them is a room charge. */
  lemma PaidStatus(o: Order, es: seq<Entry>)
    requires forall e <- es :: EntryValid(e)
    ensures var o' := PaidWith(o, Rows(es));
            && |o'.payments| == |es| && (forall k :: 0 <= k < |es| ==> o'.payments[k] == Row(es[k]))
            && o'.status == (if exists e <- es :: e.tender == Some(RoomCharge) then FolioPending else Paid)
            && o' == o.(payments := o'.payments, paidAmount := o'.paidAmount, status := o'.status)
  {
    PaidUpAfterPay(o.lines, es);
    FolioIsRoomCharge(Rows(es));
    TenderInRows(es, RoomCharge);
  }

  /** Settling writes its own order only: the tender lines' rows and the status. */
  lemma PayAnswer(s: State, i: nat, es: seq<Entry>)
    requires After(s, PayOrder(i, es)).Ok?
    ensures var t := After(s, PayOrder(i, es)).value;
            && i < |s.orders| && OnlyOrder(s, t, i) && |t.orders| == |s.orders| && t.nextLine == s.nextLine
            && var o := t.orders[i];
               && |o.payments| == |es| && (forall k :: 0 <= k < |es| ==> o.payments[k] == Row(es[k]))
               && o.status == (if exists e <- es :: e.tender == Some(RoomCharge) then FolioPending else Paid)
               && o == s.orders[i].(payments := o.payments, paidAmount := o.paidAmount, status := o.status)
  {
    PaidStatus(s.orders[i], es);
  }

  lemma TenderInRows(es: seq<Entry>, t: Tender)
    requires forall e <- es :: EntryValid(e)
    ensures (exists p <- Rows(es) :: p.tender == t) <==> exists e <- es :: e.tender == Some(t)
  {
    forall k | 0 <= k < |es| ensures es[k] in es && Rows(es)[k] in Rows(es)
        && Some(Rows(es)[k].tender) == es[k].tender {
    }
    if exists p <- Rows(es) :: p.tender == t {
      var p :| p in Rows(es) && p.tender == t;
      var k :| 0 <= k < |es| && Rows(es)[k] == p;
      assert es[k] in es;
    }
    if exists e <- es :: e.tender == Some(t) {
      var e :| e in es && e.tender == Some(t);
      var k :| 0 <= k < |es| && es[k] == e;
      assert Rows(es)[k].tender == t;
    }
  }

  lemma {:induction false} CashNeedsDrawer(session: nat, i: nat, es: seq<Entry>)
    requires forall e <- es :: EntryValid(e)
    ensures CashRows(session, i, In, Rows(es)) != [] <==> exists e <- es :: e.tender == Some(Cash)
  {
    if es != [] {
      var init, e := es[..|es| - 1], es[|es| - 1];
      assert e in es && es == init + [e];
      forall x <- init ensures x in es {
      }
      CashNeedsDrawer(session, i, init);
      assert Rows(es)[..|es| - 1] == Rows(init);
    }
  }

  /** Voiding: with approval, an order still being worked on or settled; only its status changes. */
  lemma VoidAnswer(s: State, i: nat, approved: bool)
    requires Inv(s)
    ensures var r := After(s, VoidOrder(i, approved));
            && (r.Ok? <==> approved && i < |s.orders|
                           && s.orders[i].status in {Draft, Held, Open, Sent, Served, Unpaid, Paid, FolioPending})
            && (r.Ok? ==>
                  r.value.orders == s.orders[i := s.orders[i].(status := Voided)] && r.value.nextLine == s.nextLine)
  {
    if i < |s.orders| {
      assert OrderOk(s.orders[i], |s.sessions|, s.nextLine);
    }
  }

  lemma VoidRows(s: State, i: nat)
    requires Inv(s) && i < |s.orders| && After(s, VoidOrder(i, true)).Ok?
    ensures After(s, VoidOrder(i, true)).value.ledger
            == s.ledger + CashRows(s.orders[i].session, i, Out, s.orders[i].payments)
  {
    assert s.ledger + [] == s.ledger;
  }

  /** What the drawer pays out for a void is the order's cash tender, paid or not paid. */
  lemma VoidCashAnswer(s: State, i: nat)
    requires Inv(s) && i < |s.orders| && After(s, VoidOrder(i, true)).Ok?
    ensures OrderCash(After(s, VoidOrder(i, true)).value.ledger, i)
            == OrderCash(s.ledger, i) - AppliedBy(s.orders[i].payments, Cash)
  {
    var o := s.orders[i];
    assert OrderOk(o, |s.sessions|, s.nextLine);
    VoidRows(s, i);
    CashRowsLaw(o.session, i, Out, o.payments);
    CashConcat(s.ledger, CashRows(o.session, i, Out, o.payments), i);
  }

  /** Refunding: with approval, the decided refund is appended to its order and nothing else of any order
      changes. */
  lemma RefundAnswer(s: State, i: nat, request: Request, approved: bool)
    requires Inv(s)
    ensures var r := After(s, RefundOrder(i, request, approved));
            && (r.Ok? <==> approved && i < |s.orders| && Decision(s.orders[i], request).Ok?)
            && (r.Ok? ==>
                  r.value.orders == s.orders[i := WithRefund(s.orders[i], Decision(s.orders[i], request).value)])
  {
    if i < |s.orders| {
      assert OrderOk(s.orders[i], |s.sessions|, s.nextLine);
    }
  }

  // ----- manual entries

  predicate MovesOut(k: ManualKind) {
    k in {PaidOut, SafeDrop, BankDeposit, DrawerTransfer, OwnerWithdrawal, AdjustmentOut}
  }

  predicate MovesIn(k: ManualKind) { k in {PaidIn, FloatAddition, AdjustmentIn} }

  /** A manual entry may be made, exactly: whole cents, in the direction of its type (a cash adjustment either
      way); a note, a reference and approval unless it only pays in or adds float; accounts at both ends of a
      transfer. */
  lemma AllowedAnswer(e: CashEntry, m: Mapping)
    ensures EntryAllowed(e, m)
            <==> && (exists c :: IsCents(e.amount, c) && c > 0)
                 && (MovesOut(e.kind) ==> e.direction == Out) && (MovesIn(e.kind) ==> e.direction == In)
                 && (e.kind !in {PaidIn, FloatAddition} ==>
                       e.details.note != "" && e.details.reference != "" && e.approved)
                 && (e.flagged ==> e.approved)
                 && (e.register.Some? ==> e.register.value in m.registers)
                 && (e.kind in {SafeDrop, BankDeposit, DrawerTransfer} ==>
                       && (e.source.Some? || m.drawer.Some?)
                       && (e.target.Some? || (e.register.Some? && m.registers[e.register.value].Some?)))
                 && (e.kind == DrawerTransfer ==> e.register.Some?)
  {
    CentsOf(e.amount);
    assert IsCents(e.amount, Cents(e.amount)) <==> WholeCents(e.amount);
  }

  /** The row an entry writes: its own session, direction, type, request id and texts, the cents typed, and the
      accounts as resolved: its own or else the drawer's, and the destination register's or else its own. */
  lemma EntryAnswer(e: CashEntry, m: Mapping, c: int)
    requires EntryAllowed(e, m) && IsCents(e.amount, c)
    ensures var x := EntryRow(e, m);
            && x.session == e.session && x.order == None && x.direction == e.direction && x.kind == Manual(e.kind)
            && x.amount == c && x.request == e.request && x.details == e.details
            && x.route.source == (if e.source.Some? then e.source else m.drawer)
            && x.route.register == e.register
            && x.route.target == (if e.register.Some? && m.registers[e.register.value].Some?
                                  then m.registers[e.register.value] else e.target)
  {
    CentsOf(e.amount);
  }

  /** A new entry adds its signed cents to the drawer, and writes that one row; a stored one must be the same row. */
  lemma EnterAnswer(s: State, e: CashEntry, m: Mapping)
    requires Inv(s)
    ensures var r := After(s, EnterCash(e, m));
            var known := e.request.Some? && exists x <- s.ledger :: x.request == e.request;
            && (r.Ok? <==> && e.session < |s.sessions| && EntryAllowed(e, m)
                           && (if known then EntryRow(e, m) in s.ledger else s.sessions[e.session].open))
            && (r.Ok? && known ==> r.value == s)
            && (r.Ok? && !known ==>
                  && r.value.ledger == s.ledger + [EntryRow(e, m)] && r.value.orders == s.orders
                  && |r.value.sessions| == |s.sessions|
                  && r.value.sessions[e.session].expected
                     == s.sessions[e.session].expected + if e.direction == In then Cents(e.amount)
                         else -Cents(e.amount))
  {
    var r := After(s, EnterCash(e, m));
    var x := EntryRow(e, m);
    var stored := Stored(s.ledger, e.request);
    if stored.Some? {
      StoredAlone(s.ledger, e.request, x);
    } else if r.Ok? {
      InLessOut(s.ledger + [x], e.session);
      CashConcat(s.ledger, [x], e.session);
      assert [x][..0] == [];
      assert SessionCash([x][..0], e.session) == 0;
      assert SessionCash([x], e.session) == Signed(x);
      assert DrawerOk(s, e.session);
    }
  }

  lemma StoredAlone(ledger: seq<Movement>, request: Option<int>, x: Movement)
    requires RequestsUnique(ledger) && Stored(ledger, request).Some? && x.request == request
    ensures Stored(ledger, request).value == x <==> x in ledger
  {
    var y := Stored(ledger, request).value;
    if x in ledger {
      var a :| 0 <= a < |ledger| && ledger[a] == x;
      var b :| 0 <= b < |ledger| && ledger[b] == y;
    }
  }
}
