/** Settlement and the Inventory handoff in one state: the routes that settle and void an order commit the
    order and its outbox row together. */
module Kernel {
  import opened Money
  import opened Entities
  import opened Settlement
  import opened SettlementLaws
  import opened Payments
  import opened Conservation
  import O = Outbox
  import OL = OutboxLaws
  import Pricing
  import Database
  import Handoff

  /** The stock code of each catalog item that has one when an order is serialized. */
  type Skus = map<int, int>

  /** A line goes out under its item's stock code or, failing that, the product id it was priced with. */
  function Product(l: Line, skus: Skus): Option<int> { if l.item in skus then Some(skus[l.item]) else l.sku }

  /** `sold` remembers the mapping each order was settled under. */
  datatype Store = Store(till: State, outbox: O.State, sold: map<nat, Skus>)

  const OPENING := Store(EMPTY, O.EMPTY, map[])

  datatype Event =
    | Settle(order: nat, entries: seq<Entry>, skus: Skus)
    | Cancel(order: nat, skus: Skus, approved: bool)
    | Till(command: Command)
    | Delivery(step: O.Step)

  /** The lines of an order as a route serializes them. */
  function Serialized(lines: seq<Line>, skus: Skus): seq<O.OrderLine> {
    seq(|lines|, k requires 0 <= k < |lines| =>
      O.OrderLine(Product(lines[k], skus), lines[k].quantity))
  }

  /** The k-th line handed over is the k-th order line: its quantity, and its item's stock code or, where the item
      has none, the product id stored with the line; a line with neither goes out without a product. */
  lemma SerializedLine(lines: seq<Line>, skus: Skus, k: nat)
    requires k < |lines|
    ensures |Serialized(lines, skus)| == |lines|
    ensures var x := Serialized(lines, skus)[k];
            && x.quantity == lines[k].quantity
            && x.sku == if lines[k].item in skus then Some(skus[lines[k].item]) else lines[k].sku
  {
  }

  function AfterSettle(s: Store, i: nat, es: seq<Entry>, skus: Skus): Outcome<Store> {
    var paid := AfterPay(s.till, i, es);
    if paid.Rejected? || i >= |paid.value.orders| then Rejected
    else
      var queued := O.After(s.outbox, O.SettleOrder(i, Serialized(paid.value.orders[i].lines, skus)));
      if queued.Rejected? then Rejected else Ok(Store(paid.value, queued.value, s.sold[i := skus]))
  }

  /** Only an order that was settled has stock to put back. */
  function AfterCancel(s: Store, i: nat, skus: Skus, approved: bool): Outcome<Store> {
    var voided := After(s.till, VoidOrder(i, approved));
    if voided.Rejected? || i >= |voided.value.orders| then Rejected
    else
      var queued := O.After(s.outbox, O.CancelOrder(i, Serialized(voided.value.orders[i].lines, skus)));
      if queued.Rejected? then Rejected else Ok(Store(voided.value, queued.value, s.sold))
  }

  function Next(s: Store, e: Event): Store {
    match e
    case Settle(i, es, skus) => var r := AfterSettle(s, i, es, skus); if r.Ok? then r.value else s
    case Cancel(i, skus, approved) => var r := AfterCancel(s, i, skus, approved); if r.Ok? then r.value else s
    case Till(c) => if c.PayOrder? || c.VoidOrder? then s else s.(till := Step(s.till, c))
    case Delivery(c) => if c.SettleOrder? || c.CancelOrder? then s else s.(outbox := O.Next(s.outbox, c))
  }

  function Run(s: Store, es: seq<Event>): Store {
    if es == [] then s else Next(Run(s, es[..|es| - 1]), es[|es| - 1])
  }

  /** What an event does to the two halves: a route commits its two transactions together, remembering the codes
      an order was settled with; anything else happens in its own half. */
  lemma EventAnswer(s: Store, i: nat, es: seq<Entry>, skus: Skus, approved: bool)
    ensures var t := Next(s, Settle(i, es, skus)); var paid := After(s.till, PayOrder(i, es));
            t == s || (&& paid == Ok(t.till) && t.sold == s.sold[i := skus] && i < |t.till.orders|
                       && O.After(s.outbox, O.SettleOrder(i, Serialized(t.till.orders[i].lines, skus))) == Ok(t.outbox))
    ensures var t := Next(s, Cancel(i, skus, approved)); var voided := After(s.till, VoidOrder(i, approved));
            t == s || (&& voided == Ok(t.till) && t.sold == s.sold && i < |t.till.orders|
                       && O.After(s.outbox, O.CancelOrder(i, Serialized(t.till.orders[i].lines, skus))) == Ok(t.outbox))
    ensures forall c: Command :: !c.PayOrder? && !c.VoidOrder? ==> Next(s, Till(c)) == s.(till := Step(s.till, c))
    ensures forall c: O.Step :: !c.SettleOrder? && !c.CancelOrder? ==>
              Next(s, Delivery(c)) == s.(outbox := O.Next(s.outbox, c))
  {
  }

  // ----- what ties the two halves together

  predicate HasStage(s: Store, i: nat, stage: O.Stage) { i in s.outbox.stages && s.outbox.stages[i] == stage }

  /** An order's stage is its status, as far as stock is concerned. */
  predicate StageOk(s: Store, i: nat)
    requires i < |s.till.orders|
  {
    && (Settled(s.till.orders[i].status) <==> HasStage(s, i, O.Settled))
    && (s.till.orders[i].status == Voided <==> HasStage(s, i, O.Cancelled))
  }

  /** A stored sale has the lines its order still has, under the mapping it was settled with. */
  predicate SaleOk(s: Store, i: nat)
    requires i < |s.till.orders|
  {
    var k := O.FindRow(s.outbox.rows, O.EventId(i, O.Sale));
    k.Some? ==> i in s.sold && s.outbox.rows[k.value].lines == O.Mapped(Serialized(s.till.orders[i].lines, s.sold[i]))
  }

  predicate Tied(s: Store) {
    && (forall i <- s.outbox.stages :: i < |s.till.orders|)
    && (forall i: nat :: i < |s.till.orders| ==> StageOk(s, i) && SaleOk(s, i))
  }

  ghost predicate StoreInv(s: Store) {
    Inv(s.till) && OL.Inv(s.outbox) && OL.CancelledReversed(s.outbox) && Tied(s)
  }

  lemma {:induction false} SerializedValid(lines: seq<Line>, skus: Skus)
    requires forall l <- lines :: l.quantity > 0
    ensures O.QuantitiesValid(Serialized(lines, skus))
  {
    forall x <- Serialized(lines, skus) ensures x.quantity > 0 {
      var k :| 0 <= k < |lines| && x == Serialized(lines, skus)[k];
      assert lines[k] in lines;
    }
  }

  // ----- the till alone

  /** Commands other than payment and void neither settle nor void an order. */
  lemma StatusKept(s: State, c: Command, i: nat)
    requires !c.PayOrder? && !c.VoidOrder? && Inv(s) && After(s, c).Ok? && i < |After(s, c).value.orders|
    ensures var t := After(s, c).value;
            if i < |s.orders| && !Active(s.orders[i].status)
            then t.orders[i].status == s.orders[i].status && t.orders[i].lines == s.orders[i].lines
            else Active(t.orders[i].status) || t.orders[i].status == Merged
  {
    if i < |s.orders| && !Active(s.orders[i].status) {
      OnlyRefundOrVoid(s, c, i);
    } else {
      ActiveKept(s, c, i);
    }
  }

  lemma ActiveKept(s: State, c: Command, i: nat)
    requires !c.PayOrder? && !c.VoidOrder? && (i < |s.orders| ==> Active(s.orders[i].status))
    ensures var r := After(s, c);
            r.Ok? && i < |r.value.orders| ==>
              Active(r.value.orders[i].status) || r.value.orders[i].status == Merged
  {
  }

  lemma NotSold(s: Store, i: nat)
    requires StoreInv(s) && i !in s.outbox.stages
    ensures forall k :: 0 <= k < |s.outbox.rows| ==> s.outbox.rows[k].id.order != i
    ensures forall kind :: O.FindRow(s.outbox.rows, O.EventId(i, kind)).None?
  {
    forall k | 0 <= k < |s.outbox.rows| ensures s.outbox.rows[k].id.order != i {
      assert s.outbox.rows[k].id.order in s.outbox.stages;
    }
  }

  lemma TillKeeps(s: Store, c: Command)
    requires StoreInv(s) && !c.PayOrder? && !c.VoidOrder?
    ensures StoreInv(s.(till := Step(s.till, c)))
  {
    var t := s.(till := Step(s.till, c));
    StepKeeps(s.till, c);
    RowsGrow(s.till, c);
    forall i: nat | i < |t.till.orders| ensures StageOk(t, i) && SaleOk(t, i) {
      if After(s.till, c).Ok? {
        StatusKept(s.till, c, i);
        if i < |s.till.orders| {
          assert StageOk(s, i) && SaleOk(s, i);
        }
        if i !in s.outbox.stages {
          NotSold(s, i);
        }
      } else {
        assert StageOk(s, i) && SaleOk(s, i);
      }
    }
  }

  lemma DeliveryKeeps(s: Store, c: O.Step)
    requires StoreInv(s) && !c.SettleOrder? && !c.CancelOrder?
    ensures StoreInv(s.(outbox := O.Next(s.outbox, c)))
  {
    var t := s.(outbox := O.Next(s.outbox, c));
    OL.NextKeeps(s.outbox, c);
    OL.CancelledKeeps(s.outbox, c);
    OL.OtherStepsKeepEvents(s.outbox, c);
    forall i: nat | i < |t.till.orders| ensures StageOk(t, i) && SaleOk(t, i) {
      assert StageOk(s, i) && SaleOk(s, i);
      OL.SameFind(s.outbox.rows, t.outbox.rows, O.EventId(i, O.Sale));
    }
  }

  lemma PayFacts(s: State, i: nat, es: seq<Entry>)
    requires AfterPay(s, i, es).Ok?
    ensures i < |s.orders| && Active(s.orders[i].status)
    ensures var t := AfterPay(s, i, es).value;
            t.orders == s.orders[i := PaidWith(s.orders[i], Rows(es))] && Settled(t.orders[i].status)
            && t.orders[i].lines == s.orders[i].lines
  {
  }

  lemma VoidFacts(s: State, i: nat)
    requires AfterVoid(s, i).Ok?
    ensures i < |s.orders| && (Active(s.orders[i].status) || Settled(s.orders[i].status))
    ensures AfterVoid(s, i).value.orders == s.orders[i := s.orders[i].(status := Voided)]
  {
  }

  lemma LinesPositive(s: State, i: nat)
    requires Inv(s) && i < |s.orders|
    ensures forall l <- s.orders[i].lines :: l.quantity > 0
  {
    assert OrderOk(s.orders[i], |s.sessions|, s.nextLine);
    forall l <- s.orders[i].lines ensures l.quantity > 0 {
      assert Pricing.WellPriced(l);
    }
  }

  lemma Unsettled(s: Store, i: nat)
    requires Tied(s) && i < |s.till.orders| && !Settled(s.till.orders[i].status) && s.till.orders[i].status != Voided
    ensures i !in s.outbox.stages
  {
    assert StageOk(s, i);
  }

  /** The handoff never turns a paid order down: the settle route succeeds exactly when the payment does. */
  lemma SettleNeverBlocked(s: Store, i: nat, es: seq<Entry>, skus: Skus)
    requires StoreInv(s)
    ensures AfterSettle(s, i, es, skus).Ok? <==> AfterPay(s.till, i, es).Ok?
    ensures AfterPay(s.till, i, es).Ok? ==>
              i < |s.till.orders| && i !in s.outbox.stages
              && AfterSettle(s, i, es, skus).value.outbox
                 == O.After(s.outbox, O.SettleOrder(i, Serialized(s.till.orders[i].lines, skus))).value
  {
    if AfterPay(s.till, i, es).Ok? {
      PayFacts(s.till, i, es);
      Unsettled(s, i);
      LinesPositive(s.till, i);
      SerializedValid(s.till.orders[i].lines, skus);
    }
  }

  lemma CancelQueued(s: O.State, i: nat, lines: seq<O.OrderLine>)
    requires O.QuantitiesValid(lines)
    requires i in s.stages ==> s.stages[i] == O.Settled && O.FindRow(s.rows, O.EventId(i, O.Reversal)).None?
    ensures O.After(s, O.CancelOrder(i, lines)).Ok?
  {
  }

  lemma VoidableStage(s: Store, i: nat)
    requires Tied(s) && OL.StagesOk(s.outbox) && i < |s.till.orders|
    requires Active(s.till.orders[i].status) || Settled(s.till.orders[i].status)
    ensures i in s.outbox.stages ==>
              s.outbox.stages[i] == O.Settled && O.FindRow(s.outbox.rows, O.EventId(i, O.Reversal)).None?
  {
    assert StageOk(s, i);
  }

  /** Nor a voided one: the void route succeeds exactly when the void does. */
  lemma CancelNeverBlocked(s: Store, i: nat, skus: Skus, approved: bool)
    requires StoreInv(s)
    ensures AfterCancel(s, i, skus, approved).Ok? <==> approved && AfterVoid(s.till, i).Ok?
  {
    if approved && AfterVoid(s.till, i).Ok? {
      VoidFacts(s.till, i);
      LinesPositive(s.till, i);
      SerializedValid(s.till.orders[i].lines, skus);
      VoidableStage(s, i);
      CancelQueued(s.outbox, i, Serialized(s.till.orders[i].lines, skus));
    }
  }

  lemma SaleStored(rows: seq<O.Row>, i: nat, lines: seq<O.OrderLine>)
    requires O.FindRow(rows, O.EventId(i, O.Sale)).None? && O.QuantitiesValid(lines)
    ensures O.Enqueued(rows, O.EventId(i, O.Sale), lines)
            == Ok(rows + [O.Row(O.EventId(i, O.Sale), O.Mapped(lines), O.Unmapped(lines), O.InventoryPending, 0, None)])
  {
  }

  lemma ReversalStored(s: O.State, i: nat, lines: seq<O.OrderLine>)
    requires i in s.stages && s.stages[i] == O.Settled && O.After(s, O.CancelOrder(i, lines)).Ok?
    requires O.FindRow(s.rows, O.EventId(i, O.Reversal)).None?
    ensures O.After(s, O.CancelOrder(i, lines)).value
            == s.(stages := s.stages[i := O.Cancelled],
                  rows := s.rows + [O.NewRow(s.rows, O.EventId(i, O.Reversal), lines)])
    ensures O.NewRow(s.rows, O.EventId(i, O.Reversal), lines).id == O.EventId(i, O.Reversal)
  {
  }

  /** A row of order i is appended and its stage set; the other orders see nothing of it. */
  lemma StagesFollow(s: Store, t: Store, i: nat, r: O.Row)
    requires i < |s.till.orders| && |t.till.orders| == |s.till.orders|
    requires forall j: nat :: j < |s.till.orders| ==> StageOk(s, j) && SaleOk(s, j)
    requires forall j: nat :: j < |s.till.orders| && j != i ==> t.till.orders[j] == s.till.orders[j]
    requires forall j: nat :: j != i && j in s.sold ==> j in t.sold && t.sold[j] == s.sold[j]
    requires t.outbox.rows == s.outbox.rows + [r] && r.id.order == i && i in t.outbox.stages
    requires t.outbox.stages == s.outbox.stages[i := t.outbox.stages[i]]
    requires StageOk(t, i) && SaleOk(t, i)
    ensures forall j: nat :: j < |t.till.orders| ==> StageOk(t, j) && SaleOk(t, j)
  {
    forall j: nat | j < |t.till.orders| && j != i ensures StageOk(t, j) && SaleOk(t, j) {
      assert StageOk(s, j) && SaleOk(s, j);
      OL.AppendedFind(s.outbox.rows, r, O.EventId(j, O.Sale));
    }
  }

  lemma TillPaid(s: State, i: nat, es: seq<Entry>)
    requires Inv(s) && AfterPay(s, i, es).Ok?
    ensures var t := AfterPay(s, i, es).value;
            && Inv(t) && i < |s.orders| && t.orders == s.orders[i := PaidWith(s.orders[i], Rows(es))]
            && Settled(t.orders[i].status) && t.orders[i].lines == s.orders[i].lines
  {
    PayFacts(s, i, es);
    PayKeeps(s, i, es);
  }

  lemma BoxSettled(s: O.State, i: nat, lines: seq<O.OrderLine>)
    requires OL.Inv(s) && OL.CancelledReversed(s) && i !in s.stages && O.QuantitiesValid(lines)
    requires O.FindRow(s.rows, O.EventId(i, O.Sale)).None?
    ensures O.After(s, O.SettleOrder(i, lines)).Ok?
    ensures var u := O.After(s, O.SettleOrder(i, lines)).value;
            var r := O.Row(O.EventId(i, O.Sale), O.Mapped(lines), O.Unmapped(lines), O.InventoryPending, 0, None);
            && OL.Inv(u) && OL.CancelledReversed(u) && u.rows == s.rows + [r] && u.stages == s.stages[i := O.Settled]
            && O.FindRow(u.rows, O.EventId(i, O.Sale)) == Some(|s.rows|)
  {
    SaleStored(s.rows, i, lines);
    OL.NextKeeps(s, O.SettleOrder(i, lines));
    OL.CancelledKeeps(s, O.SettleOrder(i, lines));
    var r := O.Row(O.EventId(i, O.Sale), O.Mapped(lines), O.Unmapped(lines), O.InventoryPending, 0, None);
    OL.AppendedFind(s.rows, r, O.EventId(i, O.Sale));
  }

  lemma SettleKeeps(s: Store, i: nat, es: seq<Entry>, skus: Skus)
    requires StoreInv(s) && AfterSettle(s, i, es, skus).Ok?
    ensures StoreInv(AfterSettle(s, i, es, skus).value)
  {
    var t := AfterSettle(s, i, es, skus).value;
    SettleNeverBlocked(s, i, es, skus);
    TillPaid(s.till, i, es);
    NotSold(s, i);
    LinesPositive(s.till, i);
    var lines := Serialized(s.till.orders[i].lines, skus);
    SerializedValid(s.till.orders[i].lines, skus);
    BoxSettled(s.outbox, i, lines);
    StagesFollow(s, t, i, t.outbox.rows[|s.outbox.rows|]);
  }

  lemma TillVoided(s: State, i: nat)
    requires Inv(s) && AfterVoid(s, i).Ok?
    ensures var t := AfterVoid(s, i).value;
            Inv(t) && i < |s.orders| && t.orders == s.orders[i := s.orders[i].(status := Voided)]
  {
    VoidFacts(s, i);
    VoidKeeps(s, i);
  }

  predicate OrderVoided(s: State, t: State, i: nat) {
    i < |s.orders| && t.orders == s.orders[i := s.orders[i].(status := Voided)]
  }

  /** The two halves of a void, when it goes through. */
  lemma CancelParts(s: Store, i: nat, skus: Skus)
    requires AfterCancel(s, i, skus, true).Ok?
    ensures AfterVoid(s.till, i).Ok? && i < |s.till.orders|
    ensures var t := AfterCancel(s, i, skus, true).value;
            var queued := O.After(s.outbox, O.CancelOrder(i, Serialized(s.till.orders[i].lines, skus)));
            t.till == AfterVoid(s.till, i).value && queued == Ok(t.outbox) && t.sold == s.sold
  {
    VoidFacts(s.till, i);
  }

  lemma UnpaidFollows(s: Store, t: Store, i: nat)
    requires Tied(s) && OrderVoided(s.till, t.till, i) && i !in s.outbox.stages && t.sold == s.sold
    requires t.outbox == s.outbox.(stages := s.outbox.stages[i := O.Cancelled])
    ensures Tied(t)
  {
    forall j: nat | j < |t.till.orders| ensures StageOk(t, j) && SaleOk(t, j) {
      assert StageOk(s, j) && SaleOk(s, j);
    }
  }

  lemma CancelUnpaidKeeps(s: Store, i: nat, skus: Skus)
    requires StoreInv(s) && AfterCancel(s, i, skus, true).Ok? && i < |s.till.orders|
        && !Settled(s.till.orders[i].status)
    ensures StoreInv(AfterCancel(s, i, skus, true).value)
  {
    CancelParts(s, i, skus);
    TillVoided(s.till, i);
    VoidFacts(s.till, i);
    Unsettled(s, i);
    var c := O.CancelOrder(i, Serialized(s.till.orders[i].lines, skus));
    OL.NextKeeps(s.outbox, c);
    OL.CancelledKeeps(s.outbox, c);
    UnpaidFollows(s, AfterCancel(s, i, skus, true).value, i);
  }

  /** A settled order is cancelled: its stage changes and its reversal, a new row, is stored last. */
  predicate Reversed(s: O.State, u: O.State, i: nat) {
    && |u.rows| == |s.rows| + 1 && u.rows == s.rows + [u.rows[|s.rows|]]
    && u.rows[|s.rows|].id == O.EventId(i, O.Reversal) && u.stages == s.stages[i := O.Cancelled]
  }

  lemma BoxCancelled(s: O.State, i: nat, lines: seq<O.OrderLine>)
    requires OL.Inv(s) && OL.CancelledReversed(s) && i in s.stages && s.stages[i] == O.Settled
    requires O.After(s, O.CancelOrder(i, lines)).Ok?
    ensures var u := O.After(s, O.CancelOrder(i, lines)).value;
            && OL.Inv(u) && OL.CancelledReversed(u) && Reversed(s, u, i)
            && O.FindRow(u.rows, O.EventId(i, O.Sale)) == O.FindRow(s.rows, O.EventId(i, O.Sale))
  {
    OL.NextKeeps(s, O.CancelOrder(i, lines));
    OL.CancelledKeeps(s, O.CancelOrder(i, lines));
    ReversalStored(s, i, lines);
    OL.AppendedFind(s.rows, O.NewRow(s.rows, O.EventId(i, O.Reversal), lines), O.EventId(i, O.Sale));
  }

  lemma SettledFollows(s: Store, t: Store, i: nat)
    requires Tied(s) && OrderVoided(s.till, t.till, i) && Reversed(s.outbox, t.outbox, i) && t.sold == s.sold
    requires O.FindRow(t.outbox.rows, O.EventId(i, O.Sale)) == O.FindRow(s.outbox.rows, O.EventId(i, O.Sale))
    ensures Tied(t)
  {
    assert StageOk(s, i) && SaleOk(s, i);
    StagesFollow(s, t, i, t.outbox.rows[|s.outbox.rows|]);
  }

  lemma CancelSettledKeeps(s: Store, i: nat, skus: Skus)
    requires StoreInv(s) && AfterCancel(s, i, skus, true).Ok? && i < |s.till.orders| && Settled(s.till.orders[i].status)
    ensures StoreInv(AfterCancel(s, i, skus, true).value)
  {
    CancelParts(s, i, skus);
    TillVoided(s.till, i);
    assert StageOk(s, i);
    BoxCancelled(s.outbox, i, Serialized(s.till.orders[i].lines, skus));
    SettledFollows(s, AfterCancel(s, i, skus, true).value, i);
  }

  lemma EventKeeps(s: Store, e: Event)
    requires StoreInv(s)
    ensures StoreInv(Next(s, e))
  {
    match e
    case Settle(i, es, skus) => if AfterSettle(s, i, es, skus).Ok? { SettleKeeps(s, i, es, skus); }
    case Cancel(i, skus, approved) =>
      CancelNeverBlocked(s, i, skus, approved);
      if AfterCancel(s, i, skus, approved).Ok? {
        VoidFacts(s.till, i);
        if Settled(s.till.orders[i].status) { CancelSettledKeeps(s, i, skus); } else { CancelUnpaidKeeps(s, i, skus); }
      }
    case Till(c) => if !c.PayOrder? && !c.VoidOrder? { TillKeeps(s, c); }
    case Delivery(c) => if !c.SettleOrder? && !c.CancelOrder? { DeliveryKeeps(s, c); }
  }

  lemma {:induction false} RunKeeps(s: Store, es: seq<Event>)
    requires StoreInv(s)
    ensures StoreInv(Run(s, es))
  {
    if es != [] {
      RunKeeps(s, es[..|es| - 1]);
      EventKeeps(Run(s, es[..|es| - 1]), es[|es| - 1]);
    }
  }

  ghost predicate Reachable(s: Store) { exists es :: s == Run(OPENING, es) }

  lemma ReachableOk(s: Store)
    requires Reachable(s)
    ensures StoreInv(s)
  {
    var es :| s == Run(OPENING, es);
    RunKeeps(OPENING, es);
  }

  // ----- stock in terms of the orders

  /** The quantity of a product on these order lines. */
  function SoldQuantity(lines: seq<Line>, skus: Skus, sku: int): int {
    if lines == [] then 0
    else
      var l := lines[|lines| - 1];
      SoldQuantity(lines[..|lines| - 1], skus, sku)
      + if (if l.item in skus then skus[l.item] == sku else l.sku == Some(sku)) then l.quantity else 0
  }

  lemma {:induction false} SerializedQuantity(lines: seq<Line>, skus: Skus, sku: int)
    ensures O.SkuQuantity(O.Mapped(Serialized(lines, skus)), sku) == SoldQuantity(lines, skus, sku)
  {
    if lines != [] {
      var init, l := lines[..|lines| - 1], lines[|lines| - 1];
      SerializedQuantity(init, skus, sku);
      var all := Serialized(lines, skus);
      assert all[..|all| - 1] == Serialized(init, skus);
      var mapped, earlier := O.Mapped(all), O.Mapped(Serialized(init, skus));
      if Product(l, skus).Some? {
        assert mapped[..|mapped| - 1] == earlier;
      }
    }
  }

  /** An order counts while its sale is accepted and not taken back. */
  predicate Counts(accepted: set<O.EventId>, i: nat) {
    O.EventId(i, O.Sale) in accepted && O.EventId(i, O.Reversal) !in accepted
  }

  /** The stored sale lines of the first n orders that count. */
  function OutOf(rows: seq<O.Row>, accepted: set<O.EventId>, n: nat, sku: int): int {
    if n == 0 then 0
    else
      var k := O.FindRow(rows, O.EventId(n - 1, O.Sale));
      OutOf(rows, accepted, n - 1, sku)
      + if Counts(accepted, n - 1) && k.Some? then O.SkuQuantity(rows[k.value].lines, sku) else 0
  }

  lemma {:induction false} OutOfOneMore(rows: seq<O.Row>, r: O.Row, accepted: set<O.EventId>, n: nat, sku: int)
    requires O.FindRow(rows, r.id).None?
    ensures OutOf(rows + [r], accepted, n, sku) == OutOf(rows, accepted, n, sku)
            + if r.id.kind == O.Sale && r.id.order < n && Counts(accepted, r.id.order)
              then O.SkuQuantity(r.lines, sku) else 0
  {
    if n > 0 {
      OutOfOneMore(rows, r, accepted, n - 1, sku);
      OL.AppendedFind(rows, r, O.EventId(n - 1, O.Sale));
    }
  }

  lemma {:induction false} OutOfNothing(accepted: set<O.EventId>, n: nat, sku: int)
    ensures OutOf([], accepted, n, sku) == 0
  {
    if n > 0 {
      OutOfNothing(accepted, n - 1, sku);
    }
  }

  /** Counting by stored row and counting by order give one sum. */
  lemma {:induction false} NetByOrder(rows: seq<O.Row>, accepted: set<O.EventId>, n: nat, sku: int)
    requires OL.IdsDistinct(rows) && forall k :: 0 <= k < |rows| ==> rows[k].id.order < n
    ensures OL.Net(rows, accepted, sku) == -OutOf(rows, accepted, n, sku)
  {
    if rows == [] {
      OutOfNothing(accepted, n, sku);
    } else {
      var init, r := rows[..|rows| - 1], rows[|rows| - 1];
      NetByOrder(init, accepted, n, sku);
      assert rows == init + [r];
      forall k | 0 <= k < |init| ensures init[k].id != r.id {
        assert rows[k].id != rows[|rows| - 1].id;
      }
      OutOfOneMore(init, r, accepted, n, sku);
    }
  }

  /** The order lines of the first n orders that count, by the mapping each was settled under. */
  function OutOfStock(s: Store, accepted: set<O.EventId>, n: nat, sku: int): int
    requires n <= |s.till.orders|
  {
    if n == 0 then 0
    else
      OutOfStock(s, accepted, n - 1, sku)
      + if Counts(accepted, n - 1) && n - 1 in s.sold
        then SoldQuantity(s.till.orders[n - 1].lines, s.sold[n - 1], sku) else 0
  }

  lemma {:induction false} OutOfOrders(s: Store, n: nat, sku: int)
    requires StoreInv(s) && n <= |s.till.orders|
    ensures OutOf(s.outbox.rows, s.outbox.receiver.events.Keys, n, sku)
            == OutOfStock(s, s.outbox.receiver.events.Keys, n, sku)
  {
    if n > 0 {
      OutOfOrders(s, n - 1, sku);
      assert SaleOk(s, n - 1);
      if Counts(s.outbox.receiver.events.Keys, n - 1) {
        assert O.EventId(n - 1, O.Sale) in s.outbox.receiver.events;
        SerializedQuantity(s.till.orders[n - 1].lines, s.sold[n - 1], sku);
      }
    }
  }

  /** Exactly-once stock, in terms of the orders: in every run of tills, routes, workers, failures and
      operators, each product's delta is minus its quantity on the lines of the orders whose sale the
      receiver accepted and whose reversal it did not. */
  lemma StockFollowsOrders(s: Store, sku: int)
    requires Reachable(s)
    ensures O.Looked(s.outbox.receiver.stock, sku)
            == -OutOfStock(s, s.outbox.receiver.events.Keys, |s.till.orders|, sku)
  {
    ReachableOk(s);
    assert OL.StockOk(s.outbox, sku);
    forall k | 0 <= k < |s.outbox.rows| ensures s.outbox.rows[k].id.order < |s.till.orders| {
      assert s.outbox.rows[k].id.order in s.outbox.stages;
    }
    NetByOrder(s.outbox.rows, s.outbox.receiver.events.Keys, |s.till.orders|, sku);
    OutOfOrders(s, |s.till.orders|, sku);
  }

  /** The lines of the first n orders that are paid or folio-pending. */
  function SettledQuantity(s: Store, n: nat, sku: int): int
    requires n <= |s.till.orders|
  {
    if n == 0 then 0
    else
      SettledQuantity(s, n - 1, sku)
      + if Settled(s.till.orders[n - 1].status) && n - 1 in s.sold
        then SoldQuantity(s.till.orders[n - 1].lines, s.sold[n - 1], sku) else 0
  }

  lemma CountsWhenSettled(s: Store, i: nat)
    requires StoreInv(s) && OL.AllSynced(s.outbox) && i < |s.till.orders|
    ensures Counts(s.outbox.receiver.events.Keys, i) <==> Settled(s.till.orders[i].status)
    ensures Settled(s.till.orders[i].status) ==> i in s.sold
  {
    var k := O.FindRow(s.outbox.rows, O.EventId(i, O.Sale));
    assert StageOk(s, i) && SaleOk(s, i);
    if k.Some? {
      OL.RowIsSold(s.outbox, k.value);
    }
  }

  predicate CountsAsSettled(s: Store, i: nat)
    requires i < |s.till.orders|
  {
    && (Counts(s.outbox.receiver.events.Keys, i) <==> Settled(s.till.orders[i].status))
    && (Settled(s.till.orders[i].status) ==> i in s.sold)
  }

  lemma {:induction false} OutIsSettled(s: Store, n: nat, sku: int)
    requires n <= |s.till.orders| && forall i: nat :: i < |s.till.orders| ==> CountsAsSettled(s, i)
    ensures OutOfStock(s, s.outbox.receiver.events.Keys, n, sku) == SettledQuantity(s, n, sku)
  {
    if n > 0 {
      OutIsSettled(s, n - 1, sku);
      assert CountsAsSettled(s, n - 1);
    }
  }

  lemma EachCounts(s: Store)
    requires StoreInv(s) && OL.AllSynced(s.outbox)
    ensures forall i: nat :: i < |s.till.orders| ==> CountsAsSettled(s, i)
  {
    forall i: nat | i < |s.till.orders| ensures CountsAsSettled(s, i) {
      CountsWhenSettled(s, i);
    }
  }

  lemma SyncedIsAllSynced(s: Store)
    requires Reachable(s) && forall k :: 0 <= k < |s.outbox.rows| ==> s.outbox.rows[k].status == O.Synced
    ensures StoreInv(s) && OL.AllSynced(s.outbox)
  {
    ReachableOk(s);
  }

  /** Once every row is synced, each product's stock is down by exactly what the paid and folio-pending
      orders have on their lines; what was refunded in money stays sold. */
  lemma SyncedStockIsSettled(s: Store, sku: int)
    requires Reachable(s) && forall k :: 0 <= k < |s.outbox.rows| ==> s.outbox.rows[k].status == O.Synced
    ensures O.Looked(s.outbox.receiver.stock, sku) == -SettledQuantity(s, |s.till.orders|, sku)
  {
    SyncedIsAllSynced(s);
    EachCounts(s);
    StockFollowsOrders(s, sku);
    OutIsSettled(s, |s.till.orders|, sku);
  }

  /** Every settled order has the mapping it was settled under, so none of them is left out of the sums. */
  lemma SettledIsMapped(s: Store, i: nat)
    requires Reachable(s) && i < |s.till.orders| && Settled(s.till.orders[i].status)
    ensures i in s.sold
  {
    ReachableOk(s);
    assert StageOk(s, i) && SaleOk(s, i);
  }

  // ----- the routes as they run

  class Routes {
    const till: Database.Tables
    const outbox: Handoff.OutboxTable
    ghost var sold: map<nat, Skus>

    ghost function Snapshot(): Store
      reads this, till, outbox, outbox.receiver
    {
      Store(till.Snapshot(), outbox.Snapshot(), sold)
    }

    constructor ()
      ensures Snapshot() == OPENING && fresh(till) && fresh(outbox) && fresh(outbox.receiver)
    {
      till := new Database.Tables();
      outbox := new Handoff.OutboxTable();
      sold := map[];
    }

    /** Serializes the lines an order has now. */
    method Serialize(lines: seq<Line>, skus: Skus) returns (r: seq<O.OrderLine>)
      ensures r == Serialized(lines, skus)
    {
      r := [];
      for k := 0 to |lines|
        invariant r == Serialized(lines[..k], skus)
      {
        var l := lines[k];
        r := r + [O.OrderLine(Product(l, skus), l.quantity)];
      }
      assert lines[..|lines|] == lines;
    }

    /** Settles an order and queues its sale, or rolls both back. */
    method SettleOrder(i: nat, es: seq<Entry>, skus: Skus) returns (ok: bool)
      modifies this, till, outbox
      ensures ok <==> AfterSettle(old(Snapshot()), i, es, skus).Ok?
      ensures Snapshot() == Next(old(Snapshot()), Settle(i, es, skus))
    {
      var before := till.Snapshot();
      ok := till.PayOrder(i, es);
      if !ok || i >= |till.orders| {
        till.Rollback(before);
        return false;
      }
      var lines := Serialize(till.orders[i].lines, skus);
      ok := outbox.SettleOrder(i, lines);
      if !ok {
        till.Rollback(before);
        return;
      }
      sold := sold[i := skus];
    }

    /** Voids an order and, if it was settled, queues its reversal, or rolls both back. */
    method CancelOrder(i: nat, skus: Skus, approved: bool) returns (ok: bool)
      modifies till, outbox
      ensures ok <==> AfterCancel(old(Snapshot()), i, skus, approved).Ok?
      ensures Snapshot() == Next(old(Snapshot()), Cancel(i, skus, approved))
    {
      var before := till.Snapshot();
      ok := till.VoidOrder(i, approved);
      if !ok || i >= |till.orders| {
        till.Rollback(before);
        return false;
      }
      var lines := Serialize(till.orders[i].lines, skus);
      ok := outbox.CancelOrder(i, lines);
      if !ok {
        till.Rollback(before);
      }
    }
  }
}
