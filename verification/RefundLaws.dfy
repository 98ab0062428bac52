/** Safety and completeness of refunds, for every history an order can have. */
module RefundLaws {
  import opened Money
  import opened Entities
  import opened Pricing
  import opened Refunds

  // ----- what payment leaves behind, and what every refund keeps

  predicate DistinctIds(lines: seq<Line>) {
    forall i, j :: 0 <= i < j < |lines| ==> lines[i].id != lines[j].id
  }

  /** An order as payment leaves it. */
  predicate PaidUp(o: Order) {
    && AllWellPriced(o.lines) && DistinctIds(o.lines)
    && (forall p <- o.payments :: p.applied > 0 && (p.tender == RoomCharge ==> p.posting))
    && Applied(o.payments) == o.totals.total
  }

  predicate SharesOf(l: Line, ls: seq<RefundLine>) {
    forall r <- ls :: r.line == Some(l.id) ==> r.quantity > 0 && r == Share(l, r.quantity)
  }

  predicate Balanced(r: Refund) {
    && LinesMoney(r.lines) == r.amount == PaymentsMoney(r.payments)
    && r.amount > 0
  }

  ghost predicate TendersCovered(ps: seq<Payment>, done: seq<RefundPayment>) {
    forall t :: 0 <= TenderMoney(done, t) <= AppliedBy(ps, t)
  }

  predicate LinesCovered(lines: seq<Line>, done: seq<RefundLine>) {
    forall l <- lines :: SharesOf(l, done) && 0 <= LineQuantity(done, l.id) <= l.quantity
  }

  ghost predicate RefundsSound(o: Order) {
    && (forall r <- o.refunds :: Balanced(r))
    && 0 <= RefundedTotal(o.refunds) <= o.totals.total
    && TendersCovered(o.payments, AllPayments(o.refunds))
    && LinesCovered(o.lines, AllLines(o.refunds))
  }

  function WithRefund(o: Order, r: Refund): Order { o.(refunds := o.refunds + [r]) }

  lemma HistoryGrows(refunds: seq<Refund>, r: Refund)
    ensures AllLines(refunds + [r]) == AllLines(refunds) + r.lines
    ensures AllPayments(refunds + [r]) == AllPayments(refunds) + r.payments
    ensures RefundedTotal(refunds + [r]) == RefundedTotal(refunds) + r.amount
  {
    var next := refunds + [r];
    assert next[..|next| - 1] == refunds;
  }

  lemma {:induction false} HistoryBalances(refunds: seq<Refund>)
    requires forall r <- refunds :: Balanced(r)
    ensures PaymentsMoney(AllPayments(refunds)) == RefundedTotal(refunds) == LinesMoney(AllLines(refunds))
  {
    if refunds != [] {
      var init, r := refunds[..|refunds| - 1], refunds[|refunds| - 1];
      assert r in refunds && Balanced(r);
      HistoryBalances(init);
      PaymentSumsConcat(AllPayments(init), r.payments, Cash);
      LineSumsConcat(AllLines(init), r.lines, 0);
    }
  }

  // ----- the line plan

  lemma SharesOfConcat(l: Line, a: seq<RefundLine>, b: seq<RefundLine>)
    requires SharesOf(l, a) && SharesOf(l, b)
    ensures SharesOf(l, a + b)
  {
  }

  lemma {:induction false} UntouchedByOthers(lines: seq<Line>, done: seq<RefundLine>, id: int)
    requires forall l <- lines :: l.id != id
    ensures LineQuantity(RemainderLines(lines, done), id) == 0
    ensures forall r <- RemainderLines(lines, done) :: r.line != Some(id)
  {
    if lines != [] {
      assert lines[|lines| - 1] in lines;
      UntouchedByOthers(lines[..|lines| - 1], done, id);
      var earlier, ls := RemainderLines(lines[..|lines| - 1], done), RemainderLines(lines, done);
      if ls != earlier {
        assert ls[..|ls| - 1] == earlier;
      }
    }
  }

  /** A full refund takes exactly what is left of every line. */
  lemma {:induction false} RemainderIsExact(lines: seq<Line>, done: seq<RefundLine>, i: nat)
    requires i < |lines| && DistinctIds(lines)
    ensures var ls := RemainderLines(lines, done);
            SharesOf(lines[i], ls) && LineQuantity(ls, lines[i].id) == Left(lines[i], LineQuantity(done, lines[i].id))
  {
    var init, l := lines[..|lines| - 1], lines[|lines| - 1];
    var earlier, ls := RemainderLines(init, done), RemainderLines(lines, done);
    if i == |init| {
      UntouchedByOthers(init, done, l.id);
    } else {
      assert init[i] == lines[i];
      RemainderIsExact(init, done, i);
    }
    if ls != earlier {
      assert ls[..|ls| - 1] == earlier;
    }
  }

  lemma {:induction false} ClaimsKeepLine(lines: seq<Line>, done: seq<RefundLine>, claims: seq<Claim>, l: Line)
    requires l in lines && DistinctIds(lines)
    requires LinesCovered(lines, done)
    requires ClaimedLines(lines, done, claims).Ok?
    ensures var ls := ClaimedLines(lines, done, claims).value;
            SharesOf(l, ls) && 0 <= LineQuantity(ls, l.id) <= l.quantity - LineQuantity(done, l.id)
  {
    if claims != [] {
      var init := claims[..|claims| - 1];
      ClaimsKeepLine(lines, done, init, l);
      var earlier := ClaimedLines(lines, done, init).value;
      var ls := ClaimedLines(lines, done, claims).value;
      assert ls[..|ls| - 1] == earlier;
      var r := ls[|ls| - 1];
      assert r == Accept(lines, done, earlier, claims[|claims| - 1]).value;
      if r.line == Some(l.id) {
        assert FindLine(lines, l.id).value == l;
      }
    }
  }

  lemma AdjustmentLeavesLine(ls: seq<RefundLine>, amount: int, l: Line)
    requires SharesOf(l, ls)
    ensures var more := WithAdjustment(ls, amount);
            SharesOf(l, more) && LineQuantity(more, l.id) == LineQuantity(ls, l.id) && LinesMoney(more) == amount
  {
    var more := WithAdjustment(ls, amount);
    if more != ls {
      assert more[..|more| - 1] == ls;
    }
  }

  lemma LoneAdjustment(amount: int, id: int)
    ensures LineQuantity([Adjustment(amount)], id) == 0 && LinesMoney([Adjustment(amount)]) == amount
  {
    assert [Adjustment(amount)][..0] == [];
  }

  /** What the refund planner promises, in every mode. */
  lemma {:induction false} PlanLaw(lines: seq<Line>, done: seq<RefundLine>, request: Request, remaining: int, l: Line)
    requires l in lines && DistinctIds(lines) && LinesCovered(lines, done)
    requires Planned(lines, done, request, remaining).Ok?
    ensures var plan := Planned(lines, done, request, remaining).value;
            && 0 < plan.amount <= remaining
            && LinesMoney(plan.lines) == plan.amount
            && SharesOf(l, plan.lines)
            && 0 <= LineQuantity(plan.lines, l.id) <= l.quantity - LineQuantity(done, l.id)
  {
    PlanBalances(lines, done, request, remaining);
    match request
    case Full =>
      var i :| 0 <= i < |lines| && lines[i] == l;
      RemainderIsExact(lines, done, i);
      AdjustmentLeavesLine(RemainderLines(lines, done), remaining, l);
    case ByLines(claims) => ClaimsKeepLine(lines, done, claims, l);
    case ByAmount(amount) => LoneAdjustment(Cents(amount), l.id);
    case UnknownMode =>
  }

  lemma PlanBalances(lines: seq<Line>, done: seq<RefundLine>, request: Request, remaining: int)
    requires Planned(lines, done, request, remaining).Ok?
    ensures var plan := Planned(lines, done, request, remaining).value;
            0 < plan.amount <= remaining && LinesMoney(plan.lines) == plan.amount
  {
    if request.Full? {
      var ls := RemainderLines(lines, done);
      var more := WithAdjustment(ls, remaining);
      if more != ls {
        assert more[..|more| - 1] == ls;
      }
    } else if request.ByAmount? {
      LoneAdjustment(Cents(request.amount), 0);
    }
  }

  // ----- the allocation, tender by tender

  function ShareBy(ps: seq<Payment>, done: seq<RefundPayment>, amount: int, t: Tender): int {
    if ps == [] then 0
    else ShareBy(ps[..|ps| - 1], done, amount, t) + if ps[|ps| - 1].tender == t then LastShare(ps, done, amount) else 0
  }

  function CapacityBy(ps: seq<Payment>, refunded: int, t: Tender): int {
    if ps == [] then 0
    else CapacityBy(ps[..|ps| - 1], refunded, t)
         + if ps[|ps| - 1].tender == t && ps[|ps| - 1].applied > refunded then ps[|ps| - 1].applied - refunded else 0
  }

  lemma SharesStep(ps: seq<Payment>, done: seq<RefundPayment>, amount: int, room: bool, t: Tender)
    requires ps != []
    ensures var p, a := ps[|ps| - 1], LastShare(ps, done, amount);
            var now, before := Shares(ps, done, amount, room), Shares(ps[..|ps| - 1], done, amount, room);
            var taken := a > 0 && (p.tender == RoomCharge) == room;
            && PaymentsMoney(now) == PaymentsMoney(before) + (if taken then a else 0)
            && TenderMoney(now, t) == TenderMoney(before, t) + (if taken && p.tender == t then a else 0)
  {
    var now, before := Shares(ps, done, amount, room), Shares(ps[..|ps| - 1], done, amount, room);
    if now != before {
      assert now[..|now| - 1] == before;
    }
  }

  lemma LastShareBounded(ps: seq<Payment>, done: seq<RefundPayment>, amount: int)
    requires ps != []
    ensures 0 <= LastShare(ps, done, amount) <= RowCapacity(ps[|ps| - 1], done)
  {
  }

  /** Room charges are written to one list and every other tender to the other. */
  lemma {:induction false} OwnList(ps: seq<Payment>, done: seq<RefundPayment>, amount: int, t: Tender, room: bool)
    requires amount >= 0 && room == (t == RoomCharge)
    ensures TenderMoney(Shares(ps, done, amount, room), t) == ShareBy(ps, done, amount, t)
  {
    if ps != [] {
      OwnList(ps[..|ps| - 1], done, amount, t, room);
      SharesStep(ps, done, amount, room, t);
      LastShareBounded(ps, done, amount);
    }
  }

  lemma {:induction false} OtherList(ps: seq<Payment>, done: seq<RefundPayment>, amount: int, t: Tender, room: bool)
    requires room != (t == RoomCharge)
    ensures TenderMoney(Shares(ps, done, amount, room), t) == 0
  {
    if ps != [] {
      OtherList(ps[..|ps| - 1], done, amount, t, room);
      SharesStep(ps, done, amount, room, t);
    }
  }

  lemma {:induction false} ShareByBounded(ps: seq<Payment>, done: seq<RefundPayment>, amount: int, t: Tender)
    requires amount >= 0
    ensures 0 <= ShareBy(ps, done, amount, t) <= CapacityBy(ps, TenderMoney(done, t), t)
  {
    if ps != [] {
      ShareByBounded(ps[..|ps| - 1], done, amount, t);
      LastShareBounded(ps, done, amount);
    }
  }

  lemma SharesByTender(ps: seq<Payment>, done: seq<RefundPayment>, amount: int, t: Tender)
    requires amount >= 0
    ensures TenderMoney(Shares(ps, done, amount, t == RoomCharge), t) == ShareBy(ps, done, amount, t)
    ensures TenderMoney(Shares(ps, done, amount, t != RoomCharge), t) == 0
    ensures 0 <= ShareBy(ps, done, amount, t) <= CapacityBy(ps, TenderMoney(done, t), t)
  {
    OwnList(ps, done, amount, t, t == RoomCharge);
    OtherList(ps, done, amount, t, t != RoomCharge);
    ShareByBounded(ps, done, amount, t);
  }

  lemma {:induction false} SharesMoney(ps: seq<Payment>, done: seq<RefundPayment>, amount: int)
    requires amount >= 0
    ensures PaymentsMoney(Shares(ps, done, amount, false)) + PaymentsMoney(Shares(ps, done, amount, true))
            == Min(amount, Capacity(ps, done))
    ensures Capacity(ps, done) >= 0
  {
    if ps != [] {
      SharesMoney(ps[..|ps| - 1], done, amount);
      SharesStep(ps, done, amount, false, Cash);
      SharesStep(ps, done, amount, true, Cash);
    }
  }

  /** One tender type: how its row-by-row capacity compares with the money it still owes back. */
  lemma {:induction false} CapacityOfTender(ps: seq<Payment>, refunded: int, t: Tender)
    requires forall p <- ps :: p.applied > 0
    requires refunded >= 0
    ensures AppliedBy(ps, t) >= RowsOf(ps, t) && CapacityBy(ps, refunded, t) >= 0
    ensures CapacityBy(ps, refunded, t) <= if AppliedBy(ps, t) > refunded then AppliedBy(ps, t) - refunded else 0
    ensures refunded == 0 ==> CapacityBy(ps, refunded, t) == AppliedBy(ps, t)
    ensures RowsOf(ps, t) == 1 && AppliedBy(ps, t) > refunded
        ==> CapacityBy(ps, refunded, t) == AppliedBy(ps, t) - refunded
    ensures RowsOf(ps, t) >= 2 && 0 < refunded < AppliedBy(ps, t) ==>
              CapacityBy(ps, refunded, t) < AppliedBy(ps, t) - refunded
    ensures RowsOf(ps, t) == 0 ==> AppliedBy(ps, t) == 0
  {
    if ps != [] {
      assert ps[|ps| - 1] in ps;
      CapacityOfTender(ps[..|ps| - 1], refunded, t);
    }
  }

  lemma {:induction false} SplitByTender(ps: seq<Payment>, done: seq<RefundPayment>)
    ensures Applied(ps) == AppliedBy(ps, Cash) + AppliedBy(ps, GCash) + AppliedBy(ps, Card)
                           + AppliedBy(ps, BankTransfer) + AppliedBy(ps, RoomCharge)
    ensures Capacity(ps, done) == CapacityBy(ps, TenderMoney(done, Cash), Cash)
                                  + CapacityBy(ps, TenderMoney(done, GCash), GCash)
                                  + CapacityBy(ps, TenderMoney(done, Card), Card)
                                  + CapacityBy(ps, TenderMoney(done, BankTransfer), BankTransfer)
                                  + CapacityBy(ps, TenderMoney(done, RoomCharge), RoomCharge)
  {
    if ps != [] {
      SplitByTender(ps[..|ps| - 1], done);
    }
  }

  lemma {:induction false} RefundedByTender(done: seq<RefundPayment>)
    ensures PaymentsMoney(done) == TenderMoney(done, Cash) + TenderMoney(done, GCash) + TenderMoney(done, Card)
                                   + TenderMoney(done, BankTransfer) + TenderMoney(done, RoomCharge)
  {
    if done != [] {
      RefundedByTender(done[..|done| - 1]);
    }
  }

  lemma {:induction false} SharesPositive(ps: seq<Payment>, done: seq<RefundPayment>, amount: int, room: bool)
    ensures forall p <- Shares(ps, done, amount, room) :: p.amount > 0
  {
    if ps != [] {
      SharesPositive(ps[..|ps| - 1], done, amount, room);
    }
  }

  /** What the allocator promises: it pays the amount exactly and overdraws no tender type. */
  lemma AllocationLaw(ps: seq<Payment>, done: seq<RefundPayment>, amount: int, t: Tender)
    requires amount > 0 && Allocation(ps, done, amount).Ok?
    requires forall p <- ps :: p.applied > 0
    requires 0 <= TenderMoney(done, t) <= AppliedBy(ps, t)
    ensures var paid := Allocation(ps, done, amount).value;
            && PaymentsMoney(paid) == amount
            && 0 <= TenderMoney(paid, t) <= AppliedBy(ps, t) - TenderMoney(done, t)
  {
    var a, b := Shares(ps, done, amount, false), Shares(ps, done, amount, true);
    PaymentSumsConcat(a, b, t);
    SharesMoney(ps, done, amount);
    SharesByTender(ps, done, amount, t);
    CapacityOfTender(ps, TenderMoney(done, t), t);
  }

  /** The allocator is greedy in row order: a row receives something only when every row before it has
      given all it could. */
  lemma {:induction false} GreedyInRowOrder(ps: seq<Payment>, done: seq<RefundPayment>, amount: int, j: nat, k: nat)
    requires j < k < |ps| && amount >= 0
    requires LastShare(ps[..k + 1], done, amount) > 0
    ensures LastShare(ps[..j + 1], done, amount) == RowCapacity(ps[j], done)
  {
    assert ps[..k + 1][..k] == ps[..k] && ps[..j + 1][..j] == ps[..j];
    assert ps[..k][..j + 1] == ps[..j + 1];
    CapacityGrows(ps[..k], done, j + 1);
    CapacityGrows(ps[..j + 1], done, j);
  }

  // ----- refund safety

  /** Every accepted refund keeps the history sound. */
  lemma {:induction false} RefundSafety(o: Order, request: Request)
    requires PaidUp(o) && RefundsSound(o) && Decision(o, request).Ok?
    ensures RefundsSound(WithRefund(o, Decision(o, request).value))
  {
    var r := Decision(o, request).value;
    var o' := WithRefund(o, r);
    var doneLines, donePayments := AllLines(o.refunds), AllPayments(o.refunds);
    var remaining := o.totals.total - RefundedTotal(o.refunds);
    HistoryGrows(o.refunds, r);
    PlanBalances(o.lines, doneLines, request, remaining);
    forall t ensures 0 <= TenderMoney(AllPayments(o'.refunds), t) <= AppliedBy(o.payments, t) {
      AllocationLaw(o.payments, donePayments, r.amount, t);
      PaymentSumsConcat(donePayments, r.payments, t);
    }
    AllocationLaw(o.payments, donePayments, r.amount, Cash);
    assert Balanced(r);
    forall l <- o.lines ensures SharesOf(l, AllLines(o'.refunds))
        && 0 <= LineQuantity(AllLines(o'.refunds), l.id) <= l.quantity {
      PlanLaw(o.lines, doneLines, request, remaining, l);
      LineSumsConcat(doneLines, r.lines, l.id);
      SharesOfConcat(l, doneLines, r.lines);
    }
  }

  lemma {:induction false} ShareDrift(l: Line, q: int)
    requires l.quantity > 0
    ensures -l.quantity <= 2 * (Share(l, q).total * l.quantity - l.total * q) <= l.quantity
  {
    RoundNearest(l.total * q, l.quantity);
  }

  lemma DriftAdds(m: int, m': int, q: int, q': int, whole: int, total: int)
    ensures (m + m') * whole - total * (q + q') == (m * whole - total * q) + (m' * whole - total * q')
  {
  }

  /** After n refund lines of one order line, the money refunded for it is within n/2 cents of the
      exact share of the quantity refunded, whether they came in one request or in many. */
  lemma {:induction false} ProportionalDrift(l: Line, ls: seq<RefundLine>)
    requires l.quantity > 0 && SharesOf(l, ls)
    ensures var n, money, quantity := LineCount(ls, l.id), LineMoney(ls, l.id), LineQuantity(ls, l.id);
            -(n * l.quantity) <= 2 * (money * l.quantity - l.total * quantity) <= n * l.quantity
  {
    if ls != [] {
      var init, r := ls[..|ls| - 1], ls[|ls| - 1];
      ProportionalDrift(l, init);
      if r.line == Some(l.id) {
        assert r in ls;
        ShareDrift(l, r.quantity);
        DriftAdds(LineMoney(init, l.id), r.total, LineQuantity(init, l.id), r.quantity, l.quantity, l.total);
        assert (LineCount(init, l.id) + 1) * l.quantity == LineCount(init, l.id) * l.quantity + l.quantity;
      }
    }
  }

  /** A share is the exact proportion rounded once, half up; a whole line gives back exactly its amounts. */
  lemma ShareIsNearest(l: Line, q: int)
    requires l.quantity > 0
    ensures var r := Share(l, q);
            && r.line == Some(l.id) && r.quantity == q
            && NearestHalfUp(l.total * q, l.quantity, r.total)
            && NearestHalfUp(l.discount * q, l.quantity, r.discount)
            && (q == l.quantity ==> r.total == l.total && r.discount == l.discount)
  {
    RoundNearest(l.total * q, l.quantity);
    RoundNearest(l.discount * q, l.quantity);
    if q == l.quantity {
      RoundExact(l.total, l.quantity);
      RoundExact(l.discount, l.quantity);
    }
  }

  // ----- refund completeness

  /** No tender type is both split over several payment rows and partly refunded. */
  ghost predicate Completable(ps: seq<Payment>, done: seq<RefundPayment>) {
    forall t :: RowsOf(ps, t) <= 1 || TenderMoney(done, t) == 0 || TenderMoney(done, t) == AppliedBy(ps, t)
  }

  function Remaining(o: Order): int { o.totals.total - RefundedTotal(o.refunds) }

  /** The payment rows can hold the whole remaining balance exactly when the order is completable. */
  lemma CapacityIsRemaining(o: Order)
    requires PaidUp(o) && RefundsSound(o)
    ensures Capacity(o.payments, AllPayments(o.refunds)) <= Remaining(o)
    ensures Capacity(o.payments, AllPayments(o.refunds)) == Remaining(o)
        <==> Completable(o.payments, AllPayments(o.refunds))
  {
    var ps, done := o.payments, AllPayments(o.refunds);
    HistoryBalances(o.refunds);
    SplitByTender(ps, done);
    RefundedByTender(done);
    forall t ensures CapacityBy(ps, TenderMoney(done, t), t) <= AppliedBy(ps, t) - TenderMoney(done, t)
      && (CapacityBy(ps, TenderMoney(done, t), t) == AppliedBy(ps, t) - TenderMoney(done, t)
          <==> RowsOf(ps, t) <= 1 || TenderMoney(done, t) == 0 || TenderMoney(done, t) == AppliedBy(ps, t)) {
      CapacityOfTender(ps, TenderMoney(done, t), t);
    }
  }

  lemma {:induction false} PostingsExist(ps: seq<Payment>, done: seq<RefundPayment>, amount: int)
    requires forall p <- ps :: p.tender == RoomCharge ==> p.posting
    ensures PostingsFound(ps, done, amount)
  {
    if ps != [] {
      assert ps[|ps| - 1] in ps;
      PostingsExist(ps[..|ps| - 1], done, amount);
    }
  }

  /** A cash amount as a client would type it. */
  function Typed(cents: int): Exact { Decimal(cents, 100) }

  lemma AmountAccepted(o: Order, cents: int)
    requires PaidUp(o) && Settled(o.status) && 0 < cents <= Remaining(o)
    ensures Decision(o, ByAmount(Typed(cents))).Ok? <==> cents <= Capacity(o.payments, AllPayments(o.refunds))
  {
    assert 100 * cents == cents * 100;
    RoundExact(cents, 100);
    PostingsExist(o.payments, AllPayments(o.refunds), cents);
  }

  /** Refund completeness, exactly: every amount up to the balance can be refunded if and only if no
      tender type is both split over rows and partly refunded. */
  lemma RefundCompleteness(o: Order)
    requires PaidUp(o) && RefundsSound(o) && Settled(o.status)
    ensures (forall cents :: 0 < cents <= Remaining(o) ==> Decision(o, ByAmount(Typed(cents))).Ok?)
            <==> Completable(o.payments, AllPayments(o.refunds))
  {
    var ps, done := o.payments, AllPayments(o.refunds);
    CapacityIsRemaining(o);
    forall cents | 0 < cents <= Remaining(o)
      ensures Decision(o, ByAmount(Typed(cents))).Ok? <==> cents <= Capacity(ps, done)
    {
      AmountAccepted(o, cents);
    }
    if !Completable(ps, done) {
      SharesMoney(ps, done, 0);
      assert !Decision(o, ByAmount(Typed(Remaining(o)))).Ok?;
    }
  }

  lemma FullAccepted(o: Order)
    requires PaidUp(o) && Settled(o.status) && Remaining(o) >= 1
    ensures Decision(o, Full).Ok? <==> Remaining(o) <= Capacity(o.payments, AllPayments(o.refunds))
    ensures Decision(o, Full).Ok? ==> Decision(o, Full).value.amount == Remaining(o)
  {
    PostingsExist(o.payments, AllPayments(o.refunds), Remaining(o));
    assert Proposed(o.lines, AllLines(o.refunds), Full, Remaining(o)).value.amount == Remaining(o);
  }

  lemma SpentRejectsAll(o: Order, next: Request)
    requires Remaining(o) < 1
    ensures Decision(o, next).Rejected?
  {
  }

  /** A full refund goes through under the same condition; afterwards nothing is left to refund. */
  lemma FullRefundCompletes(o: Order)
    requires PaidUp(o) && RefundsSound(o) && Settled(o.status) && Remaining(o) >= 1
    ensures Decision(o, Full).Ok? <==> Completable(o.payments, AllPayments(o.refunds))
    ensures Decision(o, Full).Ok? ==>
              var o' := WithRefund(o, Decision(o, Full).value);
              RefundedTotal(o'.refunds) == o.totals.total && forall next :: Decision(o', next).Rejected?
  {
    CapacityIsRemaining(o);
    FullAccepted(o);
    if Decision(o, Full).Ok? {
      var r := Decision(o, Full).value;
      HistoryGrows(o.refunds, r);
      forall next ensures Decision(WithRefund(o, r), next).Rejected? {
        SpentRejectsAll(WithRefund(o, r), next);
      }
    }
  }

  lemma FullPlan(o: Order)
    requires Decision(o, Full).Ok?
    ensures Decision(o, Full).value.lines == WithAdjustment(RemainderLines(o.lines, AllLines(o.refunds)), Remaining(o))
  {
  }

  lemma FullPlanTakes(lines: seq<Line>, done: seq<RefundLine>, remaining: int, l: Line)
    requires l in lines && DistinctIds(lines)
    ensures LineQuantity(WithAdjustment(RemainderLines(lines, done), remaining), l.id)
            == Left(l, LineQuantity(done, l.id))
  {
    var i :| 0 <= i < |lines| && lines[i] == l;
    RemainderIsExact(lines, done, i);
    AdjustmentLeavesLine(RemainderLines(lines, done), remaining, l);
  }

  /** A full refund leaves no quantity of any line behind, whatever was refunded before. */
  lemma FullTakesEveryLine(o: Order, l: Line)
    requires PaidUp(o) && RefundsSound(o) && l in o.lines && Decision(o, Full).Ok?
    ensures LineQuantity(AllLines(WithRefund(o, Decision(o, Full).value).refunds), l.id) == l.quantity
  {
    var r := Decision(o, Full).value;
    var done := AllLines(o.refunds);
    FullPlan(o);
    FullPlanTakes(o.lines, done, Remaining(o), l);
    HistoryGrows(o.refunds, r);
    LineSumsConcat(done, r.lines, l.id);
  }

  // ----- which claim lists are accepted

  function ClaimedQuantity(claims: seq<Claim>, id: int): int {
    if claims == [] then 0
    else
      var c := claims[|claims| - 1];
      ClaimedQuantity(claims[..|claims| - 1], id) + if c.line == Some(id) then Quantity(c.quantity) else 0
  }

  /** What the claims come to: the sum of the shares of the lines they name. */
  function ClaimedMoney(lines: seq<Line>, claims: seq<Claim>): int {
    if claims == [] then 0
    else
      var c := claims[|claims| - 1];
      var l := if c.line.Some? then FindLine(lines, c.line.value) else None;
      ClaimedMoney(lines, claims[..|claims| - 1]) + if l.Some? then Share(l.value, Quantity(c.quantity)).total else 0
  }

  /** A claim names an order line and a positive quantity, and all claims of that line together fit into what
      was not refunded before. */
  predicate Claimable(lines: seq<Line>, done: seq<RefundLine>, claims: seq<Claim>, c: Claim) {
    && c.line.Some? && Quantity(c.quantity) > 0
    && var l := FindLine(lines, c.line.value);
       l.Some? && LineQuantity(done, c.line.value) + ClaimedQuantity(claims, c.line.value) <= l.value.quantity
  }

  predicate AllClaimable(lines: seq<Line>, done: seq<RefundLine>, claims: seq<Claim>) {
    forall c <- claims :: Claimable(lines, done, claims, c)
  }

  lemma ClaimablePrefix(lines: seq<Line>, done: seq<RefundLine>, init: seq<Claim>, c: Claim)
    ensures AllClaimable(lines, done, init + [c])
            <==> AllClaimable(lines, done, init) && Claimable(lines, done, init + [c], c)
  {
    var all := init + [c];
    assert all[..|init|] == init && c in all;
    forall x <- init ensures x in all {
    }
    if Claimable(lines, done, all, c) {
      forall x <- init | Claimable(lines, done, init, x) ensures Claimable(lines, done, all, x) {
      }
    }
  }

  lemma {:induction false} ClaimsLaw(lines: seq<Line>, done: seq<RefundLine>, claims: seq<Claim>, id: int)
    ensures var r := ClaimedLines(lines, done, claims);
            r.Ok? ==> LineQuantity(r.value, id) == ClaimedQuantity(claims, id)
                      && LinesMoney(r.value) == ClaimedMoney(lines, claims)
  {
    if claims != [] && ClaimedLines(lines, done, claims).Ok? {
      var init := claims[..|claims| - 1];
      ClaimsLaw(lines, done, init, id);
      var ls := ClaimedLines(lines, done, claims).value;
      assert ls[..|ls| - 1] == ClaimedLines(lines, done, init).value;
    }
  }

  lemma {:induction false} ClaimsAccepted(lines: seq<Line>, done: seq<RefundLine>, claims: seq<Claim>)
    ensures ClaimedLines(lines, done, claims).Ok? <==> AllClaimable(lines, done, claims)
  {
    if claims != [] {
      var init, c := claims[..|claims| - 1], claims[|claims| - 1];
      assert claims == init + [c];
      ClaimsAccepted(lines, done, init);
      ClaimablePrefix(lines, done, init, c);
      if ClaimedLines(lines, done, init).Ok? && c.line.Some? {
        ClaimsLaw(lines, done, init, c.line.value);
      }
    }
  }

  /** Which line refunds are accepted, exactly: every claim names an order line and a positive quantity, the
      claims of each line fit into what is left of it, and the sum of their shares is positive and fits into
      the payment rows. */
  lemma LinesAcceptedExactly(o: Order, claims: seq<Claim>)
    requires PaidUp(o) && RefundsSound(o) && Settled(o.status) && Remaining(o) >= 1
    ensures Decision(o, ByLines(claims)).Ok?
            <==> && claims != [] && AllClaimable(o.lines, AllLines(o.refunds), claims)
                 && 0 < ClaimedMoney(o.lines, claims) <= Capacity(o.payments, AllPayments(o.refunds))
    ensures Decision(o, ByLines(claims)).Ok? ==>
              Decision(o, ByLines(claims)).value.amount == ClaimedMoney(o.lines, claims)
  {
    var done := AllLines(o.refunds);
    CapacityIsRemaining(o);
    ClaimsAccepted(o.lines, done, claims);
    if ClaimedLines(o.lines, done, claims).Ok? {
      ClaimsLaw(o.lines, done, claims, 0);
    }
    PostingsExist(o.payments, AllPayments(o.refunds), ClaimedMoney(o.lines, claims));
  }

  /** With pairwise distinct tender types the condition always holds. */
  lemma {:induction false} DistinctTendersComplete(ps: seq<Payment>, done: seq<RefundPayment>)
    requires forall i, j :: 0 <= i < j < |ps| ==> ps[i].tender != ps[j].tender
    ensures Completable(ps, done)
    ensures forall t :: RowsOf(ps, t) <= 1 && ((forall p <- ps :: p.tender != t) ==> RowsOf(ps, t) == 0)
  {
    if ps != [] {
      var init := ps[..|ps| - 1];
      DistinctTendersComplete(init, done);
      forall t ensures RowsOf(ps, t) <= 1 && ((forall p <- ps :: p.tender != t) ==> RowsOf(ps, t) == 0) {
        assert ps[|ps| - 1] in ps;
      }
    }
  }

  lemma NoCapacityNoRefund(o: Order, next: Request)
    requires Capacity(o.payments, AllPayments(o.refunds)) == 0
    ensures Decision(o, next).Rejected?
  {
    var plan := Planned(o.lines, AllLines(o.refunds), next, Remaining(o));
    assert plan.Ok? ==> plan.value.amount > 0;
  }

  predicate TwoCashRows(ps: seq<Payment>, each: int) {
    |ps| == 2 && forall i :: 0 <= i < 2 ==> ps[i].tender == Cash && ps[i].applied == each
  }

  lemma OneRowSums(ps: seq<Payment>, done: seq<RefundPayment>, t: Tender)
    requires |ps| == 1
    ensures Applied(ps) == ps[0].applied && Capacity(ps, done) == RowCapacity(ps[0], done)
    ensures AppliedBy(ps, t) == (if ps[0].tender == t then ps[0].applied else 0)
    ensures RowsOf(ps, t) == (if ps[0].tender == t then 1 else 0)
  {
    assert ps[..|ps| - 1] == [];
  }

  lemma TwoCashSums(ps: seq<Payment>, each: int, done: seq<RefundPayment>)
    requires TwoCashRows(ps, each)
    ensures Applied(ps) == 2 * each && AppliedBy(ps, Cash) == 2 * each && RowsOf(ps, Cash) == 2
    ensures forall t :: t != Cash ==> AppliedBy(ps, t) == 0 && RowsOf(ps, t) == 0
    ensures TenderMoney(done, Cash) == each ==> Capacity(ps, done) == 0
  {
    var one := ps[..|ps| - 1];
    forall t ensures AppliedBy(ps, t) == (if t == Cash then 2 * each else 0)
        && RowsOf(ps, t) == (if t == Cash then 2 else 0) {
      OneRowSums(one, done, t);
    }
    OneRowSums(one, done, Cash);
  }

  /** Where it fails: half of a bill paid in two equal cash rows is refunded, and the other half is stuck. */
  lemma SplitCashGetsStuck(o: Order, each: int)
    requires PaidUp(o) && RefundsSound(o) && Settled(o.status) && o.refunds == []
    requires TwoCashRows(o.payments, each) && each > 0
    ensures var first := Decision(o, ByAmount(Typed(each)));
            && first.Ok?
            && var o' := WithRefund(o, first.value);
               Remaining(o') == each && TenderMoney(AllPayments(o'.refunds), Cash) == each
               && forall next :: Decision(o', next).Rejected?
  {
    var ps := o.payments;
    TwoCashSums(ps, each, []);
    assert AllPayments(o.refunds) == [];
    CapacityIsRemaining(o);
    AmountAccepted(o, each);
    var first := Decision(o, ByAmount(Typed(each))).value;
    HistoryGrows(o.refunds, first);
    TypedAmount(o, each);
    OnlyCash(ps, [], each);
    AllocationLaw(ps, [], each, Cash);
    var o' := WithRefund(o, first);
    var done := AllPayments(o'.refunds);
    assert done == first.payments;
    CashAlone(ps, each);
    TwoCashSums(ps, each, done);
    forall next ensures Decision(o', next).Rejected? {
      NoCapacityNoRefund(o', next);
    }
  }

  lemma TypedAmount(o: Order, cents: int)
    requires Decision(o, ByAmount(Typed(cents))).Ok?
    ensures Decision(o, ByAmount(Typed(cents))).value.amount == cents
    ensures Allocation(o.payments, AllPayments(o.refunds), cents)
        == Ok(Decision(o, ByAmount(Typed(cents))).value.payments)
  {
    assert 100 * cents == cents * 100;
    RoundExact(cents, 100);
  }

  /** Paid from cash rows only, a first refund is all cash. */
  lemma CashAlone(ps: seq<Payment>, amount: int)
    requires amount > 0 && Allocation(ps, [], amount).Ok? && forall p <- ps :: p.tender == Cash && p.applied > 0
    ensures TenderMoney(Allocation(ps, [], amount).value, Cash) == amount
  {
    OnlyCash(ps, [], amount);
    SharesMoney(ps, [], amount);
    var paid := Shares(ps, [], amount, false);
    assert Allocation(ps, [], amount).value == paid;
    AllCash(ps, [], amount);
  }

  lemma {:induction false} AllCash(ps: seq<Payment>, done: seq<RefundPayment>, amount: int)
    requires forall p <- ps :: p.tender == Cash
    ensures TenderMoney(Shares(ps, done, amount, false), Cash) == PaymentsMoney(Shares(ps, done, amount, false))
  {
    if ps != [] {
      assert ps[|ps| - 1] in ps;
      AllCash(ps[..|ps| - 1], done, amount);
      SharesStep(ps, done, amount, false, Cash);
    }
  }

  lemma {:induction false} OnlyCash(ps: seq<Payment>, done: seq<RefundPayment>, amount: int)
    requires forall p <- ps :: p.tender == Cash
    ensures Shares(ps, done, amount, true) == []
  {
    if ps != [] {
      assert ps[|ps| - 1] in ps;
      OnlyCash(ps[..|ps| - 1], done, amount);
    }
  }
}
