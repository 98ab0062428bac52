/** What a refund request is answered, said from the request, the order and its history alone. */
module RefundAnswers {
  import opened Money
  import opened Entities
  import opened Pricing
  import opened Refunds
  import opened RefundLaws

  /** The refund line a claim becomes: the nearest 1/10000 of the quantity typed, and the nearest cents of that
      share of the claimed line's money. */
  ghost predicate Pays(c: Claim, lines: seq<Line>, x: RefundLine) {
    && c.line.Some? && x.line == c.line && x.quantity > 0
    && NearestHalfUp(10000 * c.quantity.num, c.quantity.den, x.quantity)
    && exists l <- lines ::
         (l.id == c.line.value
          && NearestHalfUp(l.total * x.quantity, l.quantity, x.total)
          && NearestHalfUp(l.discount * x.quantity, l.quantity, x.discount))
  }

  ghost predicate AllPay(claims: seq<Claim>, lines: seq<Line>, xs: seq<RefundLine>) {
    |xs| == |claims| && forall k :: 0 <= k < |claims| ==> Pays(claims[k], lines, xs[k])
  }

  function TotalOf(): RefundLine -> int { (x: RefundLine) => x.total }

  lemma FoundLine(lines: seq<Line>, l: Line)
    requires l in lines && DistinctIds(lines)
    ensures FindLine(lines, l.id) == Some(l)
  {
  }

  lemma OnePays(lines: seq<Line>, l: Line, c: Claim)
    requires l in lines && l.quantity > 0 && c.line == Some(l.id) && Quantity(c.quantity) > 0
    ensures Pays(c, lines, Share(l, Quantity(c.quantity)))
  {
    QuantityNearest(c.quantity);
    ShareIsNearest(l, Quantity(c.quantity));
  }

  lemma {:induction false} ClaimsPay(lines: seq<Line>, done: seq<RefundLine>, claims: seq<Claim>)
    requires forall l <- lines :: l.quantity > 0
    ensures var r := ClaimedLines(lines, done, claims); r.Ok? ==> AllPay(claims, lines, r.value)
  {
    if claims != [] && ClaimedLines(lines, done, claims).Ok? {
      var init := claims[..|claims| - 1];
      ClaimsPay(lines, done, init);
      var c := claims[|claims| - 1];
      var l := FindLine(lines, c.line.value).value;
      OnePays(lines, l, c);
    }
  }

  /** What such refund lines are, as the planner computes them. */
  lemma PaysAreShares(claims: seq<Claim>, lines: seq<Line>, xs: seq<RefundLine>, k: nat)
    requires (forall l <- lines :: l.quantity > 0) && DistinctIds(lines) && AllPay(claims, lines, xs) && k < |claims|
    ensures claims[k].line.Some? && FindLine(lines, claims[k].line.value).Some?
    ensures xs[k].quantity == Quantity(claims[k].quantity)
    ensures xs[k] == Share(FindLine(lines, claims[k].line.value).value, xs[k].quantity)
  {
    var c, x := claims[k], xs[k];
    assert Pays(c, lines, x);
    QuantityNearest(c.quantity);
    var l :| l in lines && l.id == c.line.value
             && NearestHalfUp(l.total * x.quantity, l.quantity, x.total)
             && NearestHalfUp(l.discount * x.quantity, l.quantity, x.discount);
    FoundLine(lines, l);
    RoundingIsUnique(l.total * x.quantity, l.quantity, x.total);
    RoundingIsUnique(l.discount * x.quantity, l.quantity, x.discount);
  }

  lemma {:induction false} PaysSums(claims: seq<Claim>, lines: seq<Line>, xs: seq<RefundLine>, id: int)
    requires (forall l <- lines :: l.quantity > 0) && DistinctIds(lines) && AllPay(claims, lines, xs)
    ensures ClaimedQuantity(claims, id) == LineQuantity(xs, id)
    ensures ClaimedMoney(lines, claims) == Sum(xs, TotalOf())
  {
    if claims != [] {
      PaysSums(claims[..|claims| - 1], lines, xs[..|xs| - 1], id);
      PaysAreShares(claims, lines, xs, |claims| - 1);
    }
  }

  lemma HavePositive(lines: seq<Line>)
    requires AllWellPriced(lines)
    ensures forall l <- lines :: l.quantity > 0
  {
    forall l <- lines ensures l.quantity > 0 {
      assert WellPriced(l);
    }
  }

  /** The lines fit: with what was refunded before, no order line gives back more than it has. */
  predicate Fits(lines: seq<Line>, done: seq<RefundLine>, xs: seq<RefundLine>) {
    forall l <- lines :: LineQuantity(done, l.id) + LineQuantity(xs, l.id) <= l.quantity
  }

  lemma FitsIsClaimable(o: Order, claims: seq<Claim>, xs: seq<RefundLine>)
    requires PaidUp(o) && RefundsSound(o) && AllPay(claims, o.lines, xs)
    ensures AllClaimable(o.lines, AllLines(o.refunds), claims) <==> Fits(o.lines, AllLines(o.refunds), xs)
  {
    var done := AllLines(o.refunds);
    HavePositive(o.lines);
    forall id ensures ClaimedQuantity(claims, id) == LineQuantity(xs, id) { PaysSums(claims, o.lines, xs, id); }
    if Fits(o.lines, done, xs) {
      forall c <- claims ensures Claimable(o.lines, done, claims, c) {
        var k :| 0 <= k < |claims| && claims[k] == c;
        PaysAreShares(claims, o.lines, xs, k);
      }
    }
    if AllClaimable(o.lines, done, claims) {
      forall l <- o.lines ensures LineQuantity(done, l.id) + LineQuantity(xs, l.id) <= l.quantity {
        FoundLine(o.lines, l);
        UnclaimedIsZero(claims, l.id);
      }
    }
  }

  lemma {:induction false} UnclaimedIsZero(claims: seq<Claim>, id: int)
    ensures (forall c <- claims :: c.line != Some(id)) ==> ClaimedQuantity(claims, id) == 0
  {
    if claims != [] {
      assert claims[|claims| - 1] in claims;
      UnclaimedIsZero(claims[..|claims| - 1], id);
    }
  }

  /** Line refunds, exactly: a request is accepted if and only if it has claims, they become refund lines that
      fit, and what these pay is positive and fits into the payment rows; they are the lines of the refund. */
  lemma LinesAnswer(o: Order, claims: seq<Claim>)
    requires PaidUp(o) && RefundsSound(o) && Settled(o.status) && Remaining(o) >= 1
    ensures Decision(o, ByLines(claims)).Ok?
            <==> && claims != []
                 && exists xs ::
                      (AllPay(claims, o.lines, xs) && Fits(o.lines, AllLines(o.refunds), xs)
                       && 0 < Sum(xs, TotalOf()) <= Capacity(o.payments, AllPayments(o.refunds)))
    ensures var d := Decision(o, ByLines(claims));
            d.Ok? ==> AllPay(claims, o.lines, d.value.lines) && d.value.amount == Sum(d.value.lines, TotalOf())
  {
    LinesAcceptedExactly(o, claims);
    HavePositive(o.lines);
    var d := Decision(o, ByLines(claims));
    if d.Ok? {
      var xs := d.value.lines;
      ClaimsPay(o.lines, AllLines(o.refunds), claims);
      PaysSums(claims, o.lines, xs, 0);
      FitsIsClaimable(o, claims, xs);
    }
    forall xs | AllPay(claims, o.lines, xs)
      ensures AllClaimable(o.lines, AllLines(o.refunds), claims) <==> Fits(o.lines, AllLines(o.refunds), xs)
      ensures ClaimedMoney(o.lines, claims) == Sum(xs, TotalOf())
    {
      FitsIsClaimable(o, claims, xs);
      PaysSums(claims, o.lines, xs, 0);
    }
  }

  /** Amount refunds, exactly: the nearest cents of what was typed, when positive and within the payment rows. */
  lemma AmountAnswer(o: Order, x: Exact)
    requires PaidUp(o) && RefundsSound(o) && Settled(o.status) && Remaining(o) >= 1
    ensures Decision(o, ByAmount(x)).Ok?
            <==> exists c ::
                   (NearestHalfUp(100 * x.num, x.den, c) && 0 < c <= Capacity(o.payments, AllPayments(o.refunds)))
    ensures var d := Decision(o, ByAmount(x));
            d.Ok? ==> NearestHalfUp(100 * x.num, x.den, d.value.amount)
                      && d.value.lines == [RefundLine(None, 10000, 0, d.value.amount)]
  {
    CentsNearest(x);
    CapacityIsRemaining(o);
    PostingsExist(o.payments, AllPayments(o.refunds), Cents(x));
  }

  function AmountOf(): Refund -> int { (r: Refund) => r.amount }

  lemma {:induction false} RefundedIsSum(refunds: seq<Refund>)
    ensures RefundedTotal(refunds) == Sum(refunds, AmountOf())
  {
    if refunds != [] {
      RefundedIsSum(refunds[..|refunds| - 1]);
    }
  }

  lemma {:induction false} NoAdjustments(lines: seq<Line>, done: seq<RefundLine>)
    ensures forall x <- RemainderLines(lines, done) :: x.line.Some?
  {
    if lines != [] {
      NoAdjustments(lines[..|lines| - 1], done);
    }
  }

  /** Full refunds pay the total less every earlier refund; what no line accounts for is one adjustment line. */
  lemma FullAnswer(o: Order)
    requires Decision(o, Full).Ok?
    ensures var r := Decision(o, Full).value;
            && r.amount == o.totals.total - Sum(o.refunds, AmountOf())
            && (forall x <- r.lines | x.line.None? ::
                  x.quantity == 10000 && x.discount == 0 && x == r.lines[|r.lines| - 1])
  {
    RefundedIsSum(o.refunds);
    FullPlan(o);
    NoAdjustments(o.lines, AllLines(o.refunds));
  }

  /** Never refunded: an order that is not paid or folio-pending, one with nothing left, an unknown mode, and a
      line refund without lines. */
  lemma RefusedAnswer(o: Order, request: Request)
    requires || (o.status != Paid && o.status != FolioPending)
             || o.totals.total <= Sum(o.refunds, AmountOf())
             || request == UnknownMode || request == ByLines([])
    ensures Decision(o, request).Rejected?
  {
    RefundedIsSum(o.refunds);
  }

  // ----- the allocation

  function RoomLeft(done: seq<RefundPayment>): Payment -> int {
    (p: Payment) => if p.applied > TenderMoney(done, p.tender) then p.applied - TenderMoney(done, p.tender) else 0
  }

  lemma {:induction false} CapacityIsSum(ps: seq<Payment>, done: seq<RefundPayment>)
    ensures Capacity(ps, done) == Sum(ps, RoomLeft(done))
  {
    if ps != [] {
      CapacityIsSum(ps[..|ps| - 1], done);
    }
  }

  lemma {:induction false} OneKind(ps: seq<Payment>, done: seq<RefundPayment>, amount: int, room: bool)
    ensures forall x <- Shares(ps, done, amount, room) :: (x.tender == RoomCharge) == room
  {
    if ps != [] {
      OneKind(ps[..|ps| - 1], done, amount, room);
    }
  }

  /** Room charges are reversed last, and only where the posting exists: a room charge that would have to give
      something back without one stops the refund. */
  lemma RoomChargesLast(ps: seq<Payment>, done: seq<RefundPayment>, amount: int)
    requires Allocation(ps, done, amount).Ok?
    ensures var xs := Allocation(ps, done, amount).value;
            && (forall i, j :: 0 <= i < j < |xs| && xs[i].tender == RoomCharge ==> xs[j].tender == RoomCharge)
            && (forall k ::
                  (0 <= k < |ps| && ps[k].tender == RoomCharge
                   && Sum(ps[..k], RoomLeft(done)) < amount && RoomLeft(done)(ps[k]) > 0) ==> ps[k].posting)
  {
    OneKind(ps, done, amount, false);
    OneKind(ps, done, amount, true);
    forall k | 0 <= k < |ps| && ps[k].tender == RoomCharge
               && Sum(ps[..k], RoomLeft(done)) < amount && RoomLeft(done)(ps[k]) > 0
      ensures ps[k].posting
    {
      CapacityIsSum(ps[..k], done);
      FoundInPrefix(ps, done, amount, k + 1);
      assert ps[..k + 1][..k] == ps[..k];
    }
  }
}
