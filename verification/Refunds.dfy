/** What one refund pays back: the line plan, and its allocation to the original tenders. */
module Refunds {
  import opened Money
  import opened Entities

  // ----- sums over a refund history

  function AllLines(refunds: seq<Refund>): seq<RefundLine> {
    if refunds == [] then [] else AllLines(refunds[..|refunds| - 1]) + refunds[|refunds| - 1].lines
  }

  function AllPayments(refunds: seq<Refund>): seq<RefundPayment> {
    if refunds == [] then [] else AllPayments(refunds[..|refunds| - 1]) + refunds[|refunds| - 1].payments
  }

  function RefundedTotal(refunds: seq<Refund>): int {
    if refunds == [] then 0 else RefundedTotal(refunds[..|refunds| - 1]) + refunds[|refunds| - 1].amount
  }

  function LineQuantity(ls: seq<RefundLine>, id: int): int {
    if ls == [] then 0
    else LineQuantity(ls[..|ls| - 1], id) + (if ls[|ls| - 1].line == Some(id) then ls[|ls| - 1].quantity else 0)
  }

  function LineMoney(ls: seq<RefundLine>, id: int): int {
    if ls == [] then 0
    else LineMoney(ls[..|ls| - 1], id) + (if ls[|ls| - 1].line == Some(id) then ls[|ls| - 1].total else 0)
  }

  function LineCount(ls: seq<RefundLine>, id: int): nat {
    if ls == [] then 0
    else LineCount(ls[..|ls| - 1], id) + (if ls[|ls| - 1].line == Some(id) then 1 else 0)
  }

  function LinesMoney(ls: seq<RefundLine>): int {
    if ls == [] then 0 else LinesMoney(ls[..|ls| - 1]) + ls[|ls| - 1].total
  }

  function TenderMoney(ps: seq<RefundPayment>, t: Tender): int {
    if ps == [] then 0
    else TenderMoney(ps[..|ps| - 1], t) + (if ps[|ps| - 1].tender == t then ps[|ps| - 1].amount else 0)
  }

  function PaymentsMoney(ps: seq<RefundPayment>): int {
    if ps == [] then 0 else PaymentsMoney(ps[..|ps| - 1]) + ps[|ps| - 1].amount
  }

  function Applied(ps: seq<Payment>): int {
    if ps == [] then 0 else Applied(ps[..|ps| - 1]) + ps[|ps| - 1].applied
  }

  function AppliedBy(ps: seq<Payment>, t: Tender): int {
    if ps == [] then 0
    else AppliedBy(ps[..|ps| - 1], t) + (if ps[|ps| - 1].tender == t then ps[|ps| - 1].applied else 0)
  }

  function RowsOf(ps: seq<Payment>, t: Tender): nat {
    if ps == [] then 0 else RowsOf(ps[..|ps| - 1], t) + (if ps[|ps| - 1].tender == t then 1 else 0)
  }

  lemma {:induction false} LineSumsConcat(a: seq<RefundLine>, b: seq<RefundLine>, id: int)
    ensures LineQuantity(a + b, id) == LineQuantity(a, id) + LineQuantity(b, id)
    ensures LineMoney(a + b, id) == LineMoney(a, id) + LineMoney(b, id)
    ensures LineCount(a + b, id) == LineCount(a, id) + LineCount(b, id)
    ensures LinesMoney(a + b) == LinesMoney(a) + LinesMoney(b)
  {
    if b == [] {
      assert a + b == a;
    } else {
      LineSumsConcat(a, b[..|b| - 1], id);
      assert (a + b)[..|a + b| - 1] == a + b[..|b| - 1];
    }
  }

  lemma {:induction false} PaymentSumsConcat(a: seq<RefundPayment>, b: seq<RefundPayment>, t: Tender)
    ensures TenderMoney(a + b, t) == TenderMoney(a, t) + TenderMoney(b, t)
    ensures PaymentsMoney(a + b) == PaymentsMoney(a) + PaymentsMoney(b)
  {
    if b == [] {
      assert a + b == a;
    } else {
      PaymentSumsConcat(a, b[..|b| - 1], t);
      assert (a + b)[..|a + b| - 1] == a + b[..|b| - 1];
    }
  }

  // ----- the line plan

  datatype Claim = Claim(line: Option<int>, quantity: Exact)

  datatype Request = Full | ByLines(claims: seq<Claim>) | ByAmount(amount: Exact) | UnknownMode

  datatype Plan = Plan(lines: seq<RefundLine>, amount: int)

  function Left(l: Line, done: int): int { if l.quantity > done then l.quantity - done else 0 }

  /** The share of a line's money that a quantity of it carries, rounded to the cent. */
  function Share(l: Line, quantity: int): RefundLine {
    var whole := if l.quantity > 0 then l.quantity else QUANTITY_SCALE;
    RefundLine(Some(l.id), quantity, RoundHalfUp(l.discount * quantity, whole), RoundHalfUp(l.total * quantity, whole))
  }

  function FindLine(lines: seq<Line>, id: int): (r: Option<Line>)
    ensures r.Some? <==> exists l <- lines :: l.id == id
    ensures r.Some? ==> r.value in lines && r.value.id == id
  {
    if lines == [] then None else if lines[0].id == id then Some(lines[0]) else FindLine(lines[1..], id)
  }

  function RemainderLines(lines: seq<Line>, done: seq<RefundLine>): seq<RefundLine> {
    if lines == [] then []
    else
      var l := lines[|lines| - 1];
      var left := Left(l, LineQuantity(done, l.id));
      var earlier := RemainderLines(lines[..|lines| - 1], done);
      if left > 0 then earlier + [Share(l, left)] else earlier
  }

  /** One claimed line: it must exist, and its quantity must still be unrefunded, earlier claims included. */
  function Accept(lines: seq<Line>, done: seq<RefundLine>, earlier: seq<RefundLine>, c: Claim): Outcome<RefundLine> {
    if c.line.None? then Rejected
    else
      var l := FindLine(lines, c.line.value);
      var q := Quantity(c.quantity);
      if l.None? || q <= 0 || q > Left(l.value, LineQuantity(done, l.value.id) + LineQuantity(earlier, l.value.id))
      then Rejected
      else Ok(Share(l.value, q))
  }

  function ClaimedLines(lines: seq<Line>, done: seq<RefundLine>, claims: seq<Claim>): Outcome<seq<RefundLine>> {
    if claims == [] then Ok([])
    else
      var earlier := ClaimedLines(lines, done, claims[..|claims| - 1]);
      if earlier.Rejected? then Rejected
      else
        var line := Accept(lines, done, earlier.value, claims[|claims| - 1]);
        if line.Rejected? then Rejected else Ok(earlier.value + [line.value])
  }

  function Adjustment(amount: int): RefundLine { RefundLine(None, QUANTITY_SCALE, 0, amount) }

  function WithAdjustment(ls: seq<RefundLine>, amount: int): seq<RefundLine> {
    if amount != LinesMoney(ls) then ls + [Adjustment(amount - LinesMoney(ls))] else ls
  }

  function Proposed(lines: seq<Line>, done: seq<RefundLine>, request: Request, remaining: int): Outcome<Plan> {
    match request
    case Full => Ok(Plan(WithAdjustment(RemainderLines(lines, done), remaining), remaining))
    case ByLines(claims) =>
      var ls := ClaimedLines(lines, done, claims);
      if claims == [] || ls.Rejected? then Rejected else Ok(Plan(ls.value, LinesMoney(ls.value)))
    case ByAmount(amount) => Ok(Plan([Adjustment(Cents(amount))], Cents(amount)))
    case UnknownMode => Rejected
  }

  function Capped(p: Outcome<Plan>, remaining: int): Outcome<Plan> {
    if p.Ok? && 0 < p.value.amount <= remaining then p else Rejected
  }

  /** The plan the order-service must follow: a proposal that pays something and no more than is left. */
  function Planned(lines: seq<Line>, done: seq<RefundLine>, request: Request, remaining: int): Outcome<Plan> {
    Capped(Proposed(lines, done, request, remaining), remaining)
  }

  // ----- the allocation

  function Min(a: int, b: int): int { if a <= b then a else b }

  /** What is still refundable on one payment row: its own amount less all refunds of its tender type. */
  function RowCapacity(p: Payment, done: seq<RefundPayment>): int {
    var c := p.applied - TenderMoney(done, p.tender);
    if c > 0 then c else 0
  }

  function Capacity(ps: seq<Payment>, done: seq<RefundPayment>): int {
    if ps == [] then 0 else Capacity(ps[..|ps| - 1], done) + RowCapacity(ps[|ps| - 1], done)
  }

  /** Waterfall: the last row receives what the rows before it could not hold. */
  function LastShare(ps: seq<Payment>, done: seq<RefundPayment>, amount: int): int
    requires ps != []
  {
    Min(amount, Capacity(ps, done)) - Min(amount, Capacity(ps[..|ps| - 1], done))
  }

  function Shares(ps: seq<Payment>, done: seq<RefundPayment>, amount: int, room: bool): seq<RefundPayment> {
    if ps == [] then []
    else
      var p, a := ps[|ps| - 1], LastShare(ps, done, amount);
      var earlier := Shares(ps[..|ps| - 1], done, amount, room);
      if a > 0 && (p.tender == RoomCharge) == room then earlier + [RefundPayment(p.tender, a)] else earlier
  }

  /** Every room-charge row the waterfall reaches still has its posting to reverse. */
  predicate PostingsFound(ps: seq<Payment>, done: seq<RefundPayment>, amount: int) {
    ps == [] || (PostingsFound(ps[..|ps| - 1], done, amount)
                 && (LastShare(ps, done, amount) > 0 && ps[|ps| - 1].tender == RoomCharge ==> ps[|ps| - 1].posting))
  }

  /** Ordinary tenders are written before room-charge reversals. */
  function Allocation(ps: seq<Payment>, done: seq<RefundPayment>, amount: int): Outcome<seq<RefundPayment>> {
    if amount <= Capacity(ps, done) && PostingsFound(ps, done, amount)
    then Ok(Shares(ps, done, amount, false) + Shares(ps, done, amount, true))
    else Rejected
  }

  /** The whole decision of one refund request on one order. */
  function Decision(o: Order, request: Request): Outcome<Refund> {
    var remaining := o.totals.total - RefundedTotal(o.refunds);
    if !Settled(o.status) || remaining < 1 then Rejected
    else
      var plan := Planned(o.lines, AllLines(o.refunds), request, remaining);
      if plan.Rejected? then Rejected
      else
        var ps := Allocation(o.payments, AllPayments(o.refunds), plan.value.amount);
        if ps.Rejected? then Rejected else Ok(Refund(plan.value.amount, plan.value.lines, ps.value))
  }

  // ----- the algorithms

  function Looked<K>(m: map<K, int>, k: K): int { if k in m then m[k] else 0 }

  method AddLines(quantities: map<int, int>, ls: seq<RefundLine>) returns (r: map<int, int>)
    ensures forall id: int :: Looked(r, id) == Looked(quantities, id) + LineQuantity(ls, id)
  {
    r := quantities;
    for j := 0 to |ls|
      invariant forall id: int :: Looked(r, id) == Looked(quantities, id) + LineQuantity(ls[..j], id)
    {
      assert ls[..j + 1][..j] == ls[..j];
      if ls[j].line.Some? {
        r := r[ls[j].line.value := Looked(r, ls[j].line.value) + ls[j].quantity];
      }
    }
    assert ls[..|ls|] == ls;
  }

  method AddPayments(tenders: map<Tender, int>, ps: seq<RefundPayment>) returns (r: map<Tender, int>)
    ensures forall t :: Looked(r, t) == Looked(tenders, t) + TenderMoney(ps, t)
  {
    r := tenders;
    for j := 0 to |ps|
      invariant forall t :: Looked(r, t) == Looked(tenders, t) + TenderMoney(ps[..j], t)
    {
      assert ps[..j + 1][..j] == ps[..j];
      r := r[ps[j].tender := Looked(r, ps[j].tender) + ps[j].amount];
    }
    assert ps[..|ps|] == ps;
  }

  /** The two dictionaries of earlier refunds: quantity by line, money by tender type. */
  method GatherHistory(refunds: seq<Refund>) returns (quantities: map<int, int>, tenders: map<Tender, int>)
    ensures forall id: int :: Looked(quantities, id) == LineQuantity(AllLines(refunds), id)
    ensures forall t :: Looked(tenders, t) == TenderMoney(AllPayments(refunds), t)
  {
    quantities, tenders := map[], map[];
    for i := 0 to |refunds|
      invariant forall id: int :: Looked(quantities, id) == LineQuantity(AllLines(refunds[..i]), id)
      invariant forall t :: Looked(tenders, t) == TenderMoney(AllPayments(refunds[..i]), t)
    {
      assert refunds[..i + 1][..i] == refunds[..i];
      quantities := AddLines(quantities, refunds[i].lines);
      tenders := AddPayments(tenders, refunds[i].payments);
      forall id ensures LineQuantity(AllLines(refunds[..i + 1]), id)
                        == LineQuantity(AllLines(refunds[..i]), id) + LineQuantity(refunds[i].lines, id) {
        LineSumsConcat(AllLines(refunds[..i]), refunds[i].lines, id);
      }
      forall t ensures TenderMoney(AllPayments(refunds[..i + 1]), t)
                       == TenderMoney(AllPayments(refunds[..i]), t) + TenderMoney(refunds[i].payments, t) {
        PaymentSumsConcat(AllPayments(refunds[..i]), refunds[i].payments, t);
      }
    }
    assert refunds[..|refunds|] == refunds;
  }

  method PlanFull(lines: seq<Line>, ghost done: seq<RefundLine>, quantities: map<int, int>, remaining: int)
    returns (plan: Plan)
    requires forall id: int :: Looked(quantities, id) == LineQuantity(done, id)
    ensures Proposed(lines, done, Full, remaining) == Ok(plan)
  {
    var ls: seq<RefundLine> := [];
    var accumulated := 0;
    for i := 0 to |lines|
      invariant ls == RemainderLines(lines[..i], done)
      invariant accumulated == LinesMoney(ls)
    {
      assert lines[..i + 1][..i] == lines[..i];
      var left := Left(lines[i], Looked(quantities, lines[i].id));
      if left > 0 {
        var share := Share(lines[i], left);
        assert (ls + [share])[..|ls|] == ls;
        ls := ls + [share];
        accumulated := accumulated + share.total;
      }
    }
    assert lines[..|lines|] == lines;
    var remainder := remaining - accumulated;
    if remainder != 0 {
      ls := ls + [Adjustment(remainder)];
    }
    plan := Plan(ls, remaining);
  }

  /** Checks one claim against the running dictionary, and records it there. */
  method TakeClaim(lines: seq<Line>, ghost done: seq<RefundLine>, ghost earlier: seq<RefundLine>,
                   running: map<int, int>, c: Claim)
    returns (r: Outcome<RefundLine>, running': map<int, int>)
    requires forall id: int {:trigger Looked(running, id)} ::
      Looked(running, id) == LineQuantity(done, id) + LineQuantity(earlier, id)
    ensures r == Accept(lines, done, earlier, c)
    ensures r.Ok? ==> forall id: int {:trigger Looked(running', id)} ::
      Looked(running', id) == LineQuantity(done, id) + LineQuantity(earlier + [r.value], id)
  {
    running' := running;
    if c.line.None? {
      return Rejected, running;
    }
    var l := FindLine(lines, c.line.value);
    var q := Quantity(c.quantity);
    if l.None? || q <= 0 || q > Left(l.value, Looked(running, l.value.id)) {
      return Rejected, running;
    }
    var share := Share(l.value, q);
    running' := running[l.value.id := Looked(running, l.value.id) + q];
    RunningGrows(running, running', done, earlier, share, l.value.id);
    r := Ok(share);
  }

  lemma RunningGrows(running: map<int, int>, running': map<int, int>,
                     done: seq<RefundLine>, earlier: seq<RefundLine>, x: RefundLine, k: int)
    requires x.line == Some(k) && running' == running[k := Looked(running, k) + x.quantity]
    requires forall id: int {:trigger Looked(running, id)} ::
      Looked(running, id) == LineQuantity(done, id) + LineQuantity(earlier, id)
    ensures forall id: int {:trigger Looked(running', id)} ::
      Looked(running', id) == LineQuantity(done, id) + LineQuantity(earlier + [x], id)
  {
    assert (earlier + [x])[..|earlier|] == earlier;
    forall id: int {:trigger Looked(running', id)}
      ensures Looked(running', id) == LineQuantity(done, id) + LineQuantity(earlier + [x], id)
    {
      assert Looked(running, id) == LineQuantity(done, id) + LineQuantity(earlier, id);
    }
  }

  lemma ClaimedStep(lines: seq<Line>, done: seq<RefundLine>, claims: seq<Claim>, i: nat)
    requires i < |claims|
    ensures var before := ClaimedLines(lines, done, claims[..i]);
            before.Ok? ==>
              var line := Accept(lines, done, before.value, claims[i]);
              ClaimedLines(lines, done, claims[..i + 1]) == if line.Ok? then Ok(before.value + [line.value]) else Rejected
  {
    assert claims[..i + 1][..i] == claims[..i];
  }

  method CollectClaims(lines: seq<Line>, ghost done: seq<RefundLine>, quantities: map<int, int>, claims: seq<Claim>)
    returns (r: Outcome<seq<RefundLine>>, amount: int)
    requires forall id: int :: Looked(quantities, id) == LineQuantity(done, id)
    ensures r == ClaimedLines(lines, done, claims)
    ensures r.Ok? ==> amount == LinesMoney(r.value)
  {
    var ls: seq<RefundLine> := [];
    var running := quantities;
    amount := 0;
    for i := 0 to |claims|
      invariant ClaimedLines(lines, done, claims[..i]) == Ok(ls)
      invariant amount == LinesMoney(ls)
      invariant forall id: int {:trigger Looked(running, id)} ::
        Looked(running, id) == LineQuantity(done, id) + LineQuantity(ls, id)
    {
      ClaimedStep(lines, done, claims, i);
      var line: Outcome<RefundLine>;
      line, running := TakeClaim(lines, done, ls, running, claims[i]);
      if line.Rejected? {
        RejectionSticks(lines, done, claims, i + 1);
        return Rejected, 0;
      }
      MoneyOfOneMore(ls, line.value);
      ls := ls + [line.value];
      amount := amount + line.value.total;
    }
    assert claims[..|claims|] == claims;
    r := Ok(ls);
  }

  lemma MoneyOfOneMore(ls: seq<RefundLine>, l: RefundLine)
    ensures LinesMoney(ls + [l]) == LinesMoney(ls) + l.total
  {
    assert (ls + [l])[..|ls|] == ls;
  }

  method PlanClaims(lines: seq<Line>, ghost done: seq<RefundLine>, quantities: map<int, int>, claims: seq<Claim>,
                    ghost remaining: int)
    returns (r: Outcome<Plan>)
    requires forall id: int :: Looked(quantities, id) == LineQuantity(done, id)
    ensures r == Proposed(lines, done, ByLines(claims), remaining)
  {
    if claims == [] {
      return Rejected;
    }
    var ls, amount := CollectClaims(lines, done, quantities, claims);
    if ls.Rejected? {
      return Rejected;
    }
    r := Ok(Plan(ls.value, amount));
  }

  lemma {:induction false} RejectionSticks(lines: seq<Line>, done: seq<RefundLine>, claims: seq<Claim>, i: nat)
    requires i <= |claims| && ClaimedLines(lines, done, claims[..i]).Rejected?
    ensures ClaimedLines(lines, done, claims).Rejected?
    decreases |claims| - i
  {
    if i < |claims| {
      assert claims[..i + 1][..i] == claims[..i];
      RejectionSticks(lines, done, claims, i + 1);
    } else {
      assert claims[..i] == claims;
    }
  }

  method PrepareRefundLines(lines: seq<Line>, ghost done: seq<RefundLine>, quantities: map<int, int>,
                            request: Request, remaining: int)
    returns (r: Outcome<Plan>)
    requires forall id: int :: Looked(quantities, id) == LineQuantity(done, id)
    ensures r == Planned(lines, done, request, remaining)
  {
    if request.Full? {
      var plan := PlanFull(lines, done, quantities, remaining);
      r := Ok(plan);
    } else if request.ByLines? {
      r := PlanClaims(lines, done, quantities, request.claims, remaining);
    } else if request.ByAmount? {
      r := Ok(Plan([Adjustment(Cents(request.amount))], Cents(request.amount)));
    } else {
      r := Rejected;
    }
    r := Capped(r, remaining);
  }

  /** The greedy loop: each row gives what it can until nothing is left to allocate. */
  method AllocateTenders(ps: seq<Payment>, ghost done: seq<RefundPayment>, tenders: map<Tender, int>, amount: int)
    returns (r: Outcome<seq<RefundPayment>>)
    requires forall t :: Looked(tenders, t) == TenderMoney(done, t)
    requires amount > 0
    ensures r == Allocation(ps, done, amount)
  {
    var allocations: seq<RefundPayment>, reversals: seq<RefundPayment> := [], [];
    var toAllocate := amount;
    var i := 0;
    while i < |ps| && toAllocate > 0
      invariant 0 <= i <= |ps|
      invariant 0 <= toAllocate == amount - Min(amount, Capacity(ps[..i], done))
      invariant PostingsFound(ps[..i], done, amount)
      invariant allocations == Shares(ps[..i], done, amount, false)
      invariant reversals == Shares(ps[..i], done, amount, true)
    {
      assert ps[..i + 1][..i] == ps[..i];
      ghost var share := LastShare(ps[..i + 1], done, amount);
      var p := ps[i];
      var left := p.applied - Looked(tenders, p.tender);
      if left > 0 {
        var alloc := Min(left, toAllocate);
        assert alloc == share;
        if p.tender == RoomCharge {
          if !p.posting {
            if PostingsFound(ps, done, amount) {
              FoundInPrefix(ps, done, amount, i + 1);
            }
            return Rejected;
          }
          reversals := reversals + [RefundPayment(RoomCharge, alloc)];
        } else {
          allocations := allocations + [RefundPayment(p.tender, alloc)];
        }
        toAllocate := toAllocate - alloc;
      }
      i := i + 1;
    }
    NothingAfterFull(ps, done, amount, i);
    r := if toAllocate > 0 then Rejected else Ok(allocations + reversals);
  }

  lemma {:induction false} CapacityGrows(ps: seq<Payment>, done: seq<RefundPayment>, i: nat)
    requires i <= |ps|
    ensures 0 <= Capacity(ps[..i], done) <= Capacity(ps, done)
    decreases |ps|
  {
    if i < |ps| {
      CapacityGrows(ps[..|ps| - 1], done, i);
      assert ps[..|ps| - 1][..i] == ps[..i];
    } else {
      assert ps[..i] == ps;
      if ps != [] {
        CapacityGrows(ps[..|ps| - 1], done, |ps| - 1);
      }
    }
  }

  lemma {:induction false} FoundInPrefix(ps: seq<Payment>, done: seq<RefundPayment>, amount: int, i: nat)
    requires i <= |ps| && PostingsFound(ps, done, amount)
    ensures PostingsFound(ps[..i], done, amount)
    decreases |ps|
  {
    if i < |ps| {
      FoundInPrefix(ps[..|ps| - 1], done, amount, i);
      assert ps[..|ps| - 1][..i] == ps[..i];
    } else {
      assert ps[..i] == ps;
    }
  }

  /** Leaving the loop early loses nothing: once the amount is covered, later rows receive no share. */
  lemma {:induction false} NothingAfterFull(ps: seq<Payment>, done: seq<RefundPayment>, amount: int, i: nat)
    requires i <= |ps| && PostingsFound(ps[..i], done, amount)
    requires i == |ps| || Capacity(ps[..i], done) >= amount
    ensures PostingsFound(ps, done, amount)
    ensures forall room :: Shares(ps, done, amount, room) == Shares(ps[..i], done, amount, room)
    ensures i < |ps| ==> Capacity(ps, done) >= amount
    ensures i == |ps| ==> Capacity(ps, done) == Capacity(ps[..i], done)
    decreases |ps| - i
  {
    if i < |ps| {
      CapacityGrows(ps[..i + 1], done, i);
      assert ps[..i + 1][..i] == ps[..i];
      CapacityGrows(ps, done, i);
      NothingAfterFull(ps, done, amount, i + 1);
    } else {
      assert ps[..i] == ps;
    }
  }
}
