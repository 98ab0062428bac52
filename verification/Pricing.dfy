/** Pricing a complete line list, and re-pricing two orders that are merged. */
module Pricing {
  import opened Money
  import opened Entities

  /** One requested line. `listPrice` is the price the catalog resolves for it, modifiers included. */
  datatype LineRequest = LineRequest(
    item: int,
    quantity: Exact,
    listPrice: nat,
    unitPrice: Option<Exact>,
    discount: Option<Exact>)

  function Gross(quantity: int, unitPrice: int): int {
    RoundHalfUp(quantity * unitPrice, QUANTITY_SCALE)
  }

  predicate FinancialsValid(c: CatalogItem) {
    c.price >= 0 && 0 <= c.taxRate <= RATE_SCALE && 0 <= c.serviceRate <= RATE_SCALE
  }

  // ----- what a request must satisfy, and the line it becomes

  function Discount(r: LineRequest): int {
    if r.discount.None? then 0 else Cents(r.discount.value)
  }

  predicate Priceable(r: LineRequest, catalog: Catalog) {
    && r.item in catalog
    && FinancialsValid(catalog[r.item])
    && r.quantity.num > 0 && Quantity(r.quantity) > 0
    && (r.unitPrice.Some? ==> r.unitPrice.value.num >= 0 && Cents(r.unitPrice.value) == r.listPrice)
    && (r.discount.Some? ==> r.discount.value.num >= 0)
    && Discount(r) <= Gross(Quantity(r.quantity), r.listPrice)
  }

  function SkuOf(catalog: Catalog, item: int): Option<int> { if item in catalog then catalog[item].sku else None }

  function NewLine(r: LineRequest, id: int, catalog: Catalog): Line {
    var q := Quantity(r.quantity);
    Line(id, r.item, SkuOf(catalog, r.item), q, r.listPrice, Discount(r), Gross(q, r.listPrice) - Discount(r))
  }

  function NewLines(rs: seq<LineRequest>, nextLine: nat, catalog: Catalog): (lines: seq<Line>) {
    seq(|rs|, i requires 0 <= i < |rs| => NewLine(rs[i], nextLine + i, catalog))
  }

  function RequestedQuantity(rs: seq<LineRequest>, item: int): int {
    if rs == [] then 0
    else RequestedQuantity(rs[..|rs| - 1], item)
         + (if rs[|rs| - 1].item == item then Quantity(rs[|rs| - 1].quantity) else 0)
  }

  function AcceptedQuantity(lines: seq<Line>, item: int): int {
    if lines == [] then 0
    else AcceptedQuantity(lines[..|lines| - 1], item)
         + (if lines[|lines| - 1].item == item then lines[|lines| - 1].quantity else 0)
  }

  /** An item that is sold out or inactive may be kept or reduced, never added or increased. */
  predicate Stocked(rs: seq<LineRequest>, accepted: seq<Line>, catalog: Catalog) {
    forall r <- rs :: StockedItem(r.item, rs, accepted, catalog)
  }

  predicate Acceptable(rs: seq<LineRequest>, accepted: seq<Line>, catalog: Catalog) {
    && (forall r <- rs :: Priceable(r, catalog))
    && Stocked(rs, accepted, catalog)
  }

  // ----- order totals as sums over lines

  function LineGross(l: Line): int { Gross(l.quantity, l.unitPrice) }

  function Subtotal(lines: seq<Line>): int {
    if lines == [] then 0 else Subtotal(lines[..|lines| - 1]) + LineGross(lines[|lines| - 1])
  }

  function Discounts(lines: seq<Line>): int {
    if lines == [] then 0 else Discounts(lines[..|lines| - 1]) + lines[|lines| - 1].discount
  }

  function Rate(catalog: Catalog, item: int, service: bool): int {
    if item !in catalog then 0 else if service then catalog[item].serviceRate else catalog[item].taxRate
  }

  /** Unrounded tax (or service charge), in cents times RATE_SCALE. */
  function Charge(lines: seq<Line>, catalog: Catalog, service: bool): int {
    if lines == [] then 0
    else var l := lines[|lines| - 1];
         Charge(lines[..|lines| - 1], catalog, service)
         + (LineGross(l) - l.discount) * Rate(catalog, l.item, service)
  }

  /** The unrounded total, in cents times RATE_SCALE. */
  function Unrounded(lines: seq<Line>, catalog: Catalog): int {
    (Subtotal(lines) - Discounts(lines)) * RATE_SCALE + Charge(lines, catalog, false) + Charge(lines, catalog, true)
  }

  /** The stored totals: every part is rounded once, and so is the total of the unrounded parts. */
  function Rounded(subtotal: int, discount: int, tax: int, service: int): Totals {
    Totals(subtotal, discount, RoundHalfUp(tax, RATE_SCALE), RoundHalfUp(service, RATE_SCALE),
           RoundHalfUp((subtotal - discount) * RATE_SCALE + tax + service, RATE_SCALE))
  }

  function TotalsOf(lines: seq<Line>, catalog: Catalog): Totals {
    Rounded(Subtotal(lines), Discounts(lines), Charge(lines, catalog, false), Charge(lines, catalog, true))
  }

  /** The line invariant pricing establishes and every later step keeps. */
  predicate WellPriced(l: Line) {
    && l.quantity > 0 && l.unitPrice >= 0
    && 0 <= l.discount <= LineGross(l)
    && l.total == LineGross(l) - l.discount
  }

  predicate AllWellPriced(lines: seq<Line>) { forall l <- lines :: WellPriced(l) }

  datatype Priced = Priced(lines: seq<Line>, totals: Totals)

  function Looked(m: map<int, int>, k: int): int { if k in m then m[k] else 0 }

  method SumAccepted(accepted: seq<Line>) returns (quantities: map<int, int>)
    ensures forall k :: Looked(quantities, k) == AcceptedQuantity(accepted, k)
  {
    quantities := map[];
    for i := 0 to |accepted|
      invariant forall k :: Looked(quantities, k) == AcceptedQuantity(accepted[..i], k)
    {
      var l := accepted[i];
      quantities := quantities[l.item := Looked(quantities, l.item) + l.quantity];
      assert accepted[..i + 1][..i] == accepted[..i];
    }
    assert accepted[..|accepted|] == accepted;
  }

  predicate QuantityValid(r: LineRequest) { r.quantity.num > 0 && Quantity(r.quantity) > 0 }

  method SumRequested(rs: seq<LineRequest>) returns (r: Outcome<map<int, int>>)
    ensures r.Ok? <==> forall q <- rs :: QuantityValid(q)
    ensures r.Ok? ==> forall k :: Looked(r.value, k) == RequestedQuantity(rs, k)
  {
    var quantities: map<int, int> := map[];
    for i := 0 to |rs|
      invariant forall q <- rs[..i] :: QuantityValid(q)
      invariant forall k :: Looked(quantities, k) == RequestedQuantity(rs[..i], k)
    {
      var q := rs[i];
      assert q in rs;
      if !QuantityValid(q) {
        return Rejected;
      }
      quantities := quantities[q.item := Looked(quantities, q.item) + Quantity(q.quantity)];
      assert rs[..i + 1][..i] == rs[..i];
    }
    assert rs[..|rs|] == rs;
    r := Ok(quantities);
  }

  predicate StockedItem(k: int, rs: seq<LineRequest>, accepted: seq<Line>, catalog: Catalog) {
    && k in catalog
    && (RequestedQuantity(rs, k) > AcceptedQuantity(accepted, k) ==> catalog[k].active && catalog[k].available)
  }

  /** Price and discount checks of one request, once its quantity and stock are known to be good. */
  method PriceLine(q: LineRequest, catalog: Catalog, id: int) returns (r: Outcome<Line>)
    requires q.item in catalog && QuantityValid(q)
    ensures r.Ok? <==> Priceable(q, catalog)
    ensures r.Ok? ==> r.value == NewLine(q, id, catalog) && WellPriced(r.value)
  {
    if !FinancialsValid(catalog[q.item]) {
      return Rejected;
    }
    if q.unitPrice.Some? && (q.unitPrice.value.num < 0 || Cents(q.unitPrice.value) != q.listPrice) {
      return Rejected;
    }
    if q.discount.Some? {
      if q.discount.value.num < 0 {
        return Rejected;
      }
      RoundNonNegative(100 * q.discount.value.num, q.discount.value.den);
    }
    var lineDiscount := Discount(q);
    var gross := Gross(Quantity(q.quantity), q.listPrice);
    if lineDiscount > gross {
      return Rejected;
    }
    r := Ok(Line(id, q.item, catalog[q.item].sku, Quantity(q.quantity), q.listPrice,
                 lineDiscount, gross - lineDiscount));
  }

  method CheckStock(rs: seq<LineRequest>, accepted: seq<Line>, catalog: Catalog, wanted: map<int, int>,
      kept: map<int, int>)
    returns (ok: bool)
    requires forall k :: Looked(wanted, k) == RequestedQuantity(rs, k)
    requires forall k :: Looked(kept, k) == AcceptedQuantity(accepted, k)
    ensures ok <==> Stocked(rs, accepted, catalog)
  {
    for i := 0 to |rs|
      invariant forall j :: 0 <= j < i ==> StockedItem(rs[j].item, rs, accepted, catalog)
    {
      var k := rs[i].item;
      assert Looked(wanted, k) == RequestedQuantity(rs, k) && Looked(kept, k) == AcceptedQuantity(accepted, k);
      if k !in catalog || (Looked(wanted, k) > Looked(kept, k) && !(catalog[k].active && catalog[k].available)) {
        assert rs[i] in rs;
        return false;
      }
    }
    ok := true;
  }

  lemma NewLinesGrow(rs: seq<LineRequest>, nextLine: nat, catalog: Catalog, i: nat)
    requires i < |rs|
    ensures NewLines(rs[..i + 1], nextLine, catalog)
            == NewLines(rs[..i], nextLine, catalog) + [NewLine(rs[i], nextLine + i, catalog)]
  {
  }

  lemma SumsGrow(lines: seq<Line>, l: Line, catalog: Catalog)
    requires l.item in catalog && l.total == LineGross(l) - l.discount
    ensures Subtotal(lines + [l]) == Subtotal(lines) + LineGross(l)
    ensures Discounts(lines + [l]) == Discounts(lines) + l.discount
    ensures Charge(lines + [l], catalog, false) == Charge(lines, catalog, false) + l.total * catalog[l.item].taxRate
    ensures Charge(lines + [l], catalog, true) == Charge(lines, catalog, true) + l.total * catalog[l.item].serviceRate
  {
    assert (lines + [l])[..|lines|] == lines;
  }

  /** The pricing loop: each line in turn, with the running sums of the order. */
  method PlanLines(rs: seq<LineRequest>, catalog: Catalog, nextLine: nat) returns (r: Outcome<Priced>)
    requires forall q <- rs :: q.item in catalog && QuantityValid(q)
    ensures r.Ok? <==> forall q <- rs :: Priceable(q, catalog)
    ensures r.Ok? ==> r.value.lines == NewLines(rs, nextLine, catalog)
    ensures r.Ok? ==> r.value.totals == TotalsOf(r.value.lines, catalog)
  {
    var lines: seq<Line> := [];
    var subtotal, discount, tax, service := 0, 0, 0, 0;
    for i := 0 to |rs|
      invariant lines == NewLines(rs[..i], nextLine, catalog)
      invariant forall j :: 0 <= j < i ==> Priceable(rs[j], catalog)
      invariant subtotal == Subtotal(lines) && discount == Discounts(lines)
      invariant tax == Charge(lines, catalog, false) && service == Charge(lines, catalog, true)
    {
      assert rs[i] in rs;
      var line := PriceLine(rs[i], catalog, nextLine + i);
      if line.Rejected? {
        return Rejected;
      }
      var l := line.value;
      subtotal := subtotal + LineGross(l);
      discount := discount + l.discount;
      tax := tax + l.total * catalog[l.item].taxRate;
      service := service + l.total * catalog[l.item].serviceRate;
      SumsGrow(lines, l, catalog);
      NewLinesGrow(rs, nextLine, catalog, i);
      lines := lines + [l];
    }
    assert rs[..|rs|] == rs;
    r := Ok(Priced(lines, Rounded(subtotal, discount, tax, service)));
  }

  /** Validates the whole replacement and prices it before anything is written. */
  method PriceLines(rs: seq<LineRequest>, accepted: seq<Line>, catalog: Catalog, nextLine: nat)
    returns (r: Outcome<Priced>)
    ensures r.Ok? <==> Acceptable(rs, accepted, catalog)
    ensures r.Ok? ==> r.value.lines == NewLines(rs, nextLine, catalog)
    ensures r.Ok? ==> r.value.totals == TotalsOf(r.value.lines, catalog)
  {
    var kept := SumAccepted(accepted);
    var wanted := SumRequested(rs);
    if wanted.Rejected? {
      return Rejected;
    }
    var stocked := CheckStock(rs, accepted, catalog, wanted.value, kept);
    if !stocked {
      return Rejected;
    }
    r := PlanLines(rs, catalog, nextLine);
  }

  lemma NewLinesWellPriced(rs: seq<LineRequest>, catalog: Catalog, nextLine: nat)
    requires forall r <- rs :: Priceable(r, catalog)
    ensures AllWellPriced(NewLines(rs, nextLine, catalog)) && RatesFor(NewLines(rs, nextLine, catalog), catalog)
  {
    forall i | 0 <= i < |rs|
      ensures WellPriced(NewLine(rs[i], nextLine + i, catalog))
      ensures rs[i].item in catalog && FinancialsValid(catalog[rs[i].item])
    {
      var q := rs[i];
      assert q in rs && Priceable(q, catalog);
      if q.discount.Some? {
        RoundNonNegative(100 * q.discount.value.num, q.discount.value.den);
      }
    }
  }

  /** Can this stored line be priced again when its order is merged? */
  predicate Remergeable(l: Line, catalog: Catalog) {
    && l.item in catalog && FinancialsValid(catalog[l.item])
    && l.quantity > 0 && l.unitPrice >= 0 && 0 <= l.discount <= LineGross(l)
  }

  method PriceMerged(lines: seq<Line>, catalog: Catalog) returns (r: Outcome<Totals>)
    ensures r.Ok? <==> forall l <- lines :: Remergeable(l, catalog)
    ensures r.Ok? ==> r.value == TotalsOf(lines, catalog)
  {
    var subtotal, discount, tax, service := 0, 0, 0, 0;
    for i := 0 to |lines|
      invariant forall l <- lines[..i] :: Remergeable(l, catalog)
      invariant subtotal == Subtotal(lines[..i]) && discount == Discounts(lines[..i])
      invariant tax == Charge(lines[..i], catalog, false) && service == Charge(lines[..i], catalog, true)
    {
      var l := lines[i];
      assert l in lines;
      if l.item !in catalog || !FinancialsValid(catalog[l.item]) || l.quantity <= 0 || l.unitPrice < 0
          || l.discount < 0 {
        return Rejected;
      }
      var gross := LineGross(l);
      if l.discount > gross {
        return Rejected;
      }
      var net := gross - l.discount;
      subtotal := subtotal + gross;
      discount := discount + l.discount;
      tax := tax + net * catalog[l.item].taxRate;
      service := service + net * catalog[l.item].serviceRate;
      assert lines[..i + 1][..i] == lines[..i];
    }
    assert lines[..|lines|] == lines;
    r := Ok(Rounded(subtotal, discount, tax, service));
  }

  // ----- laws of the totals

  lemma {:induction false} SumsConcat(a: seq<Line>, b: seq<Line>, catalog: Catalog)
    ensures Subtotal(a + b) == Subtotal(a) + Subtotal(b)
    ensures Discounts(a + b) == Discounts(a) + Discounts(b)
    ensures Charge(a + b, catalog, false) == Charge(a, catalog, false) + Charge(b, catalog, false)
    ensures Charge(a + b, catalog, true) == Charge(a, catalog, true) + Charge(b, catalog, true)
  {
    if b == [] {
      assert a + b == a;
    } else {
      SumsConcat(a, b[..|b| - 1], catalog);
      assert (a + b)[..|a + b| - 1] == a + b[..|b| - 1];
    }
  }

  predicate RatesFor(lines: seq<Line>, catalog: Catalog) {
    forall l <- lines :: l.item in catalog && FinancialsValid(catalog[l.item])
  }

  lemma ShareBounded(x: int, r: int, d: int)
    requires x >= 0 && 0 <= r <= d
    ensures 0 <= x * r <= x * d
  {
    assert x * (d - r) >= 0;
  }

  lemma {:induction false} SumsBounded(lines: seq<Line>, catalog: Catalog)
    requires AllWellPriced(lines) && RatesFor(lines, catalog)
    ensures 0 <= Discounts(lines) <= Subtotal(lines)
    ensures 0 <= Charge(lines, catalog, false) <= (Subtotal(lines) - Discounts(lines)) * RATE_SCALE
    ensures 0 <= Charge(lines, catalog, true) <= (Subtotal(lines) - Discounts(lines)) * RATE_SCALE
  {
    if lines != [] {
      var l := lines[|lines| - 1];
      assert l in lines && WellPriced(l);
      SumsBounded(lines[..|lines| - 1], catalog);
      ShareBounded(l.total, Rate(catalog, l.item, false), RATE_SCALE);
      ShareBounded(l.total, Rate(catalog, l.item, true), RATE_SCALE);
    }
  }

  predicate WithinOne(a: int, b: int) { -1 <= a - b <= 1 }

  /** An order never discounts more than it costs, tax and service never exceed the net price, and the
      stored total is within a cent of its four stored parts. */
  predicate TotalsAgree(t: Totals) {
    && 0 <= t.discount <= t.subtotal
    && 0 <= t.tax <= t.subtotal - t.discount
    && 0 <= t.service <= t.subtotal - t.discount
    && t.subtotal - t.discount <= t.total
    && WithinOne(t.total, t.subtotal - t.discount + t.tax + t.service)
  }

  lemma {:induction false} PricingLaw(lines: seq<Line>, catalog: Catalog)
    requires AllWellPriced(lines) && RatesFor(lines, catalog)
    ensures TotalsAgree(TotalsOf(lines, catalog))
  {
    SumsBounded(lines, catalog);
    var tax, service := Charge(lines, catalog, false), Charge(lines, catalog, true);
    var net := Subtotal(lines) - Discounts(lines);
    RoundAtMost(tax, RATE_SCALE, net);
    RoundAtMost(service, RATE_SCALE, net);
    RoundNonNegative(tax, RATE_SCALE);
    RoundNonNegative(service, RATE_SCALE);
    RoundNonNegative(tax + service, RATE_SCALE);
    RoundShift(net, tax + service, RATE_SCALE);
    RoundSplit(tax, service, RATE_SCALE);
  }

  /** The same for any accepted line list: every line total is its gross less its discount, and the
      order's stored parts and total agree to within a cent. */
  lemma AcceptedListLaw(rs: seq<LineRequest>, accepted: seq<Line>, catalog: Catalog, nextLine: nat)
    requires Acceptable(rs, accepted, catalog)
    ensures var lines := NewLines(rs, nextLine, catalog);
            && (forall l <- lines :: l.total == LineGross(l) - l.discount && 0 <= l.discount <= LineGross(l))
            && TotalsAgree(TotalsOf(lines, catalog))
  {
    NewLinesWellPriced(rs, catalog, nextLine);
    forall l <- NewLines(rs, nextLine, catalog) ensures WellPriced(l) {
    }
    PricingLaw(NewLines(rs, nextLine, catalog), catalog);
  }

  /** A sold-out or inactive item is never ordered in a larger quantity than was already accepted. */
  lemma SoldOutNeverGrows(rs: seq<LineRequest>, accepted: seq<Line>, catalog: Catalog, nextLine: nat, item: int)
    requires Acceptable(rs, accepted, catalog)
    requires item in catalog && !(catalog[item].active && catalog[item].available)
    requires forall l <- accepted :: l.quantity > 0
    ensures AcceptedQuantity(NewLines(rs, nextLine, catalog), item) <= AcceptedQuantity(accepted, item)
  {
    NewLinesQuantity(rs, nextLine, catalog, item);
    AcceptedNonNegative(accepted, item);
    if !exists r :: r in rs && r.item == item {
      NotRequested(rs, item);
    }
  }

  lemma {:induction false} AcceptedNonNegative(lines: seq<Line>, item: int)
    requires forall l <- lines :: l.quantity > 0
    ensures AcceptedQuantity(lines, item) >= 0
  {
    if lines != [] {
      assert lines[|lines| - 1] in lines;
      AcceptedNonNegative(lines[..|lines| - 1], item);
    }
  }

  lemma {:induction false} NotRequested(rs: seq<LineRequest>, item: int)
    requires forall r <- rs :: r.item != item
    ensures RequestedQuantity(rs, item) == 0
  {
    if rs != [] {
      assert rs[|rs| - 1] in rs;
      NotRequested(rs[..|rs| - 1], item);
    }
  }

  lemma {:induction false} NewLinesQuantity(rs: seq<LineRequest>, nextLine: nat, catalog: Catalog, item: int)
    ensures AcceptedQuantity(NewLines(rs, nextLine, catalog), item) == RequestedQuantity(rs, item)
  {
    if rs != [] {
      NewLinesQuantity(rs[..|rs| - 1], nextLine, catalog, item);
      assert NewLines(rs, nextLine, catalog)[..|rs| - 1] == NewLines(rs[..|rs| - 1], nextLine, catalog);
    }
  }

  /** The cent is real: two half-cent charges each round up, and together make only one cent. */
  lemma TotalMayMissItsPartsByOneCent(catalog: Catalog)
    requires 7 in catalog && catalog[7] == CatalogItem(1, 500000, 500000, true, true, None)
    ensures exists lines ::
      (AllWellPriced(lines) && RatesFor(lines, catalog)
       && TotalsOf(lines, catalog) == Totals(1, 0, 1, 1, 2))
  {
    var l := Line(0, 7, None, 10000, 1, 0, 1);
    var lines := [l];
    OneLineSums(l, catalog);
    RoundExact(1, QUANTITY_SCALE);
    assert LineGross(l) == 1;
    RoundingIsUnique(500000, RATE_SCALE, 1);
    RoundingIsUnique(2000000, RATE_SCALE, 2);
    assert TotalsOf(lines, catalog) == Totals(1, 0, 1, 1, 2);
  }

  lemma OneLineSums(l: Line, catalog: Catalog)
    ensures Subtotal([l]) == LineGross(l) && Discounts([l]) == l.discount
    ensures Charge([l], catalog, false) == (LineGross(l) - l.discount) * Rate(catalog, l.item, false)
    ensures Charge([l], catalog, true) == (LineGross(l) - l.discount) * Rate(catalog, l.item, true)
  {
    assert [l][..0] == [];
  }

  lemma UnroundedConcat(a: seq<Line>, b: seq<Line>, catalog: Catalog)
    ensures Unrounded(a + b, catalog) == Unrounded(a, catalog) + Unrounded(b, catalog)
  {
    SumsConcat(a, b, catalog);
  }

  lemma ChargeSplit(target: seq<Line>, source: seq<Line>, catalog: Catalog, service: bool)
    ensures WithinOne(RoundHalfUp(Charge(target + source, catalog, service), RATE_SCALE),
                      RoundHalfUp(Charge(target, catalog, service), RATE_SCALE)
                      + RoundHalfUp(Charge(source, catalog, service), RATE_SCALE))
  {
    SumsConcat(target, source, catalog);
    RoundSplit(Charge(target, catalog, service), Charge(source, catalog, service), RATE_SCALE);
  }

  lemma TotalSplit(target: seq<Line>, source: seq<Line>, catalog: Catalog)
    ensures WithinOne(RoundHalfUp(Unrounded(target + source, catalog), RATE_SCALE),
                      RoundHalfUp(Unrounded(target, catalog), RATE_SCALE)
                      + RoundHalfUp(Unrounded(source, catalog), RATE_SCALE))
  {
    UnroundedConcat(target, source, catalog);
    RoundSplit(Unrounded(target, catalog), Unrounded(source, catalog), RATE_SCALE);
  }

  /** Merging two orders priced under the same rates: parts add exactly, totals to within a cent. */
  lemma {:induction false} MergeConservation(target: seq<Line>, source: seq<Line>, catalog: Catalog)
    ensures var m, t, s := TotalsOf(target + source, catalog), TotalsOf(target, catalog), TotalsOf(source, catalog);
            && m.subtotal == t.subtotal + s.subtotal
            && m.discount == t.discount + s.discount
            && WithinOne(m.tax, t.tax + s.tax)
            && WithinOne(m.service, t.service + s.service)
            && WithinOne(m.total, t.total + s.total)
  {
    SumsConcat(target, source, catalog);
    ChargeSplit(target, source, catalog, false);
    ChargeSplit(target, source, catalog, true);
    TotalSplit(target, source, catalog);
  }
}
