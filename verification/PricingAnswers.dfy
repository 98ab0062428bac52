/** What pricing stores, said from the request and the catalog alone. */
module PricingAnswers {
  import opened Money
  import opened Entities
  import opened Pricing

  /** The line a request becomes: quantity to the nearest 1/10000, the catalog's price and product id, the
      discount to the nearest cent, and a total that with the discount is the nearest cent to quantity times
      price. */
  ghost predicate Becomes(r: LineRequest, item: CatalogItem, l: Line) {
    && l.item == r.item && l.sku == item.sku && l.unitPrice == r.listPrice
    && NearestHalfUp(10000 * r.quantity.num, r.quantity.den, l.quantity)
    && (match r.discount
        case None => l.discount == 0
        case Some(x) => NearestHalfUp(100 * x.num, x.den, l.discount))
    && NearestHalfUp(l.quantity * l.unitPrice, 10000, l.total + l.discount)
  }

  /** When a request may become that line. */
  ghost predicate Permitted(r: LineRequest, item: CatalogItem, l: Line) {
    && item.price >= 0 && 0 <= item.taxRate <= 1000000 && 0 <= item.serviceRate <= 1000000
    && r.quantity.num > 0 && l.quantity > 0
    && (r.unitPrice.Some? ==>
          r.unitPrice.value.num >= 0 && NearestHalfUp(100 * r.unitPrice.value.num, r.unitPrice.value.den, r.listPrice))
    && (r.discount.Some? ==> r.discount.value.num >= 0)
    && l.total >= 0
  }

  lemma GrossNearest(quantity: int, unitPrice: int)
    ensures NearestHalfUp(quantity * unitPrice, 10000, Gross(quantity, unitPrice))
    ensures forall g :: NearestHalfUp(quantity * unitPrice, 10000, g) ==> g == Gross(quantity, unitPrice)
  {
    RoundNearest(quantity * unitPrice, 10000);
    forall g | NearestHalfUp(quantity * unitPrice, 10000, g) ensures g == Gross(quantity, unitPrice) {
      RoundingIsUnique(quantity * unitPrice, 10000, g);
    }
  }

  lemma DiscountNearest(r: LineRequest)
    ensures match r.discount
            case None => Discount(r) == 0
            case Some(x) => NearestHalfUp(100 * x.num, x.den, Discount(r))
    ensures forall x, d :: r.discount == Some(x) && NearestHalfUp(100 * x.num, x.den, d) ==> d == Discount(r)
  {
    if r.discount.Some? {
      CentsNearest(r.discount.value);
    }
  }

  lemma BecomesNewLine(r: LineRequest, id: int, catalog: Catalog)
    requires r.item in catalog
    ensures NewLine(r, id, catalog).id == id && Becomes(r, catalog[r.item], NewLine(r, id, catalog))
  {
    QuantityNearest(r.quantity);
    DiscountNearest(r);
    GrossNearest(Quantity(r.quantity), r.listPrice);
  }

  lemma OnlyNewLine(r: LineRequest, catalog: Catalog, l: Line)
    requires r.item in catalog && Becomes(r, catalog[r.item], l)
    ensures l == NewLine(r, l.id, catalog)
  {
    QuantityNearest(r.quantity);
    DiscountNearest(r);
    GrossNearest(l.quantity, l.unitPrice);
  }

  lemma PermittedExactly(r: LineRequest, id: int, catalog: Catalog)
    requires r.item in catalog
    ensures Priceable(r, catalog) <==> Permitted(r, catalog[r.item], NewLine(r, id, catalog))
  {
    if r.unitPrice.Some? {
      CentsNearest(r.unitPrice.value);
    }
  }

  /** One request, exactly: it is priced if and only if its item exists and some line it becomes is permitted,
      and there is no other such line. */
  lemma PricedExactly(r: LineRequest, id: int, catalog: Catalog)
    ensures Priceable(r, catalog)
            <==> r.item in catalog && exists l :: Becomes(r, catalog[r.item], l) && Permitted(r, catalog[r.item], l)
    ensures r.item in catalog ==>
              forall l: Line :: l.id == id ==> (Becomes(r, catalog[r.item], l) <==> l == NewLine(r, id, catalog))
  {
    if r.item in catalog {
      BecomesNewLine(r, id, catalog);
      PermittedExactly(r, id, catalog);
      forall l | Becomes(r, catalog[r.item], l) ensures l == NewLine(r, l.id, catalog) {
        OnlyNewLine(r, catalog, l);
      }
      forall l | Becomes(r, catalog[r.item], l) && Permitted(r, catalog[r.item], l) ensures Priceable(r, catalog) {
        PermittedExactly(r, l.id, catalog);
      }
    }
  }

  function QuantityOf(item: int): Line -> int { (l: Line) => if l.item == item then l.quantity else 0 }

  lemma {:induction false} QuantitySum(lines: seq<Line>, item: int)
    ensures AcceptedQuantity(lines, item) == Sum(lines, QuantityOf(item))
  {
    if lines != [] {
      QuantitySum(lines[..|lines| - 1], item);
    }
  }

  /** A whole list, exactly: it is accepted if and only if every request is priced, and no item that is inactive
      or unavailable is on the new lines in a larger quantity than on the accepted ones. */
  lemma ListAcceptedExactly(rs: seq<LineRequest>, accepted: seq<Line>, catalog: Catalog, nextLine: nat)
    ensures var lines := NewLines(rs, nextLine, catalog);
            Acceptable(rs, accepted, catalog)
            <==> forall i :: 0 <= i < |rs| ==>
                   && rs[i].item in catalog
                   && Becomes(rs[i], catalog[rs[i].item], lines[i]) && Permitted(rs[i], catalog[rs[i].item], lines[i])
                   && (Sum(lines, QuantityOf(rs[i].item)) > Sum(accepted, QuantityOf(rs[i].item)) ==>
                         catalog[rs[i].item].active && catalog[rs[i].item].available)
  {
    var lines := NewLines(rs, nextLine, catalog);
    forall i | 0 <= i < |rs|
      ensures Priceable(rs[i], catalog) && StockedItem(rs[i].item, rs, accepted, catalog)
              <==> && rs[i].item in catalog
                   && Becomes(rs[i], catalog[rs[i].item], lines[i]) && Permitted(rs[i], catalog[rs[i].item], lines[i])
                   && (Sum(lines, QuantityOf(rs[i].item)) > Sum(accepted, QuantityOf(rs[i].item)) ==>
                         catalog[rs[i].item].active && catalog[rs[i].item].available)
    {
      OneAccepted(rs, accepted, catalog, nextLine, i);
    }
    if Acceptable(rs, accepted, catalog) {
      forall i | 0 <= i < |rs|
        ensures Priceable(rs[i], catalog) && StockedItem(rs[i].item, rs, accepted, catalog)
      {
        assert rs[i] in rs;
      }
    }
  }

  lemma OneAccepted(rs: seq<LineRequest>, accepted: seq<Line>, catalog: Catalog, nextLine: nat, i: nat)
    requires i < |rs|
    ensures var lines := NewLines(rs, nextLine, catalog); var item := rs[i].item;
            Priceable(rs[i], catalog) && StockedItem(item, rs, accepted, catalog)
            <==> && item in catalog
                 && Becomes(rs[i], catalog[item], lines[i]) && Permitted(rs[i], catalog[item], lines[i])
                 && (Sum(lines, QuantityOf(item)) > Sum(accepted, QuantityOf(item)) ==>
                       catalog[item].active && catalog[item].available)
  {
    var lines, item := NewLines(rs, nextLine, catalog), rs[i].item;
    NewLinesQuantity(rs, nextLine, catalog, item);
    QuantitySum(lines, item);
    QuantitySum(accepted, item);
    if item in catalog {
      BecomesNewLine(rs[i], nextLine + i, catalog);
      PermittedExactly(rs[i], nextLine + i, catalog);
    }
  }

  // ----- the stored totals

  function LineTax(catalog: Catalog): Line -> int {
    (l: Line) => if l.item in catalog then l.total * catalog[l.item].taxRate else 0
  }

  function LineService(catalog: Catalog): Line -> int {
    (l: Line) => if l.item in catalog then l.total * catalog[l.item].serviceRate else 0
  }

  function LineNet(): Line -> int { (l: Line) => l.total }

  function LineDiscount(): Line -> int { (l: Line) => l.discount }

  /** The totals of lines under a catalog: net, discount, tax and service charge each add up over the lines, and
      each stored amount is the nearest cent of its own sum. */
  ghost predicate TotalsAnswer(t: Totals, lines: seq<Line>, catalog: Catalog) {
    var tax, service := Sum(lines, LineTax(catalog)), Sum(lines, LineService(catalog));
    && t.discount == Sum(lines, LineDiscount())
    && t.subtotal - t.discount == Sum(lines, LineNet())
    && NearestHalfUp(tax, 1000000, t.tax)
    && NearestHalfUp(service, 1000000, t.service)
    && NearestHalfUp(Sum(lines, LineNet()) * 1000000 + tax + service, 1000000, t.total)
  }

  lemma {:induction false} PartsAreSums(lines: seq<Line>, catalog: Catalog)
    requires AllWellPriced(lines)
    ensures Discounts(lines) == Sum(lines, LineDiscount())
    ensures Subtotal(lines) - Discounts(lines) == Sum(lines, LineNet())
    ensures Charge(lines, catalog, false) == Sum(lines, LineTax(catalog))
    ensures Charge(lines, catalog, true) == Sum(lines, LineService(catalog))
  {
    if lines != [] {
      var l := lines[|lines| - 1];
      assert l in lines && WellPriced(l);
      PartsAreSums(lines[..|lines| - 1], catalog);
    }
  }

  lemma TotalsAreNearest(lines: seq<Line>, catalog: Catalog)
    requires AllWellPriced(lines)
    ensures TotalsAnswer(TotalsOf(lines, catalog), lines, catalog)
  {
    PartsAreSums(lines, catalog);
    RoundNearest(Sum(lines, LineTax(catalog)), 1000000);
    RoundNearest(Sum(lines, LineService(catalog)), 1000000);
    var tax, service := Sum(lines, LineTax(catalog)), Sum(lines, LineService(catalog));
    RoundNearest(Sum(lines, LineNet()) * 1000000 + tax + service, 1000000);
  }

  /** The lines and totals an accepted list is stored with. */
  lemma AcceptedAnswer(rs: seq<LineRequest>, accepted: seq<Line>, catalog: Catalog, nextLine: nat)
    requires Acceptable(rs, accepted, catalog)
    ensures var lines := NewLines(rs, nextLine, catalog);
            && |lines| == |rs|
            && (forall i :: 0 <= i < |rs| ==>
                  rs[i].item in catalog && lines[i].id == nextLine + i && Becomes(rs[i], catalog[rs[i].item], lines[i]))
            && TotalsAnswer(TotalsOf(lines, catalog), lines, catalog)
  {
    var lines := NewLines(rs, nextLine, catalog);
    NewLinesWellPriced(rs, catalog, nextLine);
    TotalsAreNearest(lines, catalog);
    forall i | 0 <= i < |rs|
      ensures rs[i].item in catalog && Becomes(rs[i], catalog[rs[i].item], lines[i])
    {
      assert rs[i] in rs;
      BecomesNewLine(rs[i], nextLine + i, catalog);
    }
  }
}
