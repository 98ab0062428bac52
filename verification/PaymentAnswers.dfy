/** What a checkout is answered, said from its tender lines alone. */
module PaymentAnswers {
  import opened Money
  import opened Entities
  import opened Payments

  /** The amount typed is exactly this many cents. */
  predicate IsCents(x: Exact, c: int) { c * x.den == 100 * x.num }

  /** A tender line that applies c cents. Cash may be received in excess, anything else must match. */
  ghost predicate Applies(e: Entry, c: int) {
    && e.tender.Some? && c > 0 && IsCents(e.applied, c)
    && (e.received.Some? ==>
          exists r :: IsCents(e.received.value, r) && (if e.tender == Some(Cash) then r >= c else r == c))
    && (e.tender in {Some(GCash), Some(Card), Some(BankTransfer)} ==> e.reference.Some?)
    && (e.tender == Some(RoomCharge) ==> e.room.number || e.room.booking != NoBooking)
  }

  lemma CentsOf(x: Exact)
    ensures forall c :: IsCents(x, c) <==> WholeCents(x) && c == Cents(x)
  {
    forall c ensures IsCents(x, c) <==> WholeCents(x) && c == Cents(x) {
      WholeCentsExactly(x, c);
    }
  }

  lemma AppliesExactly(e: Entry, c: int)
    ensures Applies(e, c) <==> EntryValid(e) && c == Cents(e.applied)
  {
    CentsOf(e.applied);
    if e.received.Some? {
      CentsOf(e.received.value);
      assert IsCents(e.received.value, Cents(e.received.value)) <==> WholeCents(e.received.value);
    }
  }

  function Same(): int -> int { (c: int) => c }

  lemma {:induction false} AppliedSum(es: seq<Entry>, cs: seq<int>)
    requires |cs| == |es| && forall i :: 0 <= i < |es| ==> Applies(es[i], cs[i])
    ensures EntriesTotal(es) == Sum(cs, Same())
  {
    if es != [] {
      AppliesExactly(es[|es| - 1], cs[|cs| - 1]);
      AppliedSum(es[..|es| - 1], cs[..|cs| - 1]);
    }
  }

  ghost predicate Covers(es: seq<Entry>, cs: seq<int>, total: int) {
    |cs| == |es| && (forall i :: 0 <= i < |es| ==> Applies(es[i], cs[i])) && Sum(cs, Same()) == total
  }

  /** A checkout, exactly: an order that is still being worked on, with something to pay; tender lines that apply
      whole cents adding up to its total; and no reference used twice within one tender type. */
  lemma CheckoutAnswer(status: Status, total: int, es: seq<Entry>)
    ensures PaymentControl(status, total, es)
            <==> && status in {Draft, Held, Open, Sent, Served, Unpaid} && es != [] && total > 0
                 && (exists cs :: Covers(es, cs, total))
                 && (forall i, j :: 0 <= i < j < |es| && es[i].reference.Some? && es[i].tender == es[j].tender
                                    ==> es[i].reference != es[j].reference)
  {
    if PaymentControl(status, total, es) {
      var cs := seq(|es|, i requires 0 <= i < |es| => Cents(es[i].applied));
      forall i | 0 <= i < |es| ensures Applies(es[i], cs[i]) {
        AppliesExactly(es[i], cs[i]);
      }
      AppliedSum(es, cs);
      assert Covers(es, cs, total);
    }
    forall cs | Covers(es, cs, total) ensures EntriesTotal(es) == total && forall e <- es :: EntryValid(e) {
      AppliedSum(es, cs);
      forall e <- es ensures EntryValid(e) {
        var i :| 0 <= i < |es| && es[i] == e;
        AppliesExactly(e, cs[i]);
      }
    }
  }

  /** The row a tender line is stored as: what it applies; what was received, or as much where nothing was typed;
      and change for cash only. A room charge without a received amount stores none, and has a posting. */
  lemma RowAnswer(e: Entry, c: int)
    requires Applies(e, c)
    ensures var p := Row(e);
            && Some(p.tender) == e.tender && p.applied == c && p.posting == (p.tender == RoomCharge)
            && (match e.received
                case Some(x) => IsCents(x, p.received)
                case None => p.received == if p.tender == RoomCharge then 0 else c)
            && p.change == if p.tender == Cash then p.received - c else 0
  {
    AppliesExactly(e, c);
    if e.received.Some? {
      CentsOf(e.received.value);
    }
  }

  /** What stops a valid tender line at posting: an immediate tender without an account; a room charge with an
      unavailable booking, an unknown service, or no room to be found. */
  lemma PostableAnswer(e: Entry)
    ensures e.tender != Some(RoomCharge) ==> (Postable(e) <==> e.account)
    ensures e.tender == Some(RoomCharge) ==>
              (!Postable(e)
               <==> || e.room.booking == Unavailable || !e.room.service
                    || (!e.room.number && e.room.booking != Snapshot(true) && !e.room.inferred))
  {
  }
}
