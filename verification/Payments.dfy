/** The tender rules of one checkout and the payment rows it writes. */
module Payments {
  import opened Money
  import opened Entities
  import opened Refunds

  /** One tender line of a checkout. `tender` is None for an unsupported type; `reference` is None when
      blank; `account` says whether a receiving account resolves; `room` is read for room charges only. */
  datatype Entry = Entry(
    tender: Option<Tender>,
    applied: Exact,
    received: Option<Exact>,
    reference: Option<int>,
    account: bool,
    room: RoomDetails)

  datatype Booking = NoBooking | Unavailable | Snapshot(hasRoom: bool)

  /** What a room charge names: a room number, a booking, and a service type, which must be a known one.
      `inferred` says whether a room number can be read out of the order's texts. */
  datatype RoomDetails = RoomDetails(number: bool, booking: Booking, service: bool, inferred: bool)

  predicate ReceivedValid(e: Entry) {
    if e.tender == Some(Cash) then
      e.received.Some? ==> WholeCents(e.received.value) && Cents(e.received.value) >= Cents(e.applied)
    else
      e.received.Some? ==> WholeCents(e.received.value) && Cents(e.received.value) == Cents(e.applied)
  }

  predicate RoomGiven(r: RoomDetails) { r.number || r.booking != NoBooking }

  predicate NeedsReference(t: Tender) { t in {GCash, Card, BankTransfer} }

  predicate EntryValid(e: Entry) {
    && e.tender.Some?
    && WholeCents(e.applied) && Cents(e.applied) > 0
    && ReceivedValid(e)
    && (NeedsReference(e.tender.value) ==> e.reference.Some?)
    && (e.tender == Some(RoomCharge) ==> RoomGiven(e.room))
  }

  predicate ReferencesDistinct(es: seq<Entry>) {
    forall i, j :: 0 <= i < j < |es| && es[i].reference.Some? && es[i].tender == es[j].tender
                   ==> es[i].reference != es[j].reference
  }

  function EntriesTotal(es: seq<Entry>): int {
    if es == [] then 0 else EntriesTotal(es[..|es| - 1]) + Cents(es[|es| - 1].applied)
  }

  /** The checkout rules: every tender line is valid, references do not repeat, and the sum is exact. */
  predicate PaymentControl(status: Status, total: int, es: seq<Entry>) {
    && Active(status) && es != [] && total > 0
    && (forall e <- es :: EntryValid(e))
    && ReferencesDistinct(es)
    && EntriesTotal(es) == total
  }

  method ValidatePaymentControl(status: Status, total: int, es: seq<Entry>) returns (ok: bool)
    ensures ok <==> PaymentControl(status, total, es)
  {
    if !Active(status) || es == [] || total <= 0 {
      return false;
    }
    var applied := 0;
    var references: set<(Tender, int)> := {};
    for i := 0 to |es|
      invariant applied == EntriesTotal(es[..i])
      invariant forall e <- es[..i] :: EntryValid(e)
      invariant forall k :: k in references <==>
        exists j :: 0 <= j < i && es[j].tender == Some(k.0) && es[j].reference == Some(k.1)
      invariant ReferencesDistinct(es[..i])
    {
      var e := es[i];
      assert e in es;
      assert es[..i + 1][..i] == es[..i];
      if e.tender.None? || !WholeCents(e.applied) || Cents(e.applied) <= 0 || !ReceivedValid(e) {
        return false;
      }
      applied := applied + Cents(e.applied);
      if NeedsReference(e.tender.value) && e.reference.None? {
        return false;
      }
      if e.reference.Some? {
        var key := (e.tender.value, e.reference.value);
        if key in references {
          return false;
        }
        references := references + {key};
      }
      if e.tender == Some(RoomCharge) && !RoomGiven(e.room) {
        return false;
      }
    }
    assert es[..|es|] == es;
    ok := applied == total;
  }

  /** Can the posting of a room charge be built? */
  predicate PostingBuilds(r: RoomDetails) {
    && r.booking != Unavailable && r.service
    && (r.number || r.booking == Snapshot(true) || r.inferred)
  }

  /** Immediate tenders need an account to settle into; a room charge needs a posting on the folio. */
  predicate Postable(e: Entry) { if e.tender == Some(RoomCharge) then PostingBuilds(e.room) else e.account }

  function Row(e: Entry): Payment {
    var t := if e.tender.Some? then e.tender.value else Cash;
    var applied := Cents(e.applied);
    if t == RoomCharge then
      Payment(t, applied, if e.received.Some? then Cents(e.received.value) else 0, 0, true)
    else
      var received := if e.received.Some? then Cents(e.received.value) else applied;
      Payment(t, applied, received, if t == Cash && received > applied then received - applied else 0, false)
  }

  function Rows(es: seq<Entry>): (ps: seq<Payment>) {
    seq(|es|, i requires 0 <= i < |es| => Row(es[i]))
  }

  /** The drawer keeps exactly what was applied: cash received less change given. */
  lemma ChangeIsExact(e: Entry)
    requires EntryValid(e) && e.tender != Some(RoomCharge)
    ensures Row(e).received - Row(e).change == Row(e).applied
  {
  }

  lemma {:induction false} RowsTotal(es: seq<Entry>)
    ensures Applied(Rows(es)) == EntriesTotal(es)
  {
    if es != [] {
      RowsTotal(es[..|es| - 1]);
      assert Rows(es)[..|es| - 1] == Rows(es[..|es| - 1]);
    }
  }
}
