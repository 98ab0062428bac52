/** Exactly-once stock, over every interleaving of routes, workers, failures and operators. */
module OutboxLaws {
  import opened Money
  import opened Outbox

  // ----- the invariant

  predicate IdsDistinct(rows: seq<Row>) {
    forall i, j :: 0 <= i < j < |rows| ==> rows[i].id != rows[j].id
  }

  /** Every reversal follows the stored sale it undoes and carries the same lines. */
  predicate Undoes(rows: seq<Row>, i: nat)
    requires i < |rows|
  {
    rows[i].id.kind == Reversal ==>
      var k := FindRow(rows, EventId(rows[i].id.order, Sale));
      k.Some? && k.value < i && rows[k.value].lines == rows[i].lines && rows[k.value].unmapped == rows[i].unmapped
  }

  predicate RowsOk(rows: seq<Row>) {
    && IdsDistinct(rows)
    && (forall i :: 0 <= i < |rows| ==> Undoes(rows, i) && Positive(rows[i].lines))
  }

  /** A settled order has its sale row and no reversal yet; an order with rows was settled. */
  predicate StagesOk(s: State) {
    && (forall o <- s.stages :: s.stages[o] == Settled ==>
          FindRow(s.rows, EventId(o, Sale)).Some? && FindRow(s.rows, EventId(o, Reversal)).None?)
    && (forall i :: 0 <= i < |s.rows| ==> s.rows[i].id.order in s.stages)
  }

  predicate IsAccepted(s: State, id: EventId) { id in s.receiver.events }

  ghost predicate ReceiverOk(s: State) {
    && (forall id <- s.receiver.events ::
          FindRow(s.rows, id).Some? && s.receiver.events[id] == BodyOf(s.rows[FindRow(s.rows, id).value]))
    && (forall o :: IsAccepted(s, EventId(o, Reversal)) ==> IsAccepted(s, EventId(o, Sale)))
    && (forall i :: 0 <= i < |s.rows| && s.rows[i].status == Synced ==> IsAccepted(s, s.rows[i].id))
  }

  predicate FlightOk(s: State, f: Flight) {
    && f.row < |s.rows|
    && WellFormed(s.rows[f.row])
    && (s.rows[f.row].id.kind == Reversal ==> IsAccepted(s, EventId(s.rows[f.row].id.order, Sale)))
    && (f.Answered? && Outbox.Accepted(f.reply) ==> IsAccepted(s, s.rows[f.row].id))
  }

  /** The stock effect the accepted events should have: minus the lines of every stored sale that was
      accepted and whose reversal was not. */
  function Net(rows: seq<Row>, accepted: set<EventId>, sku: int): int {
    if rows == [] then 0
    else
      var r := rows[|rows| - 1];
      Net(rows[..|rows| - 1], accepted, sku)
      - if r.id.kind == Sale && r.id in accepted && EventId(r.id.order, Reversal) !in accepted
        then SkuQuantity(r.lines, sku) else 0
  }

  predicate StockOk(s: State, sku: int) {
    Looked(s.receiver.stock, sku) == Net(s.rows, s.receiver.events.Keys, sku)
  }

  ghost predicate Inv(s: State) {
    && RowsOk(s.rows) && StagesOk(s) && ReceiverOk(s)
    && (forall w <- s.flights :: FlightOk(s, s.flights[w]))
    && (forall sku :: StockOk(s, sku))
  }

  // ----- the queue

  /** The queue is exactly the selectable rows, in id order. */
  lemma {:induction false} QueueLaw(rows: seq<Row>, only: Option<nat>, c: Config)
    ensures var q := Queue(rows, only, c);
            && (forall k :: k in q <==> 0 <= k < |rows| && Selectable(rows[k], k, only, c))
            && (forall a, b :: 0 <= a < b < |q| ==> q[a] < q[b])
  {
    if rows != [] {
      var init := rows[..|rows| - 1];
      QueueLaw(init, only, c);
      forall k ensures k in Queue(rows, only, c) <==> 0 <= k < |rows| && Selectable(rows[k], k, only, c) {
        if 0 <= k < |init| { assert init[k] == rows[k]; }
      }
      var q, earlier := Queue(rows, only, c), Queue(init, only, c);
      forall a, b | 0 <= a < b < |q| ensures q[a] < q[b] {
        assert q[a] == earlier[a] && earlier[a] in earlier;
      }
    }
  }

  /** A batch names queued rows, none of them twice. */
  lemma QueuedIfSelected(rows: seq<Row>, limit: int, only: Option<nat>, c: Config)
    ensures forall i <- Batch(rows, limit, only, c) :: i < |rows| && Queued(rows[i].status)
    ensures forall a, b :: 0 <= a < b < |Batch(rows, limit, only, c)| ==>
              Batch(rows, limit, only, c)[a] != Batch(rows, limit, only, c)[b]
  {
    QueueLaw(rows, only, c);
    forall i <- Batch(rows, limit, only, c) ensures i in Queue(rows, only, c) {
    }
  }

  // ----- the net effect

  lemma {:induction false} SameRows(a: seq<Row>, b: seq<Row>, accepted: set<EventId>, sku: int)
    requires |a| == |b| && forall i :: 0 <= i < |a| ==> a[i].id == b[i].id && a[i].lines == b[i].lines
    ensures Net(a, accepted, sku) == Net(b, accepted, sku)
  {
    if a != [] {
      SameRows(a[..|a| - 1], b[..|b| - 1], accepted, sku);
    }
  }

  /** Accepting an event of another order changes nothing here. */
  lemma {:induction false} NetElsewhere(rows: seq<Row>, accepted: set<EventId>, id: EventId, sku: int)
    requires forall i :: 0 <= i < |rows| ==> rows[i].id != EventId(id.order, Sale)
    ensures Net(rows, accepted + {id}, sku) == Net(rows, accepted, sku)
  {
    if rows != [] {
      assert rows[|rows| - 1].id != EventId(id.order, Sale);
      NetElsewhere(rows[..|rows| - 1], accepted, id, sku);
    }
  }

  /** Accepting an order's sale takes its lines out once; accepting its reversal puts them back once. */
  lemma {:induction false} NetOnAccept(rows: seq<Row>, accepted: set<EventId>, id: EventId, k: nat, sku: int)
    requires IdsDistinct(rows) && k < |rows| && rows[k].id == EventId(id.order, Sale) && id !in accepted
    requires id.kind == Sale ==> EventId(id.order, Reversal) !in accepted
    requires id.kind == Reversal ==> EventId(id.order, Sale) in accepted
    ensures Net(rows, accepted + {id}, sku)
            == Net(rows, accepted, sku)
               + if id.kind == Sale then -SkuQuantity(rows[k].lines, sku) else SkuQuantity(rows[k].lines, sku)
  {
    var init, r := rows[..|rows| - 1], rows[|rows| - 1];
    if k == |rows| - 1 {
      NetElsewhere(init, accepted, id, sku);
    } else {
      assert r.id != rows[k].id;
      assert init[k] == rows[k];
      NetOnAccept(init, accepted, id, k, sku);
    }
  }

  lemma {:induction false} QuantityNonNegative(lines: seq<StockLine>, sku: int)
    requires Positive(lines)
    ensures SkuQuantity(lines, sku) >= 0
    ensures sku !in Skus(lines) ==> SkuQuantity(lines, sku) == 0
  {
    if lines != [] {
      assert lines[|lines| - 1] in lines;
      QuantityNonNegative(lines[..|lines| - 1], sku);
    }
  }

  lemma {:induction false} NetNeverPositive(rows: seq<Row>, accepted: set<EventId>, sku: int)
    requires forall i :: 0 <= i < |rows| ==> Positive(rows[i].lines)
    ensures Net(rows, accepted, sku) <= 0
  {
    if rows != [] {
      NetNeverPositive(rows[..|rows| - 1], accepted, sku);
      QuantityNonNegative(rows[|rows| - 1].lines, sku);
    }
  }

  // ----- one request at the receiver

  /** Receiving a stored row: never a conflict, and stock moves exactly when the event is new. */
  lemma ReceiveKeeps(s: State, i: nat, w: Weather)
    requires RowsOk(s.rows) && ReceiverOk(s) && (forall sku :: StockOk(s, sku))
    requires i < |s.rows| && WellFormed(s.rows[i])
    requires s.rows[i].id.kind == Reversal ==> IsAccepted(s, EventId(s.rows[i].id.order, Sale))
    ensures var p := Posted(s.receiver, BodyOf(s.rows[i]), w);
            var t := s.(receiver := p.0);
            && ReceiverOk(t) && (forall sku :: StockOk(t, sku))
            && s.receiver.events.Keys <= t.receiver.events.Keys
            && p.1 != Code(409)
            && (Outbox.Accepted(p.1) ==> IsAccepted(t, s.rows[i].id))
  {
    var id, b := s.rows[i].id, BodyOf(s.rows[i]);
    var p := Posted(s.receiver, b, w);
    var t := s.(receiver := p.0);
    if id in s.receiver.events {
      assert FindRow(s.rows, id).value == i;
    } else if p.0 != s.receiver {
      assert t.receiver.events.Keys == s.receiver.events.Keys + {id};
      assert Undoes(s.rows, i);
      var k := if id.kind == Sale then i else FindRow(s.rows, EventId(id.order, Sale)).value;
      forall sku ensures StockOk(t, sku) {
        assert StockOk(s, sku);
        NetOnAccept(s.rows, s.receiver.events.Keys, id, k, sku);
        QuantityNonNegative(b.lines, sku);
      }
      NewEventOk(s, i);
    }
  }

  lemma NewEventOk(s: State, i: nat)
    requires ReceiverOk(s) && i < |s.rows| && s.rows[i].id !in s.receiver.events && IdsDistinct(s.rows)
    requires s.rows[i].id.kind == Reversal ==> IsAccepted(s, EventId(s.rows[i].id.order, Sale))
    ensures ReceiverOk(s.(receiver := Recorded(s.receiver, BodyOf(s.rows[i]))))
  {
    var t := s.(receiver := Recorded(s.receiver, BodyOf(s.rows[i])));
    assert FindRow(s.rows, s.rows[i].id).value == i;
    forall id | id in t.receiver.events
      ensures FindRow(t.rows, id).Some? && t.receiver.events[id] == BodyOf(t.rows[FindRow(t.rows, id).value])
    {
      if id != s.rows[i].id {
        assert id in s.receiver.events && t.receiver.events[id] == s.receiver.events[id];
      }
    }
  }

  // ----- row updates and new rows

  predicate SameEvents(a: seq<Row>, b: seq<Row>) {
    |a| == |b| && forall i :: 0 <= i < |a| ==> BodyOf(a[i]) == BodyOf(b[i]) && a[i].unmapped == b[i].unmapped
  }

  lemma {:induction false} SameFind(a: seq<Row>, b: seq<Row>, id: EventId)
    requires SameEvents(a, b)
    ensures FindRow(a, id) == FindRow(b, id)
  {
    if a != [] {
      assert BodyOf(a[|a| - 1]) == BodyOf(b[|b| - 1]);
      SameFind(a[..|a| - 1], b[..|b| - 1], id);
    }
  }

  lemma SameEventsOk(a: seq<Row>, b: seq<Row>)
    requires RowsOk(a) && SameEvents(a, b)
    ensures RowsOk(b)
  {
    forall i | 0 <= i < |b| ensures Undoes(b, i) && Positive(b[i].lines) {
      assert BodyOf(a[i]) == BodyOf(b[i]) && Undoes(a, i);
      var sale := EventId(b[i].id.order, Sale);
      SameFind(a, b, sale);
      if b[i].id.kind == Reversal {
        var k := FindRow(a, sale).value;
        assert BodyOf(a[k]) == BodyOf(b[k]);
      }
    }
    forall i, j | 0 <= i < j < |b| ensures b[i].id != b[j].id {
      assert BodyOf(a[i]) == BodyOf(b[i]) && BodyOf(a[j]) == BodyOf(b[j]);
    }
  }

  lemma SameEventsReceiver(s: State, t: State)
    requires StagesOk(s) && ReceiverOk(s) && SameEvents(s.rows, t.rows)
    requires t.receiver == s.receiver && t.stages == s.stages
    requires forall i :: 0 <= i < |t.rows| && t.rows[i].status == Synced ==> IsAccepted(t, t.rows[i].id)
    ensures StagesOk(t) && ReceiverOk(t)
  {
    forall id ensures FindRow(t.rows, id) == FindRow(s.rows, id) { SameFind(s.rows, t.rows, id); }
    forall id | id in t.receiver.events
      ensures FindRow(t.rows, id).Some? && t.receiver.events[id] == BodyOf(t.rows[FindRow(t.rows, id).value])
    {
      assert BodyOf(s.rows[FindRow(s.rows, id).value]) == BodyOf(t.rows[FindRow(s.rows, id).value]);
    }
    forall i | 0 <= i < |t.rows| ensures t.rows[i].id.order in t.stages {
      assert BodyOf(s.rows[i]) == BodyOf(t.rows[i]);
    }
  }

  /** Changing a row's status, never its event, keeps everything; Synced needs an accepted event. */
  lemma RowChangeKeeps(s: State, i: nat, r: Row)
    requires Inv(s) && i < |s.rows|
    requires BodyOf(r) == BodyOf(s.rows[i]) && r.unmapped == s.rows[i].unmapped
    requires r.status == Synced ==> IsAccepted(s, r.id)
    ensures Inv(WithRow(s, i, r))
  {
    var t := WithRow(s, i, r);
    SameEventsOk(s.rows, t.rows);
    SameEventsReceiver(s, t);
    forall sku ensures StockOk(t, sku) {
      assert StockOk(s, sku);
      SameRows(s.rows, t.rows, s.receiver.events.Keys, sku);
    }
    forall w | w in t.flights ensures FlightOk(t, t.flights[w]) {
      assert FlightOk(s, s.flights[w]);
    }
  }

  lemma {:induction false} MappedPositive(lines: seq<OrderLine>)
    requires QuantitiesValid(lines)
    ensures Positive(Mapped(lines))
  {
    if lines != [] {
      MappedPositive(lines[..|lines| - 1]);
    }
  }

  lemma AppendedFind(rows: seq<Row>, r: Row, id: EventId)
    ensures FindRow(rows + [r], id)
            == if FindRow(rows, id).Some? then FindRow(rows, id) else if r.id == id then Some(|rows|) else None
  {
    assert (rows + [r])[..|rows|] == rows;
  }

  lemma NewRowOk(rows: seq<Row>, id: EventId, lines: seq<OrderLine>)
    requires RowsOk(rows) && QuantitiesValid(lines) && FindRow(rows, id).None?
    requires id.kind == Reversal ==> FindRow(rows, EventId(id.order, Sale)).Some?
    ensures RowsOk(rows + [NewRow(rows, id, lines)])
  {
    var r := NewRow(rows, id, lines);
    MappedPositive(lines);
    forall i | 0 <= i < |rows + [r]| ensures Undoes(rows + [r], i) && Positive((rows + [r])[i].lines) {
      AppendedFind(rows, r, EventId((rows + [r])[i].id.order, Sale));
      if i < |rows| { assert Undoes(rows, i); }
    }
  }

  /** Storing a new event keeps everything; a reversal is stored only after its sale. */
  lemma NewRowKeeps(s: State, id: EventId, lines: seq<OrderLine>, stages: map<nat, Stage>)
    requires Inv(s) && QuantitiesValid(lines) && FindRow(s.rows, id).None?
    requires id.kind == Reversal ==> FindRow(s.rows, EventId(id.order, Sale)).Some?
    requires stages == s.stages[id.order := if id.kind == Sale then Settled else Cancelled]
    requires id.kind == Sale ==> FindRow(s.rows, EventId(id.order, Reversal)).None?
    ensures Inv(s.(stages := stages, rows := s.rows + [NewRow(s.rows, id, lines)]))
  {
    var r := NewRow(s.rows, id, lines);
    var t := s.(stages := stages, rows := s.rows + [r]);
    NewRowOk(s.rows, id, lines);
    NewRowEvents(s, t, r);
    NewRowStages(s, t, r);
    assert id !in s.receiver.events;
    assert t.rows[..|s.rows|] == s.rows;
    forall sku ensures StockOk(t, sku) {
      assert StockOk(s, sku);
    }
    forall w | w in t.flights ensures FlightOk(t, t.flights[w]) {
      assert FlightOk(s, s.flights[w]);
    }
  }

  lemma NewRowEvents(s: State, t: State, r: Row)
    requires ReceiverOk(s) && r.status != Synced && t.rows == s.rows + [r] && t.receiver == s.receiver
    ensures ReceiverOk(t)
  {
    forall id | id in t.receiver.events
      ensures FindRow(t.rows, id).Some? && t.receiver.events[id] == BodyOf(t.rows[FindRow(t.rows, id).value])
    {
      AppendedFind(s.rows, r, id);
    }
    forall o | IsAccepted(t, EventId(o, Reversal)) ensures IsAccepted(t, EventId(o, Sale)) {
      assert IsAccepted(s, EventId(o, Reversal));
    }
  }

  lemma NewRowStages(s: State, t: State, r: Row)
    requires StagesOk(s) && FindRow(s.rows, r.id).None? && t.rows == s.rows + [r]
    requires t.stages == s.stages[r.id.order := if r.id.kind == Sale then Settled else Cancelled]
    requires r.id.kind == Sale ==> FindRow(s.rows, EventId(r.id.order, Reversal)).None?
    ensures StagesOk(t)
  {
    forall o | o in t.stages && t.stages[o] == Settled
      ensures FindRow(t.rows, EventId(o, Sale)).Some? && FindRow(t.rows, EventId(o, Reversal)).None?
    {
      AppendedFind(s.rows, r, EventId(o, Sale));
      AppendedFind(s.rows, r, EventId(o, Reversal));
    }
  }

  lemma RoutedKeeps(s: State, o: nat, kind: EventKind, lines: seq<OrderLine>)
    requires Inv(s)
    requires if kind == Sale then o !in s.stages else o in s.stages && s.stages[o] == Settled
    requires Routed(s, o, if kind == Sale then Settled else Cancelled, kind, lines).Ok?
    ensures Inv(Routed(s, o, if kind == Sale then Settled else Cancelled, kind, lines).value)
  {
    var id := EventId(o, kind);
    if kind == Sale {
      forall k | 0 <= k < |s.rows| ensures s.rows[k].id.order != o { assert s.rows[k].id.order in s.stages; }
      assert FindRow(s.rows, EventId(o, Sale)).None? && FindRow(s.rows, EventId(o, Reversal)).None?;
    }
    NewRowKeeps(s, id, lines, s.stages[o := if kind == Sale then Settled else Cancelled]);
  }

  lemma CancelUnpaidKeeps(s: State, o: nat)
    requires Inv(s) && o !in s.stages
    ensures Inv(s.(stages := s.stages[o := Cancelled]))
  {
    var t := s.(stages := s.stages[o := Cancelled]);
    forall sku ensures StockOk(t, sku) { assert StockOk(s, sku); }
    forall w | w in t.flights ensures FlightOk(t, t.flights[w]) { assert FlightOk(s, s.flights[w]); }
  }

  // ----- flights

  lemma BeginKeeps(s: State, w: nat, i: nat)
    requires Inv(s) && i < |s.rows| && MayDeliver(s.rows, i) && WellFormed(s.rows[i])
    ensures Inv(s.(flights := s.flights[w := Sent(i)]))
  {
    SaleIsAccepted(s, i);
    FlightStarts(s, w, Sent(i));
  }

  /** The wait before a reversal is enough: an acknowledged sale was accepted. */
  lemma SaleIsAccepted(s: State, i: nat)
    requires RowsOk(s.rows) && ReceiverOk(s) && i < |s.rows| && MayDeliver(s.rows, i)
    ensures s.rows[i].id.kind == Reversal ==> IsAccepted(s, EventId(s.rows[i].id.order, Sale))
  {
    assert Undoes(s.rows, i);
    if s.rows[i].id.kind == Reversal {
      var k := FindRow(s.rows, EventId(s.rows[i].id.order, Sale)).value;
      assert s.rows[..i][k].id == s.rows[k].id;
      var f := FindRow(s.rows[..i], EventId(s.rows[i].id.order, Sale)).value;
      assert s.rows[f] == s.rows[..i][f];
    }
  }

  lemma FlightGrows(s: State, t: State, f: Flight)
    requires FlightOk(s, f) && t.rows == s.rows && s.receiver.events.Keys <= t.receiver.events.Keys
    ensures FlightOk(t, f)
  {
  }

  lemma DeliverKeeps(s: State, w: nat, weather: Weather)
    requires Inv(s) && w in s.flights && s.flights[w].Sent? && s.flights[w].row < |s.rows|
    ensures var i := s.flights[w].row;
            var p := Posted(s.receiver, BodyOf(s.rows[i]), weather);
            Inv(s.(receiver := p.0, flights := s.flights[w := Answered(i, p.1)]))
  {
    var i := s.flights[w].row;
    assert FlightOk(s, s.flights[w]);
    ReceiveKeeps(s, i, weather);
    var p := Posted(s.receiver, BodyOf(s.rows[i]), weather);
    FlightsKeep(s, s.(receiver := p.0), w, Answered(i, p.1));
  }

  lemma FlightsKeep(s: State, u: State, w: nat, f: Flight)
    requires forall v <- s.flights :: FlightOk(s, s.flights[v])
    requires u == s.(receiver := u.receiver) && s.receiver.events.Keys <= u.receiver.events.Keys
    requires RowsOk(u.rows) && StagesOk(s) && ReceiverOk(u) && (forall sku :: StockOk(u, sku)) && FlightOk(u, f)
    ensures Inv(u.(flights := u.flights[w := f]))
  {
    forall v | v in s.flights ensures FlightOk(u, s.flights[v]) {
      FlightGrows(s, u, s.flights[v]);
    }
    FlightStarts(u, w, f);
  }

  /** Flights come and go without touching orders, rows or the receiver. */
  lemma OnlyFlights(s: State, flights: map<nat, Flight>)
    requires Inv(s) && forall w <- flights :: FlightOk(s, flights[w])
    ensures Inv(s.(flights := flights))
  {
    var t := s.(flights := flights);
    assert StagesOk(t) && ReceiverOk(t);
    forall sku ensures StockOk(t, sku) { assert StockOk(s, sku); }
    forall w | w in t.flights ensures FlightOk(t, t.flights[w]) {
      assert FlightOk(s, flights[w]);
    }
  }

  lemma FlightStarts(s: State, w: nat, f: Flight)
    requires Inv(s) && FlightOk(s, f)
    ensures Inv(s.(flights := s.flights[w := f]))
  {
    OnlyFlights(s, s.flights[w := f]);
  }

  lemma FlightEnds(s: State, w: nat)
    requires Inv(s)
    ensures Inv(s.(flights := s.flights - {w}))
  {
    OnlyFlights(s, s.flights - {w});
  }

  lemma FinishKeeps(s: State, w: nat, now: int)
    requires Inv(s) && w in s.flights && s.flights[w].Answered? && s.flights[w].row < |s.rows|
    ensures var i := s.flights[w].row;
            Inv(WithRow(s, i, Settle(s.rows[i], s.flights[w].reply, now)).(flights := s.flights - {w}))
  {
    assert FlightOk(s, s.flights[w]);
    var i := s.flights[w].row;
    RowChangeKeeps(s, i, Settle(s.rows[i], s.flights[w].reply, now));
    FlightEnds(WithRow(s, i, Settle(s.rows[i], s.flights[w].reply, now)), w);
  }

  lemma AgainKeeps(s: State, id: EventId, lines: seq<OrderLine>)
    requires Inv(s) && After(s, EnqueueAgain(id, lines)).Ok?
    ensures Inv(After(s, EnqueueAgain(id, lines)).value)
  {
    var k := FindRow(s.rows, id).value;
    RowChangeKeeps(s, k, After(s, EnqueueAgain(id, lines)).value.rows[k]);
    assert s.rows[k := s.rows[k]] == s.rows;
  }

  lemma NextKeeps(s: State, c: Step)
    requires Inv(s)
    ensures Inv(Next(s, c))
  {
    if After(s, c).Ok? {
      match c
      case SettleOrder(o, lines) => RoutedKeeps(s, o, Sale, lines);
      case CancelOrder(o, lines) =>
        if o !in s.stages { CancelUnpaidKeeps(s, o); } else { RoutedKeeps(s, o, Reversal, lines); }
      case EnqueueAgain(id, lines) => AgainKeeps(s, id, lines);
      case Begin(w, i) => BeginKeeps(s, w, i);
      case Deliver(w, weather) => DeliverKeeps(s, w, weather);
      case Finish(w, now) => FinishKeeps(s, w, now);
      case Suppress(i) => RowChangeKeeps(s, i, After(s, c).value.rows[i]);
      case Block(i) => RowChangeKeeps(s, i, After(s, c).value.rows[i]);
      case Requeue(i) => RowChangeKeeps(s, i, After(s, c).value.rows[i]);
      case Unblock(i, now) => RowChangeKeeps(s, i, After(s, c).value.rows[i]);
      case Archive(i) => RowChangeKeeps(s, i, After(s, c).value.rows[i]);
      case Resolve(i) => RowChangeKeeps(s, i, After(s, c).value.rows[i]);
    }
  }

  lemma {:induction false} RunKeeps(s: State, cs: seq<Step>)
    requires Inv(s)
    ensures Inv(Run(s, cs))
  {
    if cs != [] {
      RunKeeps(s, cs[..|cs| - 1]);
      NextKeeps(Run(s, cs[..|cs| - 1]), cs[|cs| - 1]);
    }
  }

  // ----- the main results

  /** The states some interleaving leads to. */
  ghost predicate Reachable(s: State) { exists cs :: s == Run(EMPTY, cs) }

  lemma ReachableOk(s: State)
    requires Reachable(s)
    ensures Inv(s) && CancelledReversed(s)
  {
    var cs :| s == Run(EMPTY, cs);
    RunKeeps(EMPTY, cs);
    CancelledHasReversal(cs);
  }

  /** Exactly once: whatever is lost, retried, requeued, archived or overtaken, the receiver's stock delta
      of every product is minus the lines of the orders whose sale it accepted and whose reversal it did
      not, so it never rises above zero. */
  lemma ExactlyOnceStock(s: State, sku: int)
    requires Reachable(s)
    ensures Looked(s.receiver.stock, sku) == Net(s.rows, s.receiver.events.Keys, sku)
    ensures Looked(s.receiver.stock, sku) <= 0
  {
    ReachableOk(s);
    assert StockOk(s, sku);
    NetNeverPositive(s.rows, s.receiver.events.Keys, sku);
  }

  /** A reversal is accepted only after its sale, and with identical lines. */
  lemma ReversalFollowsSale(s: State, order: nat)
    requires Reachable(s) && EventId(order, Reversal) in s.receiver.events
    ensures var events := s.receiver.events;
            EventId(order, Sale) in events
                && events[EventId(order, Sale)].lines == events[EventId(order, Reversal)].lines
  {
    ReachableOk(s);
    assert IsAccepted(s, EventId(order, Reversal));
    assert Undoes(s.rows, FindRow(s.rows, EventId(order, Reversal)).value);
  }

  lemma NotMalformed(r: Receiver, b: Body, weather: Weather)
    requires b.lines != [] && Positive(b.lines)
    ensures Posted(r, b, weather).1 != Code(422)
  {
  }

  lemma FlightsAreKnown(s: State, worker: nat)
    requires Reachable(s) && worker in s.flights
    ensures RowsOk(s.rows) && ReceiverOk(s) && (forall sku :: StockOk(s, sku)) && FlightOk(s, s.flights[worker])
  {
    ReachableOk(s);
  }

  /** The receiver never sees two bodies under one event id: no request of any run is answered with a conflict. */
  lemma NeverConflicts(s: State, worker: nat, weather: Weather)
    requires Reachable(s) && After(s, Deliver(worker, weather)).Ok?
    ensures Posted(s.receiver, BodyOf(s.rows[s.flights[worker].row]), weather).1 !in {Code(409), Code(422)}
  {
    var i := s.flights[worker].row;
    FlightsAreKnown(s, worker);
    ReceiveKeeps(s, i, weather);
    NotMalformed(s.receiver, BodyOf(s.rows[i]), weather);
  }

  /** A row marked synced was accepted. */
  lemma SyncedMeansAccepted(s: State, i: nat)
    requires Reachable(s) && i < |s.rows| && s.rows[i].status == Synced
    ensures s.rows[i].id in s.receiver.events
  {
    ReachableOk(s);
    assert IsAccepted(s, s.rows[i].id);
  }

  /** Stored events never change: neither a repeated enqueue nor any other step rewrites id or lines. */
  lemma {:induction false} EventsImmutable(s: State, cs: seq<Step>, i: nat)
    requires i < |s.rows|
    ensures i < |Run(s, cs).rows| && BodyOf(Run(s, cs).rows[i]) == BodyOf(s.rows[i])
    ensures s.receiver.events.Keys <= Run(s, cs).receiver.events.Keys
  {
    if cs != [] {
      EventsImmutable(s, cs[..|cs| - 1], i);
      EventKept(Run(s, cs[..|cs| - 1]), cs[|cs| - 1], i);
    }
  }

  lemma EventKept(s: State, c: Step, i: nat)
    requires i < |s.rows|
    ensures i < |Next(s, c).rows| && BodyOf(Next(s, c).rows[i]) == BodyOf(s.rows[i])
    ensures s.receiver.events.Keys <= Next(s, c).receiver.events.Keys
  {
  }

  /** The lines of the orders that are settled and not cancelled. */
  function Sold(rows: seq<Row>, stages: map<nat, Stage>, sku: int): int {
    if rows == [] then 0
    else
      var r := rows[|rows| - 1];
      Sold(rows[..|rows| - 1], stages, sku)
      + if r.id.kind == Sale && r.id.order in stages && stages[r.id.order] == Settled
        then SkuQuantity(r.lines, sku) else 0
  }

  /** Once every row is synced, the receiver's stock is minus the stored sale lines of the orders that are
      settled and not cancelled. */
  lemma SyncedStockIsSold(s: State, sku: int)
    requires Reachable(s)
    requires forall i :: 0 <= i < |s.rows| ==> s.rows[i].status == Synced
    ensures Looked(s.receiver.stock, sku) == -Sold(s.rows, s.stages, sku)
  {
    ExactlyOnceStock(s, sku);
    ReachableOk(s);
    NetIsSold(s, |s.rows|, sku);
    assert s.rows[..|s.rows|] == s.rows;
  }

  ghost predicate AllSynced(s: State) {
    && ReceiverOk(s) && StagesOk(s) && CancelledReversed(s)
    && forall i :: 0 <= i < |s.rows| ==> s.rows[i].status == Synced
  }

  /** Seen from one row: its sale is accepted and not reversed exactly when its order is settled. */
  lemma RowIsSold(s: State, i: nat)
    requires AllSynced(s) && i < |s.rows| && s.rows[i].id.kind == Sale
    ensures var r := s.rows[i];
            r.id.order in s.stages
            && (r.id in s.receiver.events && EventId(r.id.order, Reversal) !in s.receiver.events
                <==> s.stages[r.id.order] == Settled)
  {
    var r := s.rows[i];
    assert IsAccepted(s, r.id) && r.id.order in s.stages;
    var reversal := EventId(r.id.order, Reversal);
    if FindRow(s.rows, reversal).Some? {
      assert IsAccepted(s, s.rows[FindRow(s.rows, reversal).value].id);
    }
  }

  lemma {:induction false} NetIsSold(s: State, n: nat, sku: int)
    requires n <= |s.rows| && AllSynced(s)
    ensures Net(s.rows[..n], s.receiver.events.Keys, sku) == -Sold(s.rows[..n], s.stages, sku)
  {
    if n > 0 {
      NetIsSold(s, n - 1, sku);
      assert s.rows[..n][..n - 1] == s.rows[..n - 1];
      if s.rows[n - 1].id.kind == Sale {
        RowIsSold(s, n - 1);
      }
    }
  }

  /** A cancelled order either has a reversal row or was never sold. */
  ghost predicate CancelledReversed(s: State) {
    forall o <- s.stages :: s.stages[o] == Cancelled && FindRow(s.rows, EventId(o, Sale)).Some? ==>
      FindRow(s.rows, EventId(o, Reversal)).Some?
  }

  lemma {:induction false} CancelledHasReversal(cs: seq<Step>)
    ensures CancelledReversed(Run(EMPTY, cs))
  {
    if cs != [] {
      var init, c := cs[..|cs| - 1], cs[|cs| - 1];
      CancelledHasReversal(init);
      RunKeeps(EMPTY, init);
      CancelledKeeps(Run(EMPTY, init), c);
    }
  }

  lemma CancelUnpaidReversed(s: State, o: nat)
    requires Inv(s) && CancelledReversed(s) && o !in s.stages
    ensures CancelledReversed(s.(stages := s.stages[o := Cancelled]))
  {
    assert FindRow(s.rows, EventId(o, Sale)).None?;
  }

  lemma SameEventsReversed(s: State, t: State)
    requires CancelledReversed(s) && SameEvents(s.rows, t.rows) && t.stages == s.stages
    ensures CancelledReversed(t)
  {
    forall id ensures FindRow(t.rows, id) == FindRow(s.rows, id) {
      SameFind(s.rows, t.rows, id);
    }
  }

  lemma CancelledKeeps(s: State, c: Step)
    requires Inv(s) && CancelledReversed(s)
    ensures CancelledReversed(Next(s, c))
  {
    if After(s, c).Ok? {
      if c.CancelOrder? && c.order !in s.stages {
        CancelUnpaidReversed(s, c.order);
      } else if c.SettleOrder? || c.CancelOrder? {
        RoutedCancelled(s, c.order, if c.SettleOrder? then Sale else Reversal, c.lines);
      } else {
        OtherStepsKeepEvents(s, c);
        SameEventsReversed(s, Next(s, c));
      }
    }
  }

  lemma OtherStepsKeepEvents(s: State, c: Step)
    requires !c.SettleOrder? && !c.CancelOrder?
    ensures SameEvents(s.rows, Next(s, c).rows) && Next(s, c).stages == s.stages
  {
  }

  lemma RoutedCancelled(s: State, o: nat, kind: EventKind, lines: seq<OrderLine>)
    requires Inv(s) && CancelledReversed(s)
    requires if kind == Sale then o !in s.stages else o in s.stages && s.stages[o] == Settled
    requires Routed(s, o, if kind == Sale then Settled else Cancelled, kind, lines).Ok?
    ensures CancelledReversed(Routed(s, o, if kind == Sale then Settled else Cancelled, kind, lines).value)
  {
    var id := EventId(o, kind);
    var t := Routed(s, o, if kind == Sale then Settled else Cancelled, kind, lines).value;
    assert FindRow(s.rows, id).None?;
    var r := NewRow(s.rows, id, lines);
    assert t.rows == s.rows + [r];
    forall p | p in t.stages && t.stages[p] == Cancelled && FindRow(t.rows, EventId(p, Sale)).Some?
      ensures FindRow(t.rows, EventId(p, Reversal)).Some?
    {
      AppendedFind(s.rows, r, EventId(p, Sale));
      AppendedFind(s.rows, r, EventId(p, Reversal));
    }
  }
}
