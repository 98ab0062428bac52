/** The Inventory outbox and its receiver: what every transaction, delivery attempt and operator
    action does. Attempts of several workers may interleave with everything else. */
module Outbox {
  import opened Money

  datatype EventKind = Sale | Reversal

  /** The external event id, which is also the outbox idempotency key: one per order and kind. */
  datatype EventId = EventId(order: nat, kind: EventKind)

  datatype StockLine = StockLine(sku: int, quantity: int)

  /** A line of the serialized order; its product id may be missing from the catalog. */
  datatype OrderLine = OrderLine(sku: Option<int>, quantity: int)

  datatype RowStatus =
    | Pending | InventoryPending | InventoryRetry | Blocked | Suppressed
    | Failed | Archived | Resolved | Synced

  datatype Row = Row(
    id: EventId,
    lines: seq<StockLine>,
    unmapped: nat,
    status: RowStatus,
    retries: nat,
    nextRetry: Option<int>)

  datatype Body = Body(id: EventId, lines: seq<StockLine>)

  datatype Receiver = Receiver(events: map<EventId, Body>, stock: map<int, int>)

  datatype Stage = Settled | Cancelled

  /** An HTTP exchange in progress: sent by a worker, or answered and not yet recorded. */
  datatype Flight = Sent(row: nat) | Answered(row: nat, reply: Reply)

  datatype Reply = NoReply | Code(code: int)

  datatype State = State(stages: map<nat, Stage>, rows: seq<Row>, receiver: Receiver, flights: map<nat, Flight>)

  const EMPTY := State(map[], [], Receiver(map[], map[]), map[])

  // ----- the receiver

  /** What the network and the receiver do to one request. */
  datatype Weather = Unreachable | FailBeforeAccept | Healthy | AcceptThen503 | AckLost

  function Looked(m: map<int, int>, k: int): int { if k in m then m[k] else 0 }

  function SkuQuantity(lines: seq<StockLine>, sku: int): int {
    if lines == [] then 0
    else
      SkuQuantity(lines[..|lines| - 1], sku)
      + if lines[|lines| - 1].sku == sku then lines[|lines| - 1].quantity else 0
  }

  function Skus(lines: seq<StockLine>): set<int> { set l <- lines :: l.sku }

  predicate Positive(lines: seq<StockLine>) { forall l <- lines :: l.quantity > 0 }

  function Effect(b: Body, sku: int): int {
    if b.id.kind == Sale then -SkuQuantity(b.lines, sku) else SkuQuantity(b.lines, sku)
  }

  function Moved(stock: map<int, int>, b: Body): (r: map<int, int>)
    ensures forall sku :: Looked(r, sku) == Looked(stock, sku) + if sku in Skus(b.lines) then Effect(b, sku) else 0
  {
    map sku | sku in stock.Keys + Skus(b.lines) ::
      Looked(stock, sku) + if sku in Skus(b.lines) then Effect(b, sku) else 0
  }

  function Recorded(r: Receiver, b: Body): Receiver {
    if b.id in r.events then r else Receiver(r.events[b.id := b], Moved(r.stock, b))
  }

  /** One request at the receiver: refused if malformed, deduplicated by event id, conflicting if the
      same id carries another body; the answer may be lost either way. */
  function Posted(r: Receiver, b: Body, w: Weather): (Receiver, Reply) {
    if w == Unreachable then (r, NoReply)
    else if b.lines == [] || !Positive(b.lines) then (r, Code(422))
    else if w == FailBeforeAccept then (r, Code(503))
    else if b.id in r.events && r.events[b.id] != b then (r, Code(409))
    else
      (Recorded(r, b),
       match w
       case AcceptThen503 => Code(503)
       case AckLost => NoReply
       case _ => Code(if b.id in r.events then 200 else 201))
  }

  // ----- writing the outbox

  function FindRow(rows: seq<Row>, id: EventId): (r: Option<nat>)
    ensures r.Some? ==> r.value < |rows| && rows[r.value].id == id && forall k :: 0 <= k < r.value ==> rows[k].id != id
    ensures r.None? ==> forall k :: 0 <= k < |rows| ==> rows[k].id != id
  {
    if rows == [] then None
    else
      var earlier := FindRow(rows[..|rows| - 1], id);
      if earlier.Some? then earlier else if rows[|rows| - 1].id == id then Some(|rows| - 1) else None
  }

  predicate QuantitiesValid(lines: seq<OrderLine>) { forall l <- lines :: l.quantity > 0 }

  function Mapped(lines: seq<OrderLine>): seq<StockLine> {
    if lines == [] then []
    else
      var l, earlier := lines[|lines| - 1], Mapped(lines[..|lines| - 1]);
      if l.sku.Some? then earlier + [StockLine(l.sku.value, l.quantity)] else earlier
  }

  function Unmapped(lines: seq<OrderLine>): nat {
    if lines == [] then 0 else Unmapped(lines[..|lines| - 1]) + if lines[|lines| - 1].sku.None? then 1 else 0
  }

  /** The row a new event is stored as. A reversal copies the lines of the stored sale, not the order's. */
  function NewRow(rows: seq<Row>, id: EventId, lines: seq<OrderLine>): Row {
    var original := FindRow(rows, EventId(id.order, Sale));
    if id.kind == Reversal && original.Some?
    then Row(id, rows[original.value].lines, rows[original.value].unmapped, InventoryPending, 0, None)
    else Row(id, Mapped(lines), Unmapped(lines), InventoryPending, 0, None)
  }

  /** A stored event is immutable; only an undispatched generic row is moved into the Inventory queue. */
  function Enqueued(rows: seq<Row>, id: EventId, lines: seq<OrderLine>): Outcome<seq<Row>> {
    if !QuantitiesValid(lines) then Rejected
    else
      var k := FindRow(rows, id);
      if k.None? then Ok(rows + [NewRow(rows, id, lines)])
      else if rows[k.value].status in {Pending, Failed}
      then Ok(rows[k.value := rows[k.value].(status := InventoryPending)])
      else Ok(rows)
  }

  // ----- delivery

  predicate Queued(s: RowStatus) { s in {InventoryPending, InventoryRetry, Pending, Suppressed} }

  /** A reversal waits until the sale stored before it is acknowledged. */
  predicate MayDeliver(rows: seq<Row>, i: nat)
    requires i < |rows|
  {
    rows[i].id.kind == Reversal ==>
      var original := FindRow(rows[..i], EventId(rows[i].id.order, Sale));
      original.Some? ==> rows[original.value].status == Synced
  }

  predicate WellFormed(r: Row) { r.unmapped == 0 && r.lines != [] && Positive(r.lines) }

  function BodyOf(r: Row): Body { Body(r.id, r.lines) }

  function Backoff(retries: nat): nat { if retries * 2 <= 30 then retries * 2 else 30 }

  function RetriedRow(r: Row, now: int): Row {
    r.(status := InventoryRetry, retries := r.retries + 1, nextRetry := Some(now + Backoff(r.retries + 1)))
  }

  function BlockedRow(r: Row): Row { r.(status := Blocked, retries := r.retries + 1, nextRetry := None) }

  function SuppressedRow(r: Row): Row { r.(status := Suppressed, nextRetry := None) }

  predicate Accepted(reply: Reply) { reply.Code? && 200 <= reply.code < 300 }

  predicate Temporary(reply: Reply) { reply.NoReply? || reply.code in {408, 425, 429} || reply.code >= 500 }

  function Settle(r: Row, reply: Reply, now: int): Row {
    if Accepted(reply) then r.(status := Synced, nextRetry := None)
    else if Temporary(reply) then RetriedRow(r, now)
    else BlockedRow(r)
  }

  // ----- steps

  datatype Step =
    | SettleOrder(order: nat, lines: seq<OrderLine>)
    | CancelOrder(order: nat, lines: seq<OrderLine>)
    | EnqueueAgain(id: EventId, lines: seq<OrderLine>)
    | Begin(worker: nat, row: nat)
    | Deliver(worker: nat, weather: Weather)
    | Finish(worker: nat, now: int)
    | Suppress(row: nat)
    | Block(row: nat)
    | Requeue(row: nat)
    | Unblock(row: nat, now: int)
    | Archive(row: nat)
    | Resolve(row: nat)

  function WithRow(s: State, i: nat, r: Row): State
    requires i < |s.rows|
  {
    s.(rows := s.rows[i := r])
  }

  /** The settle and cancel routes commit the order's new stage together with its outbox row. */
  function Routed(s: State, order: nat, stage: Stage, kind: EventKind, lines: seq<OrderLine>): Outcome<State> {
    var rows := Enqueued(s.rows, EventId(order, kind), lines);
    if rows.Rejected? then Rejected else Ok(s.(stages := s.stages[order := stage], rows := rows.value))
  }

  function After(s: State, c: Step): Outcome<State> {
    match c
    case SettleOrder(o, lines) =>
      if o in s.stages then Rejected else Routed(s, o, Settled, Sale, lines)
    case CancelOrder(o, lines) =>
      if o !in s.stages then Ok(s.(stages := s.stages[o := Cancelled]))
      else if s.stages[o] == Cancelled then Rejected
      else Routed(s, o, Cancelled, Reversal, lines)
    case EnqueueAgain(id, lines) =>
      var rows := Enqueued(s.rows, id, lines);
      if FindRow(s.rows, id).None? || rows.Rejected? then Rejected else Ok(s.(rows := rows.value))
    case Begin(w, i) =>
      if w in s.flights || i >= |s.rows| || !MayDeliver(s.rows, i) || !WellFormed(s.rows[i]) then Rejected
      else Ok(s.(flights := s.flights[w := Sent(i)]))
    case Deliver(w, weather) =>
      if w !in s.flights || !s.flights[w].Sent? || s.flights[w].row >= |s.rows| then Rejected
      else
        var i := s.flights[w].row;
        var p := Posted(s.receiver, BodyOf(s.rows[i]), weather);
        Ok(s.(receiver := p.0, flights := s.flights[w := Answered(i, p.1)]))
    case Finish(w, now) =>
      if w !in s.flights || !s.flights[w].Answered? || s.flights[w].row >= |s.rows| then Rejected
      else
        var i := s.flights[w].row;
        Ok(WithRow(s, i, Settle(s.rows[i], s.flights[w].reply, now)).(flights := s.flights - {w}))
    case Suppress(i) => if i >= |s.rows| then Rejected else Ok(WithRow(s, i, SuppressedRow(s.rows[i])))
    case Block(i) => if i >= |s.rows| then Rejected else Ok(WithRow(s, i, BlockedRow(s.rows[i])))
    case Requeue(i) =>
      if i >= |s.rows| || s.rows[i].status == Synced then Rejected
      else Ok(WithRow(s, i, s.rows[i].(status := InventoryPending, nextRetry := None)))
    case Unblock(i, now) =>
      if i >= |s.rows| || s.rows[i].status !in {Blocked, Failed, InventoryRetry} then Rejected
      else Ok(WithRow(s, i, s.rows[i].(status := InventoryPending, nextRetry := Some(now))))
    case Archive(i) =>
      if i >= |s.rows| || s.rows[i].status == Synced then Rejected
      else Ok(WithRow(s, i, s.rows[i].(status := Archived)))
    case Resolve(i) =>
      if i >= |s.rows| || s.rows[i].status !in {Blocked, Failed, InventoryRetry} then Rejected
      else Ok(WithRow(s, i, s.rows[i].(status := Resolved)))
  }

  function Next(s: State, c: Step): State {
    var r := After(s, c);
    if r.Ok? then r.value else s
  }

  function Run(s: State, cs: seq<Step>): State {
    if cs == [] then s else Next(Run(s, cs[..|cs| - 1]), cs[|cs| - 1])
  }

  // ----- one run of the sync worker

  datatype Config = Config(enabled: bool, configured: bool, now: int)

  function BatchSize(limit: int): (n: nat)
    ensures 1 <= n <= 500
  {
    var l := if limit == 0 then 25 else limit;
    if l < 1 then 1 else if l > 500 then 500 else l
  }

  predicate Due(r: Row, now: int) { r.nextRetry.Some? ==> r.nextRetry.value <= now }

  predicate Selectable(r: Row, i: nat, only: Option<nat>, c: Config) {
    Queued(r.status) && (if only.Some? then i == only.value else c.enabled ==> Due(r, c.now))
  }

  /** The queue in id order, before the batch limit. */
  function Queue(rows: seq<Row>, only: Option<nat>, c: Config): seq<nat> {
    if rows == [] then []
    else
      var i, earlier := |rows| - 1, Queue(rows[..|rows| - 1], only, c);
      if Selectable(rows[i], i, only, c) then earlier + [i] else earlier
  }

  function Batch(rows: seq<Row>, limit: int, only: Option<nat>, c: Config): seq<nat> {
    var q := Queue(rows, only, c);
    if |q| <= BatchSize(limit) then q else q[..BatchSize(limit)]
  }

  function SyncRow(s: State, i: nat, c: Config, w: Weather): State {
    if i >= |s.rows| then s
    else
      var r := s.rows[i];
      if !c.enabled then if r.status == Suppressed then s else WithRow(s, i, SuppressedRow(r))
      else if !Due(r, c.now) || !MayDeliver(s.rows, i) then s
      else if !WellFormed(r) || !c.configured then WithRow(s, i, BlockedRow(r))
      else
        var p := Posted(s.receiver, BodyOf(r), w);
        WithRow(s, i, Settle(r, p.1, c.now)).(receiver := p.0)
  }

  function SyncRows(s: State, ids: seq<nat>, c: Config, sky: nat -> Weather): State {
    if ids == [] then s
    else SyncRow(SyncRows(s, ids[..|ids| - 1], c, sky), ids[|ids| - 1], c, sky(ids[|ids| - 1]))
  }

  function SyncRun(s: State, limit: int, only: Option<nat>, c: Config, sky: nat -> Weather): State {
    SyncRows(s, Batch(s.rows, limit, only, c), c, sky)
  }
}
