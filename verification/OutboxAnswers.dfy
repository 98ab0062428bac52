/** What the outbox stores, sends and records, and what the receiver answers, said from lines, weathers and
    reply codes alone. */
module OutboxAnswers {
  import opened Money
  import opened Outbox
  import opened OutboxLaws
  import opened OutboxDrain

  // ----- the receiver

  function SignedQuantity(kind: EventKind, sku: int): StockLine -> int {
    (l: StockLine) => if l.sku != sku then 0 else if kind == Sale then -l.quantity else l.quantity
  }

  lemma {:induction false} EffectIsSum(b: Body, lines: seq<StockLine>, sku: int)
    ensures (if b.id.kind == Sale then -SkuQuantity(lines, sku) else SkuQuantity(lines, sku))
            == Sum(lines, SignedQuantity(b.id.kind, sku))
    ensures sku !in Skus(lines) ==> Sum(lines, SignedQuantity(b.id.kind, sku)) == 0
  {
    if lines != [] {
      assert lines[|lines| - 1] in lines;
      EffectIsSum(b, lines[..|lines| - 1], sku);
    }
  }

  predicate Sound(b: Body) { b.lines != [] && forall l <- b.lines :: l.quantity > 0 }

  /** Out of reach, nothing arrives. A body without lines, or with a quantity that is not positive, is refused; a
      receiver that fails first answers 503; a known id with another body is a conflict. None of these changes
      anything. */
  lemma RefusalAnswer(r: Receiver, b: Body, w: Weather)
    ensures w == Unreachable ==> Posted(r, b, w) == (r, NoReply)
    ensures w != Unreachable && !Sound(b) ==> Posted(r, b, w) == (r, Code(422))
    ensures w == FailBeforeAccept && Sound(b) ==> Posted(r, b, w) == (r, Code(503))
    ensures w in {Healthy, AcceptThen503, AckLost} && Sound(b) && b.id in r.events && r.events[b.id] != b
            ==> Posted(r, b, w) == (r, Code(409))
  {
  }

  /** Otherwise the event is recorded, once: when it is new every product moves by its signed quantities, a sale
      down and a reversal up. The answer is 201, or 200 for an event known before, unless it is lost or spoilt. */
  lemma AcceptanceAnswer(r: Receiver, b: Body, w: Weather)
    requires w in {Healthy, AcceptThen503, AckLost} && Sound(b) && (b.id in r.events ==> r.events[b.id] == b)
    ensures var p := Posted(r, b, w);
            && p.0.events == r.events[b.id := b]
            && (b.id in r.events ==> p.0.stock == r.stock)
            && (b.id !in r.events ==>
                  forall sku :: Looked(p.0.stock, sku) == Looked(r.stock, sku)
                      + Sum(b.lines, SignedQuantity(b.id.kind, sku)))
            && p.1 == (match w
                       case AcceptThen503 => Code(503)
                       case AckLost => NoReply
                       case _ => Code(if b.id in r.events then 200 else 201))
  {
    if b.id in r.events {
      assert r.events[b.id := b] == r.events;
    }
    forall sku ensures Looked(Moved(r.stock, b), sku) == Looked(r.stock, sku)
        + Sum(b.lines, SignedQuantity(b.id.kind, sku)) {
      EffectIsSum(b, b.lines, sku);
    }
  }

  // ----- storing events

  function NoProduct(): OrderLine -> int { (l: OrderLine) => if l.sku.None? then 1 else 0 }

  /** Lines with a product go out in order, each with its own product and quantity; the others are counted. */
  lemma {:induction false} MappedAnswer(lines: seq<OrderLine>)
    ensures Unmapped(lines) == Sum(lines, NoProduct()) && |Mapped(lines)| == |lines| - Unmapped(lines)
    ensures forall k {:trigger lines[k]} :: 0 <= k < |lines| && lines[k].sku.Some? ==>
              && 0 <= k - Sum(lines[..k], NoProduct()) < |Mapped(lines)|
              && Mapped(lines)[k - Sum(lines[..k], NoProduct())] == StockLine(lines[k].sku.value, lines[k].quantity)
  {
    if lines != [] {
      var init, n := lines[..|lines| - 1], |lines| - 1;
      MappedAnswer(init);
      forall k {:trigger lines[k]} | 0 <= k < |lines| && lines[k].sku.Some?
        ensures && 0 <= k - Sum(lines[..k], NoProduct()) < |Mapped(lines)|
                && Mapped(lines)[k - Sum(lines[..k], NoProduct())] == StockLine(lines[k].sku.value, lines[k].quantity)
      {
        if k < n {
          assert init[k] == lines[k] && init[..k] == lines[..k];
        }
      }
    }
  }

  /** Storing an event: refused when a quantity is not positive; a known id keeps its row, moved into the queue
      if it was generic; a new one gets a pending row, a reversal with the lines of the first stored sale. */
  lemma EnqueueAnswer(rows: seq<Row>, id: EventId, lines: seq<OrderLine>)
    ensures var r := Enqueued(rows, id, lines);
            && (r.Ok? <==> forall l <- lines :: l.quantity > 0)
            && (r.Ok? && (forall k :: 0 <= k < |rows| ==> rows[k].id != id) ==>
                  && |r.value| == |rows| + 1 && r.value[..|rows|] == rows
                  && var x := r.value[|rows|];
                     && x.id == id && x.status == InventoryPending && x.retries == 0 && x.nextRetry == None
                     && (forall k :: 0 <= k < |rows| && rows[k].id == EventId(id.order, Sale) && id.kind == Reversal
                                     && (forall j :: 0 <= j < k ==> rows[j].id != EventId(id.order, Sale))
                                     ==> x.lines == rows[k].lines && x.unmapped == rows[k].unmapped)
                     && (id.kind == Sale ==> x.lines == Mapped(lines) && x.unmapped == Sum(lines, NoProduct())))
            && (forall k :: r.Ok? && 0 <= k < |rows| && rows[k].id == id
                            && (forall j :: 0 <= j < k ==> rows[j].id != id) ==>
                  r.value == if rows[k].status in {Pending, Failed}
                             then rows[k := rows[k].(status := InventoryPending)] else rows)
  {
    MappedAnswer(lines);
  }

  /** The settle and cancel routes: each order once, in that order, and only a settled order has a reversal. */
  lemma RouteAnswer(s: State, o: nat, lines: seq<OrderLine>)
    ensures var r := After(s, SettleOrder(o, lines));
            && (r.Ok? <==> o !in s.stages && forall l <- lines :: l.quantity > 0)
            && (r.Ok? ==> r.value == s.(stages := s.stages[o := Settled],
                                        rows := Enqueued(s.rows, EventId(o, Sale), lines).value))
    ensures var r := After(s, CancelOrder(o, lines));
            && (r.Ok? <==> o !in s.stages || (s.stages[o] == Settled && forall l <- lines :: l.quantity > 0))
            && (r.Ok? && o !in s.stages ==> r.value == s.(stages := s.stages[o := Cancelled]))
            && (r.Ok? && o in s.stages ==> r.value == s.(stages := s.stages[o := Cancelled],
                                                         rows := Enqueued(s.rows, EventId(o, Reversal), lines).value))
  {
  }

  // ----- selecting

  /** The batch: 25 rows by default, and never fewer than one or more than 500. */
  lemma BatchSizeAnswer(limit: int)
    ensures BatchSize(limit) == if limit == 0 then 25 else if limit < 1 then 1 else if limit > 500 then 500 else limit
  {
  }

  /** Who is in line: a row that is pending, waiting to be retried or suppressed, and whose backoff is over; a
      row asked for by id, and every row while the handoff is disabled, regardless of its backoff. */
  lemma QueueAnswer(rows: seq<Row>, only: Option<nat>, c: Config, i: nat)
    ensures i in Queue(rows, only, c)
            <==> && i < |rows|
                 && rows[i].status in {InventoryPending, InventoryRetry, Pending, Suppressed}
                 && (match only
                     case Some(k) => i == k
                     case None => c.enabled ==> (rows[i].nextRetry.None? || rows[i].nextRetry.value <= c.now))
  {
    QueueLaw(rows, only, c);
  }

  // ----- one attempt

  predicate Sendable(r: Row) { r.unmapped == 0 && r.lines != [] && forall l <- r.lines :: l.quantity > 0 }

  /** No sale of the order is stored before the row, or the first one stored is acknowledged. */
  predicate SaleAcknowledged(rows: seq<Row>, i: nat)
    requires i < |rows|
  {
    rows[i].id.kind == Reversal ==>
      forall k :: 0 <= k < i && rows[k].id == EventId(rows[i].id.order, Sale)
                  && (forall j :: 0 <= j < k ==> rows[j].id != EventId(rows[i].id.order, Sale))
                  ==> rows[k].status == Synced
  }

  predicate InTime(r: Row, now: int) { r.nextRetry.None? || r.nextRetry.value <= now }

  lemma AcknowledgedMayGo(rows: seq<Row>, i: nat)
    requires i < |rows|
    ensures MayDeliver(rows, i) <==> SaleAcknowledged(rows, i)
  {
    var sale := EventId(rows[i].id.order, Sale);
    var k := FindRow(rows[..i], sale);
    assert forall j :: 0 <= j < i ==> rows[..i][j] == rows[j];
    if k.Some? && SaleAcknowledged(rows, i) && rows[i].id.kind == Reversal {
      assert rows[k.value].id == sale;
    }
  }

  /** Waiting to be tried again: one more retry, due two minutes per retry later, and thirty at most. */
  predicate Rescheduled(before: Row, after: Row, now: int) {
    && after == before.(status := InventoryRetry, retries := before.retries + 1, nextRetry := after.nextRetry)
    && after.nextRetry.Some? && now < after.nextRetry.value <= now + 30
    && after.nextRetry.value - now == if before.retries >= 14 then 30 else 2 * (before.retries + 1)
  }

  /** Stopped until an operator acts. */
  predicate Stopped(before: Row, after: Row) {
    after == before.(status := Blocked, retries := before.retries + 1, nextRetry := None)
  }

  predicate Acknowledged(before: Row, after: Row) { after == before.(status := Synced, nextRetry := None) }

  /** One answer recorded, by its code. */
  lemma ReplyAnswer(r: Row, reply: Reply, now: int)
    ensures match reply
            case NoReply => Rescheduled(r, Settle(r, reply, now), now)
            case Code(k) =>
              if 200 <= k <= 299 then Acknowledged(r, Settle(r, reply, now))
              else if k == 408 || k == 425 || k == 429 || k >= 500 then Rescheduled(r, Settle(r, reply, now), now)
              else Stopped(r, Settle(r, reply, now))
  {
  }

  /** A row of the outbox is never a conflict for the receiver, nor malformed if it can be sent. */
  lemma WeatherReply(s: State, i: nat, w: Weather)
    requires Inv(s) && i < |s.rows| && MayDeliver(s.rows, i) && Sendable(s.rows[i])
    ensures var p := Posted(s.receiver, BodyOf(s.rows[i]), w);
            && (if w == Healthy then p.1 in {Code(200), Code(201)} else p.1 in {NoReply, Code(503)})
            && (s.rows[i].id in p.0.events
                <==> s.rows[i].id in s.receiver.events || w in {Healthy, AcceptThen503, AckLost})
  {
    SaleIsAccepted(s, i);
    ReceiveKeeps(s, i, w);
  }

  lemma SentRow(s: State, i: nat, c: Config, w: Weather)
    requires i < |s.rows| && c.enabled && c.configured
    requires InTime(s.rows[i], c.now) && MayDeliver(s.rows, i) && Sendable(s.rows[i])
    ensures var p := Posted(s.receiver, BodyOf(s.rows[i]), w);
            SyncRow(s, i, c, w) == WithRow(s, i, Settle(s.rows[i], p.1, c.now)).(receiver := p.0)
  {
  }

  /** What an attempt leaves behind, by the weather: only a healthy exchange acknowledges the row, and any other
      one reschedules it; the receiver has the event exactly when it had it before or got as far as accepting. */
  lemma WeatherAnswer(s: State, i: nat, c: Config, w: Weather)
    requires Inv(s) && i < |s.rows| && c.enabled && c.configured
    requires InTime(s.rows[i], c.now) && SaleAcknowledged(s.rows, i) && Sendable(s.rows[i])
    ensures var t := SyncRow(s, i, c, w);
            && |t.rows| == |s.rows| && (forall j :: 0 <= j < |s.rows| && j != i ==> t.rows[j] == s.rows[j])
            && (if w == Healthy then Acknowledged(s.rows[i], t.rows[i]) else Rescheduled(s.rows[i], t.rows[i], c.now))
            && (s.rows[i].id in t.receiver.events
                <==> s.rows[i].id in s.receiver.events || w in {Healthy, AcceptThen503, AckLost})
  {
    AcknowledgedMayGo(s.rows, i);
    WeatherReply(s, i, w);
    SentRow(s, i, c, w);
    ReplyAnswer(s.rows[i], Posted(s.receiver, BodyOf(s.rows[i]), w).1, c.now);
  }

  /** Rows that are not sent: suppressed while the handoff is disabled, left alone while they wait for their
      backoff or their sale, and stopped when they cannot be sent or nothing is configured. */
  lemma UnsentAnswer(s: State, i: nat, c: Config, w: Weather)
    requires i < |s.rows|
    ensures !c.enabled ==>
              var t := SyncRow(s, i, c, w);
              t.rows == s.rows[i := if s.rows[i].status == Suppressed then s.rows[i]
                                    else s.rows[i].(status := Suppressed, nextRetry := None)]
              && t.receiver == s.receiver
    ensures c.enabled && (!InTime(s.rows[i], c.now) || !SaleAcknowledged(s.rows, i)) ==> SyncRow(s, i, c, w) == s
    ensures (c.enabled && InTime(s.rows[i], c.now) && SaleAcknowledged(s.rows, i)
             && (!Sendable(s.rows[i]) || !c.configured)) ==>
              var t := SyncRow(s, i, c, w);
              && |t.rows| == |s.rows| && (forall j :: 0 <= j < |s.rows| && j != i ==> t.rows[j] == s.rows[j])
              && Stopped(s.rows[i], t.rows[i]) && t.receiver == s.receiver
  {
    AcknowledgedMayGo(s.rows, i);
  }

  /** What an answer leaves behind, by its code: 200 to 299 acknowledges the row; no answer, or 408, 425, 429 or
      500 upwards, reschedules it; any other code stops it. */
  lemma CodeAnswer(s: State, worker: nat, now: int)
    requires worker in s.flights && s.flights[worker].Answered? && s.flights[worker].row < |s.rows|
    ensures var i, reply, t := s.flights[worker].row, s.flights[worker].reply, Next(s, Finish(worker, now));
            && |t.rows| == |s.rows| && (forall j :: 0 <= j < |s.rows| && j != i ==> t.rows[j] == s.rows[j])
            && t.receiver == s.receiver && t.stages == s.stages && t.flights == s.flights - {worker}
            && match reply
               case NoReply => Rescheduled(s.rows[i], t.rows[i], now)
               case Code(k) =>
                 if 200 <= k <= 299 then Acknowledged(s.rows[i], t.rows[i])
                 else if k == 408 || k == 425 || k == 429 || k >= 500 then Rescheduled(s.rows[i], t.rows[i], now)
                 else Stopped(s.rows[i], t.rows[i])
  {
    var i := s.flights[worker].row;
    ReplyAnswer(s.rows[i], s.flights[worker].reply, now);
  }

  // ----- whole runs

  predicate InRange(ids: seq<nat>, n: nat) { forall a :: 0 <= a < |ids| ==> ids[a] < n }

  lemma RowNotStopped(s: State, j: nat, c: Config, w: Weather, i: nat)
    requires Inv(s) && c.configured && i < |s.rows| && j < |s.rows| && Sendable(s.rows[i])
        && s.rows[i].status != Blocked
    ensures i < |SyncRow(s, j, c, w).rows| && SyncRow(s, j, c, w).rows[i].status != Blocked
  {
    if i == j {
      UnsentAnswer(s, i, c, w);
      if c.enabled && InTime(s.rows[i], c.now) && SaleAcknowledged(s.rows, i) {
        WeatherAnswer(s, i, c, w);
      }
    }
  }

  lemma {:induction false} RowsNotStopped(s: State, ids: seq<nat>, c: Config, sky: nat -> Weather, i: nat)
    requires Inv(s) && c.configured && i < |s.rows| && Sendable(s.rows[i]) && s.rows[i].status != Blocked
    requires InRange(ids, |s.rows|)
    ensures var t := SyncRows(s, ids, c, sky);
            Inv(t) && SameEvents(s.rows, t.rows) && t.rows[i].status != Blocked
  {
    if ids != [] {
      var init, last := ids[..|ids| - 1], ids[|ids| - 1];
      assert last in ids;
      RowsNotStopped(s, init, c, sky, i);
      var t := SyncRows(s, init, c, sky);
      assert BodyOf(t.rows[i]) == BodyOf(s.rows[i]);
      RowNotStopped(t, last, c, sky(last), i);
      SyncRowKeeps(t, last, c, sky(last));
      SyncRowLocal(t, last, c, sky(last));
    }
  }

  /** No run of a configured worker stops a row that can be sent, whatever the network does. */
  lemma RunNeverStops(s: State, limit: int, only: Option<nat>, c: Config, sky: nat -> Weather, i: nat)
    requires Reachable(s) && c.configured && i < |s.rows| && Sendable(s.rows[i]) && s.rows[i].status != Blocked
    ensures var t := SyncRun(s, limit, only, c, sky); i < |t.rows| && t.rows[i].status != Blocked
  {
    ReachableOk(s);
    BatchInRange(s.rows, limit, only, c);
    RowsNotStopped(s, Batch(s.rows, limit, only, c), c, sky, i);
  }

  lemma BatchInRange(rows: seq<Row>, limit: int, only: Option<nat>, c: Config)
    ensures var ids := Batch(rows, limit, only, c);
            && InRange(ids, |rows|) && (forall a :: 0 <= a < |ids| ==> Queued(rows[ids[a]].status))
            && forall a, b :: 0 <= a < b < |ids| ==> ids[a] != ids[b]
  {
    var ids := Batch(rows, limit, only, c);
    QueuedIfSelected(rows, limit, only, c);
    forall a | 0 <= a < |ids| ensures ids[a] < |rows| && Queued(rows[ids[a]].status) {
      assert ids[a] in ids;
    }
  }

  lemma {:induction false} RowsKeepInv(s: State, ids: seq<nat>, c: Config, sky: nat -> Weather)
    requires Inv(s) && InRange(ids, |s.rows|)
    ensures var t := SyncRows(s, ids, c, sky);
            && Inv(t) && SameEvents(s.rows, t.rows)
            && forall k :: 0 <= k < |s.rows| && k !in ids ==> t.rows[k] == s.rows[k]
  {
    if ids != [] {
      var init, last := ids[..|ids| - 1], ids[|ids| - 1];
      assert last in ids;
      RowsKeepInv(s, init, c, sky);
      SyncRowKeeps(SyncRows(s, init, c, sky), last, c, sky(last));
      SyncRowLocal(SyncRows(s, init, c, sky), last, c, sky(last));
    }
  }

  lemma {:induction false} TurnAnswer(s: State, ids: seq<nat>, c: Config, sky: nat -> Weather, i: nat)
    requires Inv(s) && c.enabled && c.configured && i in ids && i < |s.rows|
    requires InTime(s.rows[i], c.now) && SaleAcknowledged(s.rows, i) && Sendable(s.rows[i])
    requires InRange(ids, |s.rows|) && forall a :: 0 <= a < |ids| ==> s.rows[ids[a]].status != Synced
    requires forall a, b :: 0 <= a < b < |ids| ==> ids[a] != ids[b]
    ensures var t := SyncRows(s, ids, c, sky);
            && |t.rows| == |s.rows|
            && if sky(i) == Healthy then Acknowledged(s.rows[i], t.rows[i])
                else Rescheduled(s.rows[i], t.rows[i], c.now)
  {
    var init, last := ids[..|ids| - 1], ids[|ids| - 1];
    assert last in ids && last !in init;
    RowsKeepInv(s, init, c, sky);
    var t := SyncRows(s, init, c, sky);
    SyncRowLocal(t, last, c, sky(last));
    if i == last {
      assert t.rows[i] == s.rows[i];
      StillAcknowledged(s, t, init, i);
      WeatherAnswer(t, i, c, sky(i));
    } else {
      assert i in init;
      TurnAnswer(s, init, c, sky, i);
    }
  }

  lemma StillAcknowledged(s: State, t: State, ids: seq<nat>, i: nat)
    requires i < |s.rows| && SaleAcknowledged(s.rows, i) && SameEvents(s.rows, t.rows)
    requires forall k :: 0 <= k < |s.rows| && k !in ids ==> t.rows[k] == s.rows[k]
    requires InRange(ids, |s.rows|) && forall a :: 0 <= a < |ids| ==> s.rows[ids[a]].status != Synced
    ensures SaleAcknowledged(t.rows, i)
  {
    assert forall k :: 0 <= k < |s.rows| ==> BodyOf(s.rows[k]) == BodyOf(t.rows[k]);
    forall k | 0 <= k < i && t.rows[k].id == EventId(t.rows[i].id.order, Sale) && t.rows[i].id.kind == Reversal
               && (forall j :: 0 <= j < k ==> t.rows[j].id != EventId(t.rows[i].id.order, Sale))
      ensures t.rows[k].status == Synced
    {
      assert BodyOf(s.rows[i]) == BodyOf(t.rows[i]) && BodyOf(s.rows[k]) == BodyOf(t.rows[k]);
      forall j | 0 <= j < k ensures s.rows[j].id != EventId(s.rows[i].id.order, Sale) {
        assert BodyOf(s.rows[j]) == BodyOf(t.rows[j]);
      }
    }
  }

  /** In a whole run, every row of the batch that can be sent, and whose sale is acknowledged, is acknowledged
      when its own exchange is healthy and rescheduled when it is not. */
  lemma RunAnswer(s: State, limit: int, only: Option<nat>, c: Config, sky: nat -> Weather, i: nat)
    requires Reachable(s) && c.enabled && c.configured && i in Batch(s.rows, limit, only, c) && i < |s.rows|
    requires InTime(s.rows[i], c.now) && SaleAcknowledged(s.rows, i) && Sendable(s.rows[i])
    ensures var t := SyncRun(s, limit, only, c, sky);
            && |t.rows| == |s.rows|
            && if sky(i) == Healthy then Acknowledged(s.rows[i], t.rows[i])
                else Rescheduled(s.rows[i], t.rows[i], c.now)
  {
    ReachableOk(s);
    BatchInRange(s.rows, limit, only, c);
    TurnAnswer(s, Batch(s.rows, limit, only, c), c, sky, i);
  }

  // ----- operators

  /** What operators do to one row: any row not synced may be requeued at once or archived; a blocked, failed or
      retrying one may be unblocked, due now, or resolved. Nothing else of it changes. */
  lemma OperatorAnswer(s: State, i: nat, now: int)
    ensures var r := After(s, Requeue(i));
            && (r.Ok? <==> i < |s.rows| && s.rows[i].status != Synced)
            && (r.Ok? ==> r.value == s.(rows := s.rows[i := s.rows[i].(status := InventoryPending, nextRetry := None)]))
    ensures var r := After(s, Archive(i));
            && (r.Ok? <==> i < |s.rows| && s.rows[i].status != Synced)
            && (r.Ok? ==> r.value == s.(rows := s.rows[i := s.rows[i].(status := Archived)]))
    ensures var r := After(s, Unblock(i, now));
            && (r.Ok? <==> i < |s.rows| && s.rows[i].status in {Blocked, Failed, InventoryRetry})
            && (r.Ok? ==> r.value == s.(rows :=
                s.rows[i := s.rows[i].(status := InventoryPending, nextRetry := Some(now))]))
    ensures var r := After(s, Resolve(i));
            && (r.Ok? <==> i < |s.rows| && s.rows[i].status in {Blocked, Failed, InventoryRetry})
            && (r.Ok? ==> r.value == s.(rows := s.rows[i := s.rows[i].(status := Resolved)]))
  {
  }
}
