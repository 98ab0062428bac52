/** The Inventory handoff as it runs: the outbox table, its sync worker and operator actions, and the
    receiver, all changed in place. */
module Handoff {
  import opened Money
  import opened Outbox
  import opened OutboxLaws

  function Delta(kind: EventKind, l: StockLine): int { if kind == Sale then -l.quantity else l.quantity }

  lemma EffectStep(id: EventId, lines: seq<StockLine>, l: StockLine, sku: int)
    ensures Effect(Body(id, lines + [l]), sku)
            == Effect(Body(id, lines), sku) + (if l.sku == sku then Delta(id.kind, l) else 0)
  {
    var more := lines + [l];
    assert more[..|more| - 1] == lines;
  }

  lemma SkusStep(lines: seq<StockLine>, l: StockLine)
    ensures Skus(lines + [l]) == Skus(lines) + {l.sku}
  {
    assert l in lines + [l];
    assert forall x <- lines :: x in lines + [l];
  }

  class InventoryReceiver {
    var events: map<EventId, Body>
    var stock: map<int, int>

    function Shelf(): Receiver
      reads this
    {
      Receiver(events, stock)
    }

    constructor ()
      ensures Shelf() == Receiver(map[], map[])
    {
      events, stock := map[], map[];
    }

    /** Accepts an event once: deltas are summed by product first, then applied to the stock. */
    method Post(b: Body, w: Weather) returns (reply: Reply)
      modifies this
      ensures (Shelf(), reply) == Posted(old(Shelf()), b, w)
    {
      if w == Unreachable {
        return NoReply;
      }
      if b.lines == [] {
        return Code(422);
      }
      var deltas := SumDeltas(b);
      if deltas.Rejected? {
        return Code(422);
      }
      if w == FailBeforeAccept {
        return Code(503);
      }
      if b.id in events && events[b.id] != b {
        return Code(409);
      }
      var isNew := b.id !in events;
      if isNew {
        var moved := Apply(stock, deltas.value);
        forall sku | sku in moved ensures moved[sku] == Moved(stock, b)[sku] {
          assert Looked(moved, sku) == Looked(stock, sku) + Looked(deltas.value.amounts, sku);
        }
        assert moved == Moved(stock, b);
        events, stock := events[b.id := b], moved;
      }
      match w
      case AcceptThen503 => reply := Code(503);
      case AckLost => reply := NoReply;
      case _ => reply := Code(if isNew then 201 else 200);
    }
  }

  /** A dictionary of deltas, with its keys in the order they were inserted. */
  datatype Deltas = Deltas(amounts: map<int, int>, order: seq<int>)

  ghost predicate Ordered(d: Deltas) {
    && (forall i, j :: 0 <= i < j < |d.order| ==> d.order[i] != d.order[j])
    && (forall sku :: sku in d.order <==> sku in d.amounts)
  }

  method SumDeltas(b: Body) returns (r: Outcome<Deltas>)
    ensures r.Ok? <==> Positive(b.lines)
    ensures r.Ok? ==> Ordered(r.value) && r.value.amounts.Keys == Skus(b.lines)
    ensures r.Ok? ==> forall sku :: Looked(r.value.amounts, sku) == Effect(b, sku)
  {
    var amounts: map<int, int>, order: seq<int> := map[], [];
    for i := 0 to |b.lines|
      invariant Positive(b.lines[..i])
      invariant Ordered(Deltas(amounts, order)) && amounts.Keys == Skus(b.lines[..i])
      invariant forall sku :: Looked(amounts, sku) == Effect(Body(b.id, b.lines[..i]), sku)
    {
      var l := b.lines[i];
      assert l in b.lines;
      assert b.lines[..i + 1] == b.lines[..i] + [l];
      if l.quantity <= 0 {
        return Rejected;
      }
      ghost var before := amounts;
      if l.sku !in amounts {
        order := order + [l.sku];
      }
      amounts := amounts[l.sku := Looked(amounts, l.sku) + Delta(b.id.kind, l)];
      SkusStep(b.lines[..i], l);
      forall sku ensures Looked(amounts, sku) == Effect(Body(b.id, b.lines[..i + 1]), sku) {
        EffectStep(b.id, b.lines[..i], l, sku);
        assert Looked(before, sku) == Effect(Body(b.id, b.lines[..i]), sku);
      }
    }
    assert b.lines[..|b.lines|] == b.lines;
    assert Body(b.id, b.lines) == b;
    r := Ok(Deltas(amounts, order));
  }

  method Apply(stock: map<int, int>, d: Deltas) returns (r: map<int, int>)
    requires Ordered(d)
    ensures forall sku :: sku in r <==> sku in stock || sku in d.amounts
    ensures forall sku :: Looked(r, sku) == Looked(stock, sku) + Looked(d.amounts, sku)
  {
    r := stock;
    for n := 0 to |d.order|
      invariant forall sku :: sku in r <==> sku in stock || sku in d.order[..n]
      invariant forall sku :: Looked(r, sku) == Looked(stock, sku) + if sku in d.order[..n] then d.amounts[sku] else 0
    {
      var sku := d.order[n];
      assert sku in d.order && sku !in d.order[..n];
      assert d.order[..n + 1] == d.order[..n] + [sku];
      r := r[sku := Looked(r, sku) + d.amounts[sku]];
    }
    assert d.order[..|d.order|] == d.order;
  }

  /** How the worker counts one row of its batch. */
  datatype Attempt = Skipped | Delivered | Deferred | Refused

  /** What happened to a queued row, told from the row before and after. */
  function AttemptOf(before: Row, after: Row): Attempt {
    if after.status == Synced then Delivered
    else if after.retries == before.retries then Skipped
    else if after.status == InventoryRetry then Deferred else Refused
  }

  /** How many of these rows had this happen to them. */
  function Attempts(before: seq<Row>, after: seq<Row>, ids: seq<nat>, a: Attempt): nat {
    if ids == [] then 0
    else
      var i := ids[|ids| - 1];
      Attempts(before, after, ids[..|ids| - 1], a)
      + if i < |before| && i < |after| && AttemptOf(before[i], after[i]) == a then 1 else 0
  }

  lemma {:induction false} SameAttempts(before: seq<Row>, x: seq<Row>, y: seq<Row>, ids: seq<nat>, a: Attempt)
    requires |x| == |y| && forall i <- ids :: i < |x| ==> x[i] == y[i]
    ensures Attempts(before, x, ids, a) == Attempts(before, y, ids, a)
  {
    if ids != [] {
      assert ids[|ids| - 1] in ids;
      SameAttempts(before, x, y, ids[..|ids| - 1], a);
    }
  }

  /** The counters of a run. */
  datatype Tally = Tally(synced: nat, retried: nat, blocked: nat, skipped: nat)

  function TallyOf(before: seq<Row>, after: seq<Row>, ids: seq<nat>): Tally {
    Tally(Attempts(before, after, ids, Delivered), Attempts(before, after, ids, Deferred),
          Attempts(before, after, ids, Refused), Attempts(before, after, ids, Skipped))
  }

  function Counted(t: Tally, a: Attempt): Tally {
    match a
    case Delivered => t.(synced := t.synced + 1)
    case Deferred => t.(retried := t.retried + 1)
    case Refused => t.(blocked := t.blocked + 1)
    case Skipped => t.(skipped := t.skipped + 1)
  }

  lemma {:induction false} EveryRowCounts(before: seq<Row>, after: seq<Row>, ids: seq<nat>)
    requires |after| == |before| && forall k :: 0 <= k < |ids| ==> ids[k] < |before|
    ensures var t := TallyOf(before, after, ids); t.synced + t.retried + t.blocked + t.skipped == |ids|
  {
    if ids != [] {
      EveryRowCounts(before, after, ids[..|ids| - 1]);
    }
  }

  /** The rows named so far are done; the others are as they were. */
  predicate DoneSoFar(before: seq<Row>, now: seq<Row>, ids: seq<nat>) {
    |now| == |before| && forall j :: 0 <= j < |now| && j !in ids ==> now[j] == before[j]
  }

  lemma OneMoreAttempt(before: seq<Row>, x: seq<Row>, y: seq<Row>, ids: seq<nat>, k: nat)
    requires k < |ids| && ids[k] < |before| && ids[k] !in ids[..k] && DoneSoFar(before, x, ids[..k])
    requires |y| == |x| && forall j :: 0 <= j < |x| && j != ids[k] ==> y[j] == x[j]
    ensures DoneSoFar(before, y, ids[..k + 1])
    ensures TallyOf(before, y, ids[..k + 1])
        == Counted(TallyOf(before, x, ids[..k]), AttemptOf(before[ids[k]], y[ids[k]]))
  {
    assert ids[..k + 1][..k] == ids[..k];
    SameAttempts(before, x, y, ids[..k], Delivered);
    SameAttempts(before, x, y, ids[..k], Deferred);
    SameAttempts(before, x, y, ids[..k], Refused);
    SameAttempts(before, x, y, ids[..k], Skipped);
  }

  class OutboxTable {
    var stages: map<nat, Stage>
    var rows: seq<Row>
    const receiver: InventoryReceiver

    function Snapshot(): State
      reads this, receiver
    {
      State(stages, rows, receiver.Shelf(), map[])
    }

    constructor ()
      ensures Snapshot() == EMPTY && fresh(receiver)
    {
      stages, rows := map[], [];
      receiver := new InventoryReceiver();
    }

    /** Splits the order's lines into mapped stock lines and a count of unmapped ones. */
    method BuildInventoryEvent(lines: seq<OrderLine>) returns (r: Outcome<(seq<StockLine>, nat)>)
      ensures r.Ok? <==> QuantitiesValid(lines)
      ensures r.Ok? ==> r.value == (Mapped(lines), Unmapped(lines))
    {
      var mapped: seq<StockLine>, unmapped: nat := [], 0;
      for i := 0 to |lines|
        invariant forall l <- lines[..i] :: l.quantity > 0
        invariant mapped == Mapped(lines[..i]) && unmapped == Unmapped(lines[..i])
      {
        assert lines[i] in lines;
        assert lines[..i + 1][..i] == lines[..i];
        if lines[i].quantity <= 0 {
          return Rejected;
        }
        if lines[i].sku.Some? {
          mapped := mapped + [StockLine(lines[i].sku.value, lines[i].quantity)];
        } else {
          unmapped := unmapped + 1;
        }
      }
      assert lines[..|lines|] == lines;
      r := Ok((mapped, unmapped));
    }

    method EnqueueInventoryEvent(id: EventId, lines: seq<OrderLine>) returns (ok: bool)
      modifies this`rows
      ensures ok <==> Enqueued(old(rows), id, lines).Ok?
      ensures rows == if ok then Enqueued(old(rows), id, lines).value else old(rows)
    {
      var built := BuildInventoryEvent(lines);
      if built.Rejected? {
        return false;
      }
      var (mapped, unmapped) := built.value;
      if id.kind == Reversal {
        var original := FindRow(rows, EventId(id.order, Sale));
        if original.Some? {
          mapped, unmapped := rows[original.value].lines, rows[original.value].unmapped;
        }
      }
      var existing := FindRow(rows, id);
      if existing.None? {
        rows := rows + [Row(id, mapped, unmapped, InventoryPending, 0, None)];
      } else if rows[existing.value].status in {Pending, Failed} {
        rows := rows[existing.value := rows[existing.value].(status := InventoryPending)];
      }
      ok := true;
    }

    method SettleOrder(order: nat, lines: seq<OrderLine>) returns (ok: bool)
      modifies this
      ensures ok <==> After(old(Snapshot()), Step.SettleOrder(order, lines)).Ok?
      ensures Snapshot() == Next(old(Snapshot()), Step.SettleOrder(order, lines))
    {
      if order in stages {
        return false;
      }
      ok := EnqueueInventoryEvent(EventId(order, Sale), lines);
      if ok {
        stages := stages[order := Settled];
      }
    }

    method CancelOrder(order: nat, lines: seq<OrderLine>) returns (ok: bool)
      modifies this
      ensures ok <==> After(old(Snapshot()), Step.CancelOrder(order, lines)).Ok?
      ensures Snapshot() == Next(old(Snapshot()), Step.CancelOrder(order, lines))
    {
      if order !in stages {
        stages := stages[order := Cancelled];
        return true;
      }
      if stages[order] == Cancelled {
        return false;
      }
      ok := EnqueueInventoryEvent(EventId(order, Reversal), lines);
      if ok {
        stages := stages[order := Cancelled];
      }
    }

    /** Selects the due queued rows in id order, up to the batch size. */
    method SelectBatch(limit: int, only: Option<nat>, c: Config) returns (ids: seq<nat>)
      ensures ids == Batch(rows, limit, only, c)
      ensures forall i <- ids :: i < |rows|
    {
      ids := [];
      for i := 0 to |rows|
        invariant ids == Queue(rows[..i], only, c)
        invariant forall k <- ids :: k < i
      {
        assert rows[..i + 1][..i] == rows[..i];
        if Selectable(rows[i], i, only, c) {
          ids := ids + [i];
        }
      }
      assert rows[..|rows|] == rows;
      if |ids| > BatchSize(limit) {
        assert forall k <- ids[..BatchSize(limit)] :: k in ids;
        ids := ids[..BatchSize(limit)];
      }
    }

    /** Checks, sends and records one selected row. */
    method SyncOne(i: nat, c: Config, w: Weather) returns (outcome: Attempt)
      requires i < |rows|
      modifies this`rows, receiver
      ensures Snapshot() == SyncRow(old(Snapshot()), i, c, w) && |rows| == |old(rows)|
      ensures forall j :: 0 <= j < |rows| && j != i ==> rows[j] == old(rows)[j]
      ensures Queued(old(rows)[i].status) ==> outcome == AttemptOf(old(rows)[i], rows[i])
      ensures match outcome
              case Delivered => rows[i].status == Synced
              case Deferred => rows[i] == RetriedRow(old(rows)[i], c.now)
              case Refused => rows[i] == BlockedRow(old(rows)[i])
              case Skipped =>
                rows[i].status in {old(rows)[i].status, Suppressed} && rows[i].retries == old(rows)[i].retries
    {
      var r := rows[i];
      if !c.enabled {
        if r.status != Suppressed {
          rows := rows[i := r.(status := Suppressed, nextRetry := None)];
        }
        return Skipped;
      }
      if !Due(r, c.now) || !MayDeliver(rows, i) {
        return Skipped;
      }
      if !WellFormed(r) || !c.configured {
        rows := rows[i := r.(status := Blocked, retries := r.retries + 1, nextRetry := None)];
        return Refused;
      }
      var reply := receiver.Post(Body(r.id, r.lines), w);
      if Outbox.Accepted(reply) {
        rows := rows[i := r.(status := Synced, nextRetry := None)];
        outcome := Delivered;
      } else if Temporary(reply) {
        rows := rows[i := r.(status := InventoryRetry, retries := r.retries + 1,
                             nextRetry := Some(c.now + Backoff(r.retries + 1)))];
        outcome := Deferred;
      } else {
        rows := rows[i := r.(status := Blocked, retries := r.retries + 1, nextRetry := None)];
        outcome := Refused;
      }
    }

    /** Syncs one selected row and counts what happened to it. */
    method SyncAndCount(i: nat, c: Config, w: Weather, t: Tally) returns (r: Tally)
      requires i < |rows|
      modifies this`rows, receiver
      ensures Snapshot() == SyncRow(old(Snapshot()), i, c, w) && |rows| == |old(rows)|
      ensures forall j :: 0 <= j < |rows| && j != i ==> rows[j] == old(rows)[j]
      ensures Queued(old(rows)[i].status) ==> r == Counted(t, AttemptOf(old(rows)[i], rows[i]))
    {
      var outcome := SyncOne(i, c, w);
      match outcome {
        case Skipped => r := t.(skipped := t.skipped + 1);
        case Delivered => r := t.(synced := t.synced + 1);
        case Deferred => r := t.(retried := t.retried + 1);
        case Refused => r := t.(blocked := t.blocked + 1);
      }
    }

    /** Runs one batch; the counters say how many of its rows were synced, retried, blocked and skipped. */
    method RunInventoryOutboxSync(limit: int, only: Option<nat>, c: Config, sky: nat -> Weather)
      returns (processed: nat, tally: Tally)
      modifies this`rows, receiver
      ensures Snapshot() == SyncRun(old(Snapshot()), limit, only, c, sky)
      ensures tally == TallyOf(old(rows), rows, Batch(old(rows), limit, only, c))
      ensures processed == tally.synced + tally.retried + tally.blocked
      ensures processed + tally.skipped == |Batch(old(rows), limit, only, c)|
    {
      tally := Tally(0, 0, 0, 0);
      var ids := SelectBatch(limit, only, c);
      QueuedIfSelected(rows, limit, only, c);
      ghost var start := Snapshot();
      forall k | 0 <= k < |ids| ensures ids[k] < |start.rows| {
        assert ids[k] in ids;
      }
      for k := 0 to |ids|
        invariant Snapshot() == SyncRows(start, ids[..k], c, sky)
        invariant DoneSoFar(start.rows, rows, ids[..k])
        invariant tally == TallyOf(start.rows, rows, ids[..k])
      {
        assert ids[..k + 1][..k] == ids[..k];
        assert ids[k] in ids && ids[k] !in ids[..k];
        ghost var before := rows;
        tally := SyncAndCount(ids[k], c, sky(ids[k]), tally);
        OneMoreAttempt(start.rows, before, rows, ids, k);
      }
      assert ids[..|ids|] == ids;
      EveryRowCounts(start.rows, rows, ids);
      processed := tally.synced + tally.retried + tally.blocked;
    }

    /** An operator's retry: requeue the row, then run the worker on it alone. */
    method RetryOutboxEvent(i: nat, c: Config, sky: nat -> Weather) returns (ok: bool)
      modifies this`rows, receiver
      ensures ok <==> After(old(Snapshot()), Requeue(i)).Ok?
      ensures Snapshot() == if ok then SyncRun(After(old(Snapshot()), Requeue(i)).value, 1, Some(i), c, sky)
          else old(Snapshot())
    {
      if i >= |rows| || rows[i].status == Synced {
        return false;
      }
      rows := rows[i := rows[i].(status := InventoryPending, nextRetry := None)];
      var processed, tally := RunInventoryOutboxSync(1, Some(i), c, sky);
      ok := true;
    }

    method UnblockOutboxEvent(i: nat, now: int) returns (ok: bool)
      modifies this`rows
      ensures ok <==> After(old(Snapshot()), Unblock(i, now)).Ok?
      ensures Snapshot() == Next(old(Snapshot()), Unblock(i, now))
    {
      if i >= |rows| || rows[i].status !in {Blocked, Failed, InventoryRetry} {
        return false;
      }
      rows := rows[i := rows[i].(status := InventoryPending, nextRetry := Some(now))];
      ok := true;
    }

    method ArchiveOutboxEvent(i: nat) returns (ok: bool)
      modifies this`rows
      ensures ok <==> After(old(Snapshot()), Archive(i)).Ok?
      ensures Snapshot() == Next(old(Snapshot()), Archive(i))
    {
      if i >= |rows| || rows[i].status == Synced {
        return false;
      }
      rows := rows[i := rows[i].(status := Archived)];
      ok := true;
    }

    method ResolveOutboxEvent(i: nat) returns (ok: bool)
      modifies this`rows
      ensures ok <==> After(old(Snapshot()), Resolve(i)).Ok?
      ensures Snapshot() == Next(old(Snapshot()), Resolve(i))
    {
      if i >= |rows| || rows[i].status !in {Blocked, Failed, InventoryRetry} {
        return false;
      }
      rows := rows[i := rows[i].(status := Resolved)];
      ok := true;
    }
  }
}
