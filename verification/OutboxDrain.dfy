/** Runs of the sync worker: each is a trace of the delivery protocol, and together they drain the queue. */
module OutboxDrain {
  import opened Money
  import opened Outbox
  import opened OutboxLaws

  // ----- a run of the worker is a trace of the protocol

  lemma {:induction false} RunConcat(s: State, a: seq<Step>, b: seq<Step>)
    ensures Run(s, a + b) == Run(Run(s, a), b)
  {
    if b == [] {
      assert a + b == a;
    } else {
      RunConcat(s, a, b[..|b| - 1]);
      assert (a + b)[..|a + b| - 1] == a + b[..|b| - 1];
    }
  }

  lemma RunOne(s: State, c: Step)
    ensures Run(s, [c]) == Next(s, c)
  {
    assert [c][..0] == [];
  }

  lemma RunThree(s: State, a: Step, b: Step, d: Step)
    ensures Run(s, [a, b, d]) == Next(Next(Next(s, a), b), d)
  {
    RunOne(s, a);
    assert [a, b][..1] == [a];
    assert Run(s, [a, b]) == Next(Run(s, [a]), b);
    assert [a, b, d][..2] == [a, b];
  }

  predicate Sendable(s: State, i: nat, c: Config, worker: nat) {
    && worker !in s.flights && i < |s.rows| && c.enabled && c.configured
    && Due(s.rows[i], c.now) && MayDeliver(s.rows, i) && WellFormed(s.rows[i])
  }

  lemma Begins(s: State, i: nat, c: Config, worker: nat)
    requires Sendable(s, i, c, worker)
    ensures Next(s, Begin(worker, i)) == s.(flights := s.flights[worker := Sent(i)])
  {
  }

  lemma Delivers(s: State, i: nat, w: Weather, worker: nat)
    requires worker in s.flights && s.flights[worker] == Sent(i) && i < |s.rows|
    ensures var p := Posted(s.receiver, BodyOf(s.rows[i]), w);
            Next(s, Deliver(worker, w)) == s.(receiver := p.0, flights := s.flights[worker := Answered(i, p.1)])
  {
  }

  lemma Finishes(s: State, i: nat, reply: Reply, now: int, worker: nat)
    requires worker in s.flights && s.flights[worker] == Answered(i, reply) && i < |s.rows|
    ensures Next(s, Finish(worker, now))
        == WithRow(s, i, Settle(s.rows[i], reply, now)).(flights := s.flights - {worker})
  {
  }

  /** Delivering a row takes three protocol steps: check and send, receive, record. */
  lemma DeliveryTrace(s: State, i: nat, c: Config, w: Weather, worker: nat)
    requires Sendable(s, i, c, worker)
    ensures Run(s, [Begin(worker, i), Deliver(worker, w), Finish(worker, c.now)]) == SyncRow(s, i, c, w)
  {
    RunThree(s, Begin(worker, i), Deliver(worker, w), Finish(worker, c.now));
    Begins(s, i, c, worker);
    var p := Posted(s.receiver, BodyOf(s.rows[i]), w);
    var sent := s.(flights := s.flights[worker := Sent(i)]);
    Delivers(sent, i, w, worker);
    var answered := s.(receiver := p.0, flights := s.flights[worker := Answered(i, p.1)]);
    assert sent.flights[worker := Answered(i, p.1)] == answered.flights;
    Finishes(answered, i, p.1, c.now, worker);
    assert answered.flights - {worker} == s.flights;
  }

  lemma SyncRowTrace(s: State, i: nat, c: Config, w: Weather, worker: nat) returns (tr: seq<Step>)
    requires worker !in s.flights
    ensures Run(s, tr) == SyncRow(s, i, c, w)
    ensures SyncRow(s, i, c, w).flights == s.flights
  {
    tr := [];
    if i < |s.rows| {
      var r := s.rows[i];
      if !c.enabled {
        if r.status != Suppressed {
          RunOne(s, Suppress(i));
          return [Suppress(i)];
        }
      } else if Due(r, c.now) && MayDeliver(s.rows, i) {
        if !WellFormed(r) || !c.configured {
          RunOne(s, Block(i));
          return [Block(i)];
        }
        DeliveryTrace(s, i, c, w, worker);
        return [Begin(worker, i), Deliver(worker, w), Finish(worker, c.now)];
      }
    }
  }

  lemma {:induction false} SyncRowsTrace(s: State, ids: seq<nat>, c: Config, sky: nat -> Weather, worker: nat)
    returns (tr: seq<Step>)
    requires worker !in s.flights
    ensures Run(s, tr) == SyncRows(s, ids, c, sky)
    ensures SyncRows(s, ids, c, sky).flights == s.flights
  {
    if ids == [] {
      tr := [];
    } else {
      var earlier := SyncRowsTrace(s, ids[..|ids| - 1], c, sky, worker);
      var i := ids[|ids| - 1];
      var last := SyncRowTrace(SyncRows(s, ids[..|ids| - 1], c, sky), i, c, sky(i), worker);
      RunConcat(s, earlier, last);
      tr := earlier + last;
    }
  }

  /** Every run of the worker, whatever the network does, is a trace of the protocol, so everything
      proved of traces holds of it. */
  lemma SyncRunIsATrace(s: State, limit: int, only: Option<nat>, c: Config, sky: nat -> Weather, worker: nat)
    requires worker !in s.flights
    ensures exists tr :: Run(s, tr) == SyncRun(s, limit, only, c, sky)
  {
    var tr := SyncRowsTrace(s, Batch(s.rows, limit, only, c), c, sky, worker);
  }

  /** So the worker never leaves the reachable states, where stock is exactly-once. */
  lemma SyncRunStaysReachable(s: State, limit: int, only: Option<nat>, c: Config, sky: nat -> Weather, worker: nat)
    requires Reachable(s) && worker !in s.flights
    ensures Reachable(SyncRun(s, limit, only, c, sky))
  {
    var cs :| s == Run(EMPTY, cs);
    var tr := SyncRowsTrace(s, Batch(s.rows, limit, only, c), c, sky, worker);
    RunConcat(EMPTY, cs, tr);
  }

  // ----- the queue

  /** Nothing but the status of queued rows stands between the queue and the receiver. */
  predicate Deliverable(s: State, c: Config) {
    && c.enabled && c.configured
    && forall i :: 0 <= i < |s.rows| && Queued(s.rows[i].status) ==> WellFormed(s.rows[i]) && Due(s.rows[i], c.now)
  }

  predicate Dead(r: Row) { !Queued(r.status) && r.status != Synced }

  /** A queued reversal whose sale is blocked, archived or resolved. */
  predicate Stuck(rows: seq<Row>, i: nat) {
    && i < |rows| && Queued(rows[i].status) && rows[i].id.kind == Reversal
    && var k := FindRow(rows, EventId(rows[i].id.order, Sale)); k.Some? && k.value < i && Dead(rows[k.value])
  }

  predicate Live(rows: seq<Row>, i: nat) { i < |rows| && Queued(rows[i].status) && !Stuck(rows, i) }

  /** What the queue holds for one row: nothing, a place it cannot leave, or a place it can. */
  datatype Place = Idle | Gone | Jammed | Ready

  function PlaceOf(rows: seq<Row>, i: nat): Place
    requires i < |rows|
  {
    if rows[i].status == Synced then Gone else if !Queued(rows[i].status) then Idle
    else if Stuck(rows, i) then Jammed else Ready
  }

  function Places(rows: seq<Row>): (ps: seq<Place>)
    ensures |ps| == |rows|
  {
    seq(|rows|, i requires 0 <= i < |rows| => PlaceOf(rows, i))
  }

  /** How many of the first n rows are in this place. */
  function Count(ps: seq<Place>, n: nat, p: Place): nat
    requires n <= |ps|
  {
    if n == 0 then 0 else Count(ps, n - 1, p) + if ps[n - 1] == p then 1 else 0
  }

  function Ahead(ps: seq<Place>, n: nat): nat
    requires n <= |ps|
  {
    Count(ps, n, Jammed) + Count(ps, n, Ready)
  }

  /** A run against a healthy receiver, as the queue sees it: the ready rows of the batch leave. */
  function Served(ps: seq<Place>, size: nat): (r: seq<Place>)
    ensures |r| == |ps|
  {
    seq(|ps|, i requires 0 <= i < |ps| => if ps[i] == Ready && Ahead(ps, i) < size then Gone else ps[i])
  }

  function ServedTimes(ps: seq<Place>, k: nat, size: nat): (r: seq<Place>)
    ensures |r| == |ps|
  {
    if k == 0 then ps else Served(ServedTimes(ps, k - 1, size), size)
  }

  function Sunny(i: nat): Weather { Healthy }

  // ----- the queue alone

  function Excess(a: int, b: int): nat { if a > b then a - b else 0 }

  /** Serving takes as many ready rows off the head as the jammed ones before them leave room for. */
  lemma {:induction false} CountsServed(ps: seq<Place>, size: nat, n: nat)
    requires n <= |ps|
    ensures Count(Served(ps, size), n, Jammed) == Count(ps, n, Jammed)
    ensures Count(Served(ps, size), n, Ready) <= Excess(Ahead(ps, n), size)
  {
    if n > 0 {
      CountsServed(ps, size, n - 1);
    }
  }

  lemma OneTimeMore(k: nat, room: nat)
    ensures (k + 1) * room == k * room + room
  {
  }

  /** With `room` places of each batch free of jammed rows before it, a ready row advances by `room` ready
      rows with each run, until it is served. */
  lemma {:induction false} Advances(ps: seq<Place>, k: nat, size: nat, room: nat, i: nat)
    requires i < |ps| && ps[i] == Ready && Count(ps, i, Jammed) + room == size
    ensures var r := ServedTimes(ps, k, size);
            || r[i] == Gone
            || (r[i] == Ready && Count(r, i, Jammed) + room == size
                && Count(r, i, Ready) + k * room <= Count(ps, i, Ready))
  {
    if k > 0 {
      Advances(ps, k - 1, size, room, i);
      CountsServed(ServedTimes(ps, k - 1, size), size, i);
      OneTimeMore(k - 1, room);
    }
  }

  /** A row that is jammed, or behind a batch full of jammed rows, never moves. */
  lemma {:induction false} NeverServed(ps: seq<Place>, k: nat, size: nat, i: nat)
    requires i < |ps| && (ps[i] == Jammed || (ps[i] == Ready && Count(ps, i, Jammed) >= size))
    ensures var r := ServedTimes(ps, k, size); r[i] == ps[i] && Count(r, i, Jammed) == Count(ps, i, Jammed)
  {
    if k > 0 {
      NeverServed(ps, k - 1, size, i);
      CountsServed(ServedTimes(ps, k - 1, size), size, i);
    }
  }

  // ----- the batch

  lemma {:induction false} PrefixFind(rows: seq<Row>, i: nat, id: EventId)
    requires i <= |rows| && FindRow(rows, id).Some? && FindRow(rows, id).value < i
    ensures FindRow(rows[..i], id) == FindRow(rows, id)
    decreases |rows|
  {
    if i < |rows| {
      assert rows[..|rows| - 1][..i] == rows[..i];
      PrefixFind(rows[..|rows| - 1], i, id);
    } else {
      assert rows[..i] == rows;
    }
  }

  lemma PlaceInQueue(rows: seq<Row>, q: seq<nat>, m: nat, c: Config, n: nat)
    requires q == Queue(rows, None, c) && m <= |q| && n < |rows|
    ensures n in q[..m] <==> Selectable(rows[n], n, None, c) && |Queue(rows[..n], None, c)| < m
  {
    QueueLaw(rows, None, c);
    QueuePrefix(rows, n + 1, c);
    assert rows[..n + 1][..n] == rows[..n];
    var a := Queue(rows[..n], None, c);
    if Selectable(rows[n], n, None, c) {
      assert Queue(rows[..n + 1], None, c) == a + [n];
      assert q[|a|] == n;
      if |a| < m {
        assert q[..m][|a|] == n;
      }
    }
  }

  lemma {:induction false} QueuePrefix(rows: seq<Row>, n: nat, c: Config)
    requires n <= |rows|
    ensures Queue(rows[..n], None, c) <= Queue(rows, None, c)
    decreases |rows|
  {
    if n < |rows| {
      assert rows[..|rows| - 1][..n] == rows[..n];
      QueuePrefix(rows[..|rows| - 1], n, c);
    } else {
      assert rows[..n] == rows;
    }
  }

  lemma {:induction false} QueueCounts(s: State, n: nat, c: Config)
    requires Deliverable(s, c) && n <= |s.rows|
    ensures |Queue(s.rows[..n], None, c)| == Ahead(Places(s.rows), n)
  {
    if n > 0 {
      QueueCounts(s, n - 1, c);
      assert s.rows[..n][..n - 1] == s.rows[..n - 1];
    }
  }

  /** A queued row is in the batch when fewer queued rows precede it than the batch holds. */
  lemma InBatch(s: State, limit: int, c: Config, i: nat)
    requires Deliverable(s, c) && i < |s.rows|
    ensures i in Batch(s.rows, limit, None, c)
            <==> Queued(s.rows[i].status) && Ahead(Places(s.rows), i) < BatchSize(limit)
  {
    var q := Queue(s.rows, None, c);
    QueueLaw(s.rows, None, c);
    QueueCounts(s, i, c);
    assert q[..|q|] == q;
    PlaceInQueue(s.rows, q, |q|, c, i);
    if |q| > BatchSize(limit) {
      PlaceInQueue(s.rows, q, BatchSize(limit), c, i);
    }
  }

  // ----- one run under a healthy receiver, row by row

  /** Exactly the live rows of the batch are synced; everything else is as it was. */
  predicate Delivered(s: State, t: State, done: seq<nat>) {
    && |t.rows| == |s.rows|
    && forall k :: 0 <= k < |s.rows| ==>
         t.rows[k] == if k in done && !Stuck(s.rows, k) then s.rows[k].(status := Synced, nextRetry := None)
             else s.rows[k]
  }

  lemma SyncRowKeeps(s: State, i: nat, c: Config, w: Weather)
    requires Inv(s)
    ensures Inv(SyncRow(s, i, c, w))
  {
    if i < |s.rows| {
      var r := s.rows[i];
      if !c.enabled {
        RowChangeKeeps(s, i, SuppressedRow(r));
      } else if Due(r, c.now) && MayDeliver(s.rows, i) {
        if !WellFormed(r) || !c.configured {
          RowChangeKeeps(s, i, BlockedRow(r));
        } else {
          SaleIsAccepted(s, i);
          ReceiveKeeps(s, i, w);
          var p := Posted(s.receiver, BodyOf(r), w);
          var u := s.(receiver := p.0);
          forall v | v in u.flights ensures FlightOk(u, u.flights[v]) {
            FlightGrows(s, u, s.flights[v]);
          }
          assert Inv(u);
          RowChangeKeeps(u, i, Settle(r, p.1, c.now));
        }
      }
    }
  }

  lemma NextInQueue(s: State, t: State, q: seq<nat>, m: nat, c: Config)
    requires Deliverable(s, c) && q == Queue(s.rows, None, c) && m < |q| && Delivered(s, t, q[..m])
    ensures q[m] < |s.rows| && q[m] !in q[..m] && q[..m] + [q[m]] == q[..m + 1]
    ensures Queued(s.rows[q[m]].status) && t.rows[q[m]] == s.rows[q[m]] && SameEvents(s.rows, t.rows)
    ensures forall k: nat :: k < q[m] ==> if Live(s.rows, k) then t.rows[k].status == Synced else t.rows[k] == s.rows[k]
  {
    QueueLaw(s.rows, None, c);
    assert q[m] in q;
    forall k: nat | k < q[m] && !Queued(s.rows[k].status) ensures k !in q[..m] {
      assert k !in q;
    }
    forall k: nat | k < q[m] && Live(s.rows, k) ensures t.rows[k].status == Synced {
      assert k in q;
      var a :| 0 <= a < |q| && q[a] == k;
      assert a < m;
      assert q[..m][a] == k;
    }
  }

  /** When its turn comes, a queued row may be delivered unless it is stuck: a live reversal's sale came
      earlier in the queue, or was synced before. */
  lemma NextMayDeliver(s: State, t: State, q: seq<nat>, m: nat, c: Config)
    requires RowsOk(s.rows) && Deliverable(s, c)
    requires q == Queue(s.rows, None, c) && m < |q| && Delivered(s, t, q[..m])
    ensures q[m] < |t.rows| && (MayDeliver(t.rows, q[m]) <==> !Stuck(s.rows, q[m]))
  {
    NextInQueue(s, t, q, m, c);
    var i := q[m];
    if s.rows[i].id.kind == Reversal {
      assert Undoes(s.rows, i);
      var sale := EventId(s.rows[i].id.order, Sale);
      var k := FindRow(s.rows, sale).value;
      SameFind(s.rows, t.rows, sale);
      PrefixFind(t.rows, i, sale);
      assert t.rows[..i][k] == t.rows[k];
      assert !Stuck(s.rows, k);
    }
  }

  lemma HealthySyncs(t: State, i: nat, c: Config)
    requires Inv(t) && c.enabled && c.configured && i < |t.rows|
    requires MayDeliver(t.rows, i) && WellFormed(t.rows[i]) && Due(t.rows[i], c.now)
    ensures SyncRow(t, i, c, Healthy).rows == t.rows[i := t.rows[i].(status := Synced, nextRetry := None)]
  {
    SaleIsAccepted(t, i);
    ReceiveKeeps(t, i, Healthy);
  }

  lemma DeliveredOneMore(s: State, t: State, u: State, done: seq<nat>, i: nat)
    requires Delivered(s, t, done) && i < |t.rows| && i !in done
    requires u.rows == if Stuck(s.rows, i) then t.rows else t.rows[i := t.rows[i].(status := Synced, nextRetry := None)]
    ensures Delivered(s, u, done + [i])
  {
  }

  lemma OneDelivery(s: State, t: State, q: seq<nat>, m: nat, c: Config)
    requires RowsOk(s.rows) && Deliverable(s, c)
    requires q == Queue(s.rows, None, c) && m < |q| && Delivered(s, t, q[..m])
    ensures Inv(t) ==> var u := SyncRow(t, q[m], c, Healthy); Inv(u) && Delivered(s, u, q[..m + 1])
  {
    if !Inv(t) {
      return;
    }
    NextInQueue(s, t, q, m, c);
    NextMayDeliver(s, t, q, m, c);
    SyncRowKeeps(t, q[m], c, Healthy);
    if !Stuck(s.rows, q[m]) {
      HealthySyncs(t, q[m], c);
    }
    DeliveredOneMore(s, t, SyncRow(t, q[m], c, Healthy), q[..m], q[m]);
  }

  lemma {:induction false} BatchSyncs(s: State, m: nat, c: Config)
    requires Inv(s) && Deliverable(s, c) && m <= |Queue(s.rows, None, c)|
    ensures var q := Queue(s.rows, None, c); var t := SyncRows(s, q[..m], c, Sunny);
            Inv(t) && Delivered(s, t, q[..m])
  {
    var q := Queue(s.rows, None, c);
    if m > 0 {
      BatchSyncs(s, m - 1, c);
      assert q[..m][..m - 1] == q[..m - 1];
      OneDelivery(s, SyncRows(s, q[..m - 1], c, Sunny), q, m - 1, c);
    }
  }

  lemma BatchIsDelivered(s: State, limit: int, c: Config)
    requires Inv(s) && Deliverable(s, c)
    ensures var t := SyncRun(s, limit, None, c, Sunny); Inv(t) && Delivered(s, t, Batch(s.rows, limit, None, c))
  {
    var q := Queue(s.rows, None, c);
    assert q[..|q|] == q;
    BatchSyncs(s, if |q| <= BatchSize(limit) then |q| else BatchSize(limit), c);
  }

  lemma StuckUnchanged(s: State, t: State, done: seq<nat>, i: nat)
    requires Delivered(s, t, done) && i < |s.rows|
    requires forall k <- done :: k < |s.rows| && Queued(s.rows[k].status)
    ensures PlaceOf(t.rows, i) == if i in done && PlaceOf(s.rows, i) == Ready then Gone else PlaceOf(s.rows, i)
  {
    assert SameEvents(s.rows, t.rows);
    SameFind(s.rows, t.rows, EventId(s.rows[i].id.order, Sale));
  }

  /** A run of the worker serves the queue: exactly the ready rows of its batch are synced, and every row
      that is not in the batch, or is stuck, is as it was. */
  lemma SunnyRun(s: State, limit: int, c: Config)
    requires Inv(s) && Deliverable(s, c)
    ensures var t := SyncRun(s, limit, None, c, Sunny);
            && Inv(t) && Deliverable(t, c) && Delivered(s, t, Batch(s.rows, limit, None, c))
            && Places(t.rows) == Served(Places(s.rows), BatchSize(limit))
  {
    var t := SyncRun(s, limit, None, c, Sunny);
    BatchIsDelivered(s, limit, c);
    QueuedIfSelected(s.rows, limit, None, c);
    forall i: nat | i < |s.rows| ensures Places(t.rows)[i] == Served(Places(s.rows), BatchSize(limit))[i] {
      StuckUnchanged(s, t, Batch(s.rows, limit, None, c), i);
      InBatch(s, limit, c, i);
    }
  }

  // ----- many runs under a healthy receiver

  function Iterate<T>(f: T -> T, k: nat, x: T): T { if k == 0 then x else f(Iterate(f, k - 1, x)) }

  lemma {:induction false} IterateKeeps<T(!new)>(f: T -> T, good: T -> bool, k: nat, x: T)
    requires good(x) && forall u :: good(u) ==> good(f(u))
    ensures good(Iterate(f, k, x))
  {
    if k > 0 {
      IterateKeeps(f, good, k - 1, x);
    }
  }

  /** If every step serves the queue as seen through a view, k steps serve it k times. */
  lemma {:induction false} IterateServes<T(!new)>(
    f: T -> T, good: T -> bool, view: T -> seq<Place>, size: nat, k: nat, x: T)
    requires good(x) && forall u :: good(u) ==> good(f(u)) && view(f(u)) == Served(view(u), size)
    ensures good(Iterate(f, k, x)) && view(Iterate(f, k, x)) == ServedTimes(view(x), k, size)
  {
    if k > 0 {
      IterateServes(f, good, view, size, k - 1, x);
    }
  }

  function OneRun(limit: int, c: Config): State -> State { (s: State) => SyncRun(s, limit, None, c, Sunny) }

  /** The state after k runs with one limit, one setting and a healthy receiver. */
  function Runs(s: State, k: nat, limit: int, c: Config): State { Iterate(OneRun(limit, c), k, s) }

  /** Any number of runs serves the queue that many times. */
  lemma RunsServe(s: State, k: nat, limit: int, c: Config)
    requires Inv(s) && Deliverable(s, c)
    ensures Places(Runs(s, k, limit, c).rows) == ServedTimes(Places(s.rows), k, BatchSize(limit))
  {
    var good := (u: State) => Inv(u) && Deliverable(u, c);
    var view := (u: State) => Places(u.rows);
    var f := OneRun(limit, c);
    forall u | good(u) ensures good(f(u)) && view(f(u)) == Served(view(u), BatchSize(limit)) {
      SunnyRun(u, limit, c);
    }
    IterateServes(f, good, view, BatchSize(limit), k, s);
  }

  lemma SunnySpares(s: State, limit: int, c: Config, i: nat)
    requires Inv(s) && Deliverable(s, c) && i < |s.rows| && !Queued(s.rows[i].status)
    ensures i < |SyncRun(s, limit, None, c, Sunny).rows| && SyncRun(s, limit, None, c, Sunny).rows[i] == s.rows[i]
  {
    QueuedIfSelected(s.rows, limit, None, c);
    BatchIsDelivered(s, limit, c);
  }

  /** Only rows that were queued change. */
  lemma RunsSpare(s: State, k: nat, limit: int, c: Config, i: nat)
    requires Inv(s) && Deliverable(s, c) && i < |s.rows| && !Queued(s.rows[i].status)
    ensures i < |Runs(s, k, limit, c).rows| && Runs(s, k, limit, c).rows[i] == s.rows[i]
  {
    var row := s.rows[i];
    var good := (u: State) => Inv(u) && Deliverable(u, c) && i < |u.rows| && u.rows[i] == row;
    var f := OneRun(limit, c);
    forall u | good(u) ensures good(f(u)) {
      SunnyRun(u, limit, c);
      SunnySpares(u, limit, c, i);
    }
    IterateKeeps(f, good, k, s);
  }

  function StuckBefore(rows: seq<Row>, i: nat): nat
    requires i <= |rows|
  {
    Count(Places(rows), i, Jammed)
  }

  function LiveBefore(rows: seq<Row>, i: nat): nat
    requires i <= |rows|
  {
    Count(Places(rows), i, Ready)
  }

  ghost predicate SyncedAt(s: State, k: nat, limit: int, c: Config, i: nat) {
    var t := Runs(s, k, limit, c);
    i < |t.rows| && t.rows[i].status == Synced
  }

  lemma SyncedIsGone(s: State, k: nat, limit: int, c: Config, i: nat)
    requires Inv(s) && Deliverable(s, c) && i < |s.rows|
    ensures SyncedAt(s, k, limit, c, i) <==> ServedTimes(Places(s.rows), k, BatchSize(limit))[i] == Gone
  {
    RunsServe(s, k, limit, c);
    var t := Runs(s, k, limit, c);
    assert |Places(t.rows)| == |Places(s.rows)|;
    assert Places(t.rows)[i] == PlaceOf(t.rows, i);
  }

  /** The bound for one row: with `room` places of the batch free of stuck rows before it, a live row with n
      live rows before it is synced after any k runs with k times `room` greater than n. */
  lemma LiveRowBound(s: State, k: nat, room: nat, limit: int, c: Config, i: nat)
    requires Inv(s) && Deliverable(s, c) && Live(s.rows, i)
    requires StuckBefore(s.rows, i) + room == BatchSize(limit) && k * room > LiveBefore(s.rows, i)
    ensures SyncedAt(s, k, limit, c, i)
  {
    SyncedIsGone(s, k, limit, c, i);
    assert Places(s.rows)[i] == PlaceOf(s.rows, i);
    Advances(Places(s.rows), k, BatchSize(limit), room, i);
  }

  ghost predicate EventuallySynced(s: State, limit: int, c: Config, i: nat) {
    exists k: nat :: SyncedAt(s, k, limit, c, i)
  }

  lemma EnoughRuns(live: nat, room: nat)
    requires room > 0
    ensures (live + 1) * room > live
  {
    assert (live + 1) * (room - 1) >= 0;
  }

  lemma ReachedInTime(s: State, limit: int, c: Config, i: nat)
    requires Inv(s) && Deliverable(s, c) && Live(s.rows, i) && StuckBefore(s.rows, i) < BatchSize(limit)
    ensures EventuallySynced(s, limit, c, i)
  {
    var k, room := LiveBefore(s.rows, i) + 1, BatchSize(limit) - StuckBefore(s.rows, i);
    EnoughRuns(LiveBefore(s.rows, i), room);
    LiveRowBound(s, k, room, limit, c, i);
  }

  lemma NeverReached(s: State, k: nat, limit: int, c: Config, i: nat)
    requires Inv(s) && Deliverable(s, c) && i < |s.rows| && Queued(s.rows[i].status)
    requires Stuck(s.rows, i) || StuckBefore(s.rows, i) >= BatchSize(limit)
    ensures !SyncedAt(s, k, limit, c, i)
  {
    SyncedIsGone(s, k, limit, c, i);
    assert Places(s.rows)[i] == PlaceOf(s.rows, i);
    NeverServed(Places(s.rows), k, BatchSize(limit), i);
  }

  /** Which rows the worker ever delivers to a healthy receiver, exactly: a queued row is synced by some
      number of runs if and only if it is not stuck and fewer stuck rows precede it than a batch holds. */
  lemma DeliveredExactly(s: State, limit: int, c: Config, i: nat)
    requires Inv(s) && Deliverable(s, c) && i < |s.rows| && Queued(s.rows[i].status)
    ensures EventuallySynced(s, limit, c, i)
            <==> !Stuck(s.rows, i) && StuckBefore(s.rows, i) < BatchSize(limit)
  {
    if !Stuck(s.rows, i) && StuckBefore(s.rows, i) < BatchSize(limit) {
      ReachedInTime(s, limit, c, i);
    } else {
      forall k: nat ensures !SyncedAt(s, k, limit, c, i) {
        NeverReached(s, k, limit, c, i);
      }
    }
  }

  // ----- draining the whole queue

  /** The sale of every queued reversal is itself queued or already synced. */
  predicate SalesAlive(rows: seq<Row>) {
    forall i :: 0 <= i < |rows| && Queued(rows[i].status) && rows[i].id.kind == Reversal ==>
      var k := FindRow(rows, EventId(rows[i].id.order, Sale));
      k.Some? ==> Queued(rows[k.value].status) || rows[k.value].status == Synced
  }

  lemma {:induction false} NoneStuck(rows: seq<Row>, n: nat)
    requires SalesAlive(rows) && n <= |rows|
    ensures StuckBefore(rows, n) == 0
  {
    if n > 0 {
      NoneStuck(rows, n - 1);
      assert Places(rows)[n - 1] == PlaceOf(rows, n - 1);
    }
  }

  /** Every row that was queued is synced, and every other row is untouched. */
  predicate Drained(s: State, t: State) {
    && |t.rows| == |s.rows|
    && (forall i :: 0 <= i < |s.rows| ==>
          if Queued(s.rows[i].status) then t.rows[i].status == Synced else t.rows[i] == s.rows[i])
  }

  lemma RankInQueue(s: State, c: Config, i: nat)
    requires Deliverable(s, c) && i < |s.rows| && Queued(s.rows[i].status)
    ensures LiveBefore(s.rows, i) < |Queue(s.rows, None, c)|
  {
    var q := Queue(s.rows, None, c);
    QueueLaw(s.rows, None, c);
    QueueCounts(s, i, c);
    assert q[..|q|] == q;
    PlaceInQueue(s.rows, q, |q|, c, i);
  }

  lemma RowDrains(s: State, k: nat, limit: int, c: Config, i: nat)
    requires Inv(s) && Deliverable(s, c) && SalesAlive(s.rows) && i < |s.rows| && Queued(s.rows[i].status)
    requires k * BatchSize(limit) >= |Queue(s.rows, None, c)|
    ensures SyncedAt(s, k, limit, c, i)
  {
    NoneStuck(s.rows, i);
    RankInQueue(s, c, i);
    assert !Stuck(s.rows, i);
    LiveRowBound(s, k, BatchSize(limit), limit, c, i);
  }

  /** Drain bound: n queued rows are all synced after any k runs with k times the batch size at least n,
      because the rows at the head of the queue always all sync. */
  lemma DrainBound(s: State, k: nat, limit: int, c: Config)
    requires Inv(s) && Deliverable(s, c) && SalesAlive(s.rows)
    requires k * BatchSize(limit) >= |Queue(s.rows, None, c)|
    ensures Drained(s, Runs(s, k, limit, c))
  {
    RunsServe(s, k, limit, c);
    assert |Places(Runs(s, k, limit, c).rows)| == |Places(s.rows)|;
    forall i: nat | i < |s.rows|
      ensures if Queued(s.rows[i].status) then SyncedAt(s, k, limit, c, i)
              else Runs(s, k, limit, c).rows[i] == s.rows[i]
    {
      if Queued(s.rows[i].status) { RowDrains(s, k, limit, c, i); } else { RunsSpare(s, k, limit, c, i); }
    }
  }

  lemma StuckOne(s: State) returns (i: nat)
    requires RowsOk(s.rows) && !SalesAlive(s.rows)
    ensures Stuck(s.rows, i)
  {
    i :| 0 <= i < |s.rows| && Queued(s.rows[i].status) && s.rows[i].id.kind == Reversal
         && !(var f := FindRow(s.rows, EventId(s.rows[i].id.order, Sale));
              f.Some? ==> Queued(s.rows[f.value].status) || s.rows[f.value].status == Synced);
    assert Undoes(s.rows, i);
  }

  /** With a healthy receiver and well-formed due rows, enough runs drain the queue if and only if no
      queued reversal waits for a sale that is blocked, archived or resolved. */
  lemma DrainsExactlyWhenSalesAlive(s: State, k: nat, limit: int, c: Config)
    requires Inv(s) && Deliverable(s, c) && k * BatchSize(limit) >= |Queue(s.rows, None, c)|
    ensures Drained(s, Runs(s, k, limit, c)) <==> SalesAlive(s.rows)
  {
    if SalesAlive(s.rows) {
      DrainBound(s, k, limit, c);
    } else {
      var i := StuckOne(s);
      NeverReached(s, k, limit, c, i);
    }
  }

  // ----- stuck rows on any network, under any settings

  /** One run of the worker, with its own limit, target, settings, clock and network. */
  datatype Round = Round(limit: int, only: Option<nat>, config: Config, sky: nat -> Weather)

  function AfterRounds(s: State, rounds: seq<Round>): State {
    if rounds == [] then s
    else
      var r := rounds[|rounds| - 1];
      SyncRun(AfterRounds(s, rounds[..|rounds| - 1]), r.limit, r.only, r.config, r.sky)
  }

  lemma SyncRowLocal(s: State, j: nat, c: Config, w: Weather)
    requires j < |s.rows|
    ensures var t := SyncRow(s, j, c, w);
            && SameEvents(s.rows, t.rows)
            && (forall k :: 0 <= k < |s.rows| && k != j ==> t.rows[k] == s.rows[k])
            && (forall id <- t.receiver.events :: id in s.receiver.events || id == s.rows[j].id)
  {
  }

  lemma StuckMayNotGo(rows: seq<Row>, i: nat)
    requires Stuck(rows, i)
    ensures !MayDeliver(rows, i)
  {
    var sale := EventId(rows[i].id.order, Sale);
    PrefixFind(rows, i, sale);
    assert rows[..i][FindRow(rows, sale).value] == rows[FindRow(rows, sale).value];
  }

  lemma StuckWaits(s: State, i: nat, c: Config, w: Weather)
    requires Stuck(s.rows, i)
    ensures var t := SyncRow(s, i, c, w);
            && i < |t.rows| && Queued(t.rows[i].status) && t.receiver == s.receiver && (c.enabled ==> t == s)
  {
    StuckMayNotGo(s.rows, i);
  }

  lemma StillStuck(a: seq<Row>, b: seq<Row>, i: nat)
    requires Stuck(a, i) && SameEvents(a, b) && Queued(b[i].status)
    requires var k := FindRow(a, EventId(a[i].id.order, Sale)).value; b[k] == a[k]
    ensures Stuck(b, i)
  {
    SameFind(a, b, EventId(a[i].id.order, Sale));
  }

  lemma StuckThroughRow(s: State, i: nat, j: nat, c: Config, w: Weather)
    requires RowsOk(s.rows) && Stuck(s.rows, i) && j < |s.rows| && Queued(s.rows[j].status)
    ensures var t := SyncRow(s, j, c, w);
            && Stuck(t.rows, i) && (s.rows[i].id !in s.receiver.events ==> s.rows[i].id !in t.receiver.events)
  {
    var t := SyncRow(s, j, c, w);
    SyncRowLocal(s, j, c, w);
    if i == j {
      StuckWaits(s, i, c, w);
    }
    StillStuck(s.rows, t.rows, i);
  }

  lemma {:induction false} StuckThroughRows(s: State, ids: seq<nat>, c: Config, sky: nat -> Weather, i: nat)
    requires RowsOk(s.rows) && Stuck(s.rows, i)
    requires forall j <- ids :: j < |s.rows| && Queued(s.rows[j].status)
    requires forall a, b :: 0 <= a < b < |ids| ==> ids[a] != ids[b]
    ensures var t := SyncRows(s, ids, c, sky);
            && Stuck(t.rows, i) && SameEvents(s.rows, t.rows)
            && (forall k :: 0 <= k < |s.rows| && k !in ids ==> t.rows[k] == s.rows[k])
            && (s.rows[i].id !in s.receiver.events ==> s.rows[i].id !in t.receiver.events)
  {
    if ids != [] {
      var init, last := ids[..|ids| - 1], ids[|ids| - 1];
      assert last in ids && last !in init;
      StuckThroughRows(s, init, c, sky, i);
      var t := SyncRows(s, init, c, sky);
      SameEventsOk(s.rows, t.rows);
      StuckThroughRow(t, i, last, c, sky(last));
      SyncRowLocal(t, last, c, sky(last));
    }
  }

  /** A stuck reversal is never delivered and never accepted, by any runs of the worker, whatever their
      settings, clocks and networks. */
  lemma {:induction false} StuckForever(s: State, rounds: seq<Round>, i: nat)
    requires RowsOk(s.rows) && Stuck(s.rows, i)
    ensures var t := AfterRounds(s, rounds);
            && Stuck(t.rows, i) && SameEvents(s.rows, t.rows)
            && (s.rows[i].id !in s.receiver.events ==> s.rows[i].id !in t.receiver.events)
  {
    if rounds != [] {
      var r := rounds[|rounds| - 1];
      StuckForever(s, rounds[..|rounds| - 1], i);
      var t := AfterRounds(s, rounds[..|rounds| - 1]);
      SameEventsOk(s.rows, t.rows);
      QueuedIfSelected(t.rows, r.limit, r.only, r.config);
      StuckThroughRows(t, Batch(t.rows, r.limit, r.only, r.config), r.config, r.sky, i);
    }
  }

  // ----- starvation

  lemma {:induction false} AllSkipped(s: State, ids: seq<nat>, c: Config, sky: nat -> Weather)
    requires c.enabled && forall i <- ids :: Stuck(s.rows, i)
    ensures SyncRows(s, ids, c, sky) == s
  {
    if ids != [] {
      assert ids[|ids| - 1] in ids;
      AllSkipped(s, ids[..|ids| - 1], c, sky);
      StuckWaits(s, ids[|ids| - 1], c, sky(ids[|ids| - 1]));
    }
  }

  /** As coded: reversals that wait still take their places in the batch. When the whole batch is stuck,
      whatever the limit, no number of runs changes anything, and no row behind it is ever delivered. */
  lemma WaitingReversalsStarve(s: State, k: nat, limit: int, c: Config)
    requires c.enabled && forall i <- Batch(s.rows, limit, None, c) :: Stuck(s.rows, i)
    ensures Runs(s, k, limit, c) == s
  {
    var good := (u: State) => u == s;
    AllSkipped(s, Batch(s.rows, limit, None, c), c, Sunny);
    IterateKeeps(OneRun(limit, c), good, k, s);
  }

  // ----- and it happens, for every batch size

  const ONE_PIECE: seq<OrderLine> := [OrderLine(Some(0), 1)]

  function PieceRow(order: nat, kind: EventKind, status: RowStatus): Row {
    Row(EventId(order, kind), [StockLine(0, 1)], 0, status, 0, None)
  }

  function JamRows(n: nat): (rows: seq<Row>)
    ensures |rows| == 2 * n
  {
    if n == 0 then []
    else JamRows(n - 1) + [PieceRow(n - 1, Sale, Archived), PieceRow(n - 1, Reversal, InventoryPending)]
  }

  function JamStages(n: nat): (stages: map<nat, Stage>)
    ensures forall o: nat :: o in stages <==> o < n
  {
    if n == 0 then map[] else JamStages(n - 1)[n - 1 := Cancelled]
  }

  function JamState(n: nat): State {
    State(JamStages(n), JamRows(n), Receiver(map[], map[]), map[])
  }

  lemma FindInTwoMore(rows: seq<Row>, a: Row, b: Row, id: EventId)
    ensures FindRow(rows + [a, b], id)
            == if FindRow(rows, id).Some? then FindRow(rows, id)
               else if a.id == id then Some(|rows|) else if b.id == id then Some(|rows| + 1) else None
  {
    assert rows + [a, b] == rows + [a] + [b];
    AppendedFind(rows, a, id);
    AppendedFind(rows + [a], b, id);
  }

  lemma JamGrows(n: nat)
    ensures JamRows(n + 1) == JamRows(n) + [PieceRow(n, Sale, Archived), PieceRow(n, Reversal, InventoryPending)]
  {
  }

  predicate FoundInJam(n: nat, order: nat) {
    && FindRow(JamRows(n), EventId(order, Sale)) == (if order < n then Some(2 * order) else None)
    && FindRow(JamRows(n), EventId(order, Reversal)) == (if order < n then Some(2 * order + 1) else None)
  }

  lemma FindInNextJam(n: nat, order: nat)
    requires FoundInJam(n, order)
    ensures FoundInJam(n + 1, order)
  {
    JamGrows(n);
    var a, b := PieceRow(n, Sale, Archived), PieceRow(n, Reversal, InventoryPending);
    FindInTwoMore(JamRows(n), a, b, EventId(order, Sale));
    FindInTwoMore(JamRows(n), a, b, EventId(order, Reversal));
  }

  lemma {:induction false} FindInJam(n: nat, order: nat)
    ensures FoundInJam(n, order)
  {
    if n > 0 {
      FindInJam(n - 1, order);
      FindInNextJam(n - 1, order);
    }
  }

  lemma OnePieceMapped()
    ensures QuantitiesValid(ONE_PIECE) && Mapped(ONE_PIECE) == [StockLine(0, 1)] && Unmapped(ONE_PIECE) == 0
  {
    assert ONE_PIECE[..0] == [];
  }

  /** The jam with a ready sale behind it. */
  function JamThenSale(n: nat): State {
    JamState(n).(stages := JamStages(n)[n := Settled], rows := JamRows(n) + [PieceRow(n, Sale, InventoryPending)])
  }

  lemma JamSale(n: nat)
    ensures Next(JamState(n), SettleOrder(n, ONE_PIECE)) == JamThenSale(n)
  {
    OnePieceMapped();
    FindInJam(n, n);
  }

  lemma ArchiveLast(s: State, rows: seq<Row>, r: Row)
    requires s.rows == rows + [r] && r.status != Synced
    ensures Next(s, Archive(|rows|)) == s.(rows := rows + [r.(status := Archived)])
  {
    assert (rows + [r])[|rows| := r.(status := Archived)] == rows + [r.(status := Archived)];
  }

  /** The jam with one more order whose sale is archived. */
  function JamAndArchived(n: nat): State {
    JamState(n).(stages := JamState(n).stages[n := Settled], rows := JamRows(n) + [PieceRow(n, Sale, Archived)])
  }

  lemma JamCancel(n: nat)
    ensures Next(JamAndArchived(n), CancelOrder(n, ONE_PIECE)) == JamState(n + 1)
  {
    OnePieceMapped();
    FindInJam(n, n);
    var sold: map<nat, Stage>, rows := JamStages(n)[n := Settled], JamRows(n) + [PieceRow(n, Sale, Archived)];
    AppendedFind(JamRows(n), PieceRow(n, Sale, Archived), EventId(n, Sale));
    AppendedFind(JamRows(n), PieceRow(n, Sale, Archived), EventId(n, Reversal));
    assert NewRow(rows, EventId(n, Reversal), ONE_PIECE) == PieceRow(n, Reversal, InventoryPending);
    assert JamRows(n + 1) == rows + [PieceRow(n, Reversal, InventoryPending)];
    assert sold[n := Cancelled] == JamStages(n + 1);
  }

  lemma ReachableNext(s: State, c: Step, t: State)
    requires Reachable(s) && Next(s, c) == t
    ensures Reachable(t)
  {
    var cs :| s == Run(EMPTY, cs);
    RunConcat(EMPTY, cs, [c]);
    RunOne(s, c);
  }

  lemma OneMoreJam(n: nat)
    requires Reachable(JamState(n))
    ensures Reachable(JamThenSale(n)) && Reachable(JamState(n + 1))
  {
    JamSale(n);
    ReachableNext(JamState(n), SettleOrder(n, ONE_PIECE), JamThenSale(n));
    ArchiveLast(JamThenSale(n), JamRows(n), PieceRow(n, Sale, InventoryPending));
    ReachableNext(JamThenSale(n), Archive(2 * n), JamAndArchived(n));
    JamCancel(n);
    ReachableNext(JamAndArchived(n), CancelOrder(n, ONE_PIECE), JamState(n + 1));
  }

  lemma EmptyIsReachable()
    ensures Reachable(JamState(0))
  {
    assert Run(EMPTY, []) == EMPTY == JamState(0);
  }

  /** Orders 0 to n-1 are each sold, have their sale archived by an operator, and are cancelled. */
  lemma {:induction false} JamIsReachable(n: nat)
    ensures Reachable(JamState(n))
  {
    if n == 0 {
      EmptyIsReachable();
    } else {
      JamIsReachable(n - 1);
      OneMoreJam(n - 1);
    }
  }

  lemma {:induction false} JamRow(n: nat, i: nat)
    requires i < n
    ensures JamRows(n)[2 * i] == PieceRow(i, Sale, Archived)
        && JamRows(n)[2 * i + 1] == PieceRow(i, Reversal, InventoryPending)
  {
    if i < n - 1 {
      JamRow(n - 1, i);
    }
  }

  lemma JamPlace(n: nat, i: nat)
    requires i <= 2 * n
    ensures var rows := JamRows(n) + [PieceRow(n, Sale, InventoryPending)];
            && WellFormed(rows[i]) && rows[i].nextRetry == None
            && PlaceOf(rows, i) == if i == 2 * n then Ready else if i % 2 == 1 then Jammed else Idle
  {
    if i < 2 * n {
      JamRow(n, i / 2);
      assert i == 2 * (i / 2) || i == 2 * (i / 2) + 1;
      FindInJam(n, i / 2);
      AppendedFind(JamRows(n), PieceRow(n, Sale, InventoryPending), EventId(i / 2, Sale));
    }
  }

  lemma {:induction false} JamCount(n: nat, i: nat)
    requires i <= n
    ensures StuckBefore(JamRows(n) + [PieceRow(n, Sale, InventoryPending)], 2 * i) == i
  {
    if i > 0 {
      JamCount(n, i - 1);
      JamPlace(n, 2 * i - 2);
      JamPlace(n, 2 * i - 1);
      var ps := Places(JamRows(n) + [PieceRow(n, Sale, InventoryPending)]);
      assert ps[2 * i - 2] == Idle && ps[2 * i - 1] == Jammed;
      assert Count(ps, 2 * i - 1, Jammed) == Count(ps, 2 * i - 2, Jammed);
    }
  }

  /** For every limit there is a state that a run from an empty database leads to, in which a well-formed, due
      sale at the end of the queue is never delivered, however often the worker runs against a healthy
      receiver. */
  lemma StarvationIsReachable(limit: int, c: Config)
    requires c.enabled && c.configured
    ensures var n := BatchSize(limit); var s := JamThenSale(n);
            && |s.rows| == 2 * n + 1 && Reachable(s) && Deliverable(s, c)
            && s.rows[2 * n] == PieceRow(n, Sale, InventoryPending)
            && !EventuallySynced(s, limit, c, 2 * n)
  {
    var n := BatchSize(limit);
    var s := JamThenSale(n);
    JamIsReachable(n);
    OneMoreJam(n);
    ReachableOk(s);
    forall i: nat | i < |s.rows| ensures WellFormed(s.rows[i]) && Due(s.rows[i], c.now) {
      JamPlace(n, i);
    }
    JamCount(n, n);
    DeliveredExactly(s, limit, c, 2 * n);
  }
}
