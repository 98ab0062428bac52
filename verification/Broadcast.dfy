/** The kitchen-display broadcaster: bounded queues and, for each channel, the queues that listen to it.
    No method suspends while it holds the lock, so each runs as one step. A set of listeners is kept as a
    sequence without repetitions, in some order. */
module Broadcast {

  type Channel = string

  const ALL: Channel := "*"
  const QUEUE_SIZE := 100

  /** A subscriber's queue: everything ever put into it, and how much has been taken out. */
  datatype Queue<Msg> = Queue(received: seq<Msg>, taken: nat)

  predicate Full<Msg>(q: Queue<Msg>) { |q.received| >= q.taken + QUEUE_SIZE }

  type Listeners = map<Channel, seq<nat>>

  /** The broadcaster with its history: what was published on each channel, and the channel and position
      at which each queue came in. */
  datatype State<Msg> = State(
    listeners: Listeners,
    queues: seq<Queue<Msg>>,
    published: map<Channel, seq<Msg>>,
    homes: seq<Channel>,
    starts: seq<nat>)

  predicate Listening(ls: Listeners, c: Channel, q: nat) { c in ls && q in ls[c] }

  function Log<Msg>(s: State<Msg>, c: Channel): seq<Msg> { if c in s.published then s.published[c] else [] }

  // ----- what each operation does

  predicate NoRepeats(a: seq<nat>) { forall i, j :: 0 <= i < j < |a| ==> a[i] != a[j] }

  /** A set of queues numbered below `size`. */
  predicate IsSet(a: seq<nat>, size: nat) {
    NoRepeats(a) && forall q <- a :: q < size
  }

  lemma IsSetAppend(a: seq<nat>, x: nat)
    requires IsSet(a, x)
    ensures IsSet(a + [x], x + 1)
  {
    forall i, j | 0 <= i < j < |a + [x]| ensures (a + [x])[i] != (a + [x])[j] {
      assert a[i] in a;
    }
  }

  /** The members of `a` that are not in `b`. */
  function Minus(a: seq<nat>, b: seq<nat>): (r: seq<nat>)
    ensures forall x: nat :: x in r <==> x in a && x !in b
    ensures NoRepeats(a) ==> NoRepeats(r)
  {
    if a == [] then [] else if a[0] in b then Minus(a[1..], b) else [a[0]] + Minus(a[1..], b)
  }

  /** Dropped queues leave every channel, and channels left empty are removed. */
  function Pruned(ls: Listeners, dropped: seq<nat>): (r: Listeners)
    ensures forall d: Channel, k: nat :: Listening(r, d, k) <==> Listening(ls, d, k) && k !in dropped
  {
    map d | d in ls && Minus(ls[d], dropped) != [] :: Minus(ls[d], dropped)
  }

  function Targets(ls: Listeners, c: Channel): seq<nat> { if c in ls then ls[c] else [] }

  function FullOnes<Msg>(targets: seq<nat>, qs: seq<Queue<Msg>>): (r: seq<nat>)
    ensures forall k: nat :: k in r <==> k in targets && k < |qs| && Full(qs[k])
  {
    if targets == [] then []
    else
      var init, q := targets[..|targets| - 1], targets[|targets| - 1];
      assert targets == init + [q];
      if q < |qs| && Full(qs[q]) then FullOnes(init, qs) + [q] else FullOnes(init, qs)
  }

  function Put<Msg>(q: Queue<Msg>, m: Msg): Queue<Msg> {
    if Full(q) then q else q.(received := q.received + [m])
  }

  function Subscribed<Msg>(s: State<Msg>, c: Channel): State<Msg> {
    s.(queues := s.queues + [Queue([], 0)], homes := s.homes + [c], starts := s.starts + [|Log(s, c)|],
       listeners := s.listeners[c := Targets(s.listeners, c) + [|s.queues|]])
  }

  function Unsubscribed<Msg>(s: State<Msg>, c: Channel, q: nat): State<Msg> {
    if c !in s.listeners then s
    else
      var rest := Minus(s.listeners[c], [q]);
      s.(listeners := if rest == [] then s.listeners - {c} else s.listeners[c := rest])
  }

  function Taken<Msg>(s: State<Msg>, q: nat): State<Msg> {
    if q < |s.queues| && s.queues[q].taken < |s.queues[q].received|
    then s.(queues := s.queues[q := s.queues[q].(taken := s.queues[q].taken + 1)])
    else s
  }

  /** Puts the message into every listening queue with room, and drops the full ones for good. */
  function Published<Msg>(s: State<Msg>, c: Channel, m: Msg): State<Msg> {
    var targets := Targets(s.listeners, c);
    var dropped := FullOnes(targets, s.queues);
    s.(queues := seq(|s.queues|, q requires 0 <= q < |s.queues| =>
                   if q in targets then Put(s.queues[q], m) else s.queues[q]),
       listeners := if dropped == [] then s.listeners else Pruned(s.listeners, dropped),
       published := s.published[c := Log(s, c) + [m]])
  }

  /** The stations of one event, without the wildcard, blanks or repetitions. */
  function Stations(names: seq<Channel>): (r: seq<Channel>)
    ensures forall c :: c in r <==> c in names && c != "" && c != ALL
    ensures forall i, j :: 0 <= i < j < |r| ==> r[i] != r[j]
  {
    if names == [] then []
    else
      var rest, last := Stations(names[..|names| - 1]), names[|names| - 1];
      assert names == names[..|names| - 1] + [last];
      if last == "" || last == ALL || last in rest then rest else rest + [last]
  }

  function PublishedTo<Msg>(s: State<Msg>, cs: seq<Channel>, m: Msg): State<Msg> {
    if cs == [] then s else Published(PublishedTo(s, cs[..|cs| - 1], m), cs[|cs| - 1], m)
  }

  /** One event goes to the wildcard channel and then to each named station. */
  function Announced<Msg>(s: State<Msg>, m: Msg, stations: seq<Channel>): State<Msg> {
    PublishedTo(s, [ALL] + Stations(stations), m)
  }

  datatype Operation<Msg> =
    | Subscribe(channel: Channel)
    | Unsubscribe(channel: Channel, queue: nat)
    | Take(queue: nat)
    | Announce(message: Msg, stations: seq<Channel>)

  function Next<Msg>(s: State<Msg>, o: Operation<Msg>): State<Msg> {
    match o
    case Subscribe(c) => Subscribed(s, c)
    case Unsubscribe(c, q) => Unsubscribed(s, c, q)
    case Take(q) => Taken(s, q)
    case Announce(m, stations) => Announced(s, m, stations)
  }

  function Start<Msg>(): State<Msg> { State(map[], [], map[], [], []) }

  function Run<Msg>(s: State<Msg>, os: seq<Operation<Msg>>): State<Msg> {
    if os == [] then s else Next(Run(s, os[..|os| - 1]), os[|os| - 1])
  }

  // ----- the guarantee

  /** A queue holds a contiguous run of its channel's publications from its subscription on, all of it
      while it is listening, and never more than its size waiting. */
  predicate Gapless<Msg(==)>(s: State<Msg>, q: nat)
    requires q < |s.queues| == |s.starts| == |s.homes|
  {
    var log, got := Log(s, s.homes[q]), s.queues[q].received;
    && s.starts[q] + |got| <= |log| && got == log[s.starts[q]..s.starts[q] + |got|]
    && (Listening(s.listeners, s.homes[q], q) ==> s.starts[q] + |got| == |log|)
    && s.queues[q].taken <= |got| <= s.queues[q].taken + QUEUE_SIZE
  }

  /** A queue listens on its own channel or on none. */
  ghost predicate Valid<Msg>(s: State<Msg>) {
    && |s.queues| == |s.starts| == |s.homes|
    && (forall q :: 0 <= q < |s.queues| ==> Gapless(s, q))
    && (forall c: Channel, q: nat :: Listening(s.listeners, c, q) ==> q < |s.queues| && s.homes[q] == c)
  }

  lemma SubscribedKeeps<Msg>(s: State<Msg>, c: Channel)
    requires Valid(s)
    ensures Valid(Subscribed(s, c))
  {
    var t := Subscribed(s, c);
    forall d: Channel, k: nat | Listening(t.listeners, d, k) ensures k < |t.queues| && t.homes[k] == d {
      if !(d == c && k == |s.queues|) { assert Listening(s.listeners, d, k); }
    }
    forall q | 0 <= q < |t.queues| ensures Gapless(t, q) {
      if q < |s.queues| { assert Gapless(s, q); }
    }
  }

  lemma UnsubscribedKeeps<Msg>(s: State<Msg>, c: Channel, q: nat)
    requires Valid(s)
    ensures Valid(Unsubscribed(s, c, q))
    ensures forall d: Channel, k: nat ::
              (Listening(Unsubscribed(s, c, q).listeners, d, k)
               <==> Listening(s.listeners, d, k) && !(d == c && k == q))
  {
    var t := Unsubscribed(s, c, q);
    forall d: Channel, k: nat
      ensures Listening(t.listeners, d, k) <==> Listening(s.listeners, d, k) && !(d == c && k == q)
    {
    }
    forall k | 0 <= k < |t.queues| ensures Gapless(t, k) {
      assert Gapless(s, k);
    }
  }

  lemma TakenKeeps<Msg>(s: State<Msg>, q: nat)
    requires Valid(s)
    ensures Valid(Taken(s, q))
  {
    var t := Taken(s, q);
    forall k | 0 <= k < |t.queues| ensures Gapless(t, k) {
      assert Gapless(s, k);
    }
  }

  /** What one publication does to one queue. */
  lemma PublishedQueue<Msg>(s: State<Msg>, c: Channel, m: Msg, q: nat)
    requires Valid(s) && q < |s.queues|
    ensures var t := Published(s, c, m);
            && t.queues[q] == (if Listening(s.listeners, c, q) then Put(s.queues[q], m) else s.queues[q])
            && (forall d: Channel :: Listening(t.listeners, d, q)
                                     <==> Listening(s.listeners, d, q) && !(d == c && Full(s.queues[q])))
  {
    forall d: Channel | Listening(s.listeners, d, q) ensures d == s.homes[q] {
    }
  }

  lemma PublishedGapless<Msg>(s: State<Msg>, c: Channel, m: Msg, q: nat)
    requires Valid(s) && q < |s.queues|
    ensures Gapless(Published(s, c, m), q)
  {
    PublishedQueue(s, c, m, q);
    assert Gapless(s, q);
    var t := Published(s, c, m);
    if s.homes[q] == c {
      assert Log(t, c) == Log(s, c) + [m];
    } else {
      assert !Listening(s.listeners, c, q);
    }
  }

  lemma PublishedKeeps<Msg>(s: State<Msg>, c: Channel, m: Msg)
    requires Valid(s)
    ensures Valid(Published(s, c, m))
  {
    var t := Published(s, c, m);
    forall q | 0 <= q < |t.queues| ensures Gapless(t, q) {
      PublishedGapless(s, c, m, q);
    }
    forall d: Channel, k: nat | Listening(t.listeners, d, k) ensures k < |t.queues| && t.homes[k] == d {
      assert Listening(s.listeners, d, k);
    }
  }

  lemma {:induction false} PublishedToKeeps<Msg>(s: State<Msg>, cs: seq<Channel>, m: Msg)
    requires Valid(s)
    ensures var t := PublishedTo(s, cs, m);
            Valid(t) && |t.queues| == |s.queues| && t.homes == s.homes && t.starts == s.starts
  {
    if cs != [] {
      PublishedToKeeps(s, cs[..|cs| - 1], m);
      PublishedKeeps(PublishedTo(s, cs[..|cs| - 1], m), cs[|cs| - 1], m);
    }
  }

  lemma NextKeeps<Msg>(s: State<Msg>, o: Operation<Msg>)
    requires Valid(s)
    ensures Valid(Next(s, o))
  {
    match o
    case Subscribe(c) => SubscribedKeeps(s, c);
    case Unsubscribe(c, q) => UnsubscribedKeeps(s, c, q);
    case Take(q) => TakenKeeps(s, q);
    case Announce(m, stations) => PublishedToKeeps(s, [ALL] + Stations(stations), m);
  }

  lemma {:induction false} RunKeeps<Msg>(s: State<Msg>, os: seq<Operation<Msg>>)
    requires Valid(s)
    ensures Valid(Run(s, os))
  {
    if os != [] {
      RunKeeps(s, os[..|os| - 1]);
      NextKeeps(Run(s, os[..|os| - 1]), os[|os| - 1]);
    }
  }

  /** The states the broadcaster can be in. */
  ghost predicate Reachable<Msg(!new)>(s: State<Msg>) { exists os :: s == Run(Start(), os) }

  /** Gap-free delivery in every run. */
  lemma GapFree<Msg(!new)>(s: State<Msg>)
    requires Reachable(s)
    ensures Valid(s)
  {
    var os :| s == Run(Start(), os);
    RunKeeps(Start(), os);
  }

  /** One publication, seen from one queue: its own channel matters, any other leaves it alone. */
  lemma SeenFromQueue<Msg>(s: State<Msg>, c: Channel, m: Msg, q: nat)
    requires Valid(s) && q < |s.queues|
    ensures var t := Published(s, c, m); var home := s.homes[q];
            var heard := c == home && Listening(s.listeners, home, q);
            && t.queues[q] == (if heard then Put(s.queues[q], m) else s.queues[q])
            && (Listening(t.listeners, home, q)
                <==> Listening(s.listeners, home, q) && !(c == home && Full(s.queues[q])))
            && Log(t, home) == (if c == home then Log(s, home) + [m] else Log(s, home))
  {
    PublishedQueue(s, c, m, q);
    if c != s.homes[q] {
      assert !Listening(s.listeners, c, q);
    }
  }

  /** Queue q as it must be after the message went to the channels `cs`, each once. */
  predicate HeardOnce<Msg(==)>(s: State<Msg>, t: State<Msg>, cs: seq<Channel>, m: Msg, q: nat)
    requires q < |s.queues| && q < |s.homes|
  {
    var c := s.homes[q];
    && q < |t.queues|
    && t.queues[q] == (if c in cs && Listening(s.listeners, c, q) then Put(s.queues[q], m) else s.queues[q])
    && (Listening(t.listeners, c, q) <==> Listening(s.listeners, c, q) && !(c in cs && Full(s.queues[q])))
    && Log(t, c) == (if c in cs then Log(s, c) + [m] else Log(s, c))
  }

  lemma HeardOneMore<Msg>(s: State<Msg>, t: State<Msg>, cs: seq<Channel>, c: Channel, m: Msg, q: nat)
    requires q < |s.queues| && q < |s.homes| && HeardOnce(s, t, cs, m, q) && c !in cs
    requires Valid(t) && t.homes == s.homes
    ensures HeardOnce(s, Published(t, c, m), cs + [c], m, q)
  {
    SeenFromQueue(t, c, m, q);
  }

  predicate Distinct(cs: seq<Channel>) { forall i, j :: 0 <= i < j < |cs| ==> cs[i] != cs[j] }

  lemma LastIsNew(cs: seq<Channel>)
    requires Distinct(cs) && cs != []
    ensures var init, last := cs[..|cs| - 1], cs[|cs| - 1]; Distinct(init) && last !in init && cs == init + [last]
  {
  }

  lemma {:induction false} AtMostOncePerChannel<Msg>(s: State<Msg>, cs: seq<Channel>, m: Msg, q: nat)
    requires Valid(s) && q < |s.queues| && Distinct(cs)
    ensures HeardOnce(s, PublishedTo(s, cs, m), cs, m, q)
  {
    if cs != [] {
      var init, last := cs[..|cs| - 1], cs[|cs| - 1];
      LastIsNew(cs);
      AtMostOncePerChannel(s, init, m, q);
      PublishedToKeeps(s, init, m);
      HeardOneMore(s, PublishedTo(s, init, m), init, last, m, q);
      assert PublishedTo(s, cs, m) == Published(PublishedTo(s, init, m), last, m);
    }
  }

  /** Does an event that names these stations go out on this channel? */
  predicate Addressed(c: Channel, stations: seq<Channel>) { c == "*" || (c in stations && c != "") }

  lemma AnnouncedOnce<Msg>(s: State<Msg>, m: Msg, stations: seq<Channel>, q: nat)
    requires Valid(s) && q < |s.queues|
    ensures var c := s.homes[q]; var t := Announced(s, m, stations);
            && q < |t.queues| && t.homes == s.homes
            && t.queues[q] == (if Addressed(c, stations) && Listening(s.listeners, c, q)
                               then Put(s.queues[q], m) else s.queues[q])
            && (Listening(t.listeners, c, q)
                <==> Listening(s.listeners, c, q) && !(Addressed(c, stations) && Full(s.queues[q])))
  {
    var cs := [ALL] + Stations(stations);
    assert forall i :: 0 < i < |cs| ==> cs[i] in Stations(stations);
    assert Distinct(cs);
    AtMostOncePerChannel(s, cs, m, q);
    PublishedToKeeps(s, cs, m);
  }

  /** One event reaches each listening queue at most once, whatever stations it names and however often; an
      addressed queue that is full is dropped instead, and no other queue stops listening. */
  lemma OneCopyPerEvent<Msg(!new)>(s: State<Msg>, m: Msg, stations: seq<Channel>, q: nat)
    requires Reachable(s) && q < |s.queues|
    ensures q < |s.homes| && q < |Announced(s, m, stations).queues|
    ensures var t := Announced(s, m, stations); var c := s.homes[q];
            var heard := Listening(s.listeners, c, q) && Addressed(c, stations);
            && t.queues[q].taken == s.queues[q].taken
            && t.queues[q].received == s.queues[q].received + (if heard && !Full(s.queues[q]) then [m] else [])
            && (Listening(t.listeners, c, q) <==> Listening(s.listeners, c, q) && !(heard && Full(s.queues[q])))
  {
    GapFree(s);
    AnnouncedOnce(s, m, stations, q);
  }

  /** What ends a subscription: its own unsubscribe, or an event addressed to it that finds it full. */
  predicate Silences<Msg>(s: State<Msg>, o: Operation<Msg>, q: nat)
    requires q < |s.queues| && q < |s.homes|
  {
    || o == Unsubscribe(s.homes[q], q)
    || (o.Announce? && Addressed(s.homes[q], o.stations) && Full(s.queues[q]))
  }

  lemma ListensUnlessSilenced<Msg>(s: State<Msg>, o: Operation<Msg>, q: nat)
    requires Valid(s) && q < |s.queues| && Listening(s.listeners, s.homes[q], q)
    ensures var t := Next(s, o);
            && q < |t.queues| && q < |t.homes| && t.homes[q] == s.homes[q]
            && (Listening(t.listeners, s.homes[q], q) <==> !Silences(s, o, q))
  {
    match o
    case Subscribe(c) =>
    case Unsubscribe(c, k) => UnsubscribedKeeps(s, c, k);
    case Take(k) =>
    case Announce(m, stations) => AnnouncedOnce(s, m, stations, q);
  }

  /** None of these operations ended the subscription. */
  predicate Undisturbed<Msg>(s: State<Msg>, os: seq<Operation<Msg>>, q: nat) {
    os == []
    || (var t := Run(s, os[..|os| - 1]);
        Undisturbed(s, os[..|os| - 1], q) && q < |t.queues| && q < |t.homes| && !Silences(t, os[|os| - 1], q))
  }

  lemma {:induction false} ListensThroughRun<Msg>(s: State<Msg>, os: seq<Operation<Msg>>, q: nat)
    requires Valid(s) && q < |s.queues| && Listening(s.listeners, s.homes[q], q)
    ensures var t := Run(s, os);
            && q < |t.queues| && q < |t.homes| && t.homes[q] == s.homes[q]
            && (Listening(t.listeners, t.homes[q], q) <==> Undisturbed(s, os, q))
  {
    if os != [] {
      var init, o := os[..|os| - 1], os[|os| - 1];
      ListensThroughRun(s, init, q);
      RunKeeps(s, init);
      if Undisturbed(s, init, q) {
        ListensUnlessSilenced(Run(s, init), o, q);
      } else {
        SilentNext(Run(s, init), o, q);
      }
    }
  }

  /** Delivery stops only so: after any further operations a queue still listens, and then has everything its
      channel published since its subscription, if and only if none of them ended the subscription. */
  lemma StopsOnlyWhenSilenced<Msg(!new)>(s: State<Msg>, os: seq<Operation<Msg>>, q: nat)
    requires Reachable(s) && q < |s.queues| == |s.homes| && Listening(s.listeners, s.homes[q], q)
    ensures var t := Run(s, os);
            && q < |t.queues| == |t.homes| == |t.starts|
            && (Listening(t.listeners, t.homes[q], q) <==> Undisturbed(s, os, q))
            && (Undisturbed(s, os, q) ==>
                  t.starts[q] <= |Log(t, t.homes[q])| && t.queues[q].received == Log(t, t.homes[q])[t.starts[q]..])
  {
    GapFree(s);
    ListensThroughRun(s, os, q);
    RunKeeps(s, os);
    assert Gapless(Run(s, os), q);
  }

  lemma {:induction false} SilentThrough<Msg>(s: State<Msg>, cs: seq<Channel>, m: Msg, q: nat)
    requires Valid(s) && q < |s.queues| && !Listening(s.listeners, s.homes[q], q)
    ensures var t := PublishedTo(s, cs, m);
            q < |t.queues| == |t.homes| && t.homes[q] == s.homes[q] && t.queues[q] == s.queues[q]
            && !Listening(t.listeners, s.homes[q], q)
  {
    if cs != [] {
      SilentThrough(s, cs[..|cs| - 1], m, q);
      PublishedToKeeps(s, cs[..|cs| - 1], m);
      PublishedToKeeps(s, cs, m);
      PublishedQueue(PublishedTo(s, cs[..|cs| - 1], m), cs[|cs| - 1], m, q);
    }
  }

  /** A queue that was dropped or unsubscribed receives nothing for the rest of every run. */
  lemma DroppedStaysSilent<Msg(!new)>(s: State<Msg>, later: seq<Operation<Msg>>, q: nat)
    requires Reachable(s) && q < |s.queues| == |s.homes| && !Listening(s.listeners, s.homes[q], q)
    ensures var t := Run(s, later);
            q < |t.queues| == |t.homes| && t.homes[q] == s.homes[q] && t.queues[q].received == s.queues[q].received
            && !Listening(t.listeners, t.homes[q], q)
  {
    GapFree(s);
    SilentRun(s, later, q);
  }

  lemma {:induction false} SilentRun<Msg>(s: State<Msg>, later: seq<Operation<Msg>>, q: nat)
    requires Valid(s) && q < |s.queues| && !Listening(s.listeners, s.homes[q], q)
    ensures var t := Run(s, later);
            q < |t.queues| == |t.homes| && t.homes[q] == s.homes[q] && t.queues[q].received == s.queues[q].received
            && !Listening(t.listeners, t.homes[q], q)
  {
    if later != [] {
      var init := later[..|later| - 1];
      SilentRun(s, init, q);
      RunKeeps(s, init);
      SilentNext(Run(s, init), later[|later| - 1], q);
    }
  }

  lemma SilentNext<Msg>(s: State<Msg>, o: Operation<Msg>, q: nat)
    requires Valid(s) && q < |s.queues| && !Listening(s.listeners, s.homes[q], q)
    ensures var t := Next(s, o);
            q < |t.queues| == |t.homes| && t.homes[q] == s.homes[q] && t.queues[q].received == s.queues[q].received
            && !Listening(t.listeners, s.homes[q], q)
  {
    match o
    case Subscribe(c) =>
    case Unsubscribe(c, k) => UnsubscribedKeeps(s, c, k);
    case Take(k) =>
    case Announce(m, stations) => SilentThrough(s, [ALL] + Stations(stations), m, q);
  }

  /** A queue is full when exactly one hundred messages wait in it. */
  lemma FullAnswer<Msg(!new)>(s: State<Msg>, q: nat)
    requires Reachable(s) && q < |s.queues|
    ensures Full(s.queues[q]) <==> |s.queues[q].received| - s.queues[q].taken == 100
  {
    GapFree(s);
    assert Gapless(s, q);
  }

  /** Subscribing adds one empty queue that listens on its channel from here on; taking removes the oldest waiting
      message of one queue; neither touches any other queue, channel or log. */
  lemma QueueAnswer<Msg>(s: State<Msg>, c: Channel, q: nat)
    requires Valid(s) && q < |s.queues|
    ensures var t := Next(s, Subscribe(c));
            && t.queues == s.queues + [Queue([], 0)] && t.homes == s.homes + [c] && t.starts == s.starts + [|Log(s, c)|]
            && t.published == s.published
            && forall d: Channel, k: nat :: Listening(t.listeners, d, k)
                                            <==> Listening(s.listeners, d, k) || (d == c && k == |s.queues|)
    ensures var t := Next(s, Take(q));
            && t.listeners == s.listeners && t.published == s.published && t.homes == s.homes && t.starts == s.starts
            && t.queues == s.queues[q := Queue(s.queues[q].received, if s.queues[q].taken < |s.queues[q].received|
                                                                     then s.queues[q].taken + 1 else s.queues[q].taken)]
  {
  }

  // ----- the object

  class Broadcaster<Msg> {
    var listeners: Listeners
    var queues: seq<Queue<Msg>>
    ghost var published: map<Channel, seq<Msg>>
    ghost var homes: seq<Channel>
    ghost var starts: seq<nat>

    ghost function Snapshot(): State<Msg>
      reads this
    {
      State(listeners, queues, published, homes, starts)
    }

    /** Every channel's listeners are a set of queues of this broadcaster. */
    predicate AreSets()
      reads this
    {
      forall d <- listeners :: IsSet(listeners[d], |queues|)
    }

    constructor ()
      ensures AreSets() && Snapshot() == Start()
    {
      listeners, queues := map[], [];
      published, homes, starts := map[], [], [];
    }

    method SubscribeTo(c: Channel) returns (q: nat)
      requires AreSets()
      modifies this
      ensures AreSets() && Snapshot() == Subscribed(old(Snapshot()), c) && q == |old(queues)|
    {
      q := |queues|;
      homes, starts := homes + [c], starts + [|Log(Snapshot(), c)|];
      queues := queues + [Queue([], 0)];
      assert IsSet(Targets(listeners, c), q);
      IsSetAppend(Targets(listeners, c), q);
      listeners := listeners[c := Targets(listeners, c) + [q]];
    }

    method UnsubscribeFrom(c: Channel, q: nat)
      requires AreSets()
      modifies this`listeners
      ensures AreSets() && Snapshot() == Unsubscribed(old(Snapshot()), c, q)
    {
      if c in listeners {
        var rest := Minus(listeners[c], [q]);
        if rest == [] {
          listeners := listeners - {c};
        } else {
          listeners := listeners[c := rest];
        }
      }
    }

    /** A consumer takes the oldest waiting message. */
    method Get(q: nat) returns (m: Msg)
      requires AreSets() && q < |queues| && queues[q].taken < |queues[q].received|
      modifies this`queues
      ensures AreSets() && Snapshot() == Taken(old(Snapshot()), q) && m == old(queues)[q].received[old(queues)[q].taken]
    {
      m := queues[q].received[queues[q].taken];
      queues := queues[q := queues[q].(taken := queues[q].taken + 1)];
    }

    /** Tries every target queue once; full ones are collected, not written. */
    method PutAll(targets: seq<nat>, m: Msg) returns (dropped: seq<nat>)
      requires NoRepeats(targets) && forall q <- targets :: q < |queues|
      modifies this`queues
      ensures dropped == FullOnes(targets, old(queues)) && |queues| == |old(queues)|
      ensures forall q :: 0 <= q < |queues| ==>
                queues[q] == if q in targets then Put(old(queues)[q], m) else old(queues)[q]
    {
      dropped := [];
      var before := queues;
      for i := 0 to |targets|
        invariant |queues| == |before| && dropped == FullOnes(targets[..i], before)
        invariant forall q :: 0 <= q < |queues| ==>
                    queues[q] == if q in targets[..i] then Put(before[q], m) else before[q]
      {
        var q := targets[i];
        assert q in targets && q !in targets[..i];
        assert targets[..i + 1] == targets[..i] + [q] && targets[..i + 1][..i] == targets[..i];
        if Full(queues[q]) {
          dropped := dropped + [q];
        } else {
          queues := queues[q := queues[q].(received := queues[q].received + [m])];
        }
      }
      assert targets[..|targets|] == targets;
    }

    method Publish(c: Channel, m: Msg)
      requires AreSets()
      modifies this
      ensures AreSets() && Snapshot() == Published(old(Snapshot()), c, m)
    {
      var targets := Targets(listeners, c);
      var dropped := PutAll(targets, m);
      if dropped != [] {
        listeners := Pruned(listeners, dropped);
      }
      published := published[c := Log(Snapshot(), c) + [m]];
    }

    /** Sends one event to the wildcard channel and once to each named station. */
    method PublishKdsEvent(m: Msg, stations: seq<Channel>)
      requires AreSets()
      modifies this
      ensures AreSets() && Snapshot() == Announced(old(Snapshot()), m, stations)
    {
      var channels := [ALL] + Stations(stations);
      for i := 0 to |channels|
        invariant AreSets() && Snapshot() == PublishedTo(old(Snapshot()), channels[..i], m)
      {
        assert channels[..i + 1][..i] == channels[..i];
        Publish(channels[i], m);
      }
      assert channels[..|channels|] == channels;
    }
  }
}
