/** Staff identities synchronized from payroll envelopes that may be repeated and reordered. */
module StaffSync {
  import opened Money

  /** The fields one envelope carries for one employee; `details` stands for the free-text fields. */
  datatype Employee = Employee(staff: int, code: string, name: string, details: seq<string>, active: bool)

  /** `known` says the source and event type are the expected ones; `time` is None when unparseable. */
  datatype Envelope = Envelope(known: bool, id: int, time: Option<int>, employees: seq<Employee>)

  datatype Identity = Identity(
    code: string,
    name: string,
    details: seq<string>,
    active: bool,
    lastId: int,
    lastTime: Option<int>)

  /** Identities by source staff id, which is unique. */
  type Table = map<int, Identity>

  function IdentityFrom(v: Envelope, e: Employee): Identity {
    Identity(e.code, e.name, e.details, e.active, v.id, v.time)
  }

  /** A replay of the last accepted envelope, or an older one. */
  predicate Stale(row: Identity, v: Envelope) {
    row.lastId == v.id || (v.time.Some? && row.lastTime.Some? && v.time.value < row.lastTime.value)
  }

  predicate CodeTaken(t: Table, staff: int, code: string) {
    exists k <- t :: k != staff && t[k].code == code
  }

  /** A row added to the session. Nothing is written before the commit, so lookups do not see it. */
  datatype Added = Added(staff: int, row: Identity)

  /** The session of one envelope: the rows found, as changed so far, and the rows added. */
  datatype Session = Session(rows: Table, added: seq<Added>)

  /** One employee: ids and codes are looked up in the table as it was when the envelope began. */
  function Absorbed(t: Table, s: Session, v: Envelope, e: Employee): Outcome<Session> {
    if e.code == "" || e.name == "" || CodeTaken(t, e.staff, e.code) then Rejected
    else if e.staff !in s.rows then Ok(s.(added := s.added + [Added(e.staff, IdentityFrom(v, e))]))
    else if Stale(s.rows[e.staff], v) then Ok(s)
    else Ok(s.(rows := s.rows[e.staff := IdentityFrom(v, e)]))
  }

  function AllAbsorbed(t: Table, v: Envelope, es: seq<Employee>): Outcome<Session> {
    if es == [] then Ok(Session(t, []))
    else
      var before := AllAbsorbed(t, v, es[..|es| - 1]);
      if before.Rejected? then Rejected else Absorbed(t, before.value, v, es[|es| - 1])
  }

  // ----- the commit

  predicate Distinct(added: seq<Added>) { forall i, j :: 0 <= i < j < |added| ==> added[i].staff != added[j].staff }

  function Stored(rows: Table, added: seq<Added>): Table {
    if added == [] then rows
    else Stored(rows, added[..|added| - 1])[added[|added| - 1].staff := added[|added| - 1].row]
  }

  predicate CodesDistinct(t: Table) { forall j <- t, k <- t :: t[j].code == t[k].code ==> j == k }

  /** The two unique constraints: staff ids, and codes. */
  predicate Commits(s: Session) { Distinct(s.added) && CodesDistinct(Stored(s.rows, s.added)) }

  predicate Accepts(t: Table, v: Envelope) {
    var r := AllAbsorbed(t, v, v.employees);
    v.known && r.Ok? && Commits(r.value)
  }

  /** One delivery: a rejected envelope is rolled back as a whole. */
  function Delivered(t: Table, v: Envelope): Table {
    if Accepts(t, v)
    then var s := AllAbsorbed(t, v, v.employees).value; Stored(s.rows, s.added)
    else t
  }

  function Deliveries(vs: seq<Envelope>): Table {
    if vs == [] then map[] else Delivered(Deliveries(vs[..|vs| - 1]), vs[|vs| - 1])
  }

  // ----- the service

  class StaffTable {
    var rows: Table

    constructor ()
      ensures rows == map[]
    {
      rows := map[];
    }

    /** Writes what a session changed and added, unless a unique constraint is broken. */
    method Commit(session: Session) returns (ok: bool)
      modifies this
      ensures ok <==> Commits(session)
      ensures rows == if ok then Stored(session.rows, session.added) else old(rows)
    {
      var written := session.rows;
      for i := 0 to |session.added|
        invariant written == Stored(session.rows, session.added[..i])
        invariant Distinct(session.added[..i])
      {
        assert session.added[..i + 1][..i] == session.added[..i];
        if exists j :: 0 <= j < i && session.added[j].staff == session.added[i].staff {
          return false;
        }
        written := written[session.added[i].staff := session.added[i].row];
      }
      assert session.added[..|session.added|] == session.added;
      if !CodesDistinct(written) {
        return false;
      }
      rows := written;
      ok := true;
    }

    method SyncStaffEmployees(v: Envelope) returns (ok: bool, synced: nat, ignored: nat)
      modifies this
      ensures ok <==> Accepts(old(rows), v)
      ensures rows == Delivered(old(rows), v)
      ensures ok ==> ignored == Ignored(old(rows), v, v.employees) && synced == |v.employees| - ignored
    {
      ok, synced, ignored := false, 0, 0;
      if !v.known {
        return;
      }
      var session := Session(rows, []);
      for i := 0 to |v.employees|
        invariant AllAbsorbed(rows, v, v.employees[..i]) == Ok(session)
        invariant session.rows.Keys == rows.Keys && rows == old(rows)
        invariant ignored == Ignored(rows, v, v.employees[..i]) && synced == i - ignored && !ok
      {
        IgnoredStep(rows, v, v.employees, i, session);
        var e := v.employees[i];
        assert v.employees[..i + 1][..i] == v.employees[..i];
        if e.code == "" || e.name == "" || CodeTaken(rows, e.staff, e.code) {
          RejectionSticks(rows, v, v.employees, i + 1);
          return;
        }
        if e.staff !in session.rows {
          session := session.(added := session.added + [Added(e.staff, IdentityFrom(v, e))]);
          synced := synced + 1;
        } else if Stale(session.rows[e.staff], v) {
          ignored := ignored + 1;
        } else {
          session := session.(rows := session.rows[e.staff := IdentityFrom(v, e)]);
          synced := synced + 1;
        }
      }
      assert v.employees[..|v.employees|] == v.employees;
      ok := Commit(session);
    }
  }

  /** Mentions that write nothing: of an employee with a row that is stale, or that was mentioned before. */
  function Ignored(t: Table, v: Envelope, es: seq<Employee>): (n: nat)
    ensures n <= |es|
  {
    if es == [] then 0
    else
      var init, e := es[..|es| - 1], es[|es| - 1];
      Ignored(t, v, init) + if e.staff in t && (First(init, e.staff).Some? || Stale(t[e.staff], v)) then 1 else 0
  }

  lemma {:induction false} RowsLaw(t: Table, v: Envelope, es: seq<Employee>)
    requires AllAbsorbed(t, v, es).Ok?
    ensures var rows := AllAbsorbed(t, v, es).value.rows;
            && rows.Keys == t.Keys
            && forall k <- t :: rows[k] == if First(es, k).Some? && !Stale(t[k], v)
                                           then IdentityFrom(v, First(es, k).value) else t[k]
  {
    if es != [] {
      RowsLaw(t, v, es[..|es| - 1]);
    }
  }

  lemma IgnoredStep(t: Table, v: Envelope, es: seq<Employee>, i: nat, s: Session)
    requires i < |es| && AllAbsorbed(t, v, es[..i]) == Ok(s)
    ensures Ignored(t, v, es[..i + 1])
            == Ignored(t, v, es[..i]) + if es[i].staff in s.rows && Stale(s.rows[es[i].staff], v) then 1 else 0
  {
    assert es[..i + 1][..i] == es[..i];
    RowsLaw(t, v, es[..i]);
  }

  lemma {:induction false} RejectionSticks(t: Table, v: Envelope, es: seq<Employee>, i: nat)
    requires i <= |es| && AllAbsorbed(t, v, es[..i]).Rejected?
    ensures AllAbsorbed(t, v, es).Rejected?
    decreases |es| - i
  {
    if i < |es| {
      assert es[..i + 1][..i] == es[..i];
      RejectionSticks(t, v, es, i + 1);
    } else {
      assert es[..i] == es;
    }
  }

  /** The unique constraint on codes holds after any deliveries, of any envelopes. */
  lemma {:induction false} CodesStayDistinct(vs: seq<Envelope>)
    ensures CodesDistinct(Deliveries(vs))
  {
    if vs != [] {
      CodesStayDistinct(vs[..|vs| - 1]);
    }
  }

  // ----- absorbing one envelope of a feed

  function First(es: seq<Employee>, staff: int): Option<Employee> {
    if es == [] then None
    else
      var before := First(es[..|es| - 1], staff);
      if before.Some? then before else if es[|es| - 1].staff == staff then Some(es[|es| - 1]) else None
  }

  function Mentions(es: seq<Employee>, staff: int): nat {
    if es == [] then 0 else Mentions(es[..|es| - 1], staff) + if es[|es| - 1].staff == staff then 1 else 0
  }

  predicate Naming(v: Envelope, staff: int) { First(v.employees, staff).Some? }

  predicate Twice(v: Envelope, staff: int) { Mentions(v.employees, staff) >= 2 }

  function Stated(v: Envelope, staff: int): Identity
    requires Naming(v, staff)
  {
    IdentityFrom(v, First(v.employees, staff).value)
  }

  ghost predicate Injective(codes: int -> string) { forall a, b :: codes(a) == codes(b) ==> a == b }

  predicate Clean(es: seq<Employee>, codes: int -> string) {
    forall e <- es :: e.code != "" && e.name != "" && e.code == codes(e.staff)
  }

  predicate WellFormed(v: Envelope, codes: int -> string) { v.known && Clean(v.employees, codes) }

  /** A feed of well-formed envelopes: codes are fixed and unique per staff member, and different
      envelopes have different ids. Times may be equal or missing, and employees named repeatedly. */
  ghost predicate Feed(vs: seq<Envelope>, codes: int -> string) {
    && Injective(codes)
    && (forall v <- vs :: WellFormed(v, codes))
    && (forall v <- vs, w <- vs :: v != w ==> v.id != w.id)
  }

  predicate Coded(t: Table, codes: int -> string) { forall k <- t :: t[k].code == codes(k) }

  lemma {:induction false} FirstMention(es: seq<Employee>, k: int)
    ensures First(es, k).Some? <==> Mentions(es, k) >= 1
    ensures First(es, k).Some? ==> First(es, k).value in es && First(es, k).value.staff == k
  {
    if es != [] {
      FirstMention(es[..|es| - 1], k);
    }
  }

  /** The rows an envelope adds: one for every mention of an employee without a row. */
  function News(t: Table, v: Envelope, es: seq<Employee>): seq<Added> {
    if es == [] then []
    else
      var e, earlier := es[|es| - 1], News(t, v, es[..|es| - 1]);
      if e.staff in t then earlier else earlier + [Added(e.staff, IdentityFrom(v, e))]
  }

  /** Rows that exist are replaced by the first mention unless stale; later mentions are ignored. */
  lemma {:induction false} SessionLaw(t: Table, v: Envelope, es: seq<Employee>, codes: int -> string)
    requires Coded(t, codes) && Injective(codes) && Clean(es, codes)
    ensures var r := AllAbsorbed(t, v, es);
            && r.Ok? && r.value.rows.Keys == t.Keys && r.value.added == News(t, v, es)
            && forall k <- t :: r.value.rows[k] == if First(es, k).Some? && !Stale(t[k], v)
                                                   then IdentityFrom(v, First(es, k).value) else t[k]
  {
    if es != [] {
      assert es[|es| - 1] in es;
      SessionLaw(t, v, es[..|es| - 1], codes);
    }
  }

  lemma {:induction false} NewsStaff(t: Table, v: Envelope, es: seq<Employee>, k: int)
    ensures (exists a <- News(t, v, es) :: a.staff == k) <==> k !in t && Mentions(es, k) >= 1
  {
    if es != [] {
      NewsStaff(t, v, es[..|es| - 1], k);
      var news, earlier := News(t, v, es), News(t, v, es[..|es| - 1]);
      if news != earlier {
        assert news == earlier + [news[|news| - 1]];
        assert forall a <- earlier :: a in news;
        assert news[|news| - 1] in news;
      }
    }
  }

  lemma DistinctPlusOne(added: seq<Added>, x: Added)
    ensures Distinct(added + [x]) <==> Distinct(added) && forall a <- added :: a.staff != x.staff
  {
    var more := added + [x];
    if Distinct(more) {
      forall i, j | 0 <= i < j < |added| ensures added[i].staff != added[j].staff {
        assert more[i] == added[i] && more[j] == added[j];
      }
      forall a <- added ensures a.staff != x.staff {
        var i :| 0 <= i < |added| && added[i] == a;
        assert more[i] == a && more[|added|] == x;
      }
    }
  }

  lemma {:induction false} NewsDistinct(t: Table, v: Envelope, es: seq<Employee>)
    ensures Distinct(News(t, v, es)) <==> forall k :: Mentions(es, k) >= 2 ==> k in t
  {
    if es != [] {
      var init, e := es[..|es| - 1], es[|es| - 1];
      NewsDistinct(t, v, init);
      if e.staff !in t {
        DistinctPlusOne(News(t, v, init), Added(e.staff, IdentityFrom(v, e)));
        NewsStaff(t, v, init, e.staff);
        if Mentions(init, e.staff) >= 1 {
          assert Mentions(es, e.staff) >= 2;
        }
      }
      forall k ensures Mentions(es, k) == Mentions(init, k) + if e.staff == k then 1 else 0 {
      }
    }
  }

  /** What is stored when every new employee was named once. */
  lemma {:induction false} StoredLaw(rows: Table, t: Table, v: Envelope, es: seq<Employee>)
    requires rows.Keys == t.Keys && forall k :: Mentions(es, k) >= 2 ==> k in t
    ensures var u := Stored(rows, News(t, v, es));
            forall k :: (k in u <==> k in t || First(es, k).Some?)
              && (k in u ==> u[k] == if k in t then rows[k] else IdentityFrom(v, First(es, k).value))
  {
    if es != [] {
      var init, e := es[..|es| - 1], es[|es| - 1];
      forall k ensures Mentions(es, k) == Mentions(init, k) + if e.staff == k then 1 else 0 {
      }
      StoredLaw(rows, t, v, init);
      FirstMention(init, e.staff);
      var news, earlier := News(t, v, es), News(t, v, init);
      if e.staff !in t {
        assert news[..|news| - 1] == earlier;
      }
    }
  }

  /** Every employee it names twice already has a row. */
  ghost predicate Ready(t: Table, v: Envelope) { forall k :: Twice(v, k) ==> k in t }

  /** Absorbing an envelope of a feed, exactly: it is accepted if and only if every employee it names twice
      already has a row; then each employee it names, by the first mention, replaces a row that is not stale. */
  lemma AbsorbLaw(t: Table, v: Envelope, codes: int -> string)
    requires Coded(t, codes) && Injective(codes) && WellFormed(v, codes)
    ensures Accepts(t, v) <==> Ready(t, v)
    ensures !Ready(t, v) ==> Delivered(t, v) == t
    ensures Coded(Delivered(t, v), codes)
    ensures Ready(t, v) ==>
              var u := Delivered(t, v);
              forall k :: (k in u <==> k in t || Naming(v, k))
                && (k in u ==> u[k] == if Naming(v, k) && !(k in t && Stale(t[k], v)) then Stated(v, k) else t[k])
  {
    var es := v.employees;
    SessionLaw(t, v, es, codes);
    NewsDistinct(t, v, es);
    if Ready(t, v) {
      var s := AllAbsorbed(t, v, es).value;
      StoredLaw(s.rows, t, v, es);
      var u := Stored(s.rows, s.added);
      forall k <- u ensures u[k].code == codes(k) {
        FirstMention(es, k);
      }
      assert CodesDistinct(u);
    }
  }

  /** The record an employee gets: every field of the first mention, with the id and time of the envelope, unless
      the row has that id already or a later time. */
  lemma RecordAnswer(t: Table, v: Envelope, codes: int -> string, k: int)
    requires Coded(t, codes) && Injective(codes) && WellFormed(v, codes) && Ready(t, v) && Naming(v, k)
    ensures k in Delivered(t, v)
    ensures var e, row := First(v.employees, k).value, Delivered(t, v)[k];
            if k in t && (t[k].lastId == v.id
                || (v.time.Some? && t[k].lastTime.Some? && v.time.value < t[k].lastTime.value))
            then row == t[k]
            else && row.code == e.code && row.name == e.name && row.details == e.details && row.active == e.active
                 && row.lastId == v.id && row.lastTime == v.time
  {
    AbsorbLaw(t, v, codes);
  }

  lemma {:induction false} BadMention(t: Table, v: Envelope, es: seq<Employee>, i: nat)
    requires i < |es| && (es[i].code == "" || es[i].name == "" || CodeTaken(t, es[i].staff, es[i].code))
    ensures AllAbsorbed(t, v, es).Rejected?
  {
    assert es[..i + 1][..i] == es[..i];
    RejectionSticks(t, v, es, i + 1);
  }

  /** A foreign envelope, or one with a mention without code or name, or with a code that another employee had
      when it began, changes nothing. */
  lemma RejectionAnswer(t: Table, v: Envelope, i: nat, j: int)
    requires || !v.known
             || (i < |v.employees| && (v.employees[i].code == "" || v.employees[i].name == ""))
             || (i < |v.employees| && j in t && j != v.employees[i].staff && t[j].code == v.employees[i].code)
    ensures Delivered(t, v) == t
  {
    if v.known {
      BadMention(t, v, v.employees, i);
    }
  }

  // ----- envelopes that name no employee twice

  predicate Plain(v: Envelope) { forall e <- v.employees :: !Twice(v, e.staff) }

  lemma PlainIsReady(t: Table, v: Envelope)
    requires Plain(v)
    ensures Ready(t, v)
  {
    forall k ensures !Twice(v, k) {
      FirstMention(v.employees, k);
    }
  }

  ghost predicate PlainFeed(vs: seq<Envelope>, codes: int -> string) { Feed(vs, codes) && forall v <- vs :: Plain(v) }

  predicate Older(v: Envelope, w: Envelope) { v.time.Some? && w.time.Some? && v.time.value < w.time.value }

  /** `w` names the employee, and no envelope that names them is newer. */
  predicate Top(w: Envelope, vs: seq<Envelope>, k: int) {
    w in vs && Naming(w, k) && forall v <- vs :: Naming(v, k) ==> !Older(w, v)
  }

  /** Every envelope that names the employee has a time. */
  predicate Timed(vs: seq<Envelope>, k: int) { forall v <- vs :: Naming(v, k) ==> v.time.Some? }

  /** An employee has the record of an envelope naming them, the newest if all have times; no row if none does. */
  ghost predicate Recorded(t: Table, vs: seq<Envelope>, k: int) {
    if k in t
    then exists w <- vs :: Naming(w, k) && t[k] == Stated(w, k) && (Timed(vs, k) ==> Top(w, vs, k))
    else forall v <- vs :: !Naming(v, k)
  }

  /** What the last of a row of deliveries leaves for one employee it names. */
  lemma LastDelivery(t: Table, vs: seq<Envelope>, v: Envelope, w: Envelope, codes: int -> string, k: int)
    requires PlainFeed(vs + [v], codes) && Coded(t, codes)
    requires w in vs && Naming(w, k) && Naming(v, k) && k in t && t[k] == Stated(w, k)
    ensures var u := Delivered(t, v);
            k in u && u[k] == Stated(if w == v || Older(v, w) then w else v, k)
  {
    assert v in vs + [v] && w in vs + [v];
    assert WellFormed(v, codes);
    PlainIsReady(t, v);
    AbsorbLaw(t, v, codes);
  }

  lemma OtherDelivery(t: Table, v: Envelope, codes: int -> string, k: int)
    requires WellFormed(v, codes) && Plain(v) && Coded(t, codes) && Injective(codes)
    requires !Naming(v, k) || k !in t
    ensures var u := Delivered(t, v);
            if Naming(v, k) then k in u && u[k] == Stated(v, k) else (k in u <==> k in t) && (k in u ==> u[k] == t[k])
  {
    PlainIsReady(t, v);
    AbsorbLaw(t, v, codes);
  }

  lemma OneDelivery(t: Table, vs: seq<Envelope>, v: Envelope, codes: int -> string, k: int)
    requires PlainFeed(vs + [v], codes) && Coded(t, codes) && Recorded(t, vs, k)
    ensures Recorded(Delivered(t, v), vs + [v], k)
  {
    FeedPrefix(vs, v, codes);
    assert v in vs + [v] && forall x <- vs :: x in vs + [v];
    if k in t && Naming(v, k) {
      var w :| w in vs && Naming(w, k) && t[k] == Stated(w, k) && (Timed(vs, k) ==> Top(w, vs, k));
      LastDelivery(t, vs, v, w, codes, k);
      if Timed(vs + [v], k) {
        assert Timed(vs, k);
        assert Top(if w == v || Older(v, w) then w else v, vs + [v], k);
      }
    } else {
      OtherDelivery(t, v, codes, k);
      assert Naming(v, k) && Timed(vs + [v], k) ==> Top(v, vs + [v], k);
    }
  }

  lemma DeliveryCoded(t: Table, v: Envelope, codes: int -> string)
    requires Coded(t, codes) && WellFormed(v, codes) && Plain(v) && Injective(codes)
    ensures Coded(Delivered(t, v), codes)
  {
    PlainIsReady(t, v);
    AbsorbLaw(t, v, codes);
  }

  /** After any deliveries each employee has the record of a newest envelope naming them. */
  lemma {:induction false} NewestWins(vs: seq<Envelope>, codes: int -> string)
    requires PlainFeed(vs, codes)
    ensures Coded(Deliveries(vs), codes)
    ensures forall k :: Recorded(Deliveries(vs), vs, k)
  {
    if vs != [] {
      var init, v := vs[..|vs| - 1], vs[|vs| - 1];
      assert vs == init + [v];
      FeedPrefix(init, v, codes);
      NewestWins(init, codes);
      DeliveryCoded(Deliveries(init), v, codes);
      forall k ensures Recorded(Deliveries(vs), vs, k) {
        OneDelivery(Deliveries(init), init, v, codes, k);
      }
    }
  }

  lemma FeedPrefix(vs: seq<Envelope>, v: Envelope, codes: int -> string)
    requires PlainFeed(vs + [v], codes)
    ensures PlainFeed(vs, codes) && WellFormed(v, codes) && Plain(v)
  {
    assert v in vs + [v];
    forall x | x in vs ensures x in vs + [v] {}
  }

  // ----- when the delivery order cannot be told from the result

  ghost predicate SameEnvelopes(a: seq<Envelope>, b: seq<Envelope>) { forall v :: v in a <==> v in b }

  /** Of several envelopes naming one employee, all have times and one alone is the newest. */
  predicate UniqueNewest(vs: seq<Envelope>, k: int) {
    forall v <- vs, w <- vs :: Naming(v, k) && Naming(w, k) && v != w ==>
      v.time.Some? && w.time.Some? && (v.time == w.time ==> exists x <- vs :: Naming(x, k) && Older(v, x))
  }

  ghost predicate OrderFree(vs: seq<Envelope>) {
    forall a, b :: SameEnvelopes(a, vs) && SameEnvelopes(b, vs) ==> Deliveries(a) == Deliveries(b)
  }

  lemma SameFeed(a: seq<Envelope>, vs: seq<Envelope>, codes: int -> string)
    requires PlainFeed(vs, codes) && SameEnvelopes(a, vs)
    ensures PlainFeed(a, codes)
  {
    assert forall v <- a :: v in vs;
  }

  lemma OneNewest(v: Envelope, w: Envelope, a: seq<Envelope>, b: seq<Envelope>, k: int)
    requires SameEnvelopes(a, b) && UniqueNewest(a, k)
    requires v in a && w in b && Naming(v, k) && Naming(w, k)
    requires Timed(a, k) ==> Top(v, a, k) && Top(w, b, k)
    ensures v == w
  {
    assert w in a && v in b;
  }

  lemma SameRow(t: Table, u: Table, a: seq<Envelope>, b: seq<Envelope>, k: int)
    requires Recorded(t, a, k) && Recorded(u, b, k) && SameEnvelopes(a, b) && UniqueNewest(a, k)
    ensures (k in t <==> k in u) && (k in t ==> t[k] == u[k])
  {
    assert (forall v <- a :: v in b) && (forall v <- b :: v in a);
    if k in t {
      var w :| w in a && Naming(w, k) && t[k] == Stated(w, k) && (Timed(a, k) ==> Top(w, a, k));
      assert k in u;
      var x :| x in b && Naming(x, k) && u[k] == Stated(x, k) && (Timed(b, k) ==> Top(x, b, k));
      OneNewest(w, x, a, b, k);
    }
  }

  lemma OrderDoesNotShow(a: seq<Envelope>, b: seq<Envelope>, codes: int -> string)
    requires PlainFeed(a, codes) && PlainFeed(b, codes) && SameEnvelopes(a, b) && forall k :: UniqueNewest(a, k)
    ensures Deliveries(a) == Deliveries(b)
  {
    NewestWins(a, codes);
    NewestWins(b, codes);
    var t, u := Deliveries(a), Deliveries(b);
    forall k ensures (k in t <==> k in u) && (k in t ==> t[k] == u[k]) {
      SameRow(t, u, a, b, k);
    }
  }

  lemma OneMore(vs: seq<Envelope>, v: Envelope, codes: int -> string)
    requires PlainFeed(vs, codes) && v in vs
    ensures SameEnvelopes(vs + [v], vs) && PlainFeed(vs + [v], codes)
    ensures Deliveries(vs + [v]) == Delivered(Deliveries(vs), v)
  {
    assert (vs + [v])[..|vs|] == vs;
    assert forall x :: x in vs + [v] <==> x in vs;
    SameFeed(vs + [v], vs, codes);
  }

  /** Delivering an envelope once more, when the last record of an employee it names does not outrank it. */
  lemma Redelivered(vs: seq<Envelope>, v: Envelope, codes: int -> string, k: int)
    requires PlainFeed(vs, codes) && v in vs && Naming(v, k)
    requires forall w <- vs :: Naming(w, k) && k in Deliveries(vs) && Deliveries(vs)[k] == Stated(w, k) ==> !Older(v, w)
    ensures k in Deliveries(vs + [v]) && Deliveries(vs + [v])[k] == Stated(v, k)
  {
    OneMore(vs, v, codes);
    NewestWins(vs, codes);
    var t := Deliveries(vs);
    assert Recorded(t, vs, k);
    var w :| w in vs && Naming(w, k) && t[k] == Stated(w, k);
    LastDelivery(t, vs, v, w, codes, k);
  }

  lemma TwoOutcomes(vs: seq<Envelope>, a: seq<Envelope>, b: seq<Envelope>, k: int)
    requires SameEnvelopes(a, vs) && SameEnvelopes(b, vs)
    requires k in Deliveries(a) && k in Deliveries(b) && Deliveries(a)[k].lastId != Deliveries(b)[k].lastId
    ensures !OrderFree(vs)
  {
    assert Deliveries(a) != Deliveries(b);
  }

  /** A tie at the top shows in the result. */
  lemma TieShows(vs: seq<Envelope>, v: Envelope, w: Envelope, codes: int -> string, k: int)
    requires PlainFeed(vs, codes) && v in vs && w in vs && v != w && Naming(v, k) && Naming(w, k)
    requires v.time == w.time && Top(v, vs, k)
    ensures !OrderFree(vs)
  {
    Redelivered(vs, v, codes, k);
    Redelivered(vs, w, codes, k);
    OneMore(vs, v, codes);
    OneMore(vs, w, codes);
    TwoOutcomes(vs, vs + [v], vs + [w], k);
  }

  lemma AfterUntimed(vs: seq<Envelope>, v: Envelope, w: Envelope, codes: int -> string, k: int)
    requires PlainFeed(vs, codes) && v in vs && w in vs && Naming(v, k) && Naming(w, k) && v.time.None?
    requires k in Deliveries(vs) && Deliveries(vs)[k] == Stated(v, k)
    ensures k in Deliveries(vs + [w]) && Deliveries(vs + [w])[k] == Stated(w, k)
  {
    forall x <- vs | Naming(x, k) && Deliveries(vs)[k] == Stated(x, k) ensures !Older(w, x) {
      assert x.id == v.id;
    }
    Redelivered(vs, w, codes, k);
  }

  /** An envelope without a time beside another one shows in the result. */
  lemma MissingTimeShows(vs: seq<Envelope>, v: Envelope, w: Envelope, codes: int -> string, k: int)
    requires PlainFeed(vs, codes) && v in vs && w in vs && v != w && Naming(v, k) && Naming(w, k) && v.time.None?
    ensures !OrderFree(vs)
  {
    var more := vs + [v];
    Redelivered(vs, v, codes, k);
    OneMore(vs, v, codes);
    assert w in more && v in more;
    AfterUntimed(more, v, w, codes, k);
    OneMore(more, w, codes);
    TwoOutcomes(vs, more, more + [w], k);
  }

  /** Among envelopes that name no employee twice, the delivery order and repetitions never show in the result
      if and only if, for each employee named by several of them, all of those have times and one is the newest. */
  lemma PlainConvergesExactly(vs: seq<Envelope>, codes: int -> string)
    requires PlainFeed(vs, codes)
    ensures OrderFree(vs) <==> forall k :: UniqueNewest(vs, k)
  {
    if forall k :: UniqueNewest(vs, k) {
      forall a, b | SameEnvelopes(a, vs) && SameEnvelopes(b, vs) ensures Deliveries(a) == Deliveries(b) {
        SameFeed(a, vs, codes);
        SameFeed(b, vs, codes);
        OrderDoesNotShow(vs, a, codes);
        OrderDoesNotShow(vs, b, codes);
      }
    } else {
      var k :| !UniqueNewest(vs, k);
      NotUniqueShows(vs, codes, k);
    }
  }

  lemma NotUniqueShows(vs: seq<Envelope>, codes: int -> string, k: int)
    requires PlainFeed(vs, codes) && !UniqueNewest(vs, k)
    ensures !OrderFree(vs)
  {
    var v, w :| v in vs && w in vs && Naming(v, k) && Naming(w, k) && v != w
                && !(v.time.Some? && w.time.Some?
                    && (v.time == w.time ==> exists x <- vs :: Naming(x, k) && Older(v, x)));
    if v.time.None? {
      MissingTimeShows(vs, v, w, codes, k);
    } else if w.time.None? {
      MissingTimeShows(vs, w, v, codes, k);
    } else {
      TieShows(vs, v, w, codes, k);
    }
  }

  // ----- envelopes that name an employee twice

  function Plains(vs: seq<Envelope>): (ps: seq<Envelope>)
    ensures forall v :: v in ps <==> v in vs && Plain(v)
  {
    if vs == [] then []
    else
      var init, v := vs[..|vs| - 1], vs[|vs| - 1];
      assert vs == init + [v];
      if Plain(v) then Plains(init) + [v] else Plains(init)
  }

  function Repeats(vs: seq<Envelope>): (rs: seq<Envelope>)
    ensures forall v :: v in rs <==> v in vs && !Plain(v)
  {
    if vs == [] then []
    else
      var init, v := vs[..|vs| - 1], vs[|vs| - 1];
      assert vs == init + [v];
      if Plain(v) then Repeats(init) else Repeats(init) + [v]
  }

  /** Does some envelope that names no employee twice name this one? */
  predicate Introduced(vs: seq<Envelope>, k: int) { exists p <- vs :: Plain(p) && Naming(p, k) }

  /** An envelope with repetitions that some order of delivery gets accepted. */
  ghost predicate Live(vs: seq<Envelope>, v: Envelope) {
    v in vs && !Plain(v) && forall k :: Twice(v, k) ==> Introduced(vs, k)
  }

  predicate Outdated(vs: seq<Envelope>, v: Envelope, k: int) {
    exists p <- vs :: Plain(p) && Naming(p, k) && Older(v, p)
  }

  /** Whatever a live envelope with repetitions says, an envelope without any says something newer. */
  ghost predicate RepeatsOutdated(vs: seq<Envelope>) {
    forall v <- vs, k :: Live(vs, v) && Naming(v, k) ==> Outdated(vs, v, k)
  }

  ghost predicate Settles(vs: seq<Envelope>) {
    RepeatsOutdated(vs) && forall k :: UniqueNewest(Plains(vs), k)
  }

  lemma PlainsFeed(vs: seq<Envelope>, codes: int -> string)
    requires Feed(vs, codes)
    ensures PlainFeed(Plains(vs), codes)
  {
  }

  /** Delivered to an empty table, envelopes with repetitions are all rejected. */
  lemma {:induction false} RepeatsRejected(rs: seq<Envelope>, codes: int -> string)
    requires Injective(codes) && forall v <- rs :: WellFormed(v, codes) && !Plain(v)
    ensures Deliveries(rs) == map[]
  {
    if rs != [] {
      var init, v := rs[..|rs| - 1], rs[|rs| - 1];
      assert v in rs && forall x <- init :: x in rs;
      RepeatsRejected(init, codes);
      var empty: Table := map[];
      AbsorbLaw(empty, v, codes);
      var e :| e in v.employees && Twice(v, e.staff);
      assert !Ready(empty, v);
    }
  }

  lemma {:induction false} SameStart(a: seq<Envelope>, xs: seq<Envelope>)
    requires Deliveries(a) == map[]
    ensures Deliveries(a + xs) == Deliveries(xs)
  {
    if xs == [] {
      assert a + xs == a;
    } else {
      SameStart(a, xs[..|xs| - 1]);
      assert (a + xs)[..|a + xs| - 1] == a + xs[..|xs| - 1];
    }
  }

  /** One way to deliver all of a feed: those with repetitions first, in vain, and then the others. */
  lemma RepeatsFirst(vs: seq<Envelope>, ps: seq<Envelope>, codes: int -> string)
    requires Feed(vs, codes) && SameEnvelopes(ps, Plains(vs))
    ensures SameEnvelopes(Repeats(vs) + ps, vs) && Deliveries(Repeats(vs) + ps) == Deliveries(ps)
  {
    RepeatsRejected(Repeats(vs), codes);
    SameStart(Repeats(vs), ps);
    forall v ensures v in Repeats(vs) + ps <==> v in vs {
    }
  }

  lemma PlainsOrderFree(vs: seq<Envelope>, codes: int -> string)
    requires Feed(vs, codes) && OrderFree(vs)
    ensures OrderFree(Plains(vs))
  {
    forall a, b | SameEnvelopes(a, Plains(vs)) && SameEnvelopes(b, Plains(vs)) ensures Deliveries(a) == Deliveries(b) {
      RepeatsFirst(vs, a, codes);
      RepeatsFirst(vs, b, codes);
    }
  }

  lemma LiveIsReady(vs: seq<Envelope>, t: Table, v: Envelope)
    requires Live(vs, v) && forall k :: Recorded(t, Plains(vs), k)
    ensures Ready(t, v)
  {
    forall k | Twice(v, k) ensures k in t {
      var p :| p in vs && Plain(p) && Naming(p, k);
      assert p in Plains(vs);
      assert Recorded(t, Plains(vs), k);
    }
  }

  lemma NoOrderShows(vs: seq<Envelope>, a: seq<Envelope>, b: seq<Envelope>)
    requires OrderFree(vs) && SameEnvelopes(a, vs) && SameEnvelopes(b, vs)
    ensures Deliveries(a) == Deliveries(b)
  {
  }

  lemma Redelivery(a: seq<Envelope>, vs: seq<Envelope>, v: Envelope)
    requires SameEnvelopes(a, vs) && v in vs
    ensures SameEnvelopes(a + [v], vs) && Deliveries(a + [v]) == Delivered(Deliveries(a), v)
  {
    assert (a + [v])[..|a|] == a;
  }

  /** If the order never shows, one more delivery after all those without repetitions changes nothing. */
  lemma OneMoreChangesNothing(vs: seq<Envelope>, v: Envelope, codes: int -> string)
    requires Feed(vs, codes) && OrderFree(vs) && v in vs
    ensures Delivered(Deliveries(Plains(vs)), v) == Deliveries(Plains(vs))
  {
    var first := Repeats(vs) + Plains(vs);
    RepeatsFirst(vs, Plains(vs), codes);
    Redelivery(first, vs, v);
    NoOrderShows(vs, first + [v], first);
  }

  lemma UnchangedIsOlder(t: Table, v: Envelope, w: Envelope, codes: int -> string, k: int)
    requires Coded(t, codes) && Injective(codes) && WellFormed(v, codes) && Ready(t, v) && Delivered(t, v) == t
    requires Naming(v, k) && Naming(w, k) && k in t && t[k] == Stated(w, k) && v.id != w.id
    ensures Older(v, w)
  {
    AbsorbLaw(t, v, codes);
  }

  lemma UnchangedIsNamed(t: Table, v: Envelope, codes: int -> string, k: int)
    requires Coded(t, codes) && Injective(codes) && WellFormed(v, codes) && Ready(t, v) && Delivered(t, v) == t
    requires Naming(v, k)
    ensures k in t
  {
    AbsorbLaw(t, v, codes);
  }

  /** Delivered after all the others, a live envelope with repetitions is accepted, so what it says must be old. */
  lemma LiveShows(vs: seq<Envelope>, v: Envelope, codes: int -> string, k: int)
    requires Feed(vs, codes) && OrderFree(vs) && Live(vs, v) && Naming(v, k)
    ensures Outdated(vs, v, k)
  {
    var ps := Plains(vs);
    var t := Deliveries(ps);
    PlainsFeed(vs, codes);
    NewestWins(ps, codes);
    OneMoreChangesNothing(vs, v, codes);
    LiveIsReady(vs, t, v);
    UnchangedIsNamed(t, v, codes, k);
    assert Recorded(t, ps, k);
    var w :| w in ps && Naming(w, k) && t[k] == Stated(w, k);
    assert w in vs && Plain(w);
    UnchangedIsOlder(t, v, w, codes, k);
  }

  /** The one envelope whose record an employee ends with. */
  ghost predicate Decides(p: Envelope, vs: seq<Envelope>, k: int) {
    && p in vs && Plain(p) && Naming(p, k)
    && forall x <- vs :: x != p && Naming(x, k) && (Plain(x) || Live(vs, x)) ==> Older(x, p)
  }

  lemma {:induction false} NewestOf(ps: seq<Envelope>, k: int) returns (p: Envelope)
    requires exists x <- ps :: Naming(x, k)
    ensures Top(p, ps, k)
  {
    var init, last := ps[..|ps| - 1], ps[|ps| - 1];
    assert ps == init + [last];
    if exists x <- init :: Naming(x, k) {
      p := NewestOf(init, k);
      if Naming(last, k) && Older(p, last) {
        p := last;
      }
    } else {
      p := last;
    }
  }

  lemma SomeoneDecides(vs: seq<Envelope>, k: int) returns (p: Envelope)
    requires Settles(vs) && Introduced(vs, k)
    ensures Decides(p, vs, k)
  {
    var ps := Plains(vs);
    var w :| w in vs && Plain(w) && Naming(w, k);
    assert w in ps;
    p := NewestOf(ps, k);
    assert UniqueNewest(ps, k);
    forall x | x in vs && x != p && Naming(x, k) && (Plain(x) || Live(vs, x)) ensures Older(x, p) {
      if Plain(x) {
        PlainIsOlder(ps, p, x, k);
      } else {
        assert Outdated(vs, x, k);
        var q :| q in vs && Plain(q) && Naming(q, k) && Older(x, q);
        assert q in ps;
        if q != p {
          PlainIsOlder(ps, p, q, k);
        }
      }
    }
  }

  lemma PlainIsOlder(ps: seq<Envelope>, p: Envelope, x: Envelope, k: int)
    requires UniqueNewest(ps, k) && Top(p, ps, k) && x in ps && Naming(x, k) && x != p
    ensures Older(x, p)
  {
    assert !Older(p, x);
    assert p.time.Some? && x.time.Some?;
  }

  /** What holds after some of a settling feed was delivered. */
  ghost predicate Kept(t: Table, xs: seq<Envelope>, vs: seq<Envelope>) {
    && (forall k <- t :: Introduced(vs, k))
    && (forall k <- t :: exists u <- vs :: (Plain(u) || Live(vs, u)) && Naming(u, k) && t[k] == Stated(u, k))
    && (forall k, p :: p in xs && Decides(p, vs, k) ==> k in t && t[k] == Stated(p, k))
  }

  lemma AcceptedIsLive(t: Table, xs: seq<Envelope>, vs: seq<Envelope>, x: Envelope)
    requires Kept(t, xs, vs) && x in vs && Ready(t, x)
    ensures Plain(x) || Live(vs, x)
  {
  }

  lemma DeciderKept(
    t: Table, xs: seq<Envelope>, vs: seq<Envelope>, x: Envelope, codes: int -> string, p: Envelope, k: int)
    requires Feed(vs, codes) && Coded(t, codes) && Kept(t, xs, vs) && x in vs
    requires p in xs + [x] && Decides(p, vs, k)
    ensures k in Delivered(t, x) && Delivered(t, x)[k] == Stated(p, k)
  {
    assert WellFormed(x, codes);
    AbsorbLaw(t, x, codes);
    if p == x {
      PlainIsReady(t, x);
      if k in t {
        var u :| u in vs && (Plain(u) || Live(vs, u)) && Naming(u, k) && t[k] == Stated(u, k);
        assert u == x || Older(u, x);
      }
    } else {
      assert k in t && t[k] == Stated(p, k);
      if Ready(t, x) && Naming(x, k) {
        AcceptedIsLive(t, xs, vs, x);
        assert Older(x, p);
      }
    }
  }

  lemma RowKept(t: Table, xs: seq<Envelope>, vs: seq<Envelope>, x: Envelope, codes: int -> string, k: int)
    requires Feed(vs, codes) && RepeatsOutdated(vs) && Coded(t, codes) && Kept(t, xs, vs) && x in vs
    requires k in Delivered(t, x)
    ensures Introduced(vs, k)
    ensures exists u <- vs :: (Plain(u) || Live(vs, u)) && Naming(u, k) && Delivered(t, x)[k] == Stated(u, k)
  {
    assert WellFormed(x, codes);
    AbsorbLaw(t, x, codes);
    if Ready(t, x) {
      AcceptedIsLive(t, xs, vs, x);
      if Naming(x, k) && !Plain(x) {
        assert Outdated(vs, x, k);
      }
    }
  }

  lemma {:induction false} KeptThrough(xs: seq<Envelope>, vs: seq<Envelope>, codes: int -> string)
    requires Feed(vs, codes) && Settles(vs) && forall x <- xs :: x in vs
    ensures Coded(Deliveries(xs), codes) && Kept(Deliveries(xs), xs, vs)
  {
    if xs != [] {
      var init, x := xs[..|xs| - 1], xs[|xs| - 1];
      assert xs == init + [x];
      KeptThrough(init, vs, codes);
      var t, u := Deliveries(init), Deliveries(xs);
      assert WellFormed(x, codes);
      AbsorbLaw(t, x, codes);
      forall k <- u
        ensures Introduced(vs, k)
        ensures exists y <- vs :: (Plain(y) || Live(vs, y)) && Naming(y, k) && u[k] == Stated(y, k)
      {
        RowKept(t, init, vs, x, codes, k);
      }
      forall k, p | p in xs && Decides(p, vs, k) ensures k in u && u[k] == Stated(p, k) {
        DeciderKept(t, init, vs, x, codes, p, k);
      }
    }
  }

  lemma SettledRow(a: seq<Envelope>, b: seq<Envelope>, vs: seq<Envelope>, k: int)
    requires Settles(vs) && SameEnvelopes(a, vs) && SameEnvelopes(b, vs)
    requires Kept(Deliveries(a), a, vs) && Kept(Deliveries(b), b, vs) && k in Deliveries(a)
    ensures k in Deliveries(b) && Deliveries(b)[k] == Deliveries(a)[k]
  {
    var p := SomeoneDecides(vs, k);
    assert p in a && p in b;
  }

  lemma SettledSame(vs: seq<Envelope>, a: seq<Envelope>, b: seq<Envelope>, codes: int -> string)
    requires Feed(vs, codes) && Settles(vs) && SameEnvelopes(a, vs) && SameEnvelopes(b, vs)
    ensures Deliveries(a) == Deliveries(b)
  {
    KeptThrough(a, vs, codes);
    KeptThrough(b, vs, codes);
    var t, u := Deliveries(a), Deliveries(b);
    forall k ensures (k in t <==> k in u) && (k in t ==> t[k] == u[k]) {
      if k in t { SettledRow(a, b, vs, k); }
      if k in u { SettledRow(b, a, vs, k); }
    }
  }

  lemma SettledConverges(vs: seq<Envelope>, codes: int -> string)
    requires Feed(vs, codes) && Settles(vs)
    ensures OrderFree(vs)
  {
    forall a, b | SameEnvelopes(a, vs) && SameEnvelopes(b, vs) ensures Deliveries(a) == Deliveries(b) {
      SettledSame(vs, a, b, codes);
    }
  }

  /** Convergence, exactly, for every feed: the delivery order and repetitions never show in the result if and
      only if the envelopes that name no employee twice have one newest for each employee several of them name,
      and whatever a live envelope that names someone twice says, one of those says something newer. */
  lemma ConvergesExactly(vs: seq<Envelope>, codes: int -> string)
    requires Feed(vs, codes)
    ensures OrderFree(vs) <==> Settles(vs)
  {
    if Settles(vs) {
      SettledConverges(vs, codes);
    }
    if OrderFree(vs) {
      PlainsOrderFree(vs, codes);
      PlainsFeed(vs, codes);
      PlainConvergesExactly(Plains(vs), codes);
      forall v, k | v in vs && Live(vs, v) && Naming(v, k) ensures Outdated(vs, v, k) {
        LiveShows(vs, v, codes, k);
      }
    }
  }

  // ----- what follows

  /** With no employee named twice, a time on every envelope and no two alike, any two delivery orders, with any
      repetitions, end in one table. */
  lemma Convergence(a: seq<Envelope>, b: seq<Envelope>, codes: int -> string)
    requires PlainFeed(a, codes) && SameEnvelopes(a, b)
    requires forall v <- a, w <- a :: v.time.Some? && (v != w ==> v.time != w.time)
    ensures Deliveries(a) == Deliveries(b)
  {
    PlainConvergesExactly(a, codes);
    assert SameEnvelopes(a, a);
  }

  /** Two envelopes that name one employee at one time, with no newer one, make the order show. */
  lemma EqualTimesDiverge(vs: seq<Envelope>, v: Envelope, w: Envelope, codes: int -> string, k: int)
    requires Feed(vs, codes) && v in vs && w in vs && v != w && Plain(v) && Plain(w) && Naming(v, k) && Naming(w, k)
    requires v.time == w.time && forall x <- vs :: Plain(x) && Naming(x, k) ==> !Older(v, x)
    ensures exists a, b :: SameEnvelopes(a, vs) && SameEnvelopes(b, vs) && Deliveries(a) != Deliveries(b)
  {
    assert v in Plains(vs) && w in Plains(vs);
    assert !UniqueNewest(Plains(vs), k);
    ConvergesExactly(vs, codes);
  }

  lemma TwoDeliveries(v: Envelope, w: Envelope)
    ensures Deliveries([v, w]) == Delivered(Delivered(map[], v), w)
  {
    assert [v, w][..1] == [v];
    var empty: Table := map[];
    assert Deliveries([v][..0]) == empty;
    assert Deliveries([v]) == Delivered(empty, v);
  }

  /** An envelope that names new employees twice is lost when it comes first, and counts when it comes second. */
  lemma RepeatedNewcomerDiverges(v: Envelope, w: Envelope, codes: int -> string, k: int)
    requires Feed([v, w], codes) && Plain(w) && Twice(v, k) && Older(w, v)
    requires forall j :: Twice(v, j) ==> Naming(w, j)
    ensures k in Deliveries([v, w]) && k in Deliveries([w, v])
    ensures Deliveries([v, w])[k] == Stated(w, k)
    ensures Naming(v, k) && Deliveries([w, v])[k] == Stated(v, k)
    ensures Stated(v, k) != Stated(w, k)
  {
    assert v in [v, w] && w in [v, w];
    FirstMention(v.employees, k);
    var empty: Table := map[];
    TwoDeliveries(v, w);
    TwoDeliveries(w, v);
    AbsorbLaw(empty, v, codes);
    PlainIsReady(empty, w);
    AbsorbLaw(empty, w, codes);
    assert k !in empty && !Ready(empty, v);
    assert Ready(Delivered(empty, w), v);
    AbsorbLaw(Delivered(empty, w), v, codes);
  }
}
