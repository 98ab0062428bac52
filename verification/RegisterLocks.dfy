/** Opening, closing and reopening register sessions as interleaved transactions. Every read sees
    committed rows, every write appears at commit, and a row lock is held until the transaction ends. */
module RegisterLocks {

  datatype Session = Session(register: nat, open: bool)

  datatype Phase = Started | RegisterLocked | RowLocked | Checked

  datatype Txn =
    | Opening(register: nat, phase: Phase)
    | Reopening(session: nat, phase: Phase)
    | Closing(session: nat, phase: Phase)

  datatype State = State(
    rows: seq<Session>,
    txns: map<nat, Txn>,
    registerLocks: map<nat, nat>,
    sessionLocks: map<nat, nat>)

  const EMPTY := State([], map[], map[], map[])

  datatype Step =
    | Begin(txn: nat, work: Txn)
    | LockRegister(txn: nat)
    | LockSession(txn: nat)
    | Check(txn: nat)
    | Commit(txn: nat)
    | Abort(txn: nat)

  function RegisterOf(s: State, x: Txn): nat {
    match x
    case Opening(r, _) => r
    case Reopening(k, _) => if k < |s.rows| then s.rows[k].register else 0
    case Closing(k, _) => if k < |s.rows| then s.rows[k].register else 0
  }

  /** An open session of the register other than `except`. */
  predicate OtherOpen(rows: seq<Session>, register: nat, except: int) {
    exists k :: 0 <= k < |rows| && k != except && rows[k].register == register && rows[k].open
  }

  function Without(locks: map<nat, nat>, t: nat): map<nat, nat> {
    map k | k in locks && locks[k] != t :: locks[k]
  }

  /** A transaction ends, committed or rolled back: its locks are released. */
  function Ended(s: State, t: nat): State {
    State(s.rows, s.txns - {t}, Without(s.registerLocks, t), Without(s.sessionLocks, t))
  }

  function AtPhase(s: State, t: nat, p: Phase): State
    requires t in s.txns
  {
    s.(txns := s.txns[t := s.txns[t].(phase := p)])
  }

  /** One step; a step that cannot run now, such as a lock held by another transaction, changes nothing. */
  function Next(s: State, c: Step): State {
    if c.Begin? then
      if c.txn in s.txns || c.work.phase != Started then s else s.(txns := s.txns[c.txn := c.work])
    else if c.txn !in s.txns then s
    else
      var t, x := c.txn, s.txns[c.txn];
      match c
      case LockRegister(_) =>
        // open and reopen lock the parent register before they look at its sessions; close does not
        if x.Closing? || x.phase != Started || (x.Reopening? && x.session >= |s.rows|)
           || RegisterOf(s, x) in s.registerLocks then s
        else AtPhase(s, t, RegisterLocked).(registerLocks := s.registerLocks[RegisterOf(s, x) := t])
      case LockSession(_) =>
        if x.Opening? || x.phase != (if x.Reopening? then RegisterLocked else Started)
            || x.session in s.sessionLocks then s
        else if x.session >= |s.rows| || s.rows[x.session].open != x.Closing? then Ended(s, t)
        else AtPhase(s, t, RowLocked).(sessionLocks := s.sessionLocks[x.session := t])
      case Check(_) =>
        if x.Closing? || x.phase != (if x.Opening? then RegisterLocked else RowLocked) then s
        else if OtherOpen(s.rows, RegisterOf(s, x), if x.Opening? then -1 else x.session) then Ended(s, t)
        else AtPhase(s, t, Checked)
      case Commit(_) =>
        if x.phase != (if x.Closing? then RowLocked else Checked) || (!x.Opening? && x.session >= |s.rows|) then s
        else if x.Opening? then Ended(s.(rows := s.rows + [Session(x.register, true)]), t)
        else Ended(s.(rows := s.rows[x.session := s.rows[x.session].(open := x.Reopening?)]), t)
      case Abort(_) => Ended(s, t)
  }

  function Run(s: State, cs: seq<Step>): State {
    if cs == [] then s else Next(Run(s, cs[..|cs| - 1]), cs[|cs| - 1])
  }

  // ----- the invariant

  predicate OneOpen(rows: seq<Session>) {
    forall j, k :: 0 <= j < k < |rows| && rows[j].open && rows[k].open ==> rows[j].register != rows[k].register
  }

  /** Past its first lock, an open or reopen holds its register; past its check, no other session of
      that register is open. */
  predicate TxnOk(s: State, t: nat)
    requires t in s.txns
  {
    var x := s.txns[t];
    && (x.Reopening? && x.phase != Started ==> x.session < |s.rows|)
    && (!x.Closing? && x.phase != Started ==>
          RegisterOf(s, x) in s.registerLocks && s.registerLocks[RegisterOf(s, x)] == t)
    && (x.phase == Checked && !x.Closing?
        ==> !OtherOpen(s.rows, RegisterOf(s, x), if x.Opening? then -1 else x.session))
  }

  predicate Inv(s: State) {
    OneOpen(s.rows) && forall t <- s.txns :: TxnOk(s, t)
  }

  lemma EndedKeeps(s: State, u: State, t: nat)
    requires t in s.txns && OneOpen(u.rows) && u == s.(rows := u.rows)
    requires |s.rows| <= |u.rows| && forall k :: 0 <= k < |s.rows| ==> u.rows[k].register == s.rows[k].register
    requires forall v <- s.txns :: v != t ==> TxnOk(s, v)
    requires forall v <- s.txns :: v != t && s.txns[v].phase == Checked && !s.txns[v].Closing? ==>
      var r := RegisterOf(s, s.txns[v]);
      forall k :: 0 <= k < |u.rows| && u.rows[k].register == r && u.rows[k].open ==> k < |s.rows| && s.rows[k].open
    ensures Inv(Ended(u, t))
  {
    var e := Ended(u, t);
    forall v | v in e.txns ensures TxnOk(e, v) {
      assert TxnOk(s, v);
    }
  }

  lemma CommitKeeps(s: State, t: nat)
    requires Inv(s) && t in s.txns
    ensures Inv(Next(s, Commit(t)))
  {
    var x := s.txns[t];
    assert TxnOk(s, t);
    if !(x.phase != (if x.Closing? then RowLocked else Checked) || (!x.Opening? && x.session >= |s.rows|)) {
      var rows := if x.Opening? then s.rows + [Session(x.register, true)]
                  else s.rows[x.session := s.rows[x.session].(open := x.Reopening?)];
      var r := RegisterOf(s, x);
      forall j, k | 0 <= j < k < |rows| && rows[j].open && rows[k].open ensures rows[j].register != rows[k].register {
        if k < |s.rows| && s.rows[j].open && s.rows[k].open {
        } else {
          assert !OtherOpen(s.rows, r, if x.Opening? then -1 else x.session);
        }
      }
      forall v | v in s.txns && v != t && s.txns[v].phase == Checked && !s.txns[v].Closing?
        ensures x.Closing? || RegisterOf(s, s.txns[v]) != r
      {
        assert TxnOk(s, v);
      }
      EndedKeeps(s, s.(rows := rows), t);
    }
  }

  lemma NextKeeps(s: State, c: Step)
    requires Inv(s)
    ensures Inv(Next(s, c))
  {
    if c.Commit? && c.txn in s.txns {
      CommitKeeps(s, c.txn);
    } else {
      var u := Next(s, c);
      if c.txn in s.txns && u == Ended(s, c.txn) {
        EndedKeeps(s, s, c.txn);
      } else {
        forall v | v in u.txns ensures TxnOk(u, v) {
          if v in s.txns { assert TxnOk(s, v); }
        }
      }
    }
  }

  /** One open session per register, in every interleaving, without relying on the unique index: the
      register lock of open and reopen is enough although close never takes it. */
  lemma {:induction false} OneOpenPerRegister(cs: seq<Step>)
    ensures Inv(Run(EMPTY, cs)) && OneOpen(Run(EMPTY, cs).rows)
  {
    if cs != [] {
      OneOpenPerRegister(cs[..|cs| - 1]);
      NextKeeps(Run(EMPTY, cs[..|cs| - 1]), cs[|cs| - 1]);
    }
  }

  // ----- what an undisturbed transaction does

  predicate Free(s: State, t: nat, register: nat) { t !in s.txns && register !in s.registerLocks }

  predicate NoOther(s: State, register: nat, except: int) {
    forall k :: 0 <= k < |s.rows| && k != except ==> !(s.rows[k].register == register && s.rows[k].open)
  }

  function Opened(s: State, t: nat, register: nat): State {
    Next(Next(Next(Next(s, Begin(t, Opening(register, Started))), LockRegister(t)), Check(t)), Commit(t))
  }

  function Checking(s: State, t: nat, x: Txn, register: nat, sessionLocks: map<nat, nat>): State {
    State(s.rows, s.txns[t := x], s.registerLocks[register := t], sessionLocks)
  }

  lemma OpenLocks(s: State, t: nat, register: nat)
    requires Free(s, t, register)
    ensures Next(Next(s, Begin(t, Opening(register, Started))), LockRegister(t))
            == Checking(s, t, Opening(register, RegisterLocked), register, s.sessionLocks)
  {
    var s1 := Next(s, Begin(t, Opening(register, Started)));
    assert s1 == s.(txns := s.txns[t := Opening(register, Started)]);
  }

  lemma OpenChecks(s: State, t: nat, register: nat)
    requires t in s.txns && s.txns[t] == Opening(register, RegisterLocked)
    ensures Next(Next(s, Check(t)), Commit(t)).rows
            == if NoOther(s, register, -1) then s.rows + [Session(register, true)] else s.rows
  {
    var s1 := Next(s, Check(t));
    if NoOther(s, register, -1) {
      assert s1 == AtPhase(s, t, Checked);
    } else {
      assert s1 == Ended(s, t);
    }
  }

  /** With its register free, an open succeeds exactly when the register has no open session. */
  lemma OpenAlone(s: State, t: nat, register: nat)
    requires Free(s, t, register)
    ensures Opened(s, t, register).rows
            == if NoOther(s, register, -1) then s.rows + [Session(register, true)] else s.rows
  {
    OpenLocks(s, t, register);
    OpenChecks(Checking(s, t, Opening(register, RegisterLocked), register, s.sessionLocks), t, register);
  }

  function Reopened(s: State, t: nat, k: nat): State {
    var locked := Next(Next(s, Begin(t, Reopening(k, Started))), LockRegister(t));
    Next(Next(Next(locked, LockSession(t)), Check(t)), Commit(t))
  }

  lemma ReopenLocks(s: State, t: nat, k: nat)
    requires k < |s.rows| && Free(s, t, s.rows[k].register)
    ensures Next(Next(s, Begin(t, Reopening(k, Started))), LockRegister(t))
            == Checking(s, t, Reopening(k, RegisterLocked), s.rows[k].register, s.sessionLocks)
  {
    var s1 := Next(s, Begin(t, Reopening(k, Started)));
    assert s1 == s.(txns := s.txns[t := Reopening(k, Started)]);
  }

  lemma ReopenChecks(s: State, t: nat, k: nat)
    requires t in s.txns && s.txns[t] == Reopening(k, RowLocked) && k < |s.rows|
    ensures Next(Next(s, Check(t)), Commit(t)).rows
            == if NoOther(s, s.rows[k].register, k) then s.rows[k := s.rows[k].(open := true)] else s.rows
  {
    var s1 := Next(s, Check(t));
    if NoOther(s, s.rows[k].register, k) {
      assert s1 == AtPhase(s, t, Checked);
    } else {
      assert s1 == Ended(s, t);
    }
  }

  lemma RowLocks(s: State, t: nat, k: nat)
    requires t in s.txns && s.txns[t] == Reopening(k, RegisterLocked) && k < |s.rows| && k !in s.sessionLocks
    ensures var u := Next(s, LockSession(t));
            if s.rows[k].open then u.rows == s.rows && t !in u.txns
            else u.rows == s.rows && t in u.txns && u.txns[t] == Reopening(k, RowLocked)
  {
  }

  lemma Gone(s: State, t: nat)
    requires t !in s.txns
    ensures Next(Next(s, Check(t)), Commit(t)).rows == s.rows
  {
  }

  /** A reopen succeeds exactly when its session is closed and the register has no open one. */
  lemma ReopenAlone(s: State, t: nat, k: nat)
    requires k < |s.rows| && Free(s, t, s.rows[k].register) && k !in s.sessionLocks
    ensures Reopened(s, t, k).rows
            == if !s.rows[k].open && NoOther(s, s.rows[k].register, k)
               then s.rows[k := s.rows[k].(open := true)] else s.rows
  {
    ReopenLocks(s, t, k);
    var s2 := Checking(s, t, Reopening(k, RegisterLocked), s.rows[k].register, s.sessionLocks);
    RowLocks(s2, t, k);
    if s.rows[k].open {
      Gone(Next(s2, LockSession(t)), t);
    } else {
      ReopenChecks(Next(s2, LockSession(t)), t, k);
    }
  }

  function Closed(s: State, t: nat, k: nat): State {
    Next(Next(Next(s, Begin(t, Closing(k, Started))), LockSession(t)), Commit(t))
  }

  /** A close needs no register lock, and succeeds exactly when its session is open. */
  lemma CloseAlone(s: State, t: nat, k: nat)
    requires k < |s.rows| && t !in s.txns && k !in s.sessionLocks
    ensures Closed(s, t, k).rows == if s.rows[k].open then s.rows[k := s.rows[k].(open := false)] else s.rows
  {
  }
}
