/** Single-use manager approval grants, with concurrent consumers and rollbacks. */
module Approvals {
  import opened Money

  datatype GrantStatus = Pending | Approved | Rejected | Expired | Consumed

  /** What a grant is for; the digest stands for the protected payload. */
  datatype Claim = Claim(requester: nat, kind: string, entityType: string, entity: Option<string>, digest: string)

  datatype Grant = Grant(claim: Claim, status: GrantStatus, expires: int, approver: Option<nat>)

  /** A protected action in progress. A guarded one names a grant; a self-authorized one creates its own. */
  datatype Txn =
    | Guarded(grant: nat, claim: Claim, checkedAt: int, swapped: bool)
    | SelfAuthorized(claim: Claim, startedAt: int)

  /** A committed protected action and the grant it spent. */
  datatype Action = Action(claim: Claim, grant: nat, checkedAt: int)

  datatype State = State(grants: map<nat, Grant>, locks: map<nat, nat>, txns: map<nat, Txn>, actions: seq<Action>)

  const EMPTY := State(map[], map[], map[], [])

  const DEFAULT_TTL := 120

  /** The actions a grant can be asked for. */
  const TYPES: set<string> := {"discount", "void", "refund", "cash_paid_out", "cash_adjustment", "reopen_session",
                               "room_charge_dispute", "room_charge_write_off"}

  /** A request for one of them, by an active user. */
  predicate Askable(claim: Claim, active: bool) { claim.kind in TYPES && active }

  function Ttl(seconds: int): (t: int)
    ensures 15 <= t <= 600
  {
    var s := if seconds == 0 then DEFAULT_TTL else seconds;
    if s < 15 then 15 else if s > 600 then 600 else s
  }

  /** The checks of a consumer before it tries to spend a grant. */
  predicate Consumable(g: Grant, claim: Claim, now: int, authority: bool) {
    g.claim == claim && g.status == Approved && g.expires > now && authority
  }

  datatype Step =
    | Request(grant: nat, claim: Claim, now: int, ttl: int, active: bool)
    | Approve(grant: nat, approver: nat, now: int, authority: bool)
    | Reject(grant: nat, approver: nat, authority: bool)
    | Begin(txn: nat, grant: nat, claim: Claim, now: int, authority: bool)
    | BeginSelf(txn: nat, claim: Claim, now: int, authority: bool)
    | Swap(txn: nat)
    | Commit(txn: nat, newGrant: nat)
    | Rollback(txn: nat)

  function Unlocked(s: State, t: nat): State {
    s.(txns := s.txns - {t}, locks := map g | g in s.locks && s.locks[g] != t :: s.locks[g])
  }

  function Decided(g: Grant, approver: nat, status: GrantStatus): Grant {
    g.(status := status, approver := Some(approver))
  }

  /** Requests, decisions, checks, the conditional update and the end of each action, one at a time. A check
      reads a committed row without holding it; only the update locks the row, until commit or rollback. */
  function Next(s: State, c: Step): State {
    match c
    case Request(g, claim, now, ttl, active) =>
      if g in s.grants || !Askable(claim, active) then s
      else s.(grants := s.grants[g := Grant(claim, Pending, now + Ttl(ttl), None)])
    case Approve(g, approver, now, authority) =>
      if g !in s.grants || s.grants[g].status != Pending || !authority then s
      else if s.grants[g].expires <= now then s.(grants := s.grants[g := s.grants[g].(status := Expired)])
      else s.(grants := s.grants[g := Decided(s.grants[g], approver, Approved)])
    case Reject(g, approver, authority) =>
      if g !in s.grants || s.grants[g].status != Pending || !authority then s
      else s.(grants := s.grants[g := Decided(s.grants[g], approver, GrantStatus.Rejected)])
    case Begin(t, g, claim, now, authority) =>
      if t in s.txns || g !in s.grants || !Consumable(s.grants[g], claim, now, authority) then s
      else s.(txns := s.txns[t := Guarded(g, claim, now, false)])
    case BeginSelf(t, claim, now, authority) =>
      if t in s.txns || !authority || claim.kind !in TYPES then s
      else s.(txns := s.txns[t := SelfAuthorized(claim, now)])
    case Swap(t) =>
      if t !in s.txns || !s.txns[t].Guarded? || s.txns[t].swapped || s.txns[t].grant in s.locks
         || s.txns[t].grant !in s.grants then s
      else if s.grants[s.txns[t].grant].status != Approved then Unlocked(s, t)
      else s.(txns := s.txns[t := s.txns[t].(swapped := true)], locks := s.locks[s.txns[t].grant := t])
    case Commit(t, newGrant) =>
      if t !in s.txns then s
      else if s.txns[t].Guarded? then
        var x := s.txns[t];
        if !x.swapped || x.grant !in s.grants then s
        else Unlocked(s.(grants := s.grants[x.grant := s.grants[x.grant].(status := Consumed)],
                         actions := s.actions + [Action(x.claim, x.grant, x.checkedAt)]), t)
      else if newGrant in s.grants then s
      else
        var x := s.txns[t];
        var n := Grant(x.claim, Consumed, x.startedAt + DEFAULT_TTL, Some(x.claim.requester));
        Unlocked(s.(grants := s.grants[newGrant := n],
                    actions := s.actions + [Action(x.claim, newGrant, x.startedAt)]), t)
    case Rollback(t) => if t in s.txns then Unlocked(s, t) else s
  }

  function Run(s: State, cs: seq<Step>): State {
    if cs == [] then s else Next(Run(s, cs[..|cs| - 1]), cs[|cs| - 1])
  }

  // ----- the invariant

  /** A grant that was decided for the very action that spends it, and had not expired when checked. */
  predicate Covers(s: State, g: nat, claim: Claim, checkedAt: int) {
    g in s.grants && s.grants[g].claim == claim && checkedAt < s.grants[g].expires && s.grants[g].approver.Some?
  }

  predicate TxnOk(s: State, t: nat)
    requires t in s.txns
  {
    var x := s.txns[t];
    x.Guarded? ==>
      && Covers(s, x.grant, x.claim, x.checkedAt)
      && (x.swapped ==> x.grant in s.locks && s.locks[x.grant] == t && s.grants[x.grant].status == Approved)
  }

  predicate Spent(s: State, g: nat) { exists a <- s.actions :: a.grant == g }

  ghost predicate Inv(s: State) {
    && (forall g <- s.grants :: s.grants[g].status in {Approved, Consumed} ==> s.grants[g].approver.Some?)
    && (forall t <- s.txns :: TxnOk(s, t))
    && (forall a <- s.actions :: Covers(s, a.grant, a.claim, a.checkedAt))
    && (forall i, j :: 0 <= i < j < |s.actions| ==> s.actions[i].grant != s.actions[j].grant)
    && (forall g :: Spent(s, g) <==> g in s.grants && s.grants[g].status == Consumed)
  }

  predicate Final(status: GrantStatus) { status in {GrantStatus.Rejected, Expired, Consumed} }

  /** A step never edits what a grant is for or when it expires, and never moves it out of a final status. */
  lemma FinalIsFinal(s: State, c: Step, g: nat)
    requires Inv(s) && g in s.grants
    ensures g in Next(s, c).grants
    ensures Next(s, c).grants[g].claim == s.grants[g].claim && Next(s, c).grants[g].expires == s.grants[g].expires
    ensures s.grants[g].approver.Some? && Final(s.grants[g].status) ==> Next(s, c).grants[g] == s.grants[g]
    ensures Final(s.grants[g].status) ==> Next(s, c).grants[g].status == s.grants[g].status
  {
    if c.Commit? && c.txn in s.txns { assert TxnOk(s, c.txn); }
  }

  lemma CommitSpends(s: State, u: State, t: nat, a: Action)
    requires Inv(s) && t in s.txns && !Spent(s, a.grant)
    requires u == s.(grants := u.grants, actions := s.actions + [a])
    requires a.grant in u.grants && u.grants[a.grant].status == Consumed && Covers(u, a.grant, a.claim, a.checkedAt)
    requires u.grants.Keys == s.grants.Keys + {a.grant}
    requires forall g <- s.grants :: g != a.grant ==> u.grants[g] == s.grants[g]
    requires a.grant in s.grants ==>
               (a.grant in s.locks && s.locks[a.grant] == t
                   && u.grants[a.grant] == s.grants[a.grant].(status := Consumed))
    ensures Inv(Unlocked(u, t))
  {
    var e := Unlocked(u, t);
    forall v | v in e.txns ensures TxnOk(e, v) {
      assert TxnOk(s, v);
    }
    forall g ensures Spent(e, g) <==> Spent(s, g) || g == a.grant {
      if g == a.grant { assert a in e.actions; }
      if Spent(s, g) {
        var b :| b in s.actions && b.grant == g;
        assert b in e.actions;
      }
    }
    forall i, j | 0 <= i < j < |e.actions| ensures e.actions[i].grant != e.actions[j].grant {
      assert e.actions[i] in s.actions;
    }
  }

  lemma CommitKeeps(s: State, t: nat, g: nat)
    requires Inv(s)
    ensures Inv(Next(s, Commit(t, g)))
  {
    if t in s.txns && Next(s, Commit(t, g)) != s {
      var x := s.txns[t];
      assert TxnOk(s, t);
      if x.Guarded? {
        var a := Action(x.claim, x.grant, x.checkedAt);
        var spent := s.grants[x.grant].(status := Consumed);
        CommitSpends(s, s.(grants := s.grants[x.grant := spent], actions := s.actions + [a]), t, a);
      } else {
        var a := Action(x.claim, g, x.startedAt);
        var spent := Grant(x.claim, Consumed, x.startedAt + DEFAULT_TTL, Some(x.claim.requester));
        CommitSpends(s, s.(grants := s.grants[g := spent], actions := s.actions + [a]), t, a);
      }
    }
  }

  lemma SameActions(s: State, u: State)
    requires Inv(s) && u.actions == s.actions
    requires forall g <- s.grants ::
               (g in u.grants && u.grants[g].claim == s.grants[g].claim && u.grants[g].expires == s.grants[g].expires
                && (s.grants[g].approver.Some? ==> u.grants[g].approver.Some?)
                && (u.grants[g].status == Consumed <==> s.grants[g].status == Consumed))
    requires forall g <- u.grants :: g !in s.grants ==> u.grants[g].status != Consumed
    requires forall g <- u.grants :: u.grants[g].status == Approved ==> u.grants[g].approver.Some?
    requires forall t <- u.txns :: TxnOk(u, t)
    ensures Inv(u)
  {
    forall g ensures Spent(u, g) <==> Spent(s, g) {
    }
  }

  /** Writing a grant that no action can be holding: a new one, or one that is still pending. */
  lemma GrantChangeKeeps(s: State, g: nat, n: Grant)
    requires Inv(s) && n.status != Consumed && (n.status == Approved ==> n.approver.Some?)
    requires g in s.grants ==>
               (s.grants[g].status == Pending && n.claim == s.grants[g].claim && n.expires == s.grants[g].expires
                && (s.grants[g].approver.Some? ==> n.approver.Some?))
    ensures Inv(s.(grants := s.grants[g := n]))
  {
    var u := s.(grants := s.grants[g := n]);
    forall t | t in u.txns ensures TxnOk(u, t) {
      assert TxnOk(s, t);
    }
    SameActions(s, u);
  }

  lemma DecisionKeeps(s: State, c: Step)
    requires Inv(s) && (c.Request? || c.Approve? || c.Reject?)
    ensures Inv(Next(s, c))
  {
    if Next(s, c) != s {
      GrantChangeKeeps(s, c.grant, Next(s, c).grants[c.grant]);
      assert Next(s, c) == s.(grants := s.grants[c.grant := Next(s, c).grants[c.grant]]);
    }
  }

  lemma TxnStepKeeps(s: State, c: Step)
    requires Inv(s) && (c.Begin? || c.BeginSelf? || c.Swap? || c.Rollback?)
    ensures Inv(Next(s, c))
  {
    var u := Next(s, c);
    forall t | t in u.txns ensures TxnOk(u, t) {
      if t in s.txns { assert TxnOk(s, t); }
    }
    SameActions(s, u);
  }

  lemma NextKeeps(s: State, c: Step)
    requires Inv(s)
    ensures Inv(Next(s, c))
  {
    if c.Commit? {
      CommitKeeps(s, c.txn, c.newGrant);
    } else if c.Request? || c.Approve? || c.Reject? {
      DecisionKeeps(s, c);
    } else {
      TxnStepKeeps(s, c);
    }
  }

  lemma {:induction false} RunKeeps(s: State, cs: seq<Step>)
    requires Inv(s)
    ensures Inv(Run(s, cs))
  {
    if cs != [] {
      RunKeeps(s, cs[..|cs| - 1]);
      NextKeeps(Run(s, cs[..|cs| - 1]), cs[|cs| - 1]);
    }
  }

  /** Single use: in every interleaving, committed protected actions and consumed grants match one to one,
      and each grant was approved for that very requester, type, entity and payload and had not expired. */
  lemma SingleUse(cs: seq<Step>)
    ensures var s := Run(EMPTY, cs);
            && (forall i, j :: 0 <= i < j < |s.actions| ==> s.actions[i].grant != s.actions[j].grant)
            && (forall a <- s.actions ::
                  Covers(s, a.grant, a.claim, a.checkedAt) && s.grants[a.grant].status == Consumed)
            && (forall g <- s.grants :: s.grants[g].status == Consumed ==> Spent(s, g))
  {
    RunKeeps(EMPTY, cs);
    var s := Run(EMPTY, cs);
    forall a <- s.actions ensures s.grants[a.grant].status == Consumed {
      assert Spent(s, a.grant);
    }
  }

  /** Once consumed, rejected or expired, a grant stays so, for the same claim, for the rest of every run. */
  lemma {:induction false} StatusIsFinal(s: State, later: seq<Step>, g: nat)
    requires Inv(s) && g in s.grants && Final(s.grants[g].status)
    ensures var t := Run(s, later);
            g in t.grants && t.grants[g].status == s.grants[g].status && t.grants[g].claim == s.grants[g].claim
  {
    if later != [] {
      var init := later[..|later| - 1];
      StatusIsFinal(s, init, g);
      RunKeeps(s, init);
      FinalIsFinal(Run(s, init), later[|later| - 1], g);
    }
  }

  /** The only way into consumption: an approved grant, or a self-authorized one born consumed. */
  lemma OnlyApprovedIsConsumed(s: State, c: Step, g: nat)
    requires Inv(s) && g in Next(s, c).grants && Next(s, c).grants[g].status == Consumed
    requires g in s.grants ==> s.grants[g].status != Consumed
    ensures c.Commit? && c.txn in s.txns
    ensures if g in s.grants then s.grants[g].status == Approved && s.txns[c.txn].Guarded? && s.txns[c.txn].grant == g
            else s.txns[c.txn].SelfAuthorized? && c.newGrant == g
  {
    if c.Commit? && c.txn in s.txns { assert TxnOk(s, c.txn); }
  }

  /** Run without interruption, check, update and commit spend the grant as the service does in one go. */
  lemma GuardedTrace(s: State, t: nat, g: nat, claim: Claim, now: int, n: nat)
    requires t !in s.txns && g in s.grants && g !in s.locks && Consumable(s.grants[g], claim, now, true)
    ensures var u := Run(s, [Begin(t, g, claim, now, true), Swap(t), Commit(t, n)]);
            u.grants == s.grants[g := s.grants[g].(status := Consumed)]
                && u.actions == s.actions + [Action(claim, g, now)]
  {
    var cs := [Begin(t, g, claim, now, true), Swap(t), Commit(t, n)];
    assert cs[..|cs| - 1] == cs[..2] && cs[..2][..1] == [cs[0]] && [cs[0]][..0] == [];
    assert Run(s, [cs[0]]) == Next(s, cs[0]);
    assert Run(s, cs[..2]) == Next(Next(s, cs[0]), cs[1]);
  }

  // ----- the answers, said from the request and the grant alone

  /** A grant lives two minutes unless asked otherwise, and never less than 15 seconds or more than ten minutes. */
  lemma TtlAnswer(seconds: int)
    ensures Ttl(seconds) == if seconds == 0 then 120 else if seconds < 15 then 15 else if seconds > 600 then 600
        else seconds
  {
  }

  /** Asking: for one of the eight protected actions, by an active user; the grant is pending and approves nothing. */
  lemma RequestAnswer(s: State, g: nat, claim: Claim, now: int, ttl: int, active: bool)
    requires g !in s.grants
    ensures var known := claim.kind in {"discount", "void", "refund", "cash_paid_out", "cash_adjustment",
        "reopen_session",
                                        "room_charge_dispute", "room_charge_write_off"};
            Next(s, Request(g, claim, now, ttl, active))
            == if known && active then s.(grants := s.grants[g := Grant(claim, Pending, now + Ttl(ttl), None)]) else s
  {
  }

  /** Deciding: only a pending grant, and only with authority. Approving one that has run out expires it. */
  lemma DecisionAnswer(s: State, g: nat, approver: nat, now: int, authority: bool)
    ensures var x := Next(s, Approve(g, approver, now, authority));
            if g in s.grants && s.grants[g].status == Pending && authority
            then x == s.(grants := s.grants[g := if now < s.grants[g].expires
                                                 then s.grants[g].(status := Approved, approver := Some(approver))
                                                 else s.grants[g].(status := Expired)])
            else x == s
    ensures var x := Next(s, Reject(g, approver, authority));
            if g in s.grants && s.grants[g].status == Pending && authority
            then x == s.(grants := s.grants[g :=
                s.grants[g].(status := GrantStatus.Rejected, approver := Some(approver))])
            else x == s
  {
  }

  /** Spending: an approved grant of that very requester, action, type, entity and payload, before it runs out and
      while its approver still has authority. */
  lemma SpendAnswer(g: Grant, claim: Claim, now: int, authority: bool)
    ensures Consumable(g, claim, now, authority)
            <==> && g.claim.requester == claim.requester && g.claim.kind == claim.kind
                 && g.claim.entityType == claim.entityType && g.claim.entity == claim.entity
                     && g.claim.digest == claim.digest
                 && g.status == Approved && now < g.expires && authority
  {
  }

  /** A manager's own action leaves a grant that was consumed from the start. */
  lemma SelfTrace(s: State, t: nat, g: nat, claim: Claim, now: int)
    requires t !in s.txns && g !in s.grants && claim.kind in TYPES
    ensures var u := Next(Next(s, BeginSelf(t, claim, now, true)), Commit(t, g));
            && u.grants == s.grants[g := Grant(claim, Consumed, now + 120, Some(claim.requester))]
            && u.actions == s.actions + [Action(claim, g, now)]
    ensures Next(s, BeginSelf(t, claim, now, false)) == s
  {
  }

  // ----- the services, one transaction at a time

  class GrantTable {
    var grants: map<nat, Grant>

    constructor ()
      ensures grants == map[]
    {
      grants := map[];
    }

    method RequestApproval(g: nat, claim: Claim, now: int, ttl: int, active: bool) returns (ok: bool)
      requires g !in grants
      modifies this
      ensures ok <==> Askable(claim, active)
      ensures grants == if ok then old(grants)[g := Grant(claim, Pending, now + Ttl(ttl), None)] else old(grants)
    {
      if claim.kind !in TYPES || !active {
        return false;
      }
      grants := grants[g := Grant(claim, Pending, now + Ttl(ttl), None)];
      ok := true;
    }

    /** An expired request is marked so and still refused. */
    method ApproveGrant(g: nat, approver: nat, now: int, authority: bool) returns (ok: bool)
      modifies this
      ensures ok <==> g in old(grants) && old(grants)[g].status == Pending && authority && now < old(grants)[g].expires
      ensures forall l, x, a ::
        grants == Next(State(old(grants), l, x, a), Approve(g, approver, now, authority)).grants
    {
      if g !in grants || grants[g].status != Pending || !authority {
        return false;
      }
      if grants[g].expires <= now {
        grants := grants[g := grants[g].(status := Expired)];
        return false;
      }
      grants := grants[g := grants[g].(status := Approved, approver := Some(approver))];
      ok := true;
    }

    method RejectGrant(g: nat, approver: nat, authority: bool) returns (ok: bool)
      modifies this
      ensures ok <==> g in old(grants) && old(grants)[g].status == Pending && authority
      ensures grants == if ok then old(grants)[g := Decided(old(grants)[g], approver, GrantStatus.Rejected)]
          else old(grants)
    {
      if g !in grants || grants[g].status != Pending || !authority {
        return false;
      }
      grants := grants[g := grants[g].(status := GrantStatus.Rejected, approver := Some(approver))];
      ok := true;
    }

    /** Every mismatch is refused before the status is looked at; an expired grant is refused and rolled back. */
    method ConsumeApprovalGrant(g: nat, claim: Claim, now: int, authority: bool) returns (ok: bool)
      modifies this
      ensures ok <==> g in old(grants) && Consumable(old(grants)[g], claim, now, authority)
      ensures grants == if ok then old(grants)[g := old(grants)[g].(status := Consumed)] else old(grants)
    {
      if g !in grants {
        return false;
      }
      var row := grants[g];
      if row.claim.requester != claim.requester || row.claim.kind != claim.kind
         || row.claim.entityType != claim.entityType || row.claim.entity != claim.entity
         || row.claim.digest != claim.digest {
        return false;
      }
      if row.status != Approved || row.expires <= now || !authority {
        return false;
      }
      grants := grants[g := row.(status := Consumed)];
      ok := true;
    }

    /** A protected action spends the grant it names; without one, a manager's own request is recorded,
        approved and spent at once. `newGrant` is the id such a request gets. */
    method ConsumeProtectedApproval(named: Option<nat>, newGrant: nat, claim: Claim, now: int, authority: bool)
      returns (ok: bool)
      requires newGrant !in grants
      modifies this
      ensures named.Some? ==>
                && (ok <==> named.value in old(grants) && Consumable(old(grants)[named.value], claim, now, authority))
                && grants == if ok then old(grants)[named.value := old(grants)[named.value].(status := Consumed)]
                             else old(grants)
      ensures named.None? ==>
                && (ok <==> authority && claim.kind in TYPES)
                && var n := Grant(claim, Consumed, now + DEFAULT_TTL, Some(claim.requester));
                   grants == if ok then old(grants)[newGrant := n]
                             else old(grants)
    {
      if named.Some? {
        ok := ConsumeApprovalGrant(named.value, claim, now, authority);
        return;
      }
      if !authority {
        return false;
      }
      ok := RequestApproval(newGrant, claim, now, DEFAULT_TTL, authority);
      if !ok {
        return;
      }
      ok := ApproveGrant(newGrant, claim.requester, now, authority);
      ghost var asked := old(grants)[newGrant := Grant(claim, Pending, now + Ttl(DEFAULT_TTL), None)];
      assert grants == Next(State(asked, map[], map[], []), Approve(newGrant, claim.requester, now, authority)).grants;
      ok := ConsumeApprovalGrant(newGrant, claim, now, authority);
    }
  }
}
