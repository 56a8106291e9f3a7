/**
 How each request on accounts ends when nothing else happens: `Fate` runs the statements
 of one transaction to the end, and one lemma per request says in terms of the tables
 what that comes to.
 */
module AccountAlone {
  import opened Common
  import opened AccountProtocol

  // Statements left, at most.
  function Left(pc: Pc): nat {
    match pc
    case Ask => 3
    case RoleHeld => 2
    case Checked(_) => 1
    case Locked => 1
    case Ready(_) => 0
  }

  // After the next statement.
  function After(s: State, t: TxId): State
    requires t in s.txs && Advance(s, t).Go?
  {
    s.(txs := s.txs[t := Advance(s, t).tx])
  }

  lemma Descends(s: State, t: TxId)
    requires t in s.txs && !s.txs[t].pc.Ready? && Advance(s, t).Go?
    ensures Left(After(s, t).txs[t].pc) < Left(s.txs[t].pc)
  {
    hide Prepare, Precheck, CreatedRow, Target, Password, Matches;
  }

  // The error that ends the transaction, or none if it gets to its commit.
  function Fate(s: State, t: TxId): Option<Error>
    requires t in s.txs
    decreases Left(s.txs[t].pc)
  {
    if s.txs[t].pc.Ready? then None
    else
      match Advance(s, t)
      case Fail(error) => Some(error)
      case Go(_) =>
        Descends(s, t);
        Fate(After(s, t), t)
  }

  // From `a` to `b` the only transaction there is went on without changing its fate, or
  // has ended as it had to.
  ghost predicate GoesOn(a: State, b: State, t: TxId, raised: Option<Error>) {
    t in a.txs && a.txs.Keys == {t} ==>
      && b.db == a.db
      && if raised.Some? then raised == Fate(a, t)
         else b.txs.Keys == {t} && Fate(b, t) == Fate(a, t) && (b.txs[t].pc.Ready? ==> Fate(a, t) == None)
  }

  lemma StepGoesOn(s: State, t: TxId)
    requires t in s.txs && !s.txs[t].pc.Ready?
    ensures s.txs.Keys == {t} ==> Enabled(s, Step(t))
    ensures Enabled(s, Step(t)) ==>
              var next := Advance(s, t);
              GoesOn(s, Apply(s, Step(t)), t, if next.Go? then None else Some(next.error))
  {
    hide Advance;
  }

  // A statement that goes on to the commit if it does not fail.
  lemma LastStatement(s: State, t: TxId)
    requires t in s.txs && !s.txs[t].pc.Ready? && (Advance(s, t).Go? ==> Advance(s, t).tx.pc.Ready?)
    ensures Fate(s, t) == if Advance(s, t).Go? then None else Some(Advance(s, t).error)
  {
    hide Advance;
    if Advance(s, t).Go? {
      var ready := After(s, t);
      assert ready.txs[t].pc.Ready? && Fate(ready, t) == None;
    }
  }

  // Equal to the text under some salt.
  ghost predicate PasswordIs(row: Account, plain: nat) {
    row.passwords != [] && exists salt :: row.passwords[|row.passwords| - 1].to == Hash(plain, salt)
  }

  lemma MatchesMeans(row: Account, plain: nat)
    ensures Matches(Password(row), plain) <==> PasswordIs(row, plain)
  {
    if Matches(Password(row), plain) {
      assert row.passwords[|row.passwords| - 1].to == Hash(plain, Password(row).salt);
    }
  }

  lemma LoginAlone(s: State, t: TxId, user: UserId, plain: nat)
    requires t in s.txs && s.txs[t] == Tx(Login(user, plain), {}, Ask)
    ensures var db := s.db;
            Fate(s, t) ==
            if user in db.accounts && !db.accounts[user].deleted && db.accounts[user].status == Active &&
               PasswordIs(db.accounts[user], plain)
            then None else Some(InvalidLogin)
  {
    if user in s.db.accounts { MatchesMeans(s.db.accounts[user], plain); }
    hide Password, Matches, PasswordIs;
    if Advance(s, t).Go? {
      var checked := After(s, t);
      assert Fate(s, t) == Fate(checked, t);
      LastStatement(checked, t);
    }
  }

  // A holder's request: the account, then what the locked row has against it.
  lemma UpdateAlone(s: State, t: TxId, r: Request, u: UserId)
    requires t in s.txs && s.txs[t] == Tx(r, {}, Ask) && u == Target(r, t)
    requires !r.Login? && !Administrative(r)
    ensures Fate(s, t) ==
            if r.SelfDelete? && r.authenticatedRole == 1 then Some(AdministratorRole)
            else if u !in s.db.accounts || (s.db.accounts[u].deleted && !r.SelfDelete?) then Some(NotFound)
            else
              var row := s.db.accounts[u];
              match r
              case Reset(link, _) => if Password(row) == link.signedWith then None else Some(InvalidLink)
              case SelfUpdate(_, _, oldPlain, newPlain) =>
                if newPlain.Some? && (oldPlain.None? || !PasswordIs(row, oldPlain.value)) then Some(WrongOldPassword)
                else None
              case Confirm(_) => if row.status == Pending then None else Some(InvalidLink)
              case ConfirmNewEmail(_) => if row.status == Active then None else Some(InvalidLink)
              case _ => None
  {
    if u in s.db.accounts && r.SelfUpdate? && r.oldPlain.Some? { MatchesMeans(s.db.accounts[u], r.oldPlain.value); }
    hide PasswordIs, Password, Matches;
    if Advance(s, t).Go? {
      var locked := After(s, t);
      assert Fate(s, t) == Fate(locked, t);
      LastStatement(locked, t);
    }
  }

  // A save or removal that passes its own checks: what is decided with the target locked.
  lemma TargetAlone(s: State, t: TxId, r: Request) returns (locked: State)
    requires t in s.txs && s.txs[t] == Tx(r, {}, Ask) && (r.Save? || r.Remove?) && Precheck(r).None?
    ensures t in locked.txs
    ensures if !(r.target in s.db.accounts && !s.db.accounts[r.target].deleted &&
                 s.db.accounts[r.target].customer == r.customer)
            then Fate(s, t) == Some(NotFound)
            else
              && locked.db == s.db && locked.txs[t].request == r && locked.txs[t].pc == Locked
              && Fate(s, t) == Fate(locked, t)
  {
    hide Prepare, Precheck;
    var held := After(s, t);
    locked := held;
    assert Fate(s, t) == Fate(held, t);
    if Advance(held, t).Go? {
      locked := After(held, t);
      assert Fate(held, t) == Fate(locked, t);
    }
  }

  lemma RemoveAlone(s: State, t: TxId, r: Request)
    requires t in s.txs && s.txs[t] == Tx(r, {}, Ask) && r.Remove?
    ensures Fate(s, t) ==
            if r.target == r.actor then Some(DeleteYourself)
            else if !(r.target in s.db.accounts && !s.db.accounts[r.target].deleted &&
                      s.db.accounts[r.target].customer == r.customer)
            then Some(NotFound)
            else if s.db.accounts[r.target].role == 1 then Some(AdministratorRole)
            else None
  {
    if Precheck(r).None? {
      var locked := TargetAlone(s, t, r);
      if locked.txs[t].pc.Locked? { LastStatement(locked, t); }
    }
  }

  lemma SaveAlone(s: State, t: TxId, r: Request)
    requires t in s.txs && s.txs[t] == Tx(r, {}, Ask) && r.Save?
    ensures Fate(s, t) ==
            if r.target == r.actor && r.active == Some(false) then Some(DisableYourself)
            else if r.password.None? && r.active.None? && !r.profile && (r.role.None? || r.customer)
            then Some(NoChanges)
            else if !(r.target in s.db.accounts && !s.db.accounts[r.target].deleted &&
                      s.db.accounts[r.target].customer == r.customer)
            then Some(NotFound)
            else
              var row := s.db.accounts[r.target];
              var otherRole := if r.customer then row.role != 2 else r.role.Some? && r.role.value != row.role;
              if r.target == r.actor && otherRole then Some(OwnRole)
              else if (otherRole || r.active == Some(false)) &&
                      (set u | u in s.db.accounts && s.db.accounts[u].role == 1 && s.db.accounts[u].status == Active &&
                         !s.db.accounts[u].deleted) == {r.target}
              then Some(LastAdministrator)
              else None
  {
    if Precheck(r).None? {
      var locked := TargetAlone(s, t, r);
      AdminsInline(s.db, r.target);
      if locked.txs[t].pc.Locked? {
        hide LiveAdmins;
        LastStatement(locked, t);
      }
    }
  }

  // Being an administrator and counting at most one is being the only one.
  lemma AdminsInline(db: Db, u: UserId)
    ensures LiveAdmins(db) ==
            set v | v in db.accounts && db.accounts[v].role == 1 && db.accounts[v].status == Active &&
              !db.accounts[v].deleted
    ensures LiveAdmin(db, u) && |LiveAdmins(db)| <= 1 <==> LiveAdmins(db) == {u}
  {
    if LiveAdmin(db, u) && |LiveAdmins(db)| <= 1 {
      assert u in LiveAdmins(db);
      assert |LiveAdmins(db) - {u}| == 0;
    }
    if LiveAdmins(db) == {u} {
      assert u in LiveAdmins(db);
    }
  }

  lemma CreateAlone(s: State, t: TxId, r: Request)
    requires t in s.txs && s.txs[t] == Tx(r, {}, Ask) && r.Create?
    ensures Fate(s, t) == None
  {
    hide Prepare, CreatedRow;
    var held := After(s, t);
    assert Fate(s, t) == Fate(held, t);
    LastStatement(held, t);
  }
}
