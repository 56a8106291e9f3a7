/**
 How each request of the workspaces ends when nothing else happens: `Fate` runs the
 statements of one transaction to the end, and one lemma per request says in terms of
 the tables what that comes to.
 */
module WorkspaceAlone {
  import opened Common
  import opened WorkspaceProtocol
  import opened WorkspaceOwnership

  function Phase(pc: Pc): nat {
    if pc.LifeAsk? then 2 else if pc.LifeHeld? then 1 else 0
  }

  // Statements left within the phase, at most.
  function Left(pc: Pc): nat {
    match pc
    case Ready(_) => 0
    case CreateAsk(_) => 2
    case AuthAsk(_, _, _) => 5
    case AuthHeld(_, _, _) => 4
    case Authed(_, _, _, _) => 3
    case ChangeShared(_, _, _, _, _) => 2
    case AcceptAsk(_, _) => 5
    case AcceptFound(_, _, _) => 4
    case AcceptHeld(_, _, _) => 3
    case AcceptRead(_, _, _) => 2
    case LifeLoop(_, _, todo) => 2 * |todo| + 1
    case LifeCheck(_, _, _, todo) => 2 * |todo| + 2
    case _ => 1
  }

  // After the next statement.
  function After(s: State, t: TxId): State
    requires t in s.txs && Advance(s, t).Go?
  {
    s.(txs := s.txs[t := Advance(s, t).tx])
  }

  // The error that ends the transaction, or none if it gets to its commit.
  function Fate(s: State, t: TxId): Option<Error>
    requires t in s.txs
    decreases Phase(s.txs[t].pc), Left(s.txs[t].pc)
  {
    if s.txs[t].pc.Ready? then None
    else
      match Advance(s, t)
      case Fail(error) => Some(error)
      case Go(_) =>
        Descends(s, t);
        Fate(After(s, t), t)
  }

  // Each statement leaves fewer to run.
  predicate Fewer(a: Pc, b: Pc) {
    Phase(b) < Phase(a) || (Phase(b) == Phase(a) && Left(b) < Left(a))
  }

  lemma Descends(s: State, t: TxId)
    requires t in s.txs && !s.txs[t].pc.Ready? && Advance(s, t).Go?
    ensures Fewer(s.txs[t].pc, After(s, t).txs[t].pc)
  {
    hide LiveOwners, Owned, OtherLiveInvites, MemberWithEmail, MayChange, OpenIn, LiveUser, OtherOwner, UserWrite,
         ChangeWrite, Live, NewRow;
  }

  // From `a` to `b` the only transaction there is went on without changing its fate, or
  // has ended as it had to.
  ghost predicate GoesOn(a: State, b: State, t: TxId, raised: Option<Error>) {
    t in a.txs && a.txs.Keys == {t} ==>
      && b.db == a.db && b.now == a.now
      && if raised.Some? then raised == Fate(a, t)
         else b.txs.Keys == {t} && Fate(b, t) == Fate(a, t) && (b.txs[t].pc.Ready? ==> Fate(a, t) == None)
  }

  lemma StepGoesOn(s: State, t: TxId)
    requires t in s.txs && !s.txs[t].pc.Ready?
    ensures s.txs.Keys == {t} ==> Enabled(s, Step(t))
    ensures Enabled(s, Step(t)) ==>
              var next := Advance(s, t);
              GoesOn(s, Apply(s, Step(t)), t, if next.Go? then None else Some(next.error))
  {
  }

  // A statement that goes on to the commit if it does not fail.
  lemma LastStatement(s: State, t: TxId)
    requires t in s.txs && !s.txs[t].pc.Ready? && (Advance(s, t).Go? ==> Advance(s, t).tx.pc.Ready?)
    ensures Fate(s, t) == if Advance(s, t).Go? then None else Some(Advance(s, t).error)
  {
    hide Advance;
    if Advance(s, t).Go? {
      var ready := After(s, t);
      assert ready.txs[t].pc.Ready? && Fate(ready, t) == None;
    }
  }

  lemma CreateAlone(s: State, t: TxId, user: UserId)
    requires References(s.db) && t in s.txs && s.txs[t].pc == CreateAsk(user)
    ensures var db := s.db;
            Fate(s, t) ==
            if !(user in db.users && db.users[user].active && !db.users[user].deleted) then Some(Forbidden)
            else if |set w | w in db.workspaces && (w, user) in db.members && db.members[(w, user)] == Owner| >= 20
            then Some(WorkspaceLimit)
            else None
  {
    OwnedInline(s.db, user);
    if Advance(s, t).Go? {
      var held := After(s, t);
      assert Fate(s, t) == Fate(held, t);
      LastStatement(held, t);
    }
  }

  lemma OwnedInline(db: Db, user: UserId)
    requires References(db)
    ensures Owned(db, user) == set w | w in db.workspaces && (w, user) in db.members && db.members[(w, user)] == Owner
  {
    OwnedComplete(db, user);
    var inline := set w | w in db.workspaces && (w, user) in db.members && db.members[(w, user)] == Owner;
    assert forall w :: w in inline <==> HasRole(db, w, user, Owner);
  }

  // The two statements that all three requests on a workspace begin with.
  ghost function Entry(db: Db, w: WsId, actor: UserId, job: Job): Option<Error> {
    if w !in db.workspaces || (w, actor) !in db.members then Some(NotFound)
    else if !job.ChangeJob? && db.members[(w, actor)] == Member then Some(Forbidden)
    else None
  }

  lemma EntryAlone(s: State, t: TxId) returns (after: State)
    requires t in s.txs && s.txs[t].pc.AuthAsk?
    ensures var AuthAsk(w, actor, job) := s.txs[t].pc;
            if Entry(s.db, w, actor, job).Some? then Fate(s, t) == Entry(s.db, w, actor, job)
            else
              && after.db == s.db && t in after.txs && after.txs[t].start == s.txs[t].start
              && after.txs[t].pc == Authed(w, actor, job, s.db.members[(w, actor)]) && Fate(s, t) == Fate(after, t)
  {
    var AuthAsk(w, actor, job) := s.txs[t].pc;
    after := s;
    if w in s.db.workspaces {
      after := After(s, t);
      assert Fate(s, t) == Fate(after, t);
      if Advance(after, t).Go? {
        var held := after;
        after := After(held, t);
        assert Fate(held, t) == Fate(after, t);
      }
    }
  }

  lemma InviteAlone(s: State, t: TxId, w: WsId, actor: UserId, email: Email, role: Role)
    requires t in s.txs && s.txs[t].pc == AuthAsk(w, actor, InviteJob(email, role))
    ensures var db, start := s.db, s.txs[t].start;
            Fate(s, t) ==
            if w !in db.workspaces || (w, actor) !in db.members then Some(NotFound)
            else if db.members[(w, actor)] == Member then Some(Forbidden)
            else if db.members[(w, actor)] != Owner && role != Member then Some(OwnerRequired)
            else if exists u :: u in db.users && (w, u) in db.members && db.users[u].email == Some(email) &&
                      !db.users[u].deleted
            then Some(AlreadyMember)
            else if |set i | i in db.invites && db.invites[i].ws == w && db.invites[i].email != email &&
                       db.invites[i].accepted.None? && !db.invites[i].revoked && db.invites[i].expires > start| >= 100
            then Some(InvitationLimit)
            else None
  {
    var after := EntryAlone(s, t);
    if Entry(s.db, w, actor, InviteJob(email, role)).None? {
      InviteeAlone(after, t);
      OtherLiveInline(s.db, w, email, s.txs[t].start);
    }
  }

  lemma InviteeAlone(s: State, t: TxId)
    requires t in s.txs && s.txs[t].pc.Authed? && s.txs[t].pc.job.InviteJob?
    ensures var Authed(w, _, InviteJob(email, role), actorRole) := s.txs[t].pc;
            Fate(s, t) ==
            if actorRole != Owner && role != Member then Some(OwnerRequired)
            else if MemberWithEmail(s.db, w, email) then Some(AlreadyMember)
            else if |OtherLiveInvites(s.db, w, email, s.txs[t].start)| >= INVITE_LIMIT then Some(InvitationLimit)
            else None
  {
    if Advance(s, t).Go? {
      assert Fate(s, t) == Fate(After(s, t), t);
      LastStatement(After(s, t), t);
    }
  }

  lemma OtherLiveInline(db: Db, w: WsId, email: Email, now: int)
    ensures OtherLiveInvites(db, w, email, now) ==
            set i | i in db.invites && db.invites[i].ws == w && db.invites[i].email != email &&
              db.invites[i].accepted.None? && !db.invites[i].revoked && db.invites[i].expires > now
  {
  }

  lemma RevokeAlone(s: State, t: TxId, w: WsId, actor: UserId, i: InviteId)
    requires t in s.txs && s.txs[t].pc == AuthAsk(w, actor, RevokeJob(i))
    ensures var db := s.db;
            Fate(s, t) ==
            if w !in db.workspaces || (w, actor) !in db.members then Some(NotFound)
            else if db.members[(w, actor)] == Member then Some(Forbidden)
            else if i in db.invites && db.invites[i].ws == w &&
                    db.invites[i].accepted.None? && !db.invites[i].revoked &&
                    (db.members[(w, actor)] == Owner || db.invites[i].role == Member)
            then None
            else Some(NotFound)
  {
    var after := EntryAlone(s, t);
    if Entry(s.db, w, actor, RevokeJob(i)).None? {
      LastStatement(after, t);
    }
  }

  lemma ChangeAlone(s: State, t: TxId, w: WsId, actor: UserId, m: UserId, role: Option<Role>)
    requires t in s.txs && s.txs[t].pc == AuthAsk(w, actor, ChangeJob(m, role))
    ensures var db := s.db;
            Fate(s, t) ==
            if w !in db.workspaces || (w, actor) !in db.members then Some(NotFound)
            else if role.Some? && !(m in db.users && db.users[m].active && !db.users[m].deleted)
            then Some(MemberInactive)
            else if (w, m) !in db.members then Some(NotFound)
            else
              var mine, theirs := db.members[(w, actor)], db.members[(w, m)];
              if !(|| (m == actor && role.None?) || mine == Owner
                   || (mine == Admin && theirs == Member && (role.None? || role == Some(Member))))
              then Some(OwnerRequired)
              else if theirs == Owner && role != Some(Owner) &&
                      |set u | u in db.users && (w, u) in db.members && db.members[(w, u)] == Owner &&
                         db.users[u].active && !db.users[u].deleted| <= 1
              then Some(LastOwner)
              else None
  {
    var after := EntryAlone(s, t);
    OwnersInline(s.db, w);
    if Entry(s.db, w, actor, ChangeJob(m, role)).None? {
      TargetAlone(after, t);
    }
  }

  lemma OwnersInline(db: Db, w: WsId)
    ensures LiveOwners(db, w) ==
            set u | u in db.users && (w, u) in db.members && db.members[(w, u)] == Owner &&
              db.users[u].active && !db.users[u].deleted
  {
  }

  lemma TargetAlone(s: State, t: TxId)
    requires t in s.txs && s.txs[t].pc.Authed? && s.txs[t].pc.job.ChangeJob?
    ensures var Authed(w, actor, ChangeJob(m, role), mine) := s.txs[t].pc;
            Fate(s, t) ==
            if role.Some? && !LiveUser(s.db, m) then Some(MemberInactive)
            else if (w, m) !in s.db.members then Some(NotFound)
            else if !MayChange(mine, s.db.members[(w, m)], m == actor && role.None?, role) then Some(OwnerRequired)
            else if s.db.members[(w, m)] == Owner && role != Some(Owner) && |LiveOwners(s.db, w)| <= 1
            then Some(LastOwner)
            else None
  {
    hide LiveOwners, MayChange;
    if Advance(s, t).Go? {
      var shared := After(s, t);
      assert Fate(s, t) == Fate(shared, t);
      SharedAlone(shared, t);
    }
  }

  lemma SharedAlone(s: State, t: TxId)
    requires t in s.txs && s.txs[t].pc.ChangeShared?
    ensures var ChangeShared(w, actor, m, role, mine) := s.txs[t].pc;
            Fate(s, t) ==
            if (w, m) !in s.db.members then Some(NotFound)
            else if !MayChange(mine, s.db.members[(w, m)], m == actor && role.None?, role) then Some(OwnerRequired)
            else if s.db.members[(w, m)] == Owner && role != Some(Owner) && |LiveOwners(s.db, w)| <= 1
            then Some(LastOwner)
            else None
  {
    hide LiveOwners, MayChange;
    if Advance(s, t).Go? {
      var target := After(s, t);
      assert Fate(s, t) == Fate(target, t);
      LastStatement(target, t);
    }
  }

  lemma AcceptAlone(s: State, t: TxId, user: UserId, i: InviteId)
    requires References(s.db) && t in s.txs && s.txs[t].pc == AcceptAsk(user, i)
    ensures var db := s.db;
            Fate(s, t) ==
            if !(i in db.invites && db.invites[i].accepted.None? && !db.invites[i].revoked &&
                 db.invites[i].expires > s.txs[t].start)
            then Some(InvitationInvalid)
            else if !(user in db.users && db.users[user].active && !db.users[user].deleted &&
                      db.users[user].email == Some(db.invites[i].email))
            then Some(EmailMismatch)
            else None
  {
    if i in s.db.invites {
      var found := After(s, t);
      assert Fate(s, t) == Fate(found, t);
      var held := After(found, t);
      assert Fate(found, t) == Fate(held, t);
      if Advance(held, t).Go? {
        var read := After(held, t);
        assert Fate(held, t) == Fate(read, t);
        AdmitAlone(read, t);
      }
    }
  }

  lemma AdmitAlone(s: State, t: TxId)
    requires t in s.txs && s.txs[t].pc.AcceptRead?
    ensures var AcceptRead(user, i, _) := s.txs[t].pc;
            Fate(s, t) ==
            if i in s.db.invites && LiveUser(s.db, user) && s.db.users[user].email == Some(s.db.invites[i].email)
            then None else Some(EmailMismatch)
  {
    if Advance(s, t).Go? {
      var admitted := After(s, t);
      assert Fate(s, t) == Fate(admitted, t);
      LastStatement(admitted, t);
    }
  }

  // The trigger's loop refuses exactly if some listed workspace has no other owner.
  lemma {:induction false} LoopAlone(s: State, t: TxId)
    requires t in s.txs && s.txs[t].pc.LifeLoop? && s.txs[t].pc.user in s.db.users
    ensures var LifeLoop(user, _, todo) := s.txs[t].pc;
            Fate(s, t) ==
            if exists w :: w in todo && !OtherOwner(s.db, w, user) then Some(WorkspaceActiveOwner) else None
    decreases |s.txs[t].pc.todo|
  {
    var LifeLoop(user, change, todo) := s.txs[t].pc;
    if todo == {} {
      LastStatement(s, t);
    } else {
      var w, rest := Least(todo), todo - {Least(todo)};
      var check := After(s, t);
      assert Fate(s, t) == Fate(check, t);
      if OtherOwner(s.db, w, user) {
        var loop := After(check, t);
        assert Fate(check, t) == Fate(loop, t);
        LoopAlone(loop, t);
        assert forall x :: x in todo <==> x == w || x in rest;
      }
    }
  }

  // What takes an active user away.
  predicate TakesAway(change: Change) {
    change.HardDelete? || change.SoftDelete? || change == SetStatus(false)
  }

  lemma LifeAlone(s: State, t: TxId, user: UserId, change: Change, mode: LockMode)
    requires References(s.db) && EachWorkspaceOwned(s.db)
    requires t in s.txs && s.txs[t].pc == LifeAsk(user, change, mode)
    ensures Fate(s, t) ==
            if user !in s.db.users then Some(NotFound)
            else if (change.HardDelete? || change.SoftDelete? || change == SetStatus(false)) &&
                    exists w :: w in s.db.workspaces &&
                      (set u | u in s.db.users && (w, u) in s.db.members && s.db.members[(w, u)] == Owner &&
                         s.db.users[u].active && !s.db.users[u].deleted) == {user}
            then Some(WorkspaceActiveOwner)
            else None
  {
    forall w { OwnersInline(s.db, w); }
    if user in s.db.users {
      var held := After(s, t);
      assert Fate(s, t) == Fate(held, t);
      var next := After(held, t);
      assert Fate(held, t) == Fate(next, t);
      if next.txs[t].pc.Ready? {
        LastStatement(held, t);
      } else {
        LoopAlone(next, t);
        SoleOwnerMeans(s.db, user);
        if !TakesAway(change) { OthersOwn(s.db, user); }
      }
    }
  }

  lemma OthersOwn(db: Db, user: UserId)
    requires References(db) && EachWorkspaceOwned(db) && !LiveUser(db, user)
    ensures forall w :: w in Owned(db, user) ==> OtherOwner(db, w, user)
  {
    forall w | w in Owned(db, user) ensures OtherOwner(db, w, user) {
      OwnedComplete(db, user);
      assert HasRole(db, w, user, Owner) && w in db.workspaces;
      var v :| v in db.users && LiveOwner(db, w, v);
    }
  }

  lemma SoleOwnerMeans(db: Db, user: UserId)
    requires References(db) && EachWorkspaceOwned(db)
    ensures (exists w :: w in Owned(db, user) && !OtherOwner(db, w, user)) <==>
            (exists w :: w in db.workspaces && LiveOwners(db, w) == {user})
  {
    OwnedComplete(db, user);
    forall w | w in Owned(db, user) && !OtherOwner(db, w, user)
      ensures w in db.workspaces && LiveOwners(db, w) == {user}
    {
      assert HasRole(db, w, user, Owner);
      var v :| v in db.users && LiveOwner(db, w, v);
      assert v in LiveOwners(db, w);
    }
    forall w | w in db.workspaces && LiveOwners(db, w) == {user}
      ensures w in Owned(db, user) && !OtherOwner(db, w, user)
    {
      assert user in LiveOwners(db, w);
      assert forall v :: v in db.users && LiveOwner(db, w, v) ==> v in LiveOwners(db, w);
    }
  }
}
