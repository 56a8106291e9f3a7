/**
 Login, reset, self-service update and the administrator's requests, statement by
 statement, while other requests run in between.
 */
module AccountService {
  import opened Common
  import opened AccountProtocol
  import opened AccountSessions
  import opened AccountAlone

  // What the other transactions do before each statement of a request.
  type Schedule = nat -> seq<Event>

  datatype Outcome = Done | Failed(error: Error)

  // The run went through the state `x` after `from` events or later.
  ghost predicate Passed(origin: State, trace: seq<Event>, from: nat, x: State) {
    exists n: nat :: from <= n <= |trace| && Valid(origin, trace[..n]) && Run(origin, trace[..n]) == x
  }

  lemma PassedStill(origin: State, trace: seq<Event>, trace': seq<Event>, from: nat, from': nat, x: State)
    requires Passed(origin, trace, from, x) && trace <= trace' && from' <= from
    ensures Passed(origin, trace', from', x)
  {
    var n: nat :| from <= n <= |trace| && Valid(origin, trace[..n]) && Run(origin, trace[..n]) == x;
    assert trace'[..n] == trace[..n];
  }

  ghost predicate Quiet(rivals: Schedule) {
    forall n :: rivals(n) == []
  }

  lemma QuietAt(rivals: Schedule, n: nat)
    ensures Quiet(rivals) ==> rivals(n) == []
  {
  }

  // A longer history without a commit of `t` in what was added.
  ghost predicate Continues(before: seq<Event>, after: seq<Event>, t: TxId) {
    before <= after && forall i :: |before| <= i < |after| ==> after[i] != Commit(t)
  }

  // The transaction wants a lock that another one has in a conflicting mode.
  ghost predicate Stuck(s: State, t: TxId) {
    t in s.txs && Blocked(s, t)
  }

  predicate Foreign(e: Event, t: TxId) {
    match e
    case Step(t') => t' != t
    case Commit(t') => t' != t
    case Abort(t') => t' != t
    case _ => true
  }

  // Every session of u but the spared one is revoked; nothing else changed.
  ghost predicate EndedAllBut(a: Db, b: Db, u: UserId, spared: Option<SessionId>) {
    && a.sessions.Keys == b.sessions.Keys
    && forall id :: id in a.sessions ==>
         b.sessions[id] == if a.sessions[id].user == u && Some(id) != spared
                           then a.sessions[id].(revoked := true) else a.sessions[id]
  }

  class Identity {
    var s: State
    ghost var origin: State
    ghost var trace: seq<Event>
    ghost var previous: State // before the latest event

    // Everything the object goes through is a run of the protocol.
    ghost predicate Reachable()
      reads this
    {
      && Initial(origin) && Valid(origin, trace) && Run(origin, trace) == s
      && (trace != [] ==>
            var n := |trace| - 1;
            Valid(origin, trace[..n]) && Run(origin, trace[..n]) == previous)
    }

    // The call was one transaction of this run, named by the next free name: its first
    // event is the request, and its commit is the latest event or does not exist.
    twostate predicate Conducted(request: Request, done: bool)
      reads this
    {
      && origin == old(origin) && old(trace) < trace && trace[|old(trace)|] == Begin(request)
      && old(s).next !in s.txs
      && if done then trace[|trace| - 1] == Commit(old(s).next) else Continues(old(trace), trace, old(s).next)
    }

    // The transaction `t` went on without committing; with an error it is gone.
    twostate predicate Carried(t: TxId, gone: bool)
      reads this
    {
      && origin == old(origin) && Continues(old(trace), trace, t)
      && (gone ==> t !in s.txs && s.db == previous.db)
    }

    // A state this call went through.
    twostate predicate Met(x: State)
      reads this
    {
      Passed(origin, trace, |old(trace)|, x)
    }

    // What the protocol guarantees to an open transaction.
    lemma Promise(t: TxId)
      requires Reachable() && t in s.txs
      ensures Fact(s.db, t, s.txs[t]) && Unused(s, t)
    {
      RunKeepsInv(origin, trace);
    }

    constructor (s0: State)
      requires Initial(s0)
      ensures Reachable() && s == origin == s0 && trace == []
    {
      s, origin, trace, previous := s0, s0, [], s0;
    }

    method Perform(e: Event)
      requires Reachable() && Enabled(s, e)
      modifies this
      ensures Reachable() && s == Apply(old(s), e) && previous == old(s)
      ensures origin == old(origin) && trace == old(trace) + [e]
    {
      RunAppend(origin, trace, e);
      s, trace, previous := Apply(s, e), trace + [e], s;
      assert trace[..|trace| - 1] == old(trace);
    }

    method Others(t: TxId, rivals: seq<Event>)
      requires Reachable() && t in s.txs
      modifies this
      ensures Reachable() && t in s.txs && s.txs[t] == old(s.txs[t])
      ensures origin == old(origin) && Continues(old(trace), trace, t)
      ensures rivals == [] ==> s == old(s)
    {
      for i := 0 to |rivals|
        invariant Reachable() && t in s.txs && s.txs[t] == old(s.txs[t])
        invariant origin == old(origin) && Continues(old(trace), trace, t)
        invariant i == 0 ==> s == old(s)
      {
        if Foreign(rivals[i], t) && Enabled(s, rivals[i]) {
          assert t < s.next by { Promise(t); }
          Perform(rivals[i]);
        }
      }
    }

    method Start(r: Request) returns (t: TxId)
      requires Reachable()
      modifies this
      ensures Reachable() && t in s.txs && s.txs[t] == Tx(r, {}, Ask) && s.db == old(s.db)
      ensures old(s).txs == map[] ==> s.txs.Keys == {t}
      ensures t == old(s).next && origin == old(origin) && trace == old(trace) + [Begin(r)]
    {
      hide Reachable, Advance, Blocked;
      t := s.next;
      Perform(Begin(r));
    }

    // The statement itself: it executes, raises, or is still waiting for a lock and the
    // transaction is given up.
    method Execute(t: TxId) returns (raised: Option<Error>)
      requires Reachable() && t in s.txs && !s.txs[t].pc.Ready?
      modifies this
      ensures Reachable() && Carried(t, raised.Some?) && previous == old(s) && |trace| == |old(trace)| + 1
      ensures GoesOn(old(s), s, t, raised) && s.db == old(s).db
      ensures raised == Some(Aborted) ==> Stuck(previous, t)
      ensures raised.None? ==> t in s.txs && Advance(old(s), t) == Go(s.txs[t])
      ensures raised.Some? ==>
                && t !in s.txs
                && if Blocked(old(s), t) then raised == Some(Aborted) else Advance(old(s), t) == Fail(raised.value)
    {
      hide Reachable, Fate;
      StepGoesOn(s, t);
      if Blocked(s, t) {
        Perform(Abort(t));
        raised := Some(Aborted);
      } else {
        raised := if Advance(s, t).Go? then None else Some(Advance(s, t).error);
        Perform(Step(t));
      }
    }

    // The others run, then the statement executes.
    method Statement(t: TxId, rivals: seq<Event>) returns (raised: Option<Error>)
      requires Reachable() && t in s.txs && !s.txs[t].pc.Ready?
      modifies this
      ensures Reachable() && Carried(t, raised.Some?) && |old(trace)| < |trace|
      ensures rivals == [] ==> GoesOn(old(s), s, t, raised)
      ensures raised == Some(Aborted) ==> Stuck(previous, t)
      ensures var pre := previous;
              && t in pre.txs && pre.txs[t] == old(s.txs[t]) && s.db == pre.db && Fact(pre.db, t, pre.txs[t])
              && (raised.None? ==> t in s.txs && Advance(pre, t) == Go(s.txs[t]))
              && (raised.Some? ==>
                    && t !in s.txs
                    && if Blocked(pre, t) then raised == Some(Aborted) else Advance(pre, t) == Fail(raised.value))
    {
      hide Fate, Stuck, Blocked, Advance, GoesOn;
      Others(t, rivals);
      assert Fact(s.db, t, s.txs[t]) by { Promise(t); }
      raised := Execute(t);
    }

    // The commit, and the state it met in `previous`.
    method Finish(t: TxId, rivals: seq<Event>)
      requires Reachable() && t in s.txs && s.txs[t].pc.Ready?
      modifies this
      ensures Reachable() && origin == old(origin) && old(trace) < trace && trace[|trace| - 1] == Commit(t)
      ensures t !in s.txs && s.db == ApplyWrite(previous.db, old(s.txs[t]).pc.write)
      ensures WriteFact(previous.db, t, old(s.txs[t]), old(s.txs[t]).pc.write)
      ensures t !in previous.db.sessions && t !in previous.db.accounts
      ensures rivals == [] ==> previous == old(s)
    {
      Others(t, rivals);
      assert Fact(s.db, t, s.txs[t]) && t !in s.db.sessions && t !in s.db.accounts by { Promise(t); }
      Perform(Commit(t));
    }

    // The check of the password, outside any transaction of its own.
    method CheckPassword(t: TxId, rivals: seq<Event>) returns (raised: Option<Error>)
      requires Reachable() && t in s.txs && s.txs[t].pc.Ask? && s.txs[t].request.Login?
      modifies this
      ensures Reachable() && Carried(t, raised.Some?) && |old(trace)| < |trace| && s.db == previous.db
      ensures rivals == [] ==> GoesOn(old(s), s, t, raised)
      ensures raised == Some(Aborted) ==> Stuck(previous, t)
      ensures raised.None? ==>
                var Login(user, plain) := old(s.txs[t]).request;
                && t in s.txs && s.txs[t].request == old(s.txs[t]).request && Authentic(s.db, user, plain)
                && s.txs[t].pc == Checked(Password(s.db.accounts[user])) && Matches(s.txs[t].pc.credential, plain)
      ensures raised.Some? ==>
                var Login(user, plain) := old(s.txs[t]).request;
                raised.value in {InvalidLogin, Aborted} &&
                  (raised == Some(InvalidLogin) ==> !Authentic(s.db, user, plain))
    {
      hide Reachable, Fate, Stuck;
      raised := Statement(t, rivals);
    }

    // The account is locked and compared with the credential that was checked, then the
    // session is opened.
    method OpenSession(t: TxId, rivals: Schedule) returns (raised: Option<Error>)
      requires Reachable() && t in s.txs && s.txs[t].pc.Checked? && s.txs[t].request.Login?
      requires Matches(s.txs[t].pc.credential, s.txs[t].request.plain)
      modifies this
      ensures Reachable() && origin == old(origin) && old(trace) < trace && t !in s.txs
      ensures raised.None? ==>
                var Login(user, plain) := old(s.txs[t]).request;
                && trace[|trace| - 1] == Commit(t) && Authentic(s.db, user, plain)
                && Opened(previous.db, s.db, user, t)
      ensures raised.Some? ==>
                var u, credential := old(s.txs[t]).request.user, old(s.txs[t]).pc.credential;
                && Carried(t, true) && raised.value in {Unauthorized, Aborted}
                && (raised == Some(Unauthorized) ==> !Current(s.db, u, credential))
      ensures Quiet(rivals) && old(s).txs.Keys == {t} ==> raised == Fate(old(s), t) && previous.db == old(s).db
      ensures raised == Some(Aborted) ==> Stuck(previous, t)
    {
      hide Reachable, Fate, Stuck;
      raised := Statement(t, rivals(1));
      if raised.None? {
        Finish(t, rivals(2));
      }
    }

    // The latest state but one is a state of the run.
    lemma PreviousPassed(from: nat)
      requires Reachable() && from < |trace|
      ensures Passed(origin, trace, from, previous)
    {
    }

    // Check the password, then open a session for the credential that was checked, in
    // the state `checked`.
    method ValidateLogin(user: UserId, plain: nat, rivals: Schedule)
      returns (o: Outcome, id: SessionId, ghost checked: State)
      requires Reachable()
      modifies this
      ensures Reachable() && Conducted(Login(user, plain), o.Done?) && id == old(s).next
      ensures o == Failed(Aborted) ==> Stuck(previous, old(s).next)
      ensures o.Done? ==>
                Authentic(s.db, user, plain) && Opened(previous.db, s.db, user, id)
      ensures o.Failed? ==> s.db == previous.db
      ensures o == Failed(InvalidLogin) ==> !Authentic(s.db, user, plain)
      ensures o == Failed(Unauthorized) ==>
                && Met(checked) && Authentic(checked.db, user, plain)
                && !Current(s.db, user, Password(checked.db.accounts[user]))
      ensures Quiet(rivals) && old(s).txs == map[] ==>
                var db := old(s).db;
                && previous.db == db
                && o == if user in db.accounts && !db.accounts[user].deleted && db.accounts[user].status == Active &&
                           PasswordIs(db.accounts[user], plain)
                        then Done else Failed(InvalidLogin)
    {
      hide Reachable, Passed, Authentic, Current, Opened, Fate, Stuck, Quiet, PasswordIs;
      id := Start(Login(user, plain));
      LoginAlone(s, id, user, plain);
      QuietAt(rivals, 0);
      var raised := CheckPassword(id, rivals(0));
      checked := previous;
      if raised.Some? { return Failed(raised.value), id, checked; }
      PreviousPassed(|old(trace)|);
      ghost var history := trace;
      raised := OpenSession(id, rivals);
      PassedStill(origin, history, trace, |old(trace)|, |old(trace)|, checked);
      o := if raised.Some? then Failed(raised.value) else Done;
    }

    // updateAtomically: lock the account, decide on the locked row, write.
    method UpdateAtomically(r: Request, rivals: Schedule) returns (o: Outcome)
      requires Reachable() && HoldersOwn(r)
      modifies this
      ensures Reachable() && Conducted(r, o.Done?)
      ensures o == Failed(Aborted) ==> Stuck(previous, old(s).next)
      ensures o.Done? ==> UpdatedTo(r, old(s).next, previous.db, s.db)
      ensures o.Failed? ==> s.db == previous.db
      ensures o.Failed? && o.error != Aborted ==> Unfit(r, old(s).next, s.db, o.error)
      ensures Quiet(rivals) && old(s).txs == map[] ==>
                var u := match r
                         case Reset(link, _) => link.user
                         case SelfUpdate(user, _, _, _) => user
                         case Confirm(user) => user
                         case ConfirmNewEmail(user) => user
                         case SelfDelete(user, _) => user;
                var accounts := old(s).db.accounts;
                && previous.db == old(s).db
                && o == if r.SelfDelete? && r.authenticatedRole == 1 then Failed(AdministratorRole)
                        else if u !in accounts || (accounts[u].deleted && !r.SelfDelete?) then Failed(NotFound)
                        else
                          match r
                          case Reset(link, _) =>
                            if Password(accounts[u]) == link.signedWith then Done else Failed(InvalidLink)
                          case SelfUpdate(_, _, oldPlain, newPlain) =>
                            if newPlain.Some? && (oldPlain.None? || !PasswordIs(accounts[u], oldPlain.value))
                            then Failed(WrongOldPassword) else Done
                          case Confirm(_) => if accounts[u].status == Pending then Done else Failed(InvalidLink)
                          case ConfirmNewEmail(_) => if accounts[u].status == Active then Done else Failed(InvalidLink)
                          case SelfDelete(_, _) => Done
    {
      hide Reachable, UpdatedTo, Unfit, Fate, Stuck, Quiet, PasswordIs, Target;
      var t := Start(r);
      HolderIsTarget(r, t);
      UpdateAlone(s, t, r, Target(r, t));
      QuietAt(rivals, 2);
      var raised := DecideUpdate(t, rivals);
      if raised.Some? { return Failed(raised.value); }
      ghost var decided := s.txs[t];
      Finish(t, rivals(2));
      UpdateIsUpdated(previous.db, t, decided);
      o := Done;
    }

    method DecideUpdate(t: TxId, rivals: Schedule) returns (raised: Option<Error>)
      requires Reachable() && t in s.txs && s.txs[t].pc.Ask? && HoldersOwn(s.txs[t].request)
      modifies this
      ensures Reachable() && Carried(t, raised.Some?)
      ensures Quiet(rivals) ==> GoesOn(old(s), s, t, raised)
      ensures raised == Some(Aborted) ==> Stuck(previous, t)
      ensures raised.None? ==>
                && t in s.txs && s.txs[t].request == old(s.txs[t]).request && s.txs[t].pc.Ready? &&
                   s.txs[t].pc.write.Put?
                && Precheck(s.txs[t].request).None?
      ensures raised.Some? && raised != Some(Aborted) ==> Unfit(old(s.txs[t]).request, t, s.db, raised.value)
    {
      hide Reachable, Fate, Stuck;
      raised := Statement(t, rivals(0));
      if raised.Some? { return; }
      raised := Statement(t, rivals(1));
    }

    // The role row, then the target's row.
    method LockTarget(t: TxId, rivals: Schedule) returns (raised: Option<Error>)
      requires Reachable() && t in s.txs && s.txs[t].pc.Ask? && (s.txs[t].request.Save? || s.txs[t].request.Remove?)
      modifies this
      ensures Reachable() && Carried(t, raised.Some?)
      ensures Quiet(rivals) ==> GoesOn(old(s), s, t, raised)
      ensures raised == Some(Aborted) ==> Stuck(previous, t)
      ensures raised.None? ==>
                var r := old(s.txs[t]).request;
                t in s.txs && s.txs[t].request == r && s.txs[t].pc.Locked? && Precheck(r).None?
      ensures raised.Some? ==>
                var r := old(s.txs[t]).request;
                && (raised.value in {NotFound, Aborted} || Precheck(r) == raised)
                && (raised == Some(NotFound) ==>
                      !Exists(s.db, Target(r, t)) || !RightType(r, s.db.accounts[Target(r, t)]))
    {
      hide Reachable, Fate, Stuck;
      raised := Statement(t, rivals(0));
      if raised.Some? { return; }
      raised := Statement(t, rivals(1));
    }

    // The role row is locked for an administrator's save of a new account.
    method DecideCreation(t: TxId, r: Request, rivals: Schedule) returns (raised: Option<Error>)
      requires Reachable() && t in s.txs && s.txs[t] == Tx(r, {}, Ask) && r.Create?
      modifies this
      ensures Reachable() && Carried(t, raised.Some?)
      ensures Quiet(rivals) ==> GoesOn(old(s), s, t, raised)
      ensures raised == Some(Aborted) ==> Stuck(previous, t)
      ensures raised.None? ==>
                t in s.txs && s.txs[t].request == r && s.txs[t].pc == Ready(Put(t, CreatedRow(r, t), Keep))
      ensures raised.Some? ==> raised == Some(Aborted)
    {
      hide Reachable, Fate, Stuck, CreatedRow;
      raised := Statement(t, rivals(0));
      if raised.Some? { return; }
      raised := Statement(t, rivals(1));
    }

    method AddAccount(t: TxId, r: Request, rivals: seq<Event>)
      requires Reachable() && t in s.txs && r.Create? && s.txs[t].pc == Ready(Put(t, CreatedRow(r, t), Keep))
      modifies this
      ensures Reachable() && origin == old(origin) && old(trace) < trace && trace[|trace| - 1] == Commit(t)
      ensures rivals == [] ==> previous == old(s)
      ensures t !in s.txs && t !in previous.db.accounts && s.db.sessions == previous.db.sessions
      ensures s.db.accounts == previous.db.accounts[t := CreatedRow(r, t)]
    {
      hide Reachable, CreatedRow;
      Finish(t, rivals);
      KeepKeepsSessions(previous.db.sessions, t);
    }

    // An administrator's save of a new account.
    method Create(r: Request, rivals: Schedule) returns (o: Outcome, id: UserId)
      requires Reachable() && r.Create?
      modifies this
      ensures Reachable() && Conducted(r, o.Done?) && id == old(s).next
      ensures o == Failed(Aborted) ==> Stuck(previous, old(s).next)
      ensures o.Done? ==>
                && id !in previous.db.accounts && s.db.sessions == previous.db.sessions && id in s.db.accounts
                && s.db.accounts == previous.db.accounts[id := s.db.accounts[id]]
                && var row := s.db.accounts[id];
                   && Matches(Password(row), r.plain) && row.status == (if r.enabled then Active else Inactive)
                   && row.role == (if r.role.Some? && !r.customer then r.role.value else 2)
                   && row.customer == r.customer && !row.deleted
      ensures o.Failed? ==> s.db == previous.db && o.error == Aborted
      ensures Quiet(rivals) && old(s).txs == map[] ==> o == Done && previous.db == old(s).db
    {
      hide Reachable, Fate, Stuck, Quiet;
      id := Start(r);
      CreateAlone(s, id, r);
      var raised := DecideCreation(id, r, rivals);
      if raised.Some? { return Failed(raised.value), id; }
      QuietAt(rivals, 2);
      AddAccount(id, r, rivals(2));
      o := Done;
    }

    // The locked target and the other administrators decide on a save.
    method DecideSave(t: TxId, rivals: Schedule) returns (raised: Option<Error>)
      requires Reachable() && t in s.txs && s.txs[t].pc.Ask? && s.txs[t].request.Save?
      modifies this
      ensures Reachable() && Carried(t, raised.Some?)
      ensures Quiet(rivals) ==> GoesOn(old(s), s, t, raised)
      ensures raised == Some(Aborted) ==> Stuck(previous, t)
      ensures raised.None? ==>
                t in s.txs && s.txs[t].request == old(s.txs[t]).request && s.txs[t].pc.Ready? && s.txs[t].pc.write.Put?
      ensures raised.Some? && raised != Some(Aborted) ==> Unsaved(old(s.txs[t]).request, s.db, raised.value)
    {
      hide Reachable, Fate, Stuck;
      ghost var r := s.txs[t].request;
      raised := LockTarget(t, rivals);
      if raised.Some? { return; }
      raised := Statement(t, rivals(2));
      if raised == Some(LastAdministrator) { OnlyAdmin(previous.db, r.target); }
    }

    // An administrator's save of an existing account.
    method Save(r: Request, rivals: Schedule) returns (o: Outcome)
      requires Reachable() && r.Save?
      modifies this
      ensures Reachable() && Conducted(r, o.Done?)
      ensures o == Failed(Aborted) ==> Stuck(previous, old(s).next)
      ensures o.Done? ==> SavedTo(r, old(s).next, previous.db, s.db)
      ensures o.Failed? ==> s.db == previous.db
      ensures o.Failed? && o.error != Aborted ==> Unsaved(r, s.db, o.error)
      ensures Quiet(rivals) && old(s).txs == map[] ==>
                var accounts := old(s).db.accounts;
                && previous.db == old(s).db
                && o == if r.target == r.actor && r.active == Some(false) then Failed(DisableYourself)
                        else if r.password.None? && r.active.None? && !r.profile && (r.role.None? || r.customer)
                        then Failed(NoChanges)
                        else if !(r.target in accounts && !accounts[r.target].deleted &&
                                  accounts[r.target].customer == r.customer)
                        then Failed(NotFound)
                        else
                          var otherRole := if r.customer then accounts[r.target].role != 2
                                           else r.role.Some? && r.role.value != accounts[r.target].role;
                          if r.target == r.actor && otherRole then Failed(OwnRole)
                          else if (otherRole || r.active == Some(false)) &&
                                  (set u | u in accounts && accounts[u].role == 1 && accounts[u].status == Active &&
                                     !accounts[u].deleted) == {r.target}
                          then Failed(LastAdministrator)
                          else Done
    {
      hide Reachable, SavedTo, Unsaved, Fate, Stuck, Quiet;
      var t := Start(r);
      SaveAlone(s, t, r);
      QuietAt(rivals, 3);
      var raised := DecideSave(t, rivals);
      if raised.Some? { return Failed(raised.value); }
      ghost var decided := s.txs[t];
      Finish(t, rivals(3));
      SaveIsSaved(previous.db, t, decided);
      o := Done;
    }

    method DecideRemoval(t: TxId, rivals: Schedule) returns (raised: Option<Error>)
      requires Reachable() && t in s.txs && s.txs[t].pc.Ask? && s.txs[t].request.Remove?
      modifies this
      ensures Reachable() && Carried(t, raised.Some?)
      ensures Quiet(rivals) ==> GoesOn(old(s), s, t, raised)
      ensures raised == Some(Aborted) ==> Stuck(previous, t)
      ensures raised.None? ==>
                && t in s.txs && s.txs[t].request == old(s.txs[t]).request && s.txs[t].pc.Ready? &&
                   s.txs[t].pc.write.Put?
                && Precheck(s.txs[t].request).None?
      ensures raised.Some? && raised != Some(Aborted) ==> Unremovable(old(s.txs[t]).request, s.db, raised.value)
    {
      hide Reachable, Fate, Stuck;
      raised := LockTarget(t, rivals);
      if raised.Some? { return; }
      raised := Statement(t, rivals(2));
    }

    // An administrator's removal of an account that is no administrator.
    method Remove(r: Request, rivals: Schedule) returns (o: Outcome)
      requires Reachable() && r.Remove?
      modifies this
      ensures Reachable() && Conducted(r, o.Done?)
      ensures o == Failed(Aborted) ==> Stuck(previous, old(s).next)
      ensures o.Done? ==> RemovedFrom(r, previous.db, s.db)
      ensures o.Failed? ==> s.db == previous.db
      ensures o.Failed? && o.error != Aborted ==> Unremovable(r, s.db, o.error)
      ensures Quiet(rivals) && old(s).txs == map[] ==>
                var accounts := old(s).db.accounts;
                && previous.db == old(s).db
                && o == if r.target == r.actor then Failed(DeleteYourself)
                        else if !(r.target in accounts && !accounts[r.target].deleted &&
                                  accounts[r.target].customer == r.customer)
                        then Failed(NotFound)
                        else if accounts[r.target].role == 1 then Failed(AdministratorRole)
                        else Done
    {
      hide Reachable, RemovedFrom, Unremovable, Fate, Stuck, Quiet;
      var t := Start(r);
      RemoveAlone(s, t, r);
      QuietAt(rivals, 3);
      var raised := DecideRemoval(t, rivals);
      if raised.Some? { return Failed(raised.value); }
      ghost var decided := s.txs[t];
      Finish(t, rivals(3));
      RemovalIsRemoved(previous.db, t, decided);
      o := Done;
    }

    // updateByHash: one conditional UPDATE and its affected-row count.
    method RefreshToken(id: SessionId, hash: nat) returns (issued: Option<nat>)
      requires Reachable()
      modifies this
      ensures Reachable() && origin == old(origin) && trace == old(trace) + [Refresh(id, hash)] && previous == old(s)
      ensures issued.Some? <==>
                id in old(s).db.sessions && !old(s).db.sessions[id].revoked && old(s).db.sessions[id].hash == hash
      ensures issued.Some? ==> Accepts(s.db, id, issued.value) && (issued.value != hash ==> !Accepts(s.db, id, hash))
      ensures issued.Some? ==>
                s.db == old(s).db.(sessions := old(s).db.sessions[id := old(s).db.sessions[id].(hash := issued.value)])
      ensures issued.None? ==> s == old(s)
    {
      issued := if Accepts(s.db, id, hash) then Some(s.next) else None;
      Perform(Refresh(id, hash));
    }
  }

  lemma OnlyAdmin(db: Db, u: UserId)
    requires |LiveAdmins(db)| <= 1 && LiveAdmin(db, u)
    ensures LiveAdmins(db) == {u}
  {
    assert u in LiveAdmins(db);
    assert |LiveAdmins(db) - {u}| == 0;
  }

  // What an administrator's save makes of the row: what was asked and nothing else.
  ghost predicate Saved(r: Request, t: TxId, was: Account, row: Account)
    requires r.Save?
  {
    && row.passwords == (if r.password.Some? then was.passwords + [PasswordChange(Hash(r.password.value, t), None)]
       else was.passwords)
    && row.status == (if r.active.None? then was.status else if r.active.value then Active else Inactive)
    && row.role == (if r.customer then USER else if r.role.Some? then r.role.value else was.role)
    && row.customer == was.customer == r.customer && row.deleted == was.deleted
  }

  // One row changes, and its sessions end with a new password, role or suspension.
  ghost predicate SavedTo(r: Request, t: TxId, a: Db, b: Db)
    requires r.Save?
  {
    && r.target in a.accounts && r.target in b.accounts
    && b.accounts == a.accounts[r.target := b.accounts[r.target]]
    && Saved(r, t, a.accounts[r.target], b.accounts[r.target])
    && (if r.password.Some? || r.active == Some(false) || b.accounts[r.target].role != a.accounts[r.target].role
        then EndedAllBut(a, b, r.target, None) else b.sessions == a.sessions)
  }

  lemma KeepKeepsSessions(sessions: map<SessionId, Session>, u: UserId)
    ensures Revoked(sessions, u, Keep) == sessions
  {
  }

  lemma SaveIsSaved(db: Db, t: TxId, tx: Tx)
    requires tx.request.Save? && tx.pc.Ready? && tx.pc.write.Put? && WriteFact(db, t, tx, tx.pc.write)
    ensures SavedTo(tx.request, t, db, ApplyWrite(db, tx.pc.write))
  {
    KeepKeepsSessions(db.sessions, tx.request.target);
  }

  // The state that a refused save met, or what is wrong with the request itself.
  ghost predicate Unsaved(r: Request, db: Db, error: Error)
    requires r.Save?
  {
    match error
    case NotFound => !Exists(db, r.target) || db.accounts[r.target].customer != r.customer
    case DisableYourself => r.target == r.actor && r.active == Some(false)
    case NoChanges => r.password.None? && r.active.None? && !r.profile && (r.role.None? || r.customer)
    case OwnRole => r.target == r.actor && r.target in db.accounts &&
      (r.customer || r.role != Some(db.accounts[r.target].role))
    case LastAdministrator =>
      && LiveAdmins(db) == {r.target}
      && (r.active == Some(false) || r.customer || (r.role.Some? && r.role != Some(ADMIN)))
    case _ => false
  }

  predicate HoldersOwn(r: Request) {
    r.Reset? || r.SelfUpdate? || r.Confirm? || r.ConfirmNewEmail? || r.SelfDelete?
  }

  lemma HolderIsTarget(r: Request, t: TxId)
    requires HoldersOwn(r)
    ensures Target(r, t) ==
            match r
            case Reset(link, _) => link.user
            case SelfUpdate(user, _, _, _) => user
            case Confirm(user) => user
            case ConfirmNewEmail(user) => user
            case SelfDelete(user, _) => user
  {
  }

  ghost predicate UpdatedTo(r: Request, t: TxId, a: Db, b: Db) {
    var u := Target(r, t);
    && u in a.accounts && u in b.accounts && b.accounts == a.accounts[u := b.accounts[u]]
    && Updated(r, t, a.accounts[u], b.accounts[u], a, b)
  }

  lemma UpdateIsUpdated(db: Db, t: TxId, tx: Tx)
    requires HoldersOwn(tx.request) && Precheck(tx.request).None? && tx.pc.Ready? && tx.pc.write.Put?
    requires WriteFact(db, t, tx, tx.pc.write)
    ensures UpdatedTo(tx.request, t, db, ApplyWrite(db, tx.pc.write))
  {
    KeepKeepsSessions(db.sessions, Target(tx.request, t));
  }

  // The target is marked deleted, was no administrator, and its sessions end.
  ghost predicate RemovedFrom(r: Request, a: Db, b: Db)
    requires r.Remove?
  {
    && r.target != r.actor && r.target in a.accounts && a.accounts[r.target].role != ADMIN
    && a.accounts[r.target].customer == r.customer
    && b.accounts == a.accounts[r.target := a.accounts[r.target].(deleted := true)]
    && EndedAllBut(a, b, r.target, None)
  }

  lemma RemovalIsRemoved(db: Db, t: TxId, tx: Tx)
    requires tx.request.Remove? && Precheck(tx.request).None? && tx.pc.Ready? && tx.pc.write.Put?
    requires WriteFact(db, t, tx, tx.pc.write)
    ensures RemovedFrom(tx.request, db, ApplyWrite(db, tx.pc.write))
  {
  }

  // The state that a refused removal met.
  ghost predicate Unremovable(r: Request, db: Db, error: Error)
    requires r.Remove?
  {
    match error
    case NotFound => !Exists(db, r.target) || db.accounts[r.target].customer != r.customer
    case DeleteYourself => r.target == r.actor
    case AdministratorRole => r.target in db.accounts && db.accounts[r.target].role == ADMIN
    case _ => false
  }

  // The account is active and the text is its password.
  ghost predicate Authentic(db: Db, u: UserId, plain: nat) {
    Exists(db, u) && db.accounts[u].status == Active && Matches(Password(db.accounts[u]), plain)
  }

  // One new session of the user, under the current password, and nothing else.
  ghost predicate Opened(a: Db, b: Db, u: UserId, id: SessionId) {
    && id !in a.sessions && u in a.accounts
    && var row := a.accounts[u];
       b == a.(sessions := a.sessions[id := Session(u, id, false, Password(row), |row.passwords|)])
  }

  // The account is active and the credential is its current one.
  ghost predicate Current(db: Db, u: UserId, credential: Credential) {
    Exists(db, u) && db.accounts[u].status == Active && Password(db.accounts[u]) == credential
  }

  // What an account holder's request makes of its account and sessions.
  ghost predicate Updated(r: Request, t: TxId, was: Account, row: Account, a: Db, b: Db) {
    match r
    case Reset(link, plain) =>
      && Password(was) == link.signedWith
      && row == was.(passwords := was.passwords + [PasswordChange(Hash(plain, t), None)])
      && EndedAllBut(a, b, link.user, None)
    case SelfUpdate(u, session, oldPlain, Some(plain)) =>
      && oldPlain.Some? && Matches(Password(was), oldPlain.value)
      && row == was.(passwords := was.passwords + [PasswordChange(Hash(plain, t), Some(session))])
      && EndedAllBut(a, b, u, Some(session))
    case SelfUpdate(_, _, _, None) => row == was && b.sessions == a.sessions
    case Confirm(_) => was.status == Pending && row == was.(status := Active) && b.sessions == a.sessions
    case ConfirmNewEmail(u) => was.status == Active && row == was && EndedAllBut(a, b, u, None)
    case SelfDelete(_, role) => role != ADMIN && row == was.(deleted := true) && b.sessions == a.sessions
    case _ => false
  }

  // The state that a refused request of an account holder met.
  ghost predicate Unfit(r: Request, t: TxId, db: Db, error: Error) {
    var u := Target(r, t);
    match error
    case NotFound => !Exists(db, u)
    case InvalidLink =>
      u in db.accounts &&
      (match r
       case Reset(link, _) => Password(db.accounts[u]) != link.signedWith
       case Confirm(_) => db.accounts[u].status != Pending
       case ConfirmNewEmail(_) => db.accounts[u].status != Active
       case _ => false)
    case WrongOldPassword =>
      u in db.accounts && r.SelfUpdate? && r.newPlain.Some? &&
        (r.oldPlain.None? || !Matches(Password(db.accounts[u]), r.oldPlain.value))
    case AdministratorRole => r.SelfDelete? && r.authenticatedRole == ADMIN
    case _ => false
  }
}
