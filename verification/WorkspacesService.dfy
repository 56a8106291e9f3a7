/**
 The service methods and the trigger, statement by statement, against the tables
 they share with every other transaction.  Before each statement the other
 transactions run whatever the caller's schedule makes them run.
 */
module WorkspacesService {
  import opened Common
  import opened WorkspaceProtocol
  import opened WorkspaceOwnership
  import opened WorkspaceAlone

  datatype Outcome = Done | Failed(error: Error)

  // What the other transactions do before each statement of a request.
  type Schedule = nat -> seq<Event>

  ghost predicate Quiet(rivals: Schedule) {
    forall n :: rivals(n) == []
  }

  lemma QuietAt(rivals: Schedule, n: nat)
    ensures Quiet(rivals) ==> rivals(n) == []
  {
  }

  lemma {:induction false} RunAppend(s: State, es: seq<Event>, e: Event)
    requires Valid(s, es) && Enabled(Run(s, es), e)
    ensures Valid(s, es + [e]) && Run(s, es + [e]) == Apply(Run(s, es), e)
    decreases |es|
  {
    if es == [] {
      assert Valid(Apply(s, e), [e][1..]);
    } else {
      assert (es + [e])[1..] == es[1..] + [e];
      RunAppend(Apply(s, es[0]), es[1..], e);
    }
  }

  // The run went through the state `x` after `from` events or later.
  ghost predicate Passed(origin: State, trace: seq<Event>, from: nat, x: State) {
    exists n: nat :: from <= n <= |trace| && Valid(origin, trace[..n]) && Run(origin, trace[..n]) == x
  }

  lemma PassedStill(origin: State, trace: seq<Event>, trace': seq<Event>, from: nat, from': nat, x: State)
    requires Passed(origin, trace, from, x) && trace <= trace' && from' <= from
    ensures Passed(origin, trace', from', x)
  {
    var n: nat :| from <= n <= |trace| && Valid(origin, trace[..n]) && Run(origin, trace[..n]) == x;
    assert trace'[..n] == trace[..n];
  }

  // A longer history without a commit of `t` in what was added.
  ghost predicate Continues(before: seq<Event>, after: seq<Event>, t: TxId) {
    before <= after && forall i :: |before| <= i < |after| ==> after[i] != Commit(t)
  }

  // The transaction wants a lock that another one has in a conflicting mode.
  ghost predicate Stuck(s: State, t: TxId) {
    t in s.txs && Blocked(s, t)
  }

  predicate Foreign(e: Event, t: TxId) {
    match e
    case Step(t') => t' != t
    case Commit(t') => t' != t
    case Abort(t') => t' != t
    case _ => true
  }

  class Database {
    var s: State
    ghost var origin: State
    ghost var trace: seq<Event>
    ghost var previous: State // before the latest event

    // Everything the object goes through is a run of the protocol.
    ghost predicate Reachable()
      reads this
    {
      && Initial(origin) && Valid(origin, trace) && Run(origin, trace) == s
      && (trace != [] ==>
            var n := |trace| - 1;
            Valid(origin, trace[..n]) && Run(origin, trace[..n]) == previous)
    }

    // The call was one transaction of this run, named by the next free name: its first
    // event is the request, and its commit is the latest event or does not exist.
    twostate predicate Conducted(request: Pc, done: bool)
      reads this
    {
      && origin == old(origin) && old(trace) < trace && trace[|old(trace)|] == Begin(request)
      && old(s).next !in s.txs
      && if done then trace[|trace| - 1] == Commit(old(s).next) else Continues(old(trace), trace, old(s).next)
    }

    // The transaction `t` went on without committing; with an error it is gone.
    twostate predicate Carried(t: TxId, gone: bool)
      reads this
    {
      && origin == old(origin) && Continues(old(trace), trace, t)
      && (gone ==> t !in s.txs && s.db == previous.db)
    }

    // A state this call went through.
    twostate predicate Met(x: State)
      reads this
    {
      Passed(origin, trace, |old(trace)|, x)
    }

    // What the protocol guarantees to an open transaction.
    lemma Promise(t: TxId)
      requires Reachable() && t in s.txs
      ensures t < s.next && Fact(s.db, t, s.txs[t]) && t !in s.db.workspaces && t !in s.db.invites
    {
      RunKeepsInv(origin, trace);
    }

    // No active owner but u means that u is the one the invariant promises.
    lemma SoleOwner(w: WsId, u: UserId)
      requires Reachable() && w in s.db.workspaces && !OtherOwner(s.db, w, u)
      ensures LiveOwners(s.db, w) == {u}
    {
      RunKeepsInv(origin, trace);
      var v :| v in s.db.users && LiveOwner(s.db, w, v);
      assert v in LiveOwners(s.db, w);
    }

    lemma SomeOwner(w: WsId)
      requires Reachable() && w in s.db.workspaces
      ensures |LiveOwners(s.db, w)| >= 1
    {
      RunKeepsInv(origin, trace);
      var v :| v in s.db.users && LiveOwner(s.db, w, v);
      assert v in LiveOwners(s.db, w);
    }

    constructor (s0: State)
      requires Initial(s0)
      ensures Reachable() && s == origin == s0 && trace == []
    {
      s, origin, trace, previous := s0, s0, [], s0;
    }

    method Perform(e: Event)
      requires Reachable() && Enabled(s, e)
      modifies this
      ensures Reachable() && s == Apply(old(s), e) && previous == old(s)
      ensures origin == old(origin) && trace == old(trace) + [e]
    {
      RunAppend(origin, trace, e);
      s, trace, previous := Apply(s, e), trace + [e], s;
      assert trace[..|trace| - 1] == old(trace);
    }

    // The events of the schedule that are possible, in their order.
    method Others(t: TxId, rivals: seq<Event>)
      requires Reachable() && t in s.txs
      modifies this
      ensures Reachable() && t in s.txs && s.txs[t] == old(s.txs[t])
      ensures origin == old(origin) && Continues(old(trace), trace, t)
      ensures rivals == [] ==> s == old(s)
    {
      for i := 0 to |rivals|
        invariant Reachable() && t in s.txs && s.txs[t] == old(s.txs[t])
        invariant origin == old(origin) && Continues(old(trace), trace, t)
        invariant i == 0 ==> s == old(s)
      {
        Promise(t);
        if Foreign(rivals[i], t) && Enabled(s, rivals[i]) {
          Perform(rivals[i]);
        }
      }
    }

    method Start(pc: Pc) returns (t: TxId)
      requires Reachable() && IsRequest(pc)
      modifies this
      ensures Reachable() && t in s.txs && s.txs[t].pc == pc && s.txs[t].start == old(s).now && s.db == old(s).db
      ensures old(s).txs == map[] ==> s.txs.Keys == {t}
      ensures t == old(s).next && origin == old(origin) && trace == old(trace) + [Begin(pc)]
    {
      hide Reachable, Advance, Blocked;
      t := s.next;
      Perform(Begin(pc));
    }

    // The statement itself: it executes, raises, or is still waiting for a lock and the
    // transaction is given up.
    method Execute(t: TxId) returns (raised: Option<Error>)
      requires Reachable() && t in s.txs && !s.txs[t].pc.Ready?
      modifies this
      ensures Reachable() && Carried(t, raised.Some?) && previous == old(s) && |trace| == |old(trace)| + 1
      ensures GoesOn(old(s), s, t, raised) && s.db == old(s).db
      ensures raised == Some(Aborted) ==> Stuck(previous, t)
      ensures raised.None? ==> t in s.txs && Advance(old(s), t) == Go(s.txs[t])
      ensures raised.Some? ==>
                && t !in s.txs
                && if Blocked(old(s), t) then raised == Some(Aborted) else Advance(old(s), t) == Fail(raised.value)
    {
      hide Reachable, Fate;
      StepGoesOn(s, t);
      if Blocked(s, t) {
        Perform(Abort(t));
        raised := Some(Aborted);
      } else {
        raised := if Advance(s, t).Go? then None else Some(Advance(s, t).error);
        Perform(Step(t));
      }
    }

    // The others run, then the statement executes.
    method Statement(t: TxId, rivals: seq<Event>) returns (raised: Option<Error>)
      requires Reachable() && t in s.txs && !s.txs[t].pc.Ready?
      modifies this
      ensures Reachable() && Carried(t, raised.Some?)
      ensures |old(trace)| < |trace|
      ensures rivals == [] ==> GoesOn(old(s), s, t, raised)
      ensures raised == Some(Aborted) ==> Stuck(previous, t)
      ensures var pre := previous;
              && t in pre.txs && pre.txs[t] == old(s.txs[t]) && s.db == pre.db && Fact(pre.db, t, pre.txs[t])
              && (raised.None? ==> t in s.txs && Advance(pre, t) == Go(s.txs[t]))
              && (raised.Some? ==>
                    && t !in s.txs
                    && if Blocked(pre, t) then raised == Some(Aborted) else Advance(pre, t) == Fail(raised.value))
    {
      hide Reachable, Fate, Stuck, Blocked, Advance, GoesOn;
      Others(t, rivals);
      Promise(t);
      raised := Execute(t);
    }

    // The commit, and the state it met in `previous`.
    method Finish(t: TxId, rivals: seq<Event>)
      requires Reachable() && t in s.txs && s.txs[t].pc.Ready?
      modifies this
      ensures Reachable() && origin == old(origin) && old(trace) < trace && trace[|trace| - 1] == Commit(t)
      ensures t in previous.txs && previous.txs[t] == old(s.txs[t]) && Fact(previous.db, t, previous.txs[t])
      ensures t !in previous.db.workspaces && t !in previous.db.invites
      ensures rivals == [] ==> previous == old(s)
      ensures t !in s.txs && s.db == ApplyWrite(previous.db, old(s.txs[t]).pc.write)
    {
      Others(t, rivals);
      Promise(t);
      Perform(Commit(t));
    }

    // The latest state but one is a state of the run.
    lemma PreviousPassed(from: nat)
      requires Reachable() && from < |trace|
      ensures Passed(origin, trace, from, previous)
    {
    }

    // The row lock on the user, then the count.
    method CheckCreator(t: TxId, user: UserId, rivals: Schedule) returns (raised: Option<Error>)
      requires Reachable() && t in s.txs && s.txs[t].pc == CreateAsk(user)
      modifies this
      ensures Reachable() && Carried(t, raised.Some?)
      ensures Quiet(rivals) ==> GoesOn(old(s), s, t, raised)
      ensures raised == Some(Aborted) ==> Stuck(previous, t)
      ensures raised.None? ==> t in s.txs && s.txs[t].pc == Ready(AddWorkspace(t, user))
      ensures raised.Some? ==> raised.value in {Forbidden, WorkspaceLimit, Aborted}
      ensures raised == Some(Forbidden) ==> !LiveUser(s.db, user)
      ensures raised == Some(WorkspaceLimit) ==> |Owned(s.db, user)| >= OWNED_LIMIT
    {
      hide Reachable, Fate, Stuck, Owned;
      raised := Statement(t, rivals(0));
      if raised.Some? { return; }
      raised := Statement(t, rivals(1));
    }

    method AddOwned(t: TxId, user: UserId, rivals: seq<Event>)
      requires Reachable() && t in s.txs && s.txs[t].pc == Ready(AddWorkspace(t, user))
      modifies this
      ensures Reachable() && origin == old(origin) && old(trace) < trace && trace[|trace| - 1] == Commit(t)
      ensures rivals == [] ==> previous == old(s)
      ensures var a := previous.db;
              && t !in s.txs && t !in a.workspaces && LiveUser(a, user) && |Owned(a, user)| < OWNED_LIMIT
              && s.db == a.(workspaces := a.workspaces + {t}, members := a.members[(t, user) := Owner])
    {
      hide Reachable, Owned;
      Finish(t, rivals);
    }

    method Create(user: UserId, rivals: Schedule) returns (o: Outcome, id: WsId)
      requires Reachable()
      modifies this
      ensures Reachable() && Conducted(CreateAsk(user), o.Done?) && id == old(s).next
      ensures o == Failed(Aborted) ==> Stuck(previous, old(s).next)
      ensures o.Done? ==>
                var a := previous.db;
                && id !in a.workspaces && LiveUser(a, user) && |Owned(a, user)| < 20
                && s.db == a.(workspaces := a.workspaces + {id}, members := a.members[(id, user) := Owner])
      ensures o.Failed? ==> s.db == previous.db
      ensures o == Failed(Forbidden) ==> !LiveUser(s.db, user)
      ensures o == Failed(WorkspaceLimit) ==> |Owned(s.db, user)| >= 20
      ensures Quiet(rivals) && old(s).txs == map[] ==>
                var db := old(s).db;
                && previous.db == db
                && o == if !(user in db.users && db.users[user].active && !db.users[user].deleted)
                        then Failed(Forbidden)
                        else if |set w | w in db.workspaces && (w, user) in db.members &&
                                   db.members[(w, user)] == Owner| >= 20
                        then Failed(WorkspaceLimit)
                        else Done
    {
      hide Reachable, Fate, Stuck, Owned, LiveUser, Quiet;
      id := Start(CreateAsk(user));
      assert References(s.db) by { SchemaHolds(); }
      CreateAlone(s, id, user);
      var raised := CheckCreator(id, user, rivals);
      if raised.Some? { return Failed(raised.value), id; }
      QuietAt(rivals, 2);
      AddOwned(id, user, rivals(2));
      o := Done;
    }

    lemma SchemaHolds()
      requires Reachable()
      ensures References(s.db) && EachWorkspaceOwned(s.db)
    {
      RunKeepsInv(origin, trace);
    }

    // The lock and the membership check shared by invite, revoke and changeMember.
    method Authorize(t: TxId, rivals: Schedule) returns (raised: Option<Error>)
      requires Reachable() && t in s.txs && s.txs[t].pc.AuthAsk?
      modifies this
      ensures Reachable() && Carried(t, raised.Some?)
      ensures Quiet(rivals) ==> GoesOn(old(s), s, t, raised)
      ensures raised == Some(Aborted) ==> Stuck(previous, t)
      ensures raised.None? ==>
                var AuthAsk(w, a, job) := old(s).txs[t].pc;
                && t in s.txs && s.txs[t].pc.Authed? && s.txs[t].start == old(s).txs[t].start
                && s.txs[t].pc == Authed(w, a, job, s.txs[t].pc.actorRole)
                && HasRole(s.db, w, a, s.txs[t].pc.actorRole)
                && (!job.ChangeJob? ==> s.txs[t].pc.actorRole != Member)
      ensures raised.Some? ==>
                var AuthAsk(w, a, job) := old(s).txs[t].pc;
                && (raised == Some(NotFound) ==> w !in s.db.workspaces || (w, a) !in s.db.members)
                && (raised == Some(Forbidden) ==> HasRole(s.db, w, a, Member) && !job.ChangeJob?)
                && raised.value in {NotFound, Forbidden, Aborted}
    {
      hide Reachable, Fate, Stuck;
      raised := Statement(t, rivals(0));
      if raised.Some? { return; }
      raised := Statement(t, rivals(1));
    }

    // The inviter's authority and the address, then the reissue and the count.
    method CheckInvitee(t: TxId, rivals: Schedule) returns (raised: Option<Error>, ghost checked: State)
      requires Reachable() && t in s.txs && s.txs[t].pc.Authed? && s.txs[t].pc.job.InviteJob?
      requires s.txs[t].pc.actorRole != Member
      modifies this
      ensures Reachable() && Carried(t, raised.Some?)
      ensures Quiet(rivals) ==> GoesOn(old(s), s, t, raised)
      ensures raised == Some(Aborted) ==> Stuck(previous, t)
      ensures raised.None? ==>
                var Authed(w, a, InviteJob(email, role), _) := old(s).txs[t].pc;
                && t in s.txs && s.txs[t].pc == Ready(Issue(t, w, email, role, old(s).txs[t].start + INVITE_LIFETIME))
                && Met(checked) && MayInvite(checked.db, w, a, role) && !MemberWithEmail(checked.db, w, email)
      ensures raised.Some? ==>
                var Authed(w, a, InviteJob(email, role), _) := old(s).txs[t].pc;
                && (raised == Some(AlreadyMember) ==> MemberWithEmail(s.db, w, email))
                && (raised == Some(OwnerRequired) ==> role != Member && !HasRole(s.db, w, a, Owner))
                && (raised == Some(InvitationLimit) ==>
                      |OtherLiveInvites(s.db, w, email, old(s).txs[t].start)| >= INVITE_LIMIT)
                && raised.value in {AlreadyMember, OwnerRequired, InvitationLimit, Aborted}
    {
      hide Reachable, Passed, Fate, Stuck;
      raised := Statement(t, rivals(2));
      checked := previous;
      if raised.Some? { return; }
      PreviousPassed(|old(trace)|);
      ghost var history := trace;
      raised := Statement(t, rivals(3));
      PassedStill(origin, history, trace, |old(trace)|, |old(trace)|, checked);
    }

    method IssueInvitation(t: TxId, rivals: seq<Event>)
      requires Reachable() && t in s.txs && s.txs[t].pc.Ready? && s.txs[t].pc.write.Issue?
      modifies this
      ensures Reachable() && origin == old(origin) && old(trace) < trace && trace[|trace| - 1] == Commit(t)
      ensures rivals == [] ==> previous == old(s)
      ensures var wr := old(s.txs[t]).pc.write;
              && t !in s.txs
              && Issued(previous.db, s.db, t,
                 WorkspaceProtocol.Invite(wr.ws, wr.email, wr.role, wr.expires, None, false))
    {
      hide Reachable;
      Finish(t, rivals);
    }

    // Everything up to the commit.  `checked` is the state in which the inviter and the
    // address were checked.
    method DecideInvitation(t: TxId, rivals: Schedule) returns (raised: Option<Error>, ghost checked: State)
      requires Reachable() && t in s.txs && s.txs[t].pc.AuthAsk? && s.txs[t].pc.job.InviteJob?
      modifies this
      ensures Reachable() && Carried(t, raised.Some?)
      ensures Quiet(rivals) ==> GoesOn(old(s), s, t, raised)
      ensures raised == Some(Aborted) ==> Stuck(previous, t)
      ensures raised.None? ==>
                var AuthAsk(w, a, InviteJob(email, role)) := old(s).txs[t].pc;
                && t in s.txs && s.txs[t].pc == Ready(Issue(t, w, email, role, old(s).txs[t].start + INVITE_LIFETIME))
                && Met(checked) && MayInvite(checked.db, w, a, role) && !MemberWithEmail(checked.db, w, email)
      ensures raised.Some? ==>
                var AuthAsk(w, a, InviteJob(email, role)) := old(s).txs[t].pc;
                Uninvitable(s.db, w, a, email, role, old(s).txs[t].start, raised.value)
    {
      hide Reachable, Passed, MayInvite, MemberWithEmail, OtherLiveInvites, HasRole, Fate, Stuck;
      checked := s;
      raised := Authorize(t, rivals);
      if raised.Some? { return; }
      ghost var from := |trace|;
      raised, checked := CheckInvitee(t, rivals);
      if raised.None? { PassedStill(origin, trace, trace, from, |old(trace)|, checked); }
    }

    method Invite(w: WsId, actor: UserId, email: Email, role: Role, rivals: Schedule)
      returns (o: Outcome, token: InviteId, ghost checked: State)
      requires Reachable() && role != Owner
      modifies this
      ensures Reachable() && Conducted(AuthAsk(w, actor, InviteJob(email, role)), o.Done?) && token == old(s).next
      ensures o == Failed(Aborted) ==> Stuck(previous, old(s).next)
      ensures o.Done? ==>
                && Met(checked) && MayInvite(checked.db, w, actor, role) && !MemberWithEmail(checked.db, w, email)
                && var row := WorkspaceProtocol.Invite(w, email, role, old(s).now + 604_800_000, None, false);
                   Issued(previous.db, s.db, token, row)
      ensures o.Failed? ==> s.db == previous.db && Uninvitable(s.db, w, actor, email, role, old(s).now, o.error)
      ensures Quiet(rivals) && old(s).txs == map[] ==>
                var db, now := old(s).db, old(s).now;
                && previous.db == db
                && o == if w !in db.workspaces || (w, actor) !in db.members then Failed(NotFound)
                        else if db.members[(w, actor)] == Member then Failed(Forbidden)
                        else if db.members[(w, actor)] != Owner && role != Member then Failed(OwnerRequired)
                        else if exists u :: u in db.users && (w, u) in db.members && db.users[u].email == Some(email) &&
                                  !db.users[u].deleted
                        then Failed(AlreadyMember)
                        else if |set i | i in db.invites && db.invites[i].ws == w && db.invites[i].email != email &&
                                   db.invites[i].accepted.None? && !db.invites[i].revoked &&
                                   db.invites[i].expires > now| >= 100
                        then Failed(InvitationLimit)
                        else Done
    {
      hide Reachable, Passed, MayInvite, MemberWithEmail, Issued, Uninvitable, Fate, Stuck, Quiet;
      token := Start(AuthAsk(w, actor, InviteJob(email, role)));
      InviteAlone(s, token, w, actor, email, role);
      QuietAt(rivals, 4);
      ghost var from := |trace|;
      var raised;
      raised, checked := DecideInvitation(token, rivals);
      if raised.Some? { return Failed(raised.value), token, checked; }
      ghost var history := trace;
      IssueInvitation(token, rivals(4));
      PassedStill(origin, history, trace, from, |old(trace)|, checked);
      o := Done;
    }

    // The workspace of the token.
    method FindInvitation(t: TxId, rivals: seq<Event>) returns (raised: Option<Error>)
      requires Reachable() && t in s.txs && s.txs[t].pc.AcceptAsk?
      modifies this
      ensures Reachable() && Carried(t, raised.Some?)
      ensures rivals == [] ==> GoesOn(old(s), s, t, raised)
      ensures raised == Some(Aborted) ==> Stuck(previous, t)
      ensures raised.None? ==>
                var AcceptAsk(user, i) := old(s).txs[t].pc;
                && t in s.txs && s.txs[t].start == old(s).txs[t].start
                && s.txs[t].pc.AcceptFound? && s.txs[t].pc.user == user && s.txs[t].pc.invite == i
      ensures raised.Some? ==> raised.value in {InvitationInvalid, Aborted}
      ensures raised == Some(InvitationInvalid) ==> old(s).txs[t].pc.invite !in s.db.invites
    {
      hide Reachable, Fate, Stuck;
      raised := Statement(t, rivals);
    }

    // Find the workspace of the token, lock it, read the invitation again.
    method LockInvitation(t: TxId, rivals: Schedule) returns (raised: Option<Error>)
      requires Reachable() && t in s.txs && s.txs[t].pc.AcceptAsk?
      modifies this
      ensures Reachable() && Carried(t, raised.Some?)
      ensures Quiet(rivals) ==> GoesOn(old(s), s, t, raised)
      ensures raised == Some(Aborted) ==> Stuck(previous, t)
      ensures raised.None? ==>
                var AcceptAsk(user, i) := old(s).txs[t].pc;
                && t in s.txs && i in s.db.invites && OpenIn(s.db, i, s.db.invites[i].ws)
                && s.txs[t].pc == AcceptRead(user, i, s.db.invites[i].ws) && s.txs[t].start == old(s).txs[t].start
      ensures raised.Some? ==> raised.value in {InvitationInvalid, Aborted}
      ensures raised == Some(InvitationInvalid) ==>
                !Acceptable(s.db, old(s).txs[t].pc.invite, old(s).txs[t].start)
    {
      hide Reachable, Fate, Stuck;
      raised := FindInvitation(t, rivals(0));
      if raised.Some? { return; }
      raised := Statement(t, rivals(1));
      if raised.Some? {
        SchemaHolds();
        return;
      }
      raised := Statement(t, rivals(2));
    }

    // The user's row against the invitation, then the insert with its foreign keys.
    method AdmitUser(t: TxId, rivals: Schedule) returns (raised: Option<Error>, ghost checked: State)
      requires Reachable() && t in s.txs && s.txs[t].pc.AcceptRead?
      modifies this
      ensures Reachable() && Carried(t, raised.Some?)
      ensures Quiet(rivals) ==> GoesOn(old(s), s, t, raised)
      ensures raised == Some(Aborted) ==> Stuck(previous, t)
      ensures raised.None? ==>
                var AcceptRead(user, i, w) := old(s).txs[t].pc;
                && t in s.txs && s.txs[t].pc == Ready(Write.Accept(i, w, user)) && s.txs[t].start == old(s).txs[t].start
                && Met(checked) && Addressed(checked.db, i, user)
      ensures raised == Some(EmailMismatch) ==>
                var AcceptRead(user, i, _) := old(s).txs[t].pc;
                i in s.db.invites && !Addressed(s.db, i, user)
      ensures raised == Some(ForeignKey) ==> old(s).txs[t].pc.user !in s.db.users
      ensures raised.Some? ==> raised.value in {EmailMismatch, ForeignKey, Aborted}
    {
      hide Reachable, Passed, Fate, Stuck;
      raised := Statement(t, rivals(3));
      checked := previous;
      if raised.Some? { return; }
      PreviousPassed(|old(trace)|);
      ghost var history := trace;
      raised := Statement(t, rivals(4));
      PassedStill(origin, history, trace, |old(trace)|, |old(trace)|, checked);
    }

    method RedeemInvitation(t: TxId, rivals: seq<Event>)
      requires Reachable() && t in s.txs && s.txs[t].pc.Ready? && s.txs[t].pc.write.Accept?
      modifies this
      ensures Reachable() && origin == old(origin) && old(trace) < trace && trace[|trace| - 1] == Commit(t)
      ensures rivals == [] ==> previous == old(s)
      ensures var wr := old(s.txs[t]).pc.write;
              && t !in s.txs && Acceptable(previous.db, wr.invite, old(s.txs[t]).start)
              && Redeemed(previous.db, s.db, wr.invite, wr.user)
    {
      hide Reachable;
      Finish(t, rivals);
    }

    // Everything up to the commit.
    method DecideAcceptance(t: TxId, rivals: Schedule) returns (raised: Option<Error>, ghost checked: State)
      requires Reachable() && t in s.txs && s.txs[t].pc.AcceptAsk?
      modifies this
      ensures Reachable() && Carried(t, raised.Some?)
      ensures Quiet(rivals) ==> GoesOn(old(s), s, t, raised)
      ensures raised == Some(Aborted) ==> Stuck(previous, t)
      ensures raised.None? ==>
                var AcceptAsk(user, i) := old(s).txs[t].pc;
                && t in s.txs && s.txs[t].start == old(s).txs[t].start && s.txs[t].pc.Ready?
                && s.txs[t].pc.write.Accept? && s.txs[t].pc.write.invite == i && s.txs[t].pc.write.user == user
                && Met(checked) && Addressed(checked.db, i, user)
      ensures raised.Some? ==>
                var AcceptAsk(user, i) := old(s).txs[t].pc;
                Unacceptable(s.db, i, user, old(s).txs[t].start, raised.value)
    {
      hide Reachable, Passed, Fate, Stuck, Acceptable, Addressed;
      checked := s;
      raised := LockInvitation(t, rivals);
      if raised.Some? { return; }
      ghost var from := |trace|;
      raised, checked := AdmitUser(t, rivals);
      if raised.None? { PassedStill(origin, trace, trace, from, |old(trace)|, checked); }
    }

    // `checked` is the state in which the user was compared with the invitation.
    method Accept(user: UserId, invite: InviteId, rivals: Schedule) returns (o: Outcome, ghost checked: State)
      requires Reachable()
      modifies this
      ensures Reachable() && Conducted(AcceptAsk(user, invite), o.Done?)
      ensures o == Failed(Aborted) ==> Stuck(previous, old(s).next)
      ensures o.Done? ==>
                && Met(checked) && Addressed(checked.db, invite, user)
                && Acceptable(previous.db, invite, old(s).now) && Redeemed(previous.db, s.db, invite, user)
      ensures o.Failed? ==> s.db == previous.db && Unacceptable(s.db, invite, user, old(s).now, o.error)
      ensures Quiet(rivals) && old(s).txs == map[] ==>
                var db := old(s).db;
                && previous.db == db
                && o == if !(invite in db.invites && db.invites[invite].accepted.None? &&
                             !db.invites[invite].revoked && db.invites[invite].expires > old(s).now)
                        then Failed(InvitationInvalid)
                        else if !(user in db.users && db.users[user].active && !db.users[user].deleted &&
                                  db.users[user].email == Some(db.invites[invite].email))
                        then Failed(EmailMismatch)
                        else Done
    {
      hide Reachable, Passed, Acceptable, Addressed, Redeemed, Unacceptable, Fate, Stuck, Quiet;
      var t := Start(AcceptAsk(user, invite));
      assert References(s.db) by { SchemaHolds(); }
      AcceptAlone(s, t, user, invite);
      QuietAt(rivals, 5);
      ghost var from := |trace|;
      var raised;
      raised, checked := DecideAcceptance(t, rivals);
      if raised.Some? { return Failed(raised.value), checked; }
      ghost var history := trace;
      RedeemInvitation(t, rivals(5));
      PassedStill(origin, history, trace, from, |old(trace)|, checked);
      o := Done;
    }

    // The one statement that finds the invitation open and within the actor's authority.
    method FindRevocable(t: TxId, rivals: seq<Event>) returns (raised: Option<Error>)
      requires Reachable() && t in s.txs && s.txs[t].pc.Authed? && s.txs[t].pc.job.RevokeJob?
      requires s.txs[t].pc.actorRole != Member
      modifies this
      ensures Reachable() && Carried(t, raised.Some?) && |old(trace)| < |trace|
      ensures rivals == [] ==> GoesOn(old(s), s, t, raised)
      ensures raised == Some(Aborted) ==> Stuck(previous, t)
      ensures raised.None? ==>
                var Authed(w, a, RevokeJob(i), _) := old(s).txs[t].pc;
                t in s.txs && s.txs[t].pc == Ready(Withdraw(i, w)) && MayRevoke(previous.db, w, a, i)
      ensures raised.Some? ==>
                var Authed(w, a, RevokeJob(i), _) := old(s).txs[t].pc;
                && raised.value in {NotFound, Aborted}
                && (raised == Some(NotFound) ==> !OpenIn(s.db, i, w) || !HasRole(s.db, w, a, Owner))
    {
      hide Reachable, Fate, Stuck;
      raised := Statement(t, rivals);
    }

    method WithdrawInvitation(t: TxId, rivals: seq<Event>)
      requires Reachable() && t in s.txs && s.txs[t].pc.Ready? && s.txs[t].pc.write.Withdraw?
      modifies this
      ensures Reachable() && origin == old(origin) && old(trace) < trace && trace[|trace| - 1] == Commit(t)
      ensures rivals == [] ==> previous == old(s)
      ensures var Withdraw(i, w) := old(s.txs[t]).pc.write;
              && t !in s.txs && OpenIn(previous.db, i, w)
              && s.db == previous.db.(invites := previous.db.invites[i := previous.db.invites[i].(revoked := true)])
    {
      hide Reachable;
      Finish(t, rivals);
    }

    // Everything up to the commit.  `checked` is the state in which the actor's role was
    // compared with the invitation.
    method DecideRevocation(t: TxId, rivals: Schedule) returns (raised: Option<Error>, ghost checked: State)
      requires Reachable() && t in s.txs && s.txs[t].pc.AuthAsk? && s.txs[t].pc.job.RevokeJob?
      modifies this
      ensures Reachable() && Carried(t, raised.Some?)
      ensures Quiet(rivals) ==> GoesOn(old(s), s, t, raised)
      ensures raised == Some(Aborted) ==> Stuck(previous, t)
      ensures raised.None? ==>
                var AuthAsk(w, a, RevokeJob(i)) := old(s).txs[t].pc;
                && t in s.txs && s.txs[t].pc == Ready(Withdraw(i, w))
                && Met(checked) && MayRevoke(checked.db, w, a, i)
      ensures raised.Some? ==>
                var AuthAsk(w, a, RevokeJob(i)) := old(s).txs[t].pc;
                Unrevocable(s.db, w, a, i, raised.value)
    {
      hide Reachable, Passed, MayRevoke, OpenIn, HasRole, Fate, Stuck;
      checked := s;
      raised := Authorize(t, rivals);
      if raised.Some? { return; }
      raised := FindRevocable(t, rivals(2));
      checked := previous;
      if raised.None? { PreviousPassed(|old(trace)|); }
    }

    method Revoke(w: WsId, actor: UserId, invite: InviteId, rivals: Schedule) returns (o: Outcome, ghost checked: State)
      requires Reachable()
      modifies this
      ensures Reachable() && Conducted(AuthAsk(w, actor, RevokeJob(invite)), o.Done?)
      ensures o == Failed(Aborted) ==> Stuck(previous, old(s).next)
      ensures o.Done? ==>
                && Met(checked) && MayRevoke(checked.db, w, actor, invite)
                && var a := previous.db;
                   && OpenIn(a, invite, w)
                   && s.db == a.(invites := a.invites[invite := a.invites[invite].(revoked := true)])
      ensures o.Failed? ==> s.db == previous.db && Unrevocable(s.db, w, actor, invite, o.error)
      ensures Quiet(rivals) && old(s).txs == map[] ==>
                var db := old(s).db;
                && previous.db == db
                && o == if w !in db.workspaces || (w, actor) !in db.members then Failed(NotFound)
                        else if db.members[(w, actor)] == Member then Failed(Forbidden)
                        else if invite in db.invites && db.invites[invite].ws == w &&
                                db.invites[invite].accepted.None? && !db.invites[invite].revoked &&
                                (db.members[(w, actor)] == Owner || db.invites[invite].role == Member)
                        then Done
                        else Failed(NotFound)
    {
      hide Reachable, Passed, MayRevoke, Unrevocable, Fate, Stuck, Quiet;
      var t := Start(AuthAsk(w, actor, RevokeJob(invite)));
      RevokeAlone(s, t, w, actor, invite);
      QuietAt(rivals, 3);
      ghost var from := |trace|;
      var raised;
      raised, checked := DecideRevocation(t, rivals);
      if raised.Some? { return Failed(raised.value), checked; }
      ghost var history := trace;
      WithdrawInvitation(t, rivals(3));
      PassedStill(origin, history, trace, from, |old(trace)|, checked);
      o := Done;
    }

    // The member's row is checked and shared for a role, then the member's current
    // role is read and the permission rule applied.
    method LockMember(t: TxId, rivals: Schedule) returns (raised: Option<Error>)
      requires Reachable() && t in s.txs && s.txs[t].pc.Authed? && s.txs[t].pc.job.ChangeJob?
      modifies this
      ensures Reachable() && Carried(t, raised.Some?) && |old(trace)| < |trace| && s.db == previous.db
      ensures Quiet(rivals) ==> GoesOn(old(s), s, t, raised)
      ensures raised == Some(Aborted) ==> Stuck(previous, t)
      ensures raised.None? ==>
                var Authed(w, a, ChangeJob(m, role), _) := old(s).txs[t].pc;
                && t in s.txs && s.txs[t].pc.ChangeTarget?
                && s.txs[t].pc == ChangeTarget(w, m, role, s.txs[t].pc.target)
                && HasRole(s.db, w, m, s.txs[t].pc.target) && Permitted(s.db, w, a, m, role)
      ensures raised.Some? ==>
                var Authed(w, a, ChangeJob(m, role), _) := old(s).txs[t].pc;
                && raised.value in {MemberInactive, NotFound, OwnerRequired, Aborted}
                && (raised == Some(MemberInactive) ==> role.Some? && !LiveUser(s.db, m))
                && (raised == Some(NotFound) ==> (w, m) !in s.db.members)
                && (raised == Some(OwnerRequired) ==> Beyond(s.db, w, a, m, role))
    {
      hide Reachable, Fate, Stuck;
      raised := Statement(t, rivals(2));
      if raised.Some? { return; }
      raised := Statement(t, rivals(3));
    }

    // An owner who steps down or is removed must not be the last active one.
    method CheckLastOwner(t: TxId, rivals: seq<Event>) returns (raised: Option<Error>)
      requires Reachable() && t in s.txs && s.txs[t].pc.ChangeTarget?
      modifies this
      ensures Reachable() && Carried(t, raised.Some?)
      ensures rivals == [] ==> GoesOn(old(s), s, t, raised)
      ensures raised == Some(Aborted) ==> Stuck(previous, t)
      ensures raised.None? ==>
                var ChangeTarget(w, m, role, _) := old(s).txs[t].pc;
                t in s.txs && s.txs[t].pc == Ready(ChangeWrite(w, m, role))
      ensures raised.Some? ==>
                var ChangeTarget(w, m, role, _) := old(s).txs[t].pc;
                && raised.value in {LastOwner, Aborted}
                && (raised == Some(LastOwner) ==>
                      HasRole(s.db, w, m, Owner) && role != Some(Owner) && |LiveOwners(s.db, w)| == 1)
    {
      hide Reachable, Fate, Stuck;
      raised := Statement(t, rivals);
      if raised == Some(LastOwner) { SomeOwner(previous.txs[t].pc.ws); }
    }

    method WriteChange(t: TxId, w: WsId, m: UserId, role: Option<Role>, rivals: seq<Event>)
      requires Reachable() && t in s.txs && s.txs[t].pc == Ready(ChangeWrite(w, m, role))
      modifies this
      ensures Reachable() && origin == old(origin) && old(trace) < trace && trace[|trace| - 1] == Commit(t)
      ensures rivals == [] ==> previous == old(s)
      ensures t !in s.txs && Replaced(previous.db, s.db, w, m, role)
    {
      hide Reachable;
      Finish(t, rivals);
    }

    // Everything up to the commit.  `checked` is the state in which the permission rule
    // was applied.
    method DecideChange(t: TxId, rivals: Schedule) returns (raised: Option<Error>, ghost checked: State)
      requires Reachable() && t in s.txs && s.txs[t].pc.AuthAsk? && s.txs[t].pc.job.ChangeJob?
      modifies this
      ensures Reachable() && Carried(t, raised.Some?)
      ensures Quiet(rivals) ==> GoesOn(old(s), s, t, raised)
      ensures raised == Some(Aborted) ==> Stuck(previous, t)
      ensures raised.None? ==>
                var AuthAsk(w, a, ChangeJob(m, role)) := old(s).txs[t].pc;
                && t in s.txs && s.txs[t].pc == Ready(ChangeWrite(w, m, role))
                && Met(checked) && Permitted(checked.db, w, a, m, role)
      ensures raised.Some? ==>
                var AuthAsk(w, a, ChangeJob(m, role)) := old(s).txs[t].pc;
                Unchangeable(s.db, w, a, m, role, raised.value)
    {
      hide Reachable, Passed, ChangeWrite, Permitted, Beyond, HasRole, LiveOwners, LiveUser, Fate, Stuck;
      checked := s;
      raised := Authorize(t, rivals);
      if raised.Some? { return; }
      raised := LockMember(t, rivals);
      checked := previous;
      if raised.Some? { return; }
      PreviousPassed(|old(trace)|);
      ghost var history := trace;
      raised := CheckLastOwner(t, rivals(4));
      PassedStill(origin, history, trace, |old(trace)|, |old(trace)|, checked);
    }

    method ChangeMember(w: WsId, actor: UserId, member: UserId, role: Option<Role>, rivals: Schedule)
      returns (o: Outcome, ghost checked: State)
      requires Reachable()
      modifies this
      ensures Reachable() && Conducted(AuthAsk(w, actor, ChangeJob(member, role)), o.Done?)
      ensures o == Failed(Aborted) ==> Stuck(previous, old(s).next)
      ensures o.Done? ==>
                && Met(checked) && Permitted(checked.db, w, actor, member, role)
                && Replaced(previous.db, s.db, w, member, role)
      ensures o.Failed? ==> s.db == previous.db && Unchangeable(s.db, w, actor, member, role, o.error)
      ensures o == Failed(LastOwner) ==>
                && (w, member) in s.db.members && s.db.members[(w, member)] == Owner && role != Some(Owner)
                && |LiveOwners(s.db, w)| == 1
      ensures Quiet(rivals) && old(s).txs == map[] ==>
                var db := old(s).db;
                && previous.db == db
                && o == if w !in db.workspaces || (w, actor) !in db.members then Failed(NotFound)
                        else if role.Some? && !(member in db.users && db.users[member].active &&
                                                !db.users[member].deleted)
                        then Failed(MemberInactive)
                        else if (w, member) !in db.members then Failed(NotFound)
                        else
                          var mine, theirs := db.members[(w, actor)], db.members[(w, member)];
                          if !(|| (member == actor && role.None?) || mine == Owner
                               || (mine == Admin && theirs == Member && (role.None? || role == Some(Member))))
                          then Failed(OwnerRequired)
                          else if theirs == Owner && role != Some(Owner) &&
                                  |set u | u in db.users && (w, u) in db.members && db.members[(w, u)] == Owner &&
                                     db.users[u].active && !db.users[u].deleted| <= 1
                          then Failed(LastOwner)
                          else Done
    {
      hide Reachable, Passed, Replaced, ChangeWrite, Permitted, Fate, Stuck, Quiet, LiveOwners;
      var t := Start(AuthAsk(w, actor, ChangeJob(member, role)));
      ChangeAlone(s, t, w, actor, member, role);
      QuietAt(rivals, 5);
      ghost var from := |trace|;
      var raised;
      raised, checked := DecideChange(t, rivals);
      if raised.Some? { return Failed(raised.value), checked; }
      ghost var history := trace;
      WriteChange(t, w, member, role, rivals(5));
      PassedStill(origin, history, trace, from, |old(trace)|, checked);
      o := Done;
    }

    // One round of the trigger's loop: lock the next owned workspace, then look
    // for another active owner.
    method CheckOwned(t: TxId, rivals: Schedule, round: nat) returns (raised: Option<Error>)
      requires Reachable() && t in s.txs && s.txs[t].pc.LifeLoop? && s.txs[t].pc.todo != {}
      modifies this
      ensures Reachable() && Carried(t, raised.Some?)
      ensures Quiet(rivals) ==> GoesOn(old(s), s, t, raised)
      ensures raised == Some(Aborted) ==> Stuck(previous, t)
      ensures raised.None? ==>
                var LifeLoop(u, change, todo) := old(s).txs[t].pc;
                t in s.txs && s.txs[t].pc == LifeLoop(u, change, todo - {Least(todo)})
      ensures raised == Some(WorkspaceActiveOwner) ==>
                && Least(old(s).txs[t].pc.todo) in s.db.workspaces
                && LiveOwners(s.db, Least(old(s).txs[t].pc.todo)) == {old(s).txs[t].pc.user}
                && TakesAway(old(s).txs[t].pc.change)
      ensures raised.Some? ==> raised.value in {WorkspaceActiveOwner, Aborted}
    {
      hide Reachable, Fate, Stuck;
      raised := Statement(t, rivals(round));
      if raised.Some? { return; }
      raised := Statement(t, rivals(round + 1));
      if raised == Some(WorkspaceActiveOwner) {
        var pc := previous.txs[t].pc;
        SoleOwner(pc.ws, pc.user);
        assert pc.user in LiveOwners(s.db, pc.ws);
      }
    }

    // The trigger's loop over the list of owned workspaces it opened.
    method CheckAllOwned(t: TxId, user: UserId, change: Change, rivals: Schedule)
      returns (raised: Option<Error>, round: nat)
      requires Reachable() && t in s.txs && Deciding(s.txs[t].pc, user, change)
      modifies this
      ensures Reachable() && Carried(t, raised.Some?)
      ensures Quiet(rivals) ==> GoesOn(old(s), s, t, raised)
      ensures raised == Some(Aborted) ==> Stuck(previous, t)
      ensures raised.None? ==> t in s.txs && s.txs[t].pc == LifeLoop(user, change, {})
      ensures raised.Some? ==> raised.value in {WorkspaceActiveOwner, Aborted}
      ensures raised == Some(WorkspaceActiveOwner) ==>
                TakesAway(change) && exists w :: w in s.db.workspaces && LiveOwners(s.db, w) == {user}
    {
      hide Reachable, Fate, Stuck;
      raised, round := None, 2;
      while s.txs[t].pc.todo != {}
        invariant Reachable() && origin == old(origin) && Continues(old(trace), trace, t)
        invariant t in s.txs && Deciding(s.txs[t].pc, user, change) && raised.None?
        invariant Quiet(rivals) ==> GoesOn(old(s), s, t, None)
        decreases s.txs[t].pc.todo
      {
        raised := CheckOwned(t, rivals, round);
        if raised.Some? { return; }
        round := round + 2;
      }
    }

    // The row lock of the UPDATE or DELETE and the first line of the trigger.
    method LockUser(t: TxId, rivals: Schedule) returns (raised: Option<Error>)
      requires Reachable() && t in s.txs && s.txs[t].pc.LifeAsk?
      modifies this
      ensures Reachable() && Carried(t, raised.Some?)
      ensures Quiet(rivals) ==> GoesOn(old(s), s, t, raised)
      ensures raised == Some(Aborted) ==> Stuck(previous, t)
      ensures raised.None? ==>
                var LifeAsk(u, change, _) := old(s).txs[t].pc;
                t in s.txs && (Deciding(s.txs[t].pc, u, change) || Decided(s.txs[t].pc, u, change))
      ensures raised.Some? ==> raised.value in {NotFound, Aborted}
      ensures raised == Some(NotFound) ==> old(s).txs[t].pc.user !in s.db.users
    {
      hide Reachable, Fate, Stuck;
      raised := Statement(t, rivals(0));
      if raised.Some? { return; }
      raised := Statement(t, rivals(1));
    }

    // The statement up to the point where it can commit: the row lock, then the
    // trigger's loop where the change takes an active user away.
    method DecideUser(t: TxId, rivals: Schedule) returns (raised: Option<Error>, round: nat)
      requires Reachable() && t in s.txs && s.txs[t].pc.LifeAsk?
      modifies this
      ensures Reachable() && Carried(t, raised.Some?)
      ensures Quiet(rivals) ==> GoesOn(old(s), s, t, raised)
      ensures raised == Some(Aborted) ==> Stuck(previous, t)
      ensures raised.None? ==>
                var LifeAsk(u, change, _) := old(s).txs[t].pc;
                t in s.txs && Decided(s.txs[t].pc, u, change)
      ensures raised == Some(WorkspaceActiveOwner) ==>
                && TakesAway(old(s).txs[t].pc.change)
                && exists w :: w in s.db.workspaces && LiveOwners(s.db, w) == {old(s).txs[t].pc.user}
      ensures raised == Some(NotFound) ==> old(s).txs[t].pc.user !in s.db.users
    {
      hide Reachable, Fate, Stuck;
      var LifeAsk(user, change, _) := s.txs[t].pc;
      round := 2;
      raised := LockUser(t, rivals);
      if raised.Some? || s.txs[t].pc.Ready? { return; }
      raised, round := CheckAllOwned(t, user, change, rivals);
      if raised.Some? { return; }
      raised := Statement(t, rivals(round));
    }

    // An UPDATE or DELETE of a user row with the trigger it fires.
    method ChangeUser(user: UserId, change: Change, mode: LockMode, rivals: Schedule) returns (o: Outcome)
      requires Reachable() && IsRequest(LifeAsk(user, change, mode))
      modifies this
      ensures Reachable() && Conducted(LifeAsk(user, change, mode), o.Done?)
      ensures o == Failed(Aborted) ==> Stuck(previous, old(s).next)
      ensures o.Done? ==>
                var a := previous.db;
                && user in a.users
                && match change
                   case SetEmail(email) => s.db == a.(users := a.users[user := a.users[user].(email := email)])
                   case SetStatus(active) => s.db == a.(users := a.users[user := a.users[user].(active := active)])
                   case SoftDelete => s.db == a.(users := a.users[user := a.users[user].(deleted := true)])
                   case HardDelete =>
                     s.db == a.(users := a.users - {user},
                                members := map k | k in a.members && k.1 != user :: a.members[k])
      ensures o.Failed? ==> s.db == previous.db
      ensures o == Failed(WorkspaceActiveOwner) ==>
                && (change.HardDelete? || change.SoftDelete? || change == SetStatus(false))
                && exists w :: w in s.db.workspaces && LiveOwners(s.db, w) == {user}
      ensures o == Failed(NotFound) ==> user !in s.db.users
      ensures Quiet(rivals) && old(s).txs == map[] ==>
                var db := old(s).db;
                && previous.db == db
                && o == if user !in db.users then Failed(NotFound)
                        else if (change.HardDelete? || change.SoftDelete? || change == SetStatus(false)) &&
                                exists w :: w in db.workspaces &&
                                  (set u | u in db.users && (w, u) in db.members && db.members[(w, u)] == Owner &&
                                     db.users[u].active && !db.users[u].deleted) == {user}
                        then Failed(WorkspaceActiveOwner)
                        else Done
    {
      hide Reachable, Fate, Stuck, Quiet, LiveOwners;
      var t := Start(LifeAsk(user, change, mode));
      assert References(s.db) && EachWorkspaceOwned(s.db) by { SchemaHolds(); }
      LifeAlone(s, t, user, change, mode);
      var raised, round := DecideUser(t, rivals);
      if raised.Some? { return Failed(raised.value); }
      QuietAt(rivals, round + 1);
      Finish(t, rivals(round + 1));
      o := Done;
    }
  }

  // An invitation that somebody can still accept.
  ghost predicate Acceptable(db: Db, i: InviteId, now: int) {
    i in db.invites && Open(db.invites[i]) && db.invites[i].expires > now
  }

  // The user is active and has the invitation's address.
  ghost predicate Addressed(db: Db, i: InviteId, u: UserId) {
    i in db.invites && LiveUser(db, u) && db.users[u].email == Some(db.invites[i].email)
  }

  // The invitation is marked, and the user is a member if it was not one.
  ghost predicate Redeemed(a: Db, b: Db, i: InviteId, u: UserId)
    requires i in a.invites
  {
    var k := (a.invites[i].ws, u);
    b == a.(invites := a.invites[i := a.invites[i].(accepted := Some(u))],
            members := if k in a.members then a.members else a.members[k := a.invites[i].role])
  }

  // What a refused invitation met, counting live ones as of the start of the request.
  ghost predicate Uninvitable(db: Db, w: WsId, a: UserId, email: Email, role: Role, start: int, error: Error) {
    match error
    case NotFound => w !in db.workspaces || (w, a) !in db.members
    case Forbidden => HasRole(db, w, a, Member)
    case OwnerRequired => role != Member && !HasRole(db, w, a, Owner)
    case AlreadyMember => MemberWithEmail(db, w, email)
    case InvitationLimit => |OtherLiveInvites(db, w, email, start)| >= INVITE_LIMIT
    case Aborted => true
    case _ => false
  }

  // What a refused acceptance met, as of the start of the request.
  ghost predicate Unacceptable(db: Db, i: InviteId, u: UserId, start: int, error: Error) {
    match error
    case InvitationInvalid => !Acceptable(db, i, start)
    case EmailMismatch => !Addressed(db, i, u)
    case ForeignKey => u !in db.users
    case Aborted => true
    case _ => false
  }

  // What a refused revocation met.
  ghost predicate Unrevocable(db: Db, w: WsId, a: UserId, i: InviteId, error: Error) {
    match error
    case NotFound =>
      w !in db.workspaces || (w, a) !in db.members || !OpenIn(db, i, w) || !HasRole(db, w, a, Owner)
    case Forbidden => HasRole(db, w, a, Member)
    case Aborted => true
    case _ => false
  }

  // What a refused change met.
  ghost predicate Unchangeable(db: Db, w: WsId, a: UserId, m: UserId, role: Option<Role>, error: Error) {
    match error
    case NotFound => w !in db.workspaces || (w, a) !in db.members || (w, m) !in db.members
    case MemberInactive => role.Some? && !LiveUser(db, m)
    case OwnerRequired => Beyond(db, w, a, m, role)
    case LastOwner => HasRole(db, w, m, Owner) && role != Some(Owner) && |LiveOwners(db, w)| == 1
    case Aborted => true
    case _ => false
  }

  // The change is beyond the actor, who is no owner and not just leaving.
  ghost predicate Beyond(db: Db, w: WsId, a: UserId, m: UserId, role: Option<Role>) {
    && (w, m) in db.members && !(m == a && role.None?) && !HasRole(db, w, a, Owner)
    && (HasRole(db, w, a, Admin) && (role.None? || role == Some(Member)) ==> !HasRole(db, w, m, Member))
  }

  // One membership goes, or gets another role while its user is active.
  ghost predicate Replaced(a: Db, b: Db, w: WsId, m: UserId, role: Option<Role>) {
    match role
    case None => b == a.(members := a.members - {(w, m)})
    case Some(r) => (w, m) in a.members && LiveUser(a, m) && b == a.(members := a.members[(w, m) := r])
  }

  // Owners invite anybody, admins members only.
  ghost predicate MayInvite(db: Db, w: WsId, a: UserId, role: Role) {
    !HasRole(db, w, a, Member) && (HasRole(db, w, a, Admin) ==> role == Member)
  }

  // The new invitation is there, and the open ones of its address are withdrawn.
  ghost predicate Issued(a: Db, b: Db, t: InviteId, row: Invite) {
    && t !in a.invites && b.invites.Keys == a.invites.Keys + {t} && b.invites[t] == row
    && (forall i :: i in a.invites ==>
          b.invites[i] == if OpenIn(a, i, row.ws) && a.invites[i].email == row.email
                          then a.invites[i].(revoked := true) else a.invites[i])
    && b.(invites := a.invites) == a
  }

  // Owners revoke any invitation, admins those of members, members none.
  ghost predicate MayRevoke(db: Db, w: WsId, a: UserId, i: InviteId) {
    && !HasRole(db, w, a, Member)
    && (HasRole(db, w, a, Admin) ==> i in db.invites && db.invites[i].role == Member)
  }

  // Everybody may leave; otherwise owners may do anything, admins may remove a member
  // or leave it one, and members nothing.
  ghost predicate Permitted(db: Db, w: WsId, a: UserId, m: UserId, role: Option<Role>) {
    && (w, m) in db.members
    && (HasRole(db, w, a, Member) ==> a == m && role.None?)
    && (HasRole(db, w, a, Admin) ==>
          (a == m && role.None?) || (HasRole(db, w, m, Member) && (role.None? || role == Some(Member))))
  }

  ghost predicate Deciding(pc: Pc, u: UserId, change: Change) {
    pc.LifeLoop? && pc.user == u && pc.change == change
  }

  ghost predicate Decided(pc: Pc, u: UserId, change: Change) {
    pc.Ready? &&
    if change.HardDelete? then pc.write == DropUser(u)
    else pc.write.PutUser? && pc.write.user == u && pc.write.change == change
  }
}
