/**
 The workspace tables, the statements that change them and the transactions that
 run those statements, as a state machine under READ COMMITTED.

 A step is one SQL statement of one transaction.  A statement reads the committed
 tables; what a transaction writes stays in its `Ready` write until it commits.
 Row locks live in `held` of the transaction that took them and go when it ends.
 A statement that needs a row lock waits (is not enabled) while another
 transaction holds a conflicting one, and is evaluated when the wait is over.
 A fresh UUID drawn inside transaction `t` is named `t`, so invitation `t` also
 stands for the token issued with it.
 */
module WorkspaceProtocol {
  import opened Common

  type UserId = nat
  type WsId = nat
  type InviteId = nat
  type TxId = nat
  type Email = nat // an address after lower-casing

  datatype Role = Owner | Admin | Member

  datatype User = User(email: Option<Email>, active: bool, deleted: bool)

  datatype Invite = Invite(ws: WsId, email: Email, role: Role, expires: int,
                           accepted: Option<UserId>, revoked: bool)

  datatype Db = Db(users: map<UserId, User>, workspaces: set<WsId>,
                   members: map<(WsId, UserId), Role>, invites: map<InviteId, Invite>)

  const OWNED_LIMIT := 20
  const INVITE_LIMIT := 100
  const INVITE_LIFETIME := 7 * 86_400_000

  // ----- what one statement can see -----

  predicate Live(row: User) {
    row.active && !row.deleted
  }

  predicate LiveUser(db: Db, u: UserId) {
    u in db.users && Live(db.users[u])
  }

  predicate HasRole(db: Db, w: WsId, u: UserId, role: Role) {
    (w, u) in db.members && db.members[(w, u)] == role
  }

  predicate LiveOwner(db: Db, w: WsId, u: UserId) {
    HasRole(db, w, u, Owner) && LiveUser(db, u)
  }

  // The count query of the last-owner check.
  function LiveOwners(db: Db, w: WsId): set<UserId> {
    set u | u in db.users && LiveOwner(db, w, u)
  }

  // The list the trigger loops over.
  function Owned(db: Db, u: UserId): set<WsId> {
    set k | k in db.members && k.1 == u && db.members[k] == Owner :: k.0
  }

  predicate OtherOwner(db: Db, w: WsId, u: UserId) {
    exists v :: v in db.users && v != u && LiveOwner(db, w, v)
  }

  predicate Open(i: Invite) {
    i.accepted.None? && !i.revoked
  }

  predicate OpenIn(db: Db, i: InviteId, w: WsId) {
    i in db.invites && db.invites[i].ws == w && Open(db.invites[i])
  }

  function LiveInvites(db: Db, w: WsId, now: int): set<InviteId> {
    set i | i in db.invites && OpenIn(db, i, w) && db.invites[i].expires > now
  }

  function OtherLiveInvites(db: Db, w: WsId, email: Email, now: int): set<InviteId> {
    set i | i in LiveInvites(db, w, now) && db.invites[i].email != email
  }

  predicate MemberWithEmail(db: Db, w: WsId, email: Email) {
    exists u :: u in db.users && (w, u) in db.members && db.users[u].email == Some(email) && !db.users[u].deleted
  }

  // ----- what a commit writes -----

  datatype Write =
    | AddWorkspace(ws: WsId, user: UserId)
    | SetRole(ws: WsId, user: UserId, role: Role)
    | DropMember(ws: WsId, user: UserId)
    | Issue(invite: InviteId, ws: WsId, email: Email, role: Role, expires: int)
    | Accept(invite: InviteId, ws: WsId, user: UserId)
    | Withdraw(invite: InviteId, ws: WsId)
    | PutUser(user: UserId, change: Change, row: User)
    | DropUser(user: UserId)

  function ApplyWrite(db: Db, wr: Write): Db {
    match wr
    case AddWorkspace(w, u) =>
      db.(workspaces := db.workspaces + {w}, members := db.members[(w, u) := Owner])
    case SetRole(w, u, role) =>
      if (w, u) in db.members then db.(members := db.members[(w, u) := role]) else db
    case DropMember(w, u) =>
      db.(members := db.members - {(w, u)})
    case Issue(i, w, email, role, expires) =>
      db.(invites := Reissued(db, w, email)[i := Invite(w, email, role, expires, None, false)])
    case Accept(i, w, u) =>
      var members := if (w, u) in db.members || i !in db.invites then db.members
                     else db.members[(w, u) := db.invites[i].role];
      var invites := if i in db.invites then db.invites[i := db.invites[i].(accepted := Some(u))] else db.invites;
      db.(members := members, invites := invites)
    case Withdraw(i, w) =>
      if i in db.invites then db.(invites := db.invites[i := db.invites[i].(revoked := true)]) else db
    case PutUser(u, _, row) =>
      db.(users := db.users[u := row])
    case DropUser(u) =>
      db.(users := db.users - {u}, members := map k | k in db.members && k.1 != u :: db.members[k])
  }

  // Reissuing revokes every open invitation of the same address, expired or not.
  function Reissued(db: Db, w: WsId, email: Email): map<InviteId, Invite> {
    map i | i in db.invites ::
      if OpenIn(db, i, w) && db.invites[i].email == email then db.invites[i].(revoked := true) else db.invites[i]
  }

  // ----- transactions -----

  datatype Resource = Ws(ws: WsId) | Usr(user: UserId)

  datatype Job =
    | InviteJob(email: Email, role: Role)
    | RevokeJob(invite: InviteId)
    | ChangeJob(member: UserId, asked: Option<Role>)

  // A change of a user row; all but SetEmail fire the trigger.
  datatype Change = SetEmail(email: Option<Email>) | SetStatus(active: bool) | SoftDelete | HardDelete

  datatype Pc =
    | CreateAsk(user: UserId)
    | CreateHeld(user: UserId)
    | AuthAsk(ws: WsId, actor: UserId, job: Job)
    | AuthHeld(ws: WsId, actor: UserId, job: Job)
    | Authed(ws: WsId, actor: UserId, job: Job, actorRole: Role)
    | InviteFree(ws: WsId, email: Email, role: Role)
    | ChangeShared(ws: WsId, actor: UserId, member: UserId, asked: Option<Role>, actorRole: Role)
    | ChangeTarget(ws: WsId, member: UserId, asked: Option<Role>, target: Role)
    | AcceptAsk(user: UserId, invite: InviteId)
    | AcceptFound(user: UserId, invite: InviteId, ws: WsId)
    | AcceptHeld(user: UserId, invite: InviteId, ws: WsId)
    | AcceptRead(user: UserId, invite: InviteId, ws: WsId)
    | AcceptUser(user: UserId, invite: InviteId, ws: WsId)
    | LifeAsk(user: UserId, change: Change, mode: LockMode)
    | LifeHeld(user: UserId, change: Change)
    | LifeLoop(user: UserId, change: Change, todo: set<WsId>)
    | LifeCheck(user: UserId, change: Change, ws: WsId, todo: set<WsId>)
    | Ready(write: Write)

  datatype Tx = Tx(held: map<Resource, LockMode>, start: int, pc: Pc)

  datatype State = State(db: Db, txs: map<TxId, Tx>, now: int, next: TxId)

  datatype Error =
    | NotFound | Forbidden | WorkspaceLimit | OwnerRequired | AlreadyMember | InvitationLimit
    | InvitationInvalid | EmailMismatch | MemberInactive | LastOwner | WorkspaceActiveOwner
    | ForeignKey | Aborted

  datatype Next = Go(tx: Tx) | Fail(error: Error)

  // A first statement that a request can start with.  The DTOs and the CHECK
  // constraint admit only admin and member invitations; a DELETE, unlike an
  // UPDATE, needs the strongest row lock.
  predicate IsRequest(pc: Pc) {
    match pc
    case CreateAsk(_) => true
    case AuthAsk(_, _, job) => job.InviteJob? ==> job.role != Owner
    case AcceptAsk(_, _) => true
    case LifeAsk(_, change, mode) => mode == Update || (mode == NoKeyUpdate && !change.HardDelete?)
    case _ => false
  }

  predicate IsLeast(ws: set<WsId>, w: WsId) {
    w in ws && forall x :: x in ws ==> w <= x
  }

  // ORDER BY workspace_id: the loop takes the smallest identifier first.
  function Least(ws: set<WsId>): (w: WsId)
    requires ws != {}
    ensures IsLeast(ws, w)
  {
    LeastExists(ws);
    var w :| IsLeast(ws, w);
    w
  }

  lemma LeastExists(ws: set<WsId>)
    requires ws != {}
    ensures exists w :: IsLeast(ws, w)
  {
    var w :| w in ws;
    var rest := ws - {w};
    if rest == {} {
      forall x | x in ws ensures w <= x {
        assert x == w || x in rest;
      }
      assert IsLeast(ws, w);
    } else {
      LeastExists(rest);
      var m :| IsLeast(rest, m);
      var least := if m < w then m else w;
      forall x | x in ws ensures least <= x {
        assert x == w || x in rest;
      }
      assert IsLeast(ws, least);
    }
  }

  // The row lock the next statement has to obtain.
  function Wants(pc: Pc): Option<(Resource, LockMode)> {
    match pc
    case CreateAsk(u) => Some((Usr(u), Update))
    case AuthAsk(w, _, _) => Some((Ws(w), Update))
    case Authed(_, _, ChangeJob(m, Some(_)), _) => Some((Usr(m), Share))
    case AcceptFound(_, _, w) => Some((Ws(w), Update))
    case AcceptUser(u, _, _) => Some((Usr(u), KeyShare)) // foreign key of the inserted row
    case LifeAsk(u, _, mode) => Some((Usr(u), mode))
    case LifeLoop(_, _, todo) => if todo == {} then None else Some((Ws(Least(todo)), Update))
    case _ => None
  }

  predicate Free(s: State, t: TxId, r: Resource, mode: LockMode) {
    forall t' :: t' in s.txs && t' != t && r in s.txs[t'].held ==> !Conflicts(mode, s.txs[t'].held[r])
  }

  predicate Blocked(s: State, t: TxId)
    requires t in s.txs
  {
    var want := Wants(s.txs[t].pc);
    want.Some? && !Free(s, t, want.value.0, want.value.1)
  }

  function Take(tx: Tx, r: Resource, mode: LockMode, pc: Pc): Tx {
    tx.(held := tx.held[r := mode], pc := pc)
  }

  // Permission rule of changeMember.
  predicate MayChange(actorRole: Role, target: Role, leaving: bool, role: Option<Role>) {
    leaving || actorRole == Owner || (actorRole == Admin && target == Member && (role == None || role == Some(Member)))
  }

  // The user row after an UPDATE.
  function NewRow(row: User, change: Change): User {
    match change
    case SetEmail(e) => row.(email := e)
    case SetStatus(a) => row.(active := a)
    case SoftDelete => row.(deleted := true)
    case HardDelete => row
  }

  function UserWrite(db: Db, u: UserId, change: Change): Write
    requires u in db.users
  {
    if change.HardDelete? then DropUser(u) else PutUser(u, change, NewRow(db.users[u], change))
  }

  function ChangeWrite(w: WsId, m: UserId, role: Option<Role>): Write {
    match role
    case None => DropMember(w, m)
    case Some(r) => SetRole(w, m, r)
  }

  // The next statement of transaction `t`, once it is not blocked.
  function Advance(s: State, t: TxId): Next
    requires t in s.txs
  {
    var db, tx := s.db, s.txs[t];
    match tx.pc
    case CreateAsk(u) =>
      if LiveUser(db, u) then Go(Take(tx, Usr(u), Update, CreateHeld(u))) else Fail(Forbidden)
    case CreateHeld(u) =>
      if |Owned(db, u)| >= OWNED_LIMIT then Fail(WorkspaceLimit) else Go(tx.(pc := Ready(AddWorkspace(t, u))))
    case AuthAsk(w, a, job) =>
      if w in db.workspaces then Go(Take(tx, Ws(w), Update, AuthHeld(w, a, job))) else Fail(NotFound)
    case AuthHeld(w, a, job) =>
      if (w, a) !in db.members then Fail(NotFound)
      else if !job.ChangeJob? && db.members[(w, a)] == Member then Fail(Forbidden)
      else Go(tx.(pc := Authed(w, a, job, db.members[(w, a)])))
    case Authed(w, a, InviteJob(email, role), ar) =>
      if ar != Owner && role != Member then Fail(OwnerRequired)
      else if MemberWithEmail(db, w, email) then Fail(AlreadyMember)
      else Go(tx.(pc := InviteFree(w, email, role)))
    case InviteFree(w, email, role) =>
      if |OtherLiveInvites(db, w, email, tx.start)| >= INVITE_LIMIT then Fail(InvitationLimit)
      else Go(tx.(pc := Ready(Issue(t, w, email, role, tx.start + INVITE_LIFETIME))))
    case Authed(w, a, RevokeJob(i), ar) =>
      if OpenIn(db, i, w) && (ar == Owner || db.invites[i].role == Member)
      then Go(tx.(pc := Ready(Withdraw(i, w)))) else Fail(NotFound)
    case Authed(w, a, ChangeJob(m, role), ar) =>
      if role.None? then Go(tx.(pc := ChangeShared(w, a, m, role, ar)))
      else if LiveUser(db, m) then Go(Take(tx, Usr(m), Share, ChangeShared(w, a, m, role, ar)))
      else Fail(MemberInactive)
    case ChangeShared(w, a, m, role, ar) =>
      if (w, m) !in db.members then Fail(NotFound)
      else if !MayChange(ar, db.members[(w, m)], m == a && role.None?, role) then Fail(OwnerRequired)
      else Go(tx.(pc := ChangeTarget(w, m, role, db.members[(w, m)])))
    case ChangeTarget(w, m, role, target) =>
      if target == Owner && role != Some(Owner) && |LiveOwners(db, w)| <= 1 then Fail(LastOwner)
      else Go(tx.(pc := Ready(ChangeWrite(w, m, role))))
    case AcceptAsk(u, i) =>
      if i in db.invites then Go(tx.(pc := AcceptFound(u, i, db.invites[i].ws))) else Fail(InvitationInvalid)
    case AcceptFound(u, i, w) =>
      if w in db.workspaces then Go(Take(tx, Ws(w), Update, AcceptHeld(u, i, w))) else Fail(InvitationInvalid)
    case AcceptHeld(u, i, w) =>
      if OpenIn(db, i, w) && db.invites[i].expires > tx.start then Go(tx.(pc := AcceptRead(u, i, w)))
      else Fail(InvitationInvalid)
    case AcceptRead(u, i, w) =>
      if i in db.invites && LiveUser(db, u) && db.users[u].email == Some(db.invites[i].email)
      then Go(tx.(pc := AcceptUser(u, i, w))) else Fail(EmailMismatch)
    case AcceptUser(u, i, w) =>
      if u in db.users then Go(Take(tx, Usr(u), KeyShare, Ready(Accept(i, w, u)))) else Fail(ForeignKey)
    case LifeAsk(u, change, mode) =>
      if u in db.users then Go(Take(tx, Usr(u), mode, LifeHeld(u, change))) else Fail(NotFound)
    case LifeHeld(u, change) =>
      if u !in db.users then Fail(NotFound)
      else if change.SetEmail? || (!change.HardDelete? && Live(NewRow(db.users[u], change)))
      then Go(tx.(pc := Ready(UserWrite(db, u, change))))
      else Go(tx.(pc := LifeLoop(u, change, Owned(db, u))))
    case LifeLoop(u, change, todo) =>
      if todo == {} then
        if u in db.users then Go(tx.(pc := Ready(UserWrite(db, u, change)))) else Fail(NotFound)
      else Go(Take(tx, Ws(Least(todo)), Update, LifeCheck(u, change, Least(todo), todo - {Least(todo)})))
    case LifeCheck(u, change, w, todo) =>
      if OtherOwner(db, w, u) then Go(tx.(pc := LifeLoop(u, change, todo))) else Fail(WorkspaceActiveOwner)
    case Ready(_) => Go(tx)
  }

  // ----- runs -----

  datatype Event =
    | Begin(pc: Pc)
    | Step(tx: TxId)
    | Commit(tx: TxId)
    | Abort(tx: TxId)               // crash, deadlock victim or closed connection
    | Register(user: UserId, row: User)
    | Tick(ms: nat)

  predicate Enabled(s: State, e: Event) {
    match e
    case Begin(pc) => IsRequest(pc)
    case Step(t) => t in s.txs && !s.txs[t].pc.Ready? && !Blocked(s, t)
    case Commit(t) => t in s.txs && s.txs[t].pc.Ready?
    case Abort(t) => t in s.txs
    case Register(u, _) => u !in s.db.users
    case Tick(_) => true
  }

  function Apply(s: State, e: Event): State
    requires Enabled(s, e)
  {
    match e
    case Begin(pc) => s.(txs := s.txs[s.next := Tx(map[], s.now, pc)], next := s.next + 1)
    case Step(t) =>
      (match Advance(s, t)
       case Go(tx) => s.(txs := s.txs[t := tx])
       case Fail(_) => s.(txs := s.txs - {t}))
    case Commit(t) => s.(db := ApplyWrite(s.db, s.txs[t].pc.write), txs := s.txs - {t})
    case Abort(t) => s.(txs := s.txs - {t})
    case Register(u, row) => s.(db := s.db.(users := s.db.users[u := row]))
    case Tick(ms) => s.(now := s.now + ms)
  }

  predicate Valid(s: State, es: seq<Event>)
    decreases |es|
  {
    es == [] || (Enabled(s, es[0]) && Valid(Apply(s, es[0]), es[1..]))
  }

  function Run(s: State, es: seq<Event>): State
    requires Valid(s, es)
    decreases |es|
  {
    if es == [] then s else Run(Apply(s, es[0]), es[1..])
  }
}
