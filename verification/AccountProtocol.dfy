/**
 Accounts and sessions as concurrent transactions: login, password reset,
 self-service update, e-mail confirmation, the administrator's create, save and
 remove, and self-deletion.  A step is one statement; row locks (all exclusive
 here) are held until the transaction ends and writes appear at commit.

 Passwords are symbolic: a stored credential is the hash of a plain text under a
 fresh salt.  Everything random drawn in transaction `t` (salt, session id, first
 refresh hash, new account id) is named `t`; a refresh draws the next name.
 */
module AccountProtocol {
  import opened Common

  type UserId = nat
  type SessionId = nat
  type TxId = nat

  const ADMIN := 1
  const USER := 2

  datatype Status = Active | Inactive | Pending

  datatype Credential = NoPassword | Hash(plain: nat, salt: nat)

  // Whose sessions an update of the account ends.
  datatype Revoke = Keep | RevokeAll | RevokeOthers(session: SessionId)

  // One value the password of an account has had, and the session that the change
  // to it spared.
  datatype PasswordChange = PasswordChange(to: Credential, spared: Option<SessionId>)

  // `passwords` records the past of the account; its last value is the password.
  datatype Account = Account(passwords: seq<PasswordChange>, status: Status, role: nat, customer: bool, deleted: bool)

  // `under` and `since` record the credential the session was opened under and how
  // many passwords the account had had by then.
  datatype Session = Session(user: UserId, hash: nat, revoked: bool, under: Credential, since: nat)

  datatype Db = Db(accounts: map<UserId, Account>, sessions: map<SessionId, Session>)

  // A reset link verifies against the password it was signed with.
  datatype Link = Link(user: UserId, signedWith: Credential)

  datatype Request =
    | Login(user: UserId, plain: nat)
    | Reset(link: Link, replacement: nat)
    | SelfUpdate(user: UserId, session: SessionId, oldPlain: Option<nat>, newPlain: Option<nat>)
    | Confirm(user: UserId)
    | ConfirmNewEmail(user: UserId)
    | Save(customer: bool, target: UserId, actor: UserId,
           password: Option<nat>, active: Option<bool>, role: Option<nat>, profile: bool)
    | Create(customer: bool, actor: UserId, plain: nat, enabled: bool, role: Option<nat>)
    | Remove(customer: bool, target: UserId, actor: UserId)
    | SelfDelete(user: UserId, authenticatedRole: nat)

  datatype Write =
    | Put(user: UserId, row: Account, revoke: Revoke)
    | OpenSession(session: SessionId, user: UserId, credential: Credential)

  datatype Resource = RoleRow | Acc(user: UserId)

  datatype Pc = Ask | Checked(credential: Credential) | RoleHeld | Locked | Ready(write: Write)

  datatype Tx = Tx(request: Request, held: set<Resource>, pc: Pc)

  datatype State = State(db: Db, txs: map<TxId, Tx>, next: nat)

  datatype Error =
    | InvalidLogin | Unauthorized | NotFound | InvalidLink | WrongOldPassword | DisableYourself | DeleteYourself
    | OwnRole | NoChanges | LastAdministrator | AdministratorRole | Aborted

  datatype Next = Go(tx: Tx) | Fail(error: Error)

  predicate Exists(db: Db, u: UserId) {
    u in db.accounts && !db.accounts[u].deleted
  }

  function Password(row: Account): Credential {
    if row.passwords == [] then NoPassword else row.passwords[|row.passwords| - 1].to
  }

  function WithPassword(row: Account, to: Credential, spared: Option<SessionId>): Account {
    row.(passwords := row.passwords + [PasswordChange(to, spared)])
  }

  predicate Matches(c: Credential, plain: nat) {
    c.Hash? && c.plain == plain
  }

  predicate LiveAdmin(db: Db, u: UserId) {
    u in db.accounts && IsLiveAdmin(db.accounts[u])
  }

  predicate IsLiveAdmin(row: Account) {
    row.role == ADMIN && row.status == Active && !row.deleted
  }

  function LiveAdmins(db: Db): set<UserId> {
    set u | u in db.accounts && LiveAdmin(db, u)
  }

  // The account whose row the request locks.
  function Target(r: Request, t: TxId): UserId {
    match r
    case Login(u, _) => u
    case Reset(link, _) => link.user
    case SelfUpdate(u, _, _, _) => u
    case Confirm(u) => u
    case ConfirmNewEmail(u) => u
    case Save(_, target, _, _, _, _, _) => target
    case Create(_, _, _, _, _) => t
    case Remove(_, target, _) => target
    case SelfDelete(u, _) => u
  }

  predicate Administrative(r: Request) {
    r.Save? || r.Create? || r.Remove?
  }

  function Wants(tx: Tx, t: TxId): Option<Resource> {
    match tx.pc
    case Ask => if tx.request.Login? then None
                else if Administrative(tx.request) then Some(RoleRow)
                else Some(Acc(Target(tx.request, t)))
    case Checked(_) => Some(Acc(Target(tx.request, t)))
    case RoleHeld => if tx.request.Create? then None else Some(Acc(Target(tx.request, t)))
    case _ => None
  }

  predicate Blocked(s: State, t: TxId)
    requires t in s.txs
  {
    var want := Wants(s.txs[t], t);
    want.Some? && exists t' :: t' in s.txs && t' != t && want.value in s.txs[t'].held
  }

  // The checks that an administrator's request fails before any transaction.
  function Precheck(r: Request): Option<Error> {
    match r
    case Save(customer, target, actor, password, active, role, profile) =>
      if target == actor && active == Some(false) then Some(DisableYourself)
      else if password.None? && active.None? && (role.None? || customer) && !profile then Some(NoChanges)
      else None
    case Remove(_, target, actor) => if target == actor then Some(DeleteYourself) else None
    case SelfDelete(_, role) => if role == ADMIN then Some(AdministratorRole) else None
    case _ => None
  }

  // The role change of a save, once the target's current role is known.
  function RoleChange(r: Request, row: Account): Option<nat>
    requires r.Save?
  {
    var asked := if r.customer then Some(USER) else r.role;
    if asked == Some(row.role) then None else asked
  }

  // Why the locked row alone refuses the request.
  function Objection(r: Request, row: Account): Option<Error> {
    match r
    case Reset(link, _) => if link.signedWith == Password(row) then None else Some(InvalidLink)
    case SelfUpdate(_, _, oldPlain, newPlain) =>
      if newPlain.Some? && (oldPlain.None? || !Matches(Password(row), oldPlain.value))
      then Some(WrongOldPassword) else None
    case Confirm(_) => if row.status == Pending then None else Some(InvalidLink)
    case ConfirmNewEmail(_) => if row.status == Active then None else Some(InvalidLink)
    case Save(_, target, actor, _, _, _, _) =>
      if target == actor && RoleChange(r, row).Some? then Some(OwnRole) else None
    case Remove(_, _, _) => if row.role == ADMIN then Some(AdministratorRole) else None
    case _ => None
  }

  // A save that takes an administrator away looks at the others first.
  predicate NeedsAnotherAdmin(r: Request, row: Account) {
    r.Save? && row.role == ADMIN && row.status == Active && (RoleChange(r, row).Some? || r.active == Some(false))
  }

  // What a request makes of the account row it has locked, and of the sessions.
  function RowAfter(r: Request, t: TxId, row: Account): Account {
    match r
    case Reset(_, plain) => WithPassword(row, Hash(plain, t), None)
    case SelfUpdate(_, session, _, Some(plain)) => WithPassword(row, Hash(plain, t), Some(session))
    case Confirm(_) => row.(status := Active)
    case Save(_, _, _, password, active, _, _) =>
      var role := RoleChange(r, row);
      var named := if role.Some? then row.(role := role.value) else row;
      var placed := if active.Some? then named.(status := if active.value then Active else Inactive) else named;
      if password.Some? then WithPassword(placed, Hash(password.value, t), None) else placed
    case Remove(_, _, _) => row.(deleted := true)
    case SelfDelete(_, _) => row.(deleted := true)
    case _ => row
  }

  function RevokeAfter(r: Request, row: Account): Revoke {
    match r
    case Reset(_, _) => RevokeAll
    case SelfUpdate(_, session, _, Some(_)) => RevokeOthers(session)
    case ConfirmNewEmail(_) => RevokeAll
    case Save(_, _, _, password, active, _, _) =>
      if password.Some? || RoleChange(r, row).Some? || active == Some(false) then RevokeAll else Keep
    case Remove(_, _, _) => RevokeAll
    case _ => Keep
  }

  datatype Decision = Grant(write: Write) | Refuse(error: Error)

  function Prepare(db: Db, t: TxId, r: Request, row: Account): Decision {
    if Objection(r, row).Some? then Refuse(Objection(r, row).value)
    else if NeedsAnotherAdmin(r, row) && |LiveAdmins(db)| <= 1 then Refuse(LastAdministrator)
    else Grant(Put(Target(r, t), RowAfter(r, t, row), RevokeAfter(r, row)))
  }

  predicate RightType(r: Request, row: Account) {
    (r.Save? || r.Remove?) ==> row.customer == r.customer
  }

  function CreatedRow(r: Request, t: TxId): Account
    requires r.Create?
  {
    var role := if r.customer || r.role.None? then USER else r.role.value;
    Account([PasswordChange(Hash(r.plain, t), None)], if r.enabled then Active else Inactive, role, r.customer, false)
  }

  // The next statement of transaction `t`, once it is not blocked.
  function Advance(s: State, t: TxId): Next
    requires t in s.txs
  {
    var db, tx := s.db, s.txs[t];
    var r, u := tx.request, Target(tx.request, t);
    match tx.pc
    case Ask =>
      if r.Login? then
        if Exists(db, u) && Matches(Password(db.accounts[u]), r.plain) && db.accounts[u].status == Active
        then Go(tx.(pc := Checked(Password(db.accounts[u])))) else Fail(InvalidLogin)
      else if Precheck(r).Some? then Fail(Precheck(r).value)
      else if Administrative(r) then Go(tx.(held := tx.held + {RoleRow}, pc := RoleHeld))
      else if u in db.accounts && (r.SelfDelete? || !db.accounts[u].deleted)
      then Go(tx.(held := tx.held + {Acc(u)}, pc := Locked)) else Fail(NotFound)
    case Checked(credential) =>
      if Exists(db, u) && db.accounts[u].status == Active && Password(db.accounts[u]) == credential
      then Go(tx.(held := tx.held + {Acc(u)}, pc := Ready(OpenSession(t, u, credential)))) else Fail(Unauthorized)
    case RoleHeld =>
      if r.Create? then
        Go(tx.(pc := Ready(Put(t, CreatedRow(r, t), Keep))))
      else if Exists(db, u) && RightType(r, db.accounts[u])
      then Go(tx.(held := tx.held + {Acc(u)}, pc := Locked)) else Fail(NotFound)
    case Locked =>
      if u !in db.accounts || r.Login? || r.Create? then Fail(NotFound)
      else (match Prepare(db, t, r, db.accounts[u])
            case Grant(wr) => Go(tx.(pc := Ready(wr)))
            case Refuse(e) => Fail(e))
    case Ready(_) => Go(tx)
  }

  predicate Ends(revoke: Revoke, u: UserId, id: SessionId, session: Session) {
    session.user == u &&
    match revoke
    case Keep => false
    case RevokeAll => true
    case RevokeOthers(spared) => id != spared
  }

  // revokeUserSessions.
  function Revoked(sessions: map<SessionId, Session>, u: UserId, revoke: Revoke): map<SessionId, Session> {
    map id | id in sessions ::
      if Ends(revoke, u, id, sessions[id]) then sessions[id].(revoked := true) else sessions[id]
  }

  function ApplyWrite(db: Db, wr: Write): Db {
    match wr
    case Put(u, row, revoke) =>
      Db(db.accounts[u := row], Revoked(db.sessions, u, revoke))
    case OpenSession(id, u, credential) =>
      var since := if u in db.accounts then |db.accounts[u].passwords| else 0;
      db.(sessions := db.sessions[id := Session(u, id, false, credential, since)])
  }

  datatype Event =
    | Begin(request: Request)
    | Step(tx: TxId)
    | Commit(tx: TxId)
    | Abort(tx: TxId)
    | Register(plain: Option<nat>, verified: bool)
    | Refresh(session: SessionId, hash: nat) // one conditional UPDATE
    | Logout(session: SessionId)

  predicate Enabled(s: State, e: Event) {
    match e
    case Step(t) => t in s.txs && !s.txs[t].pc.Ready? && !Blocked(s, t)
    case Commit(t) => t in s.txs && s.txs[t].pc.Ready?
    case Abort(t) => t in s.txs
    case _ => true
  }

  predicate Accepts(db: Db, id: SessionId, hash: nat) {
    id in db.sessions && !db.sessions[id].revoked && db.sessions[id].hash == hash
  }

  function Registered(plain: Option<nat>, verified: bool, salt: nat): Account {
    var credential := if plain.None? then NoPassword else Hash(plain.value, salt);
    Account([PasswordChange(credential, None)], if verified then Active else Pending, USER, false, false)
  }

  function Apply(s: State, e: Event): State
    requires Enabled(s, e)
  {
    match e
    case Begin(r) => s.(txs := s.txs[s.next := Tx(r, {}, Ask)], next := s.next + 1)
    case Step(t) =>
      (match Advance(s, t)
       case Go(tx) => s.(txs := s.txs[t := tx])
       case Fail(_) => s.(txs := s.txs - {t}))
    case Commit(t) => s.(db := ApplyWrite(s.db, s.txs[t].pc.write), txs := s.txs - {t})
    case Abort(t) => s.(txs := s.txs - {t})
    case Register(plain, verified) =>
      s.(db := s.db.(accounts := s.db.accounts[s.next := Registered(plain, verified, s.next)]), next := s.next + 1)
    case Refresh(id, hash) =>
      if Accepts(s.db, id, hash)
      then s.(db := s.db.(sessions := s.db.sessions[id := s.db.sessions[id].(hash := s.next)]), next := s.next + 1)
      else s
    case Logout(id) =>
      if id in s.db.sessions
      then s.(db := s.db.(sessions := s.db.sessions[id := s.db.sessions[id].(revoked := true)])) else s
  }

  predicate Valid(s: State, es: seq<Event>)
    decreases |es|
  {
    es == [] || (Enabled(s, es[0]) && Valid(Apply(s, es[0]), es[1..]))
  }

  function Run(s: State, es: seq<Event>): State
    requires Valid(s, es)
    decreases |es|
  {
    if es == [] then s else Run(Apply(s, es[0]), es[1..])
  }
}
