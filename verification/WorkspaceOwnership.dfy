/**
 Every workspace keeps an active owner, whatever the interleaving.

 `Fact` says what a transaction may rely on at each of its statements because of
 the locks it holds; `CommitFrame` says how little a commit can change for
 everybody else; together they carry the facts, and with them the owner
 invariant, through every run.
 */
module WorkspaceOwnership {
  import opened Common
  import opened WorkspaceProtocol

  ghost predicate EachWorkspaceOwned(db: Db) {
    forall w :: w in db.workspaces ==> exists u :: u in db.users && LiveOwner(db, w, u)
  }

  // The references that the schema enforces.
  ghost predicate References(db: Db) {
    && (forall k :: k in db.members ==> k.0 in db.workspaces && k.1 in db.users)
    && (forall i :: i in db.invites ==> db.invites[i].ws in db.workspaces)
  }

  // Foreign keys and the names of generated identifiers.
  ghost predicate Wellformed(s: State) {
    && References(s.db)
    && (forall i :: i in s.db.invites ==> i < s.next && s.db.invites[i].role != Owner)
    && (forall w :: w in s.db.workspaces ==> w < s.next)
    && (forall t :: t in s.txs ==> t < s.next && t !in s.db.workspaces && t !in s.db.invites)
  }

  ghost predicate LocksCompatible(s: State) {
    forall t, t', r :: t in s.txs && t' in s.txs && t != t' && r in s.txs[t].held && r in s.txs[t'].held ==>
      !Conflicts(s.txs[t].held[r], s.txs[t'].held[r])
  }

  ghost predicate HoldsWs(tx: Tx, w: WsId) {
    Ws(w) in tx.held && tx.held[Ws(w)] == Update
  }

  predicate AtLeastShare(tx: Tx, u: UserId) {
    Usr(u) in tx.held && tx.held[Usr(u)] != KeyShare
  }

  predicate Exclusive(tx: Tx, u: UserId) {
    Usr(u) in tx.held && (tx.held[Usr(u)] == NoKeyUpdate || tx.held[Usr(u)] == Update)
  }

  // The transaction holds workspace w and somebody else is an active owner of it.
  ghost predicate Covered(db: Db, tx: Tx, w: WsId, u: UserId) {
    HoldsWs(tx, w) && OtherOwner(db, w, u)
  }

  ghost predicate LosesSafely(db: Db, tx: Tx, u: UserId) {
    forall w :: HasRole(db, w, u, Owner) ==> Covered(db, tx, w, u)
  }

  ghost predicate Redeemable(db: Db, tx: Tx, i: InviteId, w: WsId) {
    OpenIn(db, i, w) && db.invites[i].expires > tx.start
  }

  ghost predicate BelongsTo(db: Db, i: InviteId, w: WsId) {
    i in db.invites && db.invites[i].ws == w
  }

  ghost predicate WriteFact(db: Db, t: TxId, tx: Tx, wr: Write) {
    match wr
    case AddWorkspace(w, u) =>
      w == t && LiveUser(db, u) && Exclusive(tx, u) && |Owned(db, u)| < OWNED_LIMIT
    case SetRole(w, u, role) =>
      HoldsWs(tx, w) && (w, u) in db.members && w in db.workspaces && AtLeastShare(tx, u) && LiveUser(db, u) &&
      (HasRole(db, w, u, Owner) && role != Owner ==> OtherOwner(db, w, u))
    case DropMember(w, u) =>
      HoldsWs(tx, w) && w in db.workspaces && (HasRole(db, w, u, Owner) ==> OtherOwner(db, w, u))
    case Issue(i, w, email, role, expires) =>
      i == t && HoldsWs(tx, w) && w in db.workspaces && role != Owner
    case Accept(i, w, u) =>
      HoldsWs(tx, w) && Redeemable(db, tx, i, w) && u in db.users && Usr(u) in tx.held
    case Withdraw(i, w) =>
      HoldsWs(tx, w) && OpenIn(db, i, w)
    case PutUser(u, change, row) =>
      Exclusive(tx, u) && u in db.users && row == NewRow(db.users[u], change) &&
        (Live(row) || !LiveUser(db, u) || LosesSafely(db, tx, u))
    case DropUser(u) =>
      Usr(u) in tx.held && tx.held[Usr(u)] == Update && u in db.users && LosesSafely(db, tx, u)
  }

  ghost predicate HoldsForChange(tx: Tx, u: UserId, change: Change) {
    Exclusive(tx, u) && (change.HardDelete? ==> tx.held[Usr(u)] == Update)
  }

  ghost predicate ChangeHeld(db: Db, tx: Tx, w: WsId, m: UserId, role: Option<Role>) {
    HoldsWs(tx, w) && w in db.workspaces && (role.Some? ==> AtLeastShare(tx, m) && LiveUser(db, m))
  }

  // A role read under the workspace lock can only disappear with the user.
  ghost predicate ReadAs(db: Db, w: WsId, a: UserId, role: Role) {
    forall r :: HasRole(db, w, a, r) ==> r == role
  }

  // The change goes through the trigger's loop: it leaves no active user.
  ghost predicate Fires(db: Db, u: UserId, change: Change)
    requires u in db.users
  {
    change.HardDelete? || (!change.SetEmail? && !Live(NewRow(db.users[u], change)))
  }

  ghost predicate Fact(db: Db, t: TxId, tx: Tx) {
    match tx.pc
    case CreateHeld(u) => LiveUser(db, u) && Exclusive(tx, u)
    case AuthHeld(w, _, job) => HoldsWs(tx, w) && w in db.workspaces && (job.InviteJob? ==> job.role != Owner)
    case Authed(w, a, job, actorRole) =>
      HoldsWs(tx, w) && w in db.workspaces && (job.InviteJob? ==> job.role != Owner) && ReadAs(db, w, a, actorRole)
    case InviteFree(w, _, role) => HoldsWs(tx, w) && w in db.workspaces && role != Owner
    case ChangeShared(w, a, m, role, actorRole) => ChangeHeld(db, tx, w, m, role) && ReadAs(db, w, a, actorRole)
    case ChangeTarget(w, m, role, target) =>
      ChangeHeld(db, tx, w, m, role) && (role.Some? ==> (w, m) in db.members) && ReadAs(db, w, m, target) &&
        (target == Owner ==> HasRole(db, w, m, Owner))
    case AcceptFound(_, i, w) => BelongsTo(db, i, w)
    case AcceptHeld(_, i, w) => HoldsWs(tx, w) && w in db.workspaces && BelongsTo(db, i, w)
    case AcceptRead(_, i, w) => HoldsWs(tx, w) && Redeemable(db, tx, i, w)
    case AcceptUser(_, i, w) => HoldsWs(tx, w) && Redeemable(db, tx, i, w)
    case LifeHeld(u, change) => HoldsForChange(tx, u, change) && u in db.users
    case LifeLoop(u, change, todo) =>
      HoldsForChange(tx, u, change) && u in db.users && Fires(db, u, change) && todo <= db.workspaces &&
      (forall w :: HasRole(db, w, u, Owner) ==> w in todo || Covered(db, tx, w, u))
    case LifeCheck(u, change, w0, todo) =>
      HoldsForChange(tx, u, change) && u in db.users && Fires(db, u, change) &&
      HoldsWs(tx, w0) && todo + {w0} <= db.workspaces &&
      (forall w :: HasRole(db, w, u, Owner) ==> w == w0 || w in todo || Covered(db, tx, w, u))
    case Ready(wr) => WriteFact(db, t, tx, wr)
    case AuthAsk(_, _, job) => job.InviteJob? ==> job.role != Owner
    case LifeAsk(_, change, mode) => mode == Update || (mode == NoKeyUpdate && !change.HardDelete?)
    case _ => true
  }

  ghost predicate Inv(s: State) {
    && Wellformed(s)
    && LocksCompatible(s)
    && EachWorkspaceOwned(s.db)
    && forall t :: t in s.txs ==> Fact(s.db, t, s.txs[t])
  }

  // ----- what a commit can change for the others -----

  // `tx` is the committing transaction, `a` and `b` the tables before and after.
  ghost predicate Frame(a: Db, b: Db, tx: Tx) {
    && a.workspaces <= b.workspaces
    && (forall w, u :: w in a.workspaces && !HoldsWs(tx, w) && LiveOwner(a, w, u) ==> LiveOwner(b, w, u))
    && (forall w, u, r :: w in a.workspaces && !HoldsWs(tx, w) && HasRole(b, w, u, r) ==> HasRole(a, w, u, r))
    && (forall w, u :: w in a.workspaces && !HoldsWs(tx, w) && HasRole(a, w, u, Owner) ==> HasRole(b, w, u, Owner))
    && (forall i :: i in a.invites ==> i in b.invites && b.invites[i].ws == a.invites[i].ws)
    && (forall i :: i in a.invites && !HoldsWs(tx, a.invites[i].ws) ==> b.invites[i] == a.invites[i])
    && (forall u :: u in a.users && !Exclusive(tx, u) ==> u in b.users && a.users[u] == b.users[u])
    && (forall u :: u in a.users && !(Usr(u) in tx.held && tx.held[Usr(u)] == Update) ==> u in b.users)
    && (forall k :: k in a.members && !HoldsWs(tx, k.0) && !(Usr(k.1) in tx.held && tx.held[Usr(k.1)] == Update) ==>
       k in b.members)
    && (forall w, u :: !AtLeastShare(tx, u) && HasRole(b, w, u, Owner) ==> HasRole(a, w, u, Owner))
  }

  lemma MemberWriteFrame(db: Db, t: TxId, tx: Tx, wr: Write)
    requires WriteFact(db, t, tx, wr) && t !in db.workspaces
    requires wr.AddWorkspace? || wr.SetRole? || wr.DropMember?
    ensures Frame(db, ApplyWrite(db, wr), tx)
  {
  }

  lemma InviteWriteFrame(db: Db, t: TxId, tx: Tx, wr: Write)
    requires WriteFact(db, t, tx, wr) && t !in db.invites
    requires wr.Issue? || wr.Withdraw? || wr.Accept?
    requires forall i :: i in db.invites ==> db.invites[i].role != Owner
    ensures Frame(db, ApplyWrite(db, wr), tx)
  {
  }

  lemma UserWriteFrame(db: Db, t: TxId, tx: Tx, wr: Write)
    requires WriteFact(db, t, tx, wr)
    requires wr.PutUser? || wr.DropUser?
    ensures Frame(db, ApplyWrite(db, wr), tx)
  {
  }

  lemma CommitFrame(s: State, t: TxId)
    requires Inv(s) && t in s.txs && s.txs[t].pc.Ready?
    ensures Frame(s.db, ApplyWrite(s.db, s.txs[t].pc.write), s.txs[t])
  {
    var tx, wr := s.txs[t], s.txs[t].pc.write;
    assert Fact(s.db, t, tx);
    if wr.AddWorkspace? || wr.SetRole? || wr.DropMember? {
      MemberWriteFrame(s.db, t, tx, wr);
    } else if wr.PutUser? || wr.DropUser? {
      UserWriteFrame(s.db, t, tx, wr);
    } else {
      InviteWriteFrame(s.db, t, tx, wr);
    }
  }

  // Nobody is made an owner without a lock on the user.
  lemma OwnedShrinks(a: Db, b: Db, tx: Tx, u: UserId)
    requires Frame(a, b, tx)
    ensures !AtLeastShare(tx, u) ==> |Owned(b, u)| <= |Owned(a, u)|
  {
    if !AtLeastShare(tx, u) {
      OwnedComplete(a, u);
      forall w | w in Owned(b, u) ensures w in Owned(a, u) {
        assert HasRole(b, w, u, Owner);
      }
      SubsetSize(Owned(b, u), Owned(a, u));
    }
  }

  ghost predicate Compatible(tx: Tx, tx': Tx) {
    forall r :: r in tx.held && r in tx'.held ==> !Conflicts(tx.held[r], tx'.held[r])
  }

  lemma OtherOwnerSurvives(a: Db, b: Db, tx: Tx, tx': Tx, w: WsId, u: UserId)
    requires Frame(a, b, tx) && References(a) && Compatible(tx, tx') && HoldsWs(tx', w) && OtherOwner(a, w, u)
    ensures OtherOwner(b, w, u)
  {
    var v :| v in a.users && v != u && LiveOwner(a, w, v);
    assert (w, v) in a.members && !HoldsWs(tx, w);
    assert LiveOwner(b, w, v);
  }

  lemma WriteFactSurvives(a: Db, b: Db, tx: Tx, t': TxId, tx': Tx, wr: Write)
    requires Frame(a, b, tx) && References(a) && Compatible(tx, tx') && WriteFact(a, t', tx', wr)
    ensures WriteFact(b, t', tx', wr)
  {
    if wr.AddWorkspace? { OwnedShrinks(a, b, tx, wr.user); }
    forall w: WsId, u: UserId | HoldsWs(tx', w) && OtherOwner(a, w, u) ensures OtherOwner(b, w, u) {
      OtherOwnerSurvives(a, b, tx, tx', w, u);
    }
    forall w: WsId | HoldsWs(tx', w) ensures !HoldsWs(tx, w) {}
    forall u: UserId | AtLeastShare(tx', u) ensures !Exclusive(tx, u) {}
    forall u: UserId | Exclusive(tx', u) ensures !AtLeastShare(tx, u) {}
  }

  // A fact of another transaction survives the commit, because the locks that
  // protect it are the locks the committing transaction would have needed.
  lemma FactSurvives(a: Db, b: Db, t: TxId, tx: Tx, t': TxId, tx': Tx)
    requires Frame(a, b, tx) && Fact(a, t', tx')
    requires References(a) && Compatible(tx, tx')
    ensures Fact(b, t', tx')
  {
    if tx'.pc.Ready? {
      WriteFactSurvives(a, b, tx, t', tx', tx'.pc.write);
    } else {
      forall w: WsId, u: UserId | HoldsWs(tx', w) && OtherOwner(a, w, u) ensures OtherOwner(b, w, u) {
        OtherOwnerSurvives(a, b, tx, tx', w, u);
      }
      forall w: WsId | HoldsWs(tx', w) ensures !HoldsWs(tx, w) {}
      forall u: UserId | AtLeastShare(tx', u) ensures !Exclusive(tx, u) {}
      forall u: UserId | Exclusive(tx', u) ensures !AtLeastShare(tx, u) {}
    }
  }

  // ----- steps -----

  // Two active owners are an active owner besides any one user.
  lemma CountLeavesAnother(db: Db, w: WsId, u: UserId)
    requires |LiveOwners(db, w)| > 1
    ensures OtherOwner(db, w, u)
  {
    var rest := LiveOwners(db, w) - {u};
    assert |rest| > 0;
    var v :| v in rest;
    assert v in LiveOwners(db, w);
  }

  lemma OwnedComplete(db: Db, u: UserId)
    ensures forall w :: HasRole(db, w, u, Owner) ==> w in Owned(db, u)
  {
    forall w | HasRole(db, w, u, Owner) ensures w in Owned(db, u) {
      assert (w, u) in db.members;
    }
  }

  lemma StepFact(s: State, t: TxId)
    requires t in s.txs && Fact(s.db, t, s.txs[t]) && Advance(s, t).Go? && References(s.db)
    ensures Fact(s.db, t, Advance(s, t).tx)
  {
    var pc := s.txs[t].pc;
    if pc.LifeHeld? || pc.LifeLoop? || pc.LifeCheck? || pc.LifeAsk? {
      LifeStepFact(s, t);
    } else if pc.ChangeTarget? && |LiveOwners(s.db, pc.ws)| > 1 {
      CountLeavesAnother(s.db, pc.ws, pc.member);
    }
  }

  lemma LifeStepFact(s: State, t: TxId)
    requires t in s.txs && Fact(s.db, t, s.txs[t]) && Advance(s, t).Go? && References(s.db)
    requires var pc := s.txs[t].pc; pc.LifeHeld? || pc.LifeLoop? || pc.LifeCheck? || pc.LifeAsk?
    ensures Fact(s.db, t, Advance(s, t).tx)
  {
    if s.txs[t].pc.LifeHeld? {
      OwnedComplete(s.db, s.txs[t].pc.user);
    }
  }

  lemma AdvanceTakesWhatItWants(s: State, t: TxId)
    requires t in s.txs && Advance(s, t).Go?
    ensures var held, held', want := s.txs[t].held, Advance(s, t).tx.held, Wants(s.txs[t].pc);
            held' == held || (want.Some? && held' == held[want.value.0 := want.value.1])
  {
  }

  lemma LockedCompatibly(s: State, t: TxId, tx: Tx, want: Option<(Resource, LockMode)>)
    requires LocksCompatible(s) && t in s.txs
    requires tx.held == s.txs[t].held ||
             (want.Some? && tx.held == s.txs[t].held[want.value.0 := want.value.1] &&
               Free(s, t, want.value.0, want.value.1))
    ensures LocksCompatible(s.(txs := s.txs[t := tx]))
  {
  }

  lemma StepKeepsLocks(s: State, t: TxId)
    requires LocksCompatible(s) && Enabled(s, Step(t))
    ensures LocksCompatible(Apply(s, Step(t)))
  {
    match Advance(s, t)
    case Go(tx) =>
      AdvanceTakesWhatItWants(s, t);
      LockedCompatibly(s, t, tx, Wants(s.txs[t].pc));
    case Fail(_) =>
  }

  lemma StepKeepsInv(s: State, t: TxId)
    requires Inv(s) && Enabled(s, Step(t))
    ensures Inv(Apply(s, Step(t)))
  {
    StepKeepsLocks(s, t);
    if Advance(s, t).Go? {
      StepFact(s, t);
    }
  }

  // A write takes an active owner away only where another one stays.
  lemma WriteLeavesAnOwner(db: Db, t: TxId, tx: Tx, wr: Write, w: WsId, u: UserId)
    requires WriteFact(db, t, tx, wr) && LiveOwner(db, w, u)
    requires wr.Accept? ==> wr.invite in db.invites && db.invites[wr.invite].role != Owner
    ensures LiveOwner(ApplyWrite(db, wr), w, u) ||
            exists v :: v in ApplyWrite(db, wr).users && LiveOwner(ApplyWrite(db, wr), w, v)
  {
    var db' := ApplyWrite(db, wr);
    if !LiveOwner(db', w, u) {
      assert OtherOwner(db, w, u);
      var v :| v in db.users && v != u && LiveOwner(db, w, v);
      assert LiveOwner(db', w, v);
    }
  }

  lemma CommitKeepsOwners(s: State, t: TxId)
    requires Inv(s) && Enabled(s, Commit(t))
    ensures EachWorkspaceOwned(Apply(s, Commit(t)).db)
  {
    var tx, db, db' := s.txs[t], s.db, Apply(s, Commit(t)).db;
    var wr := tx.pc.write;
    assert Fact(db, t, tx);
    forall w | w in db'.workspaces ensures exists u :: u in db'.users && LiveOwner(db', w, u) {
      if w in db.workspaces {
        var u :| u in db.users && LiveOwner(db, w, u);
        WriteLeavesAnOwner(db, t, tx, wr, w, u);
      } else {
        assert LiveOwner(db', w, wr.user);
      }
    }
  }

  lemma WriteKeepsReferences(db: Db, t: TxId, tx: Tx, wr: Write)
    requires WriteFact(db, t, tx, wr) && References(db)
    ensures References(ApplyWrite(db, wr))
  {
  }

  // A commit names a new workspace or invitation after its own transaction.
  lemma WriteNames(db: Db, t: TxId, tx: Tx, wr: Write)
    requires WriteFact(db, t, tx, wr)
    ensures forall w :: w in ApplyWrite(db, wr).workspaces ==> w in db.workspaces || w == t
    ensures forall i :: i in ApplyWrite(db, wr).invites ==>
              (i in db.invites && ApplyWrite(db, wr).invites[i].role == db.invites[i].role) ||
              (i == t && ApplyWrite(db, wr).invites[i].role != Owner)
  {
  }

  lemma CommitKeepsWellformed(s: State, t: TxId)
    requires Wellformed(s) && Enabled(s, Commit(t)) && WriteFact(s.db, t, s.txs[t], s.txs[t].pc.write)
    ensures Wellformed(Apply(s, Commit(t)))
  {
    WriteKeepsReferences(s.db, t, s.txs[t], s.txs[t].pc.write);
    WriteNames(s.db, t, s.txs[t], s.txs[t].pc.write);
  }

  lemma CommitKeepsInv(s: State, t: TxId)
    requires Inv(s) && Enabled(s, Commit(t))
    ensures Inv(Apply(s, Commit(t)))
  {
    var s' := Apply(s, Commit(t));
    assert Fact(s.db, t, s.txs[t]);
    CommitKeepsWellformed(s, t);
    CommitKeepsOwners(s, t);
    CommitFrame(s, t);
    forall t' | t' in s'.txs ensures Fact(s'.db, t', s'.txs[t']) {
      FactSurvives(s.db, s'.db, t, s.txs[t], t', s.txs[t']);
    }
  }

  lemma EventKeepsInv(s: State, e: Event)
    requires Inv(s) && Enabled(s, e)
    ensures Inv(Apply(s, e))
  {
    match e
    case Step(t) => StepKeepsInv(s, t);
    case Commit(t) => CommitKeepsInv(s, t);
    case Register(u, row) => RegisterKeepsInv(s, u, row);
    case _ =>
  }

  // A new user changes nothing for anybody, as if a transaction without locks committed.
  lemma RegisterFrame(db: Db, u: UserId, row: User, nobody: Tx)
    requires u !in db.users && nobody.held == map[] && References(db)
    ensures Frame(db, db.(users := db.users[u := row]), nobody)
  {
  }

  lemma RegisterKeepsOwners(db: Db, u: UserId, row: User)
    requires u !in db.users && EachWorkspaceOwned(db)
    ensures EachWorkspaceOwned(db.(users := db.users[u := row]))
  {
    var db' := db.(users := db.users[u := row]);
    forall w | w in db'.workspaces ensures exists v :: v in db'.users && LiveOwner(db', w, v) {
      var v :| v in db.users && LiveOwner(db, w, v);
      assert LiveOwner(db', w, v);
    }
  }

  lemma RegisterKeepsInv(s: State, u: UserId, row: User)
    requires Inv(s) && Enabled(s, Register(u, row))
    ensures Inv(Apply(s, Register(u, row)))
  {
    var s' := Apply(s, Register(u, row));
    var nobody := Tx(map[], 0, CreateAsk(u));
    RegisterFrame(s.db, u, row, nobody);
    RegisterKeepsOwners(s.db, u, row);
    forall t | t in s'.txs ensures Fact(s'.db, t, s'.txs[t]) {
      FactSurvives(s.db, s'.db, s.next, nobody, t, s.txs[t]);
    }
  }

  lemma {:induction false} RunKeepsInv(s: State, es: seq<Event>)
    requires Inv(s) && Valid(s, es)
    ensures Inv(Run(s, es))
    decreases |es|
  {
    if es != [] {
      EventKeepsInv(s, es[0]);
      RunKeepsInv(Apply(s, es[0]), es[1..]);
    }
  }

  // Tables that satisfy the schema and have an active owner everywhere, no
  // transaction in flight, and fresh identifiers still unused.
  ghost predicate Initial(s: State) {
    s.txs == map[] && Wellformed(s) && EachWorkspaceOwned(s.db)
  }

  // The service and the trigger together: in every reachable committed state,
  // every workspace has an owner who is active and not deleted.
  lemma EveryWorkspaceKeepsAnActiveOwner(s: State, es: seq<Event>, w: WsId)
    requires Initial(s) && Valid(s, es)
    requires w in Run(s, es).db.workspaces
    ensures var db := Run(s, es).db;
            exists u :: (w, u) in db.members && db.members[(w, u)] == Owner &&
              u in db.users && db.users[u].active && !db.users[u].deleted
  {
    RunKeepsInv(s, es);
    var db := Run(s, es).db;
    var u :| u in db.users && LiveOwner(db, w, u);
    assert (w, u) in db.members;
  }
}
