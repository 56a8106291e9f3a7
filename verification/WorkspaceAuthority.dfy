/**
 Authority inside one workspace: as long as no owner acts, nobody is promoted.
 */
module WorkspaceAuthority {
  import opened Common
  import opened WorkspaceProtocol
  import opened WorkspaceOwnership

  // No statement that establishes an actor's authority over w finds an owner.
  ghost predicate NoOwnerActs(s: State, es: seq<Event>, w: WsId)
    requires Valid(s, es)
    decreases |es|
  {
    es == [] || (!OwnerActs(s, es[0], w) && NoOwnerActs(Apply(s, es[0]), es[1..], w))
  }

  ghost predicate OwnerActs(s: State, e: Event, w: WsId)
    requires Enabled(s, e)
  {
    e.Step? && s.txs[e.tx].pc.AuthHeld? && s.txs[e.tx].pc.ws == w && HasRole(s.db, w, s.txs[e.tx].pc.actor, Owner)
  }

  ghost predicate AdminInvite(db: Db, i: InviteId, w: WsId) {
    i in db.invites && db.invites[i].ws == w && db.invites[i].role == Admin
  }

  // A transaction that carries no owner's authority over w.
  ghost predicate Meek(db: Db, tx: Tx, w: WsId) {
    match tx.pc
    case Authed(ws, _, _, actorRole) => ws == w ==> actorRole != Owner
    case InviteFree(ws, _, role) => ws == w ==> role == Member
    case ChangeShared(ws, _, _, _, actorRole) => ws == w ==> actorRole != Owner
    case ChangeTarget(ws, _, role, _) => ws == w ==> role == None || role == Some(Member)
    case Ready(AddWorkspace(ws, _)) => ws != w
    case Ready(SetRole(ws, _, role)) => ws == w ==> role == Member
    case Ready(Issue(_, ws, _, role, _)) => ws == w ==> role == Member
    case _ => true
  }

  // `o` are the tables at the start of the run.
  ghost predicate NoPromotion(o: Db, s: State, w: WsId) {
    && w in s.db.workspaces
    && (forall u :: HasRole(s.db, w, u, Owner) ==> HasRole(o, w, u, Owner))
    && (forall u :: HasRole(s.db, w, u, Admin) ==> HasRole(o, w, u, Admin) || JoinedAsAdmin(o, s.db, w, u))
    && (forall i :: AdminInvite(s.db, i, w) && Open(s.db.invites[i]) ==> AdminInvite(o, i, w) && Open(o.invites[i]))
    && (forall t :: t in s.txs ==> Meek(s.db, s.txs[t], w))
  }

  // u redeemed an admin invitation that was open at the start of the run.
  ghost predicate JoinedAsAdmin(o: Db, db: Db, w: WsId, u: UserId) {
    exists i :: AdminInvite(o, i, w) && Open(o.invites[i]) && AdminInvite(db, i, w) && db.invites[i].accepted == Some(u)
  }

  lemma StepKeepsMeek(s: State, t: TxId, w: WsId)
    requires t in s.txs && Meek(s.db, s.txs[t], w) && Advance(s, t).Go? && t != w
    requires !(s.txs[t].pc.AuthHeld? && s.txs[t].pc.ws == w && HasRole(s.db, w, s.txs[t].pc.actor, Owner))
    ensures Meek(s.db, Advance(s, t).tx, w)
  {
  }

  // A meek write makes no owner, and an admin only by redeeming an open invitation.
  lemma MeekWriteMakesNoOwner(db: Db, t: TxId, tx: Tx, wr: Write, w: WsId)
    requires WriteFact(db, t, tx, wr) && tx.pc == Ready(wr) && Meek(db, tx, w)
    requires wr.Accept? ==> wr.invite in db.invites && db.invites[wr.invite].role != Owner
    ensures forall u :: HasRole(ApplyWrite(db, wr), w, u, Owner) ==> HasRole(db, w, u, Owner)
    ensures forall u :: HasRole(ApplyWrite(db, wr), w, u, Admin) ==>
              HasRole(db, w, u, Admin) ||
                (wr.Accept? && wr.user == u && AdminInvite(db, wr.invite, w) && Open(db.invites[wr.invite]))
  {
  }

  lemma MeekWriteOpensNoAdminInvite(db: Db, t: TxId, tx: Tx, wr: Write, w: WsId)
    requires WriteFact(db, t, tx, wr) && tx.pc == Ready(wr) && Meek(db, tx, w) && t !in db.invites
    ensures var b := ApplyWrite(db, wr);
            forall i :: AdminInvite(b, i, w) && Open(b.invites[i]) ==> AdminInvite(db, i, w) && Open(db.invites[i])
    ensures var b := ApplyWrite(db, wr);
            forall i, u :: AdminInvite(db, i, w) && db.invites[i].accepted == Some(u) ==>
              AdminInvite(b, i, w) && b.invites[i].accepted == Some(u)
    ensures wr.Accept? && AdminInvite(db, wr.invite, w) ==>
              AdminInvite(ApplyWrite(db, wr), wr.invite, w) &&
                ApplyWrite(db, wr).invites[wr.invite].accepted == Some(wr.user)
  {
  }

  lemma CommitPromotesNobody(o: Db, s: State, t: TxId, w: WsId)
    requires Inv(s) && NoPromotion(o, s, w) && Enabled(s, Commit(t))
    ensures NoPromotion(o, Apply(s, Commit(t)), w)
  {
    var a, b, wr := s.db, Apply(s, Commit(t)).db, s.txs[t].pc.write;
    assert Fact(a, t, s.txs[t]) && Meek(a, s.txs[t], w);
    MeekWriteMakesNoOwner(a, t, s.txs[t], wr, w);
    MeekWriteOpensNoAdminInvite(a, t, s.txs[t], wr, w);
    forall u: UserId | HasRole(b, w, u, Admin) ensures HasRole(o, w, u, Admin) || JoinedAsAdmin(o, b, w, u) {
      if JoinedAsAdmin(o, a, w, u) {
        var i :| AdminInvite(o, i, w) && Open(o.invites[i]) && AdminInvite(a, i, w) && a.invites[i].accepted == Some(u);
        assert AdminInvite(b, i, w) && b.invites[i].accepted == Some(u);
      } else if !HasRole(o, w, u, Admin) {
        assert AdminInvite(b, wr.invite, w);
      }
    }
  }

  lemma EventPromotesNobody(o: Db, s: State, e: Event, w: WsId)
    requires Inv(s) && NoPromotion(o, s, w) && Enabled(s, e) && !OwnerActs(s, e, w)
    ensures NoPromotion(o, Apply(s, e), w)
  {
    match e
    case Commit(t) => CommitPromotesNobody(o, s, t, w);
    case Step(t) => if Advance(s, t).Go? { StepKeepsMeek(s, t, w); }
    case _ =>
  }

  lemma {:induction false} RunPromotesNobody(o: Db, s: State, es: seq<Event>, w: WsId)
    requires Inv(s) && NoPromotion(o, s, w) && Valid(s, es) && NoOwnerActs(s, es, w)
    ensures NoPromotion(o, Run(s, es), w)
    decreases |es|
  {
    if es != [] {
      EventKeepsInv(s, es[0]);
      EventPromotesNobody(o, s, es[0], w);
      RunPromotesNobody(o, Apply(s, es[0]), es[1..], w);
    }
  }

  // If no owner acts on w during a run, nobody becomes an owner of w, and anyone
  // who becomes an admin redeemed an admin invitation that was open at its start.
  lemma WithoutAnOwnerNobodyIsPromoted(s: State, es: seq<Event>, w: WsId, u: UserId)
    requires Initial(s) && w in s.db.workspaces && Valid(s, es) && NoOwnerActs(s, es, w)
    ensures HasRole(Run(s, es).db, w, u, Owner) ==> HasRole(s.db, w, u, Owner)
    ensures HasRole(Run(s, es).db, w, u, Admin) ==>
              HasRole(s.db, w, u, Admin) || JoinedAsAdmin(s.db, Run(s, es).db, w, u)
  {
    RunPromotesNobody(s.db, s, es, w);
  }
}
