/**
 The life of an invitation over every run: one open invitation per address, at
 most a hundred live ones per workspace, terminal states that never change, and
 a token that is redeemed once and only ever adds a member.
 */
module WorkspaceInvitations {
  import opened Common
  import opened WorkspaceProtocol
  import opened WorkspaceOwnership

  ghost predicate OneOpenPerAddress(db: Db) {
    forall i, j, w :: OpenIn(db, i, w) && OpenIn(db, j, w) && db.invites[i].email == db.invites[j].email ==> i == j
  }

  ghost predicate NeverBoth(db: Db) {
    forall i :: i in db.invites ==> !(db.invites[i].accepted.Some? && db.invites[i].revoked)
  }

  ghost predicate WithinLimit(db: Db, now: int) {
    forall w :: |LiveInvites(db, w, now)| <= INVITE_LIMIT
  }

  // What a transaction that is about to insert an invitation has counted.
  ghost predicate Counted(s: State, t: TxId) {
    t in s.txs ==>
      s.txs[t].start <= s.now &&
      (s.txs[t].pc.Ready? && s.txs[t].pc.write.Issue? ==>
         var wr := s.txs[t].pc.write;
         |OtherLiveInvites(s.db, wr.ws, wr.email, s.txs[t].start)| < INVITE_LIMIT)
  }

  ghost predicate InviteInv(s: State) {
    && OneOpenPerAddress(s.db)
    && NeverBoth(s.db)
    && WithinLimit(s.db, s.now)
    && forall t :: Counted(s, t)
  }

  // Invitations of a workspace change only under its row lock.
  ghost predicate InviteFrame(a: Db, b: Db, tx: Tx) {
    && (forall i :: i in a.invites && !HoldsWs(tx, a.invites[i].ws) ==> i in b.invites && a.invites[i] == b.invites[i])
    && (forall i :: i in b.invites && !HoldsWs(tx, b.invites[i].ws) ==> i in a.invites && a.invites[i] == b.invites[i])
  }

  lemma CommitInviteFrame(db: Db, t: TxId, tx: Tx, wr: Write)
    requires WriteFact(db, t, tx, wr) && t !in db.invites
    ensures InviteFrame(db, ApplyWrite(db, wr), tx)
  {
  }

  lemma OtherLiveStable(a: Db, b: Db, tx: Tx, w: WsId, email: Email, now: int)
    requires InviteFrame(a, b, tx) && !HoldsWs(tx, w)
    ensures OtherLiveInvites(a, w, email, now) == OtherLiveInvites(b, w, email, now)
  {
    forall i ensures i in OtherLiveInvites(a, w, email, now) <==> i in OtherLiveInvites(b, w, email, now) {}
  }

  // Time only takes invitations out of the live set, so counting at the start of
  // the transaction is enough.
  lemma IssueWithinLimit(db: Db, i: InviteId, w: WsId, email: Email, role: Role, start: int, now: int, expires: int)
    requires |OtherLiveInvites(db, w, email, start)| < INVITE_LIMIT && start <= now
    ensures |LiveInvites(ApplyWrite(db, Issue(i, w, email, role, expires)), w, now)| <= INVITE_LIMIT
  {
    SubsetSize(LiveInvites(ApplyWrite(db, Issue(i, w, email, role, expires)), w, now),
                OtherLiveInvites(db, w, email, start) + {i});
  }

  // No other write opens an invitation.
  lemma OtherWriteWithinLimit(db: Db, t: TxId, tx: Tx, wr: Write, w: WsId, now: int)
    requires WriteFact(db, t, tx, wr) && t !in db.invites && !(wr.Issue? && w == wr.ws)
    ensures |LiveInvites(ApplyWrite(db, wr), w, now)| <= |LiveInvites(db, w, now)|
  {
    SubsetSize(LiveInvites(ApplyWrite(db, wr), w, now), LiveInvites(db, w, now));
  }

  lemma CommitWithinLimit(s: State, t: TxId)
    requires Inv(s) && InviteInv(s) && Enabled(s, Commit(t))
    ensures WithinLimit(Apply(s, Commit(t)).db, s.now)
  {
    var db, tx, wr := s.db, s.txs[t], s.txs[t].pc.write;
    assert Fact(db, t, tx) && Counted(s, t);
    forall w ensures |LiveInvites(ApplyWrite(db, wr), w, s.now)| <= INVITE_LIMIT {
      if wr.Issue? && w == wr.ws {
        IssueWithinLimit(db, t, w, wr.email, wr.role, tx.start, s.now, wr.expires);
      } else {
        OtherWriteWithinLimit(db, t, tx, wr, w, s.now);
      }
    }
  }

  lemma CommitKeepsCounts(s: State, t: TxId, t': TxId)
    requires Inv(s) && InviteInv(s) && Enabled(s, Commit(t)) && t' != t
    ensures Counted(Apply(s, Commit(t)), t')
  {
    assert Counted(s, t');
    if t' in s.txs && s.txs[t'].pc.Ready? && s.txs[t'].pc.write.Issue? {
      var wr' := s.txs[t'].pc.write;
      assert Fact(s.db, t, s.txs[t]) && Fact(s.db, t', s.txs[t']);
      CommitInviteFrame(s.db, t, s.txs[t], s.txs[t].pc.write);
      OtherLiveStable(s.db, Apply(s, Commit(t)).db, s.txs[t], wr'.ws, wr'.email, s.txs[t'].start);
    }
  }

  // An open invitation after a write was open before it, or it is the one issued.
  lemma WriteKeepsOneOpen(db: Db, db': Db, t: TxId, tx: Tx, wr: Write)
    requires WriteFact(db, t, tx, wr) && t !in db.invites && OneOpenPerAddress(db) && db' == ApplyWrite(db, wr)
    ensures OneOpenPerAddress(db')
  {
    forall i, j, w | OpenIn(db', i, w) && OpenIn(db', j, w) && db'.invites[i].email == db'.invites[j].email
      ensures i == j {
      assert OpenIn(db, i, w) || (wr.Issue? && i == t);
      assert OpenIn(db, j, w) || (wr.Issue? && j == t);
    }
  }

  lemma CommitKeepsInviteInv(s: State, t: TxId)
    requires Inv(s) && InviteInv(s) && Enabled(s, Commit(t))
    ensures InviteInv(Apply(s, Commit(t)))
  {
    assert Fact(s.db, t, s.txs[t]);
    CommitWithinLimit(s, t);
    WriteKeepsOneOpen(s.db, Apply(s, Commit(t)).db, t, s.txs[t], s.txs[t].pc.write);
    forall t' ensures Counted(Apply(s, Commit(t)), t') {
      if t' != t { CommitKeepsCounts(s, t, t'); }
    }
  }

  lemma EventKeepsInviteInv(s: State, e: Event)
    requires Inv(s) && InviteInv(s) && Enabled(s, e)
    ensures InviteInv(Apply(s, e))
  {
    match e
    case Commit(t) => CommitKeepsInviteInv(s, t);
    case Step(t) => StepKeepsInviteInv(s, t);
    case _ =>
      var s' := Apply(s, e);
      assert s'.db.invites == s.db.invites;
      assert forall i, w :: OpenIn(s'.db, i, w) ==> OpenIn(s.db, i, w);
      forall w ensures |LiveInvites(s'.db, w, s'.now)| <= INVITE_LIMIT {
        SubsetSize(LiveInvites(s'.db, w, s'.now), LiveInvites(s.db, w, s.now));
      }
      forall t ensures Counted(s', t) {
        assert Counted(s, t);
        if t in s.txs && s.txs[t].pc.Ready? && s.txs[t].pc.write.Issue? {
          var wr := s.txs[t].pc.write;
          assert OtherLiveInvites(s'.db, wr.ws, wr.email, s.txs[t].start) ==
            OtherLiveInvites(s.db, wr.ws, wr.email, s.txs[t].start);
        }
      }
  }

  lemma StepCounts(s: State, t: TxId)
    requires Counted(s, t) && Enabled(s, Step(t))
    ensures Counted(Apply(s, Step(t)), t)
  {
  }

  lemma StepKeepsInviteInv(s: State, t: TxId)
    requires Inv(s) && InviteInv(s) && Enabled(s, Step(t))
    ensures InviteInv(Apply(s, Step(t)))
  {
    hide Inv, Advance, OneOpenPerAddress, NeverBoth, WithinLimit;
    var s' := Apply(s, Step(t));
    assert s'.db == s.db && s'.now == s.now;
    forall t' ensures Counted(s', t') {
      assert Counted(s, t');
      if t' == t { StepCounts(s, t); }
    }
  }

  lemma {:induction false} RunKeepsInviteInv(s: State, es: seq<Event>)
    requires Inv(s) && InviteInv(s) && Valid(s, es)
    ensures InviteInv(Run(s, es))
    decreases |es|
  {
    if es != [] {
      EventKeepsInv(s, es[0]);
      EventKeepsInviteInv(s, es[0]);
      RunKeepsInviteInv(Apply(s, es[0]), es[1..]);
    }
  }

  lemma InvitationsStayConsistent(s: State, es: seq<Event>)
    requires Initial(s) && OneOpenPerAddress(s.db) && NeverBoth(s.db) && WithinLimit(s.db, s.now) && Valid(s, es)
    ensures var s' := Run(s, es);
            OneOpenPerAddress(s'.db) && NeverBoth(s'.db) && WithinLimit(s'.db, s'.now)
  {
    RunKeepsInviteInv(s, es);
  }

  // ----- terminal states -----

  ghost predicate Settled(db: Db, i: InviteId) {
    i in db.invites && !Open(db.invites[i])
  }

  lemma EventKeepsSettled(s: State, e: Event, i: InviteId)
    requires Inv(s) && Settled(s.db, i) && Enabled(s, e)
    ensures i in Apply(s, e).db.invites && Apply(s, e).db.invites[i] == s.db.invites[i]
  {
    if e.Commit? {
      assert Fact(s.db, e.tx, s.txs[e.tx]);
    }
  }

  // An accepted or revoked invitation is never touched again.
  lemma {:induction false} TerminalStatesNeverChange(s: State, es: seq<Event>, i: InviteId)
    requires Inv(s) && Settled(s.db, i) && Valid(s, es)
    ensures i in Run(s, es).db.invites && Run(s, es).db.invites[i] == s.db.invites[i]
    decreases |es|
  {
    if es != [] {
      EventKeepsInv(s, es[0]);
      EventKeepsSettled(s, es[0], i);
      TerminalStatesNeverChange(Apply(s, es[0]), es[1..], i);
    }
  }

  // ----- redemption -----

  // The rows of workspace_members that redeeming token i adds, over a run.
  ghost function Redeemed(s: State, es: seq<Event>, i: InviteId): seq<(WsId, UserId)>
    requires Valid(s, es)
    decreases |es|
  {
    if es == [] then []
    else Redemption(s, es[0], i) + Redeemed(Apply(s, es[0]), es[1..], i)
  }

  ghost function Redemption(s: State, e: Event, i: InviteId): seq<(WsId, UserId)>
    requires Enabled(s, e)
  {
    if e.Commit? && s.txs[e.tx].pc.write.Accept? && s.txs[e.tx].pc.write.invite == i
    then [(s.txs[e.tx].pc.write.ws, s.txs[e.tx].pc.write.user)] else []
  }

  lemma SettledIsNotRedeemedNow(s: State, e: Event, i: InviteId)
    requires Inv(s) && Settled(s.db, i) && Enabled(s, e)
    ensures Redemption(s, e, i) == []
  {
    if e.Commit? {
      assert Fact(s.db, e.tx, s.txs[e.tx]);
    }
  }

  lemma {:induction false} SettledIsNotRedeemed(s: State, es: seq<Event>, i: InviteId)
    requires Inv(s) && Settled(s.db, i) && Valid(s, es)
    ensures Redeemed(s, es, i) == []
    decreases |es|
  {
    if es != [] {
      EventKeepsInv(s, es[0]);
      EventKeepsSettled(s, es[0], i);
      SettledIsNotRedeemedNow(s, es[0], i);
      SettledIsNotRedeemed(Apply(s, es[0]), es[1..], i);
    }
  }

  // However accept, invite and revoke race, a token is redeemed at most once; and
  // the redemption is the one the invitation records.
  lemma {:induction false} TokenRedeemedAtMostOnce(s: State, es: seq<Event>, i: InviteId)
    requires Inv(s) && Valid(s, es)
    ensures |Redeemed(s, es, i)| <= 1
    ensures Redeemed(s, es, i) != [] ==>
              var k, db := Redeemed(s, es, i)[0], Run(s, es).db;
              i in db.invites && db.invites[i].ws == k.0 && db.invites[i].accepted == Some(k.1)
    decreases |es|
  {
    if es != [] {
      var s' := Apply(s, es[0]);
      EventKeepsInv(s, es[0]);
      if Redemption(s, es[0], i) == [] {
        TokenRedeemedAtMostOnce(s', es[1..], i);
      } else {
        assert Fact(s.db, es[0].tx, s.txs[es[0].tx]);
        SettledIsNotRedeemed(s', es[1..], i);
        TerminalStatesNeverChange(s', es[1..], i);
      }
    }
  }

  // Redeeming adds the invited role to a newcomer and leaves every existing
  // member, the redeemer included, as it was.
  lemma RedemptionOnlyAdds(s: State, t: TxId)
    requires Inv(s) && Enabled(s, Commit(t)) && s.txs[t].pc.write.Accept?
    ensures var wr, a, b := s.txs[t].pc.write, s.db, Apply(s, Commit(t)).db;
            var k := (wr.ws, wr.user);
            && (forall m :: m in a.members ==> m in b.members && b.members[m] == a.members[m])
            && (forall m :: m in b.members && m !in a.members ==>
                              m == k && b.members[m] == a.invites[wr.invite].role != Owner)
            && k in b.members
            && !Settled(a, wr.invite) && Settled(b, wr.invite)
  {
    assert Fact(s.db, t, s.txs[t]);
  }
}
