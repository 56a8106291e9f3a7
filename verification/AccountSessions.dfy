/**
 Credentials and sessions over every interleaving of logins, resets, self-service
 and administrative changes: which sessions may still be alive, how often a reset
 link works, and what refresh rotation accepts.
 */
module AccountSessions {
  import opened Common
  import opened AccountProtocol

  // ----- the invariant -----

  ghost predicate SaltsFrom(row: Account, next: nat) {
    forall k :: 0 <= k < |row.passwords| && row.passwords[k].to.Hash? ==> row.passwords[k].to.salt < next
  }

  ghost predicate SaltFree(row: Account, salt: nat) {
    forall k :: 0 <= k < |row.passwords| && row.passwords[k].to.Hash? ==> row.passwords[k].to.salt != salt
  }

  ghost predicate PasswordsDistinct(row: Account) {
    forall i, j :: 0 <= i < j < |row.passwords| ==> row.passwords[i].to != row.passwords[j].to
  }

  // No value returns to NoPassword, and every value but the first is a fresh hash.
  ghost predicate GoodRow(row: Account, next: nat) {
    row.passwords != [] && SaltsFrom(row, next) && PasswordsDistinct(row)
  }

  // An unrevoked session of an undeleted account belongs to an active account and
  // was opened under its current password, or was spared by every change since.
  ghost predicate Vouched(row: Account, id: SessionId, session: Session) {
    !session.revoked && !row.deleted ==>
      row.status == Active &&
      forall k :: session.since <= k < |row.passwords| ==> row.passwords[k].spared == Some(id)
  }

  ghost predicate GoodSession(db: Db, id: SessionId, session: Session, next: nat) {
    && id < next && session.hash < next && session.user in db.accounts
    && var row := db.accounts[session.user];
       && 1 <= session.since <= |row.passwords| && session.under == row.passwords[session.since - 1].to
       && Vouched(row, id, session)
  }

  ghost predicate Sound(s: State) {
    && (forall u :: u in s.db.accounts ==> u < s.next && GoodRow(s.db.accounts[u], s.next))
    && (forall id :: id in s.db.sessions ==> GoodSession(s.db, id, s.db.sessions[id], s.next))
    && (forall t :: t in s.txs ==> Unused(s, t))
  }

  // The names that an open transaction may still draw.
  ghost predicate Unused(s: State, t: TxId) {
    && t < s.next && t !in s.db.accounts && t !in s.db.sessions
    && forall u :: u in s.db.accounts ==> SaltFree(s.db.accounts[u], t)
  }

  // One fresh hash was added, and the sessions it does not spare end with it.
  ghost predicate NewPassword(cur: Account, row: Account, revoke: Revoke, t: TxId) {
    var n := |cur.passwords|;
    && |row.passwords| == n + 1 && row.passwords[..n] == cur.passwords
    && row.passwords[n].to.Hash? && row.passwords[n].to.salt == t
    && revoke == match row.passwords[n].spared { case None => RevokeAll case Some(id) => RevokeOthers(id) }
  }

  // How an update may treat passwords, status and sessions together.
  ghost predicate PutFact(cur: Account, row: Account, revoke: Revoke, t: TxId) {
    && (row.passwords == cur.passwords || NewPassword(cur, row, revoke, t))
    && (revoke.RevokeOthers? ==> row.passwords != cur.passwords && row.status == cur.status)
    && (cur.status == Active && row.status != Active ==> revoke == RevokeAll)
    && (cur.deleted ==> row.deleted)
  }

  // The write is the one that the row as it is calls for.
  ghost predicate CalledFor(r: Request, t: TxId, cur: Account, row: Account, revoke: Revoke) {
    RightType(r, cur) && Objection(r, cur).None? && row == RowAfter(r, t, cur) && revoke == RevokeAfter(r, cur)
  }

  ghost predicate WriteFact(db: Db, t: TxId, tx: Tx, wr: Write) {
    match wr
    case Put(u, row, revoke) =>
      u == Target(tx.request, t) &&
      if tx.request.Create?
      then RoleRow in tx.held && revoke == Keep && row == CreatedRow(tx.request, t)
      else
        && Acc(u) in tx.held && u in db.accounts && PutFact(db.accounts[u], row, revoke, t)
        && CalledFor(tx.request, t, db.accounts[u], row, revoke)
    case OpenSession(id, u, credential) =>
      id == t && tx.request.Login? && Acc(u) in tx.held && Exists(db, u) && db.accounts[u].status == Active &&
        Password(db.accounts[u]) == credential
  }

  ghost predicate Fact(db: Db, t: TxId, tx: Tx) {
    match tx.pc
    case Checked(_) => tx.request.Login?
    case RoleHeld => RoleRow in tx.held && Administrative(tx.request)
    case Locked =>
      && Acc(Target(tx.request, t)) in tx.held && Target(tx.request, t) in db.accounts
      && (Administrative(tx.request) ==> RoleRow in tx.held)
      && !tx.request.Login? && !tx.request.Create?
      && (!tx.request.SelfDelete? ==> !db.accounts[Target(tx.request, t)].deleted)
      && RightType(tx.request, db.accounts[Target(tx.request, t)])
    case Ready(wr) => WriteFact(db, t, tx, wr)
    case _ => true
  }

  ghost predicate Exclusive(s: State) {
    forall t, t', r :: t in s.txs && t' in s.txs && t != t' ==> !(r in s.txs[t].held && r in s.txs[t'].held)
  }

  ghost predicate Inv(s: State) {
    && Sound(s)
    && Exclusive(s)
    && forall t :: t in s.txs ==> Fact(s.db, t, s.txs[t])
  }

  // ----- steps -----

  lemma PrepareFact(db: Db, t: TxId, tx: Tx, row: Account)
    requires Fact(db, t, tx) && tx.pc.Locked? && db.accounts[Target(tx.request, t)] == row
    requires Prepare(db, t, tx.request, row).Grant? && row.passwords != []
    ensures WriteFact(db, t, tx, Prepare(db, t, tx.request, row).write)
  {
    var wr := Prepare(db, t, tx.request, row).write;
    assert wr.row.passwords != row.passwords ==> wr.row.passwords[..|row.passwords|] == row.passwords;
  }

  lemma StepFact(s: State, t: TxId)
    requires t in s.txs && Fact(s.db, t, s.txs[t]) && Advance(s, t).Go?
    requires forall u :: u in s.db.accounts ==> s.db.accounts[u].passwords != []
    ensures Fact(s.db, t, Advance(s, t).tx)
  {
    var tx := s.txs[t];
    if tx.pc.Locked? {
      PrepareFact(s.db, t, tx, s.db.accounts[Target(tx.request, t)]);
    }
  }

  lemma StepHolds(s: State, t: TxId)
    requires t in s.txs && Advance(s, t).Go?
    ensures Advance(s, t).tx.held <= s.txs[t].held +
            (if Wants(s.txs[t], t).Some? then {Wants(s.txs[t], t).value} else {})
  {
  }

  lemma StepKeepsInv(s: State, t: TxId)
    requires Inv(s) && Enabled(s, Step(t))
    ensures Inv(Apply(s, Step(t)))
  {
    var s' := Apply(s, Step(t));
    assert forall t' :: t' in s'.txs ==> Unused(s, t') && Unused(s', t');
    if Advance(s, t).Go? {
      StepHolds(s, t);
      StepFact(s, t);
    }
  }

  // ----- commits -----

  lemma PutKeepsRow(cur: Account, row: Account, revoke: Revoke, t: TxId, next: nat)
    requires GoodRow(cur, next) && SaltFree(cur, t) && t < next && PutFact(cur, row, revoke, t)
    ensures GoodRow(row, next)
    ensures forall salt :: salt != t && SaltFree(cur, salt) ==> SaltFree(row, salt)
    ensures |cur.passwords| <= |row.passwords|
    ensures forall k :: 0 <= k < |cur.passwords| ==> row.passwords[k] == cur.passwords[k]
  {
  }

  lemma PutKeepsSession(cur: Account, row: Account, revoke: Revoke, t: TxId, u: UserId, id: SessionId, session: Session)
    requires PutFact(cur, row, revoke, t) && session.user == u && session.since <= |cur.passwords|
    requires Vouched(cur, id, session)
    ensures Vouched(row, id, if Ends(revoke, u, id, session) then session.(revoked := true) else session)
  {
  }

  lemma PutKeepsSessions(s: State, t: TxId, id: SessionId)
    requires Inv(s) && Enabled(s, Commit(t)) && s.txs[t].pc.write.Put? && id in Apply(s, Commit(t)).db.sessions
    ensures var s' := Apply(s, Commit(t)); GoodSession(s'.db, id, s'.db.sessions[id], s'.next)
  {
    var Put(u, row, revoke) := s.txs[t].pc.write;
    assert Fact(s.db, t, s.txs[t]) && Unused(s, t);
    var session := s.db.sessions[id];
    assert GoodSession(s.db, id, session, s.next);
    if session.user == u {
      PutKeepsRow(s.db.accounts[u], row, revoke, t, s.next);
      PutKeepsSession(s.db.accounts[u], row, revoke, t, u, id, session);
    }
  }

  lemma PutKeepsSound(s: State, t: TxId)
    requires Inv(s) && Enabled(s, Commit(t)) && s.txs[t].pc.write.Put?
    ensures Sound(Apply(s, Commit(t)))
  {
    var s' := Apply(s, Commit(t));
    var Put(u, row, revoke) := s.txs[t].pc.write;
    assert Fact(s.db, t, s.txs[t]) && Unused(s, t);
    if u in s.db.accounts {
      PutKeepsRow(s.db.accounts[u], row, revoke, t, s.next);
    }
    forall t' | t' in s'.txs ensures Unused(s', t') {
      assert Unused(s, t');
    }
    hide GoodSession;
    forall id | id in s'.db.sessions ensures GoodSession(s'.db, id, s'.db.sessions[id], s'.next) {
      PutKeepsSessions(s, t, id);
    }
  }

  lemma OpenKeepsSound(s: State, t: TxId)
    requires Inv(s) && Enabled(s, Commit(t)) && s.txs[t].pc.write.OpenSession?
    ensures Sound(Apply(s, Commit(t)))
  {
    var s' := Apply(s, Commit(t));
    assert Fact(s.db, t, s.txs[t]) && Unused(s, t);
    forall id | id in s'.db.sessions ensures GoodSession(s'.db, id, s'.db.sessions[id], s'.next) {
      if id != t { assert GoodSession(s.db, id, s.db.sessions[id], s.next); }
    }
    forall t' | t' in s'.txs ensures Unused(s', t') {
      assert Unused(s, t');
    }
  }

  // The row of an account changes only under its lock.
  lemma CommitLeavesLockedRows(s: State, t: TxId, t': TxId)
    requires Inv(s) && Enabled(s, Commit(t)) && t' in s.txs && t' != t
    ensures Fact(Apply(s, Commit(t)).db, t', s.txs[t'])
  {
    var db' := Apply(s, Commit(t)).db;
    assert Fact(s.db, t, s.txs[t]) && Fact(s.db, t', s.txs[t']) && Unused(s, t);
    forall u | Acc(u) in s.txs[t'].held && u in s.db.accounts
      ensures u in db'.accounts && db'.accounts[u] == s.db.accounts[u] {
      assert Acc(u) !in s.txs[t].held;
    }
  }

  lemma CommitKeepsInv(s: State, t: TxId)
    requires Inv(s) && Enabled(s, Commit(t))
    ensures Inv(Apply(s, Commit(t)))
  {
    if s.txs[t].pc.write.Put? { PutKeepsSound(s, t); } else { OpenKeepsSound(s, t); }
    forall t' | t' in s.txs && t' != t ensures Fact(Apply(s, Commit(t)).db, t', s.txs[t']) {
      CommitLeavesLockedRows(s, t, t');
    }
  }

  // ----- the other events -----

  // Refresh and logout touch one session, and revive none.
  lemma SessionEventKeepsInv(s: State, e: Event)
    requires Inv(s) && Enabled(s, e) && (e.Refresh? || e.Logout?)
    ensures Inv(Apply(s, e))
  {
    var s' := Apply(s, e);
    forall t | t in s'.txs ensures Unused(s', t) && Fact(s'.db, t, s'.txs[t]) {
      assert Unused(s, t) && Fact(s.db, t, s.txs[t]);
    }
    forall id | id in s'.db.sessions ensures GoodSession(s'.db, id, s'.db.sessions[id], s'.next) {
      assert GoodSession(s.db, id, s.db.sessions[id], s.next);
    }
  }

  lemma RegisterKeepsInv(s: State, e: Event)
    requires Inv(s) && Enabled(s, e) && e.Register?
    ensures Inv(Apply(s, e))
  {
    var s' := Apply(s, e);
    forall t | t in s'.txs ensures Unused(s', t) && Fact(s'.db, t, s'.txs[t]) {
      assert Unused(s, t) && Fact(s.db, t, s.txs[t]);
    }
    forall id | id in s'.db.sessions ensures GoodSession(s'.db, id, s'.db.sessions[id], s'.next) {
      assert GoodSession(s.db, id, s.db.sessions[id], s.next);
    }
  }

  lemma BeginKeepsInv(s: State, e: Event)
    requires Inv(s) && Enabled(s, e) && (e.Begin? || e.Abort?)
    ensures Inv(Apply(s, e))
  {
    var s' := Apply(s, e);
    forall t | t in s'.txs ensures Unused(s', t) {
      if t in s.txs { assert Unused(s, t); }
    }
  }

  lemma EventKeepsInv(s: State, e: Event)
    requires Inv(s) && Enabled(s, e)
    ensures Inv(Apply(s, e))
  {
    if e.Step? { StepKeepsInv(s, e.tx); }
    else if e.Commit? { CommitKeepsInv(s, e.tx); }
    else if e.Register? { RegisterKeepsInv(s, e); }
    else if e.Begin? || e.Abort? { BeginKeepsInv(s, e); }
    else { SessionEventKeepsInv(s, e); }
  }

  lemma {:induction false} RunKeepsInv(s: State, es: seq<Event>)
    requires Inv(s) && Valid(s, es)
    ensures Inv(Run(s, es))
    decreases |es|
  {
    if es != [] {
      EventKeepsInv(s, es[0]);
      RunKeepsInv(Apply(s, es[0]), es[1..]);
    }
  }

  lemma {:induction false} RunAppend(s: State, es: seq<Event>, e: Event)
    requires Valid(s, es) && Enabled(Run(s, es), e)
    ensures Valid(s, es + [e]) && Run(s, es + [e]) == Apply(Run(s, es), e)
    decreases |es|
  {
    if es == [] {
      assert Valid(Apply(s, e), [e][1..]);
    } else {
      assert (es + [e])[1..] == es[1..] + [e];
      RunAppend(Apply(s, es[0]), es[1..], e);
    }
  }

  ghost predicate Initial(s: State) {
    s.txs == map[] && Sound(s)
  }

  // After any run, an unrevoked session of an undeleted account belongs to an active
  // account, and unless it was opened under the password the account has now, every
  // password since was set by a change that spared exactly this session.
  lemma LiveSessionsAreVouchedFor(s: State, es: seq<Event>, id: SessionId)
    requires Initial(s) && Valid(s, es)
    requires var db := Run(s, es).db; id in db.sessions && !db.sessions[id].revoked && Exists(db, db.sessions[id].user)
    ensures var session := Run(s, es).db.sessions[id];
            var row := Run(s, es).db.accounts[session.user];
            && row.status == Active && 1 <= session.since <= |row.passwords|
            && session.under == row.passwords[session.since - 1].to
            && (session.under == Password(row) || forall k :: session.since <= k < |row.passwords| ==>
               row.passwords[k].spared == Some(id))
            && (session.since == |row.passwords| <==> session.under == Password(row))
  {
    RunKeepsInv(s, es);
    var db := Run(s, es).db;
    assert GoodSession(db, id, db.sessions[id], Run(s, es).next);
    assert GoodRow(db.accounts[db.sessions[id].user], Run(s, es).next);
  }

  // ----- reset links -----

  // The link was signed with a password the account no longer has.
  ghost predicate Spent(db: Db, link: Link) {
    link.user in db.accounts &&
    var row := db.accounts[link.user];
    exists k :: 0 <= k < |row.passwords| - 1 && row.passwords[k].to == link.signedWith
  }

  ghost function ResetsWith(s: State, es: seq<Event>, link: Link): nat
    requires Valid(s, es)
    decreases |es|
  {
    if es == [] then 0
    else (if ResetCommits(s, es[0], link) then 1 else 0) + ResetsWith(Apply(s, es[0]), es[1..], link)
  }

  ghost predicate ResetCommits(s: State, e: Event, link: Link)
    requires Enabled(s, e)
  {
    e.Commit? && s.txs[e.tx].request.Reset? && s.txs[e.tx].request.link == link
  }

  // A transaction about to commit a reset still holds the account with the password
  // the link was signed with.
  ghost predicate HoldsLink(db: Db, tx: Tx) {
    tx.request.Reset? && tx.pc.Ready? ==>
      var link := tx.request.link;
      && link.user in db.accounts && Acc(link.user) in tx.held
      && Password(db.accounts[link.user]) == link.signedWith
      && tx.pc.write.Put? && tx.pc.write.user == link.user
      && |tx.pc.write.row.passwords| == |db.accounts[link.user].passwords| + 1
  }

  ghost predicate LinkFact(s: State) {
    forall t :: t in s.txs ==> HoldsLink(s.db, s.txs[t])
  }

  // An account row changes only in the hands of the transaction that locked it.
  lemma RowsChangeUnderLock(s: State, e: Event, u: UserId)
    requires Inv(s) && Enabled(s, e) && u in s.db.accounts
    ensures u in Apply(s, e).db.accounts
    ensures Apply(s, e).db.accounts[u] == s.db.accounts[u] || (e.Commit? && Acc(u) in s.txs[e.tx].held)
    ensures var a, b := s.db.accounts[u], Apply(s, e).db.accounts[u];
            |a.passwords| <= |b.passwords| && forall k :: 0 <= k < |a.passwords| ==> a.passwords[k] == b.passwords[k]
  {
    if e.Commit? {
      assert Fact(s.db, e.tx, s.txs[e.tx]) && Unused(s, e.tx);
    }
  }

  lemma EventKeepsLinkFact(s: State, e: Event)
    requires Inv(s) && LinkFact(s) && Enabled(s, e)
    ensures LinkFact(Apply(s, e))
  {
    var s' := Apply(s, e);
    forall t | t in s'.txs ensures HoldsLink(s'.db, s'.txs[t]) {
      if e == Step(t) {
        StepKeepsLink(s, t);
      } else if t in s.txs && s.txs[t].request.Reset? && s.txs[t].pc.Ready? {
        assert HoldsLink(s.db, s.txs[t]);
        RowsChangeUnderLock(s, e, s.txs[t].request.link.user);
        assert e.Commit? ==> Acc(s.txs[t].request.link.user) !in s.txs[e.tx].held;
      }
    }
  }

  lemma StepKeepsLink(s: State, t: TxId)
    requires t in s.txs && Fact(s.db, t, s.txs[t]) && HoldsLink(s.db, s.txs[t]) && Advance(s, t).Go?
    ensures HoldsLink(s.db, Advance(s, t).tx)
  {
  }

  lemma EventKeepsSpent(s: State, e: Event, link: Link)
    requires Inv(s) && Enabled(s, e) && Spent(s.db, link)
    ensures Spent(Apply(s, e).db, link)
  {
    RowsChangeUnderLock(s, e, link.user);
    var row := s.db.accounts[link.user];
    var k :| 0 <= k < |row.passwords| - 1 && row.passwords[k].to == link.signedWith;
    assert Apply(s, e).db.accounts[link.user].passwords[k].to == link.signedWith;
  }

  lemma SpentLinkIsRefusedNow(s: State, e: Event, link: Link)
    requires Inv(s) && LinkFact(s) && Enabled(s, e) && Spent(s.db, link)
    ensures !ResetCommits(s, e, link)
  {
    assert GoodRow(s.db.accounts[link.user], s.next);
  }

  lemma {:induction false} SpentLinkIsRefused(s: State, es: seq<Event>, link: Link)
    requires Inv(s) && LinkFact(s) && Valid(s, es) && Spent(s.db, link)
    ensures ResetsWith(s, es, link) == 0
    decreases |es|
  {
    if es != [] {
      EventKeepsInv(s, es[0]);
      EventKeepsLinkFact(s, es[0]);
      EventKeepsSpent(s, es[0], link);
      SpentLinkIsRefusedNow(s, es[0], link);
      SpentLinkIsRefused(Apply(s, es[0]), es[1..], link);
    }
  }

  lemma ResetSpendsItsLink(s: State, e: Event, link: Link)
    requires Inv(s) && LinkFact(s) && Enabled(s, e) && ResetCommits(s, e, link)
    ensures Spent(Apply(s, e).db, link)
  {
    RowsChangeUnderLock(s, e, link.user);
    var row := s.db.accounts[link.user];
    assert GoodRow(row, s.next);
    assert row.passwords[|row.passwords| - 1].to == link.signedWith;
    assert Apply(s, e).db.accounts[link.user].passwords[|row.passwords| - 1].to == link.signedWith;
  }

  // Reset links are single-use without being stored: over any run, a link resets a
  // password at most once.
  lemma {:induction false} ResetLinkWorksAtMostOnce(s: State, es: seq<Event>, link: Link)
    requires Inv(s) && LinkFact(s) && Valid(s, es)
    ensures ResetsWith(s, es, link) <= 1
    decreases |es|
  {
    if es != [] {
      EventKeepsInv(s, es[0]);
      EventKeepsLinkFact(s, es[0]);
      if ResetCommits(s, es[0], link) {
        ResetSpendsItsLink(s, es[0], link);
        SpentLinkIsRefused(Apply(s, es[0]), es[1..], link);
      } else {
        ResetLinkWorksAtMostOnce(Apply(s, es[0]), es[1..], link);
      }
    }
  }

  // ----- refresh rotation -----

  datatype Rotation = Rotation(presented: nat, issued: nat)

  // The refreshes of one session that a run accepts.
  ghost function Rotations(s: State, es: seq<Event>, id: SessionId): seq<Rotation>
    requires Valid(s, es)
    decreases |es|
  {
    if es == [] then []
    else (if es[0].Refresh? && es[0].session == id &&
      Accepts(s.db, id, es[0].hash) then [Rotation(es[0].hash, s.next)] else []) +
         Rotations(Apply(s, es[0]), es[1..], id)
  }

  ghost predicate Chain(rs: seq<Rotation>) {
    && (forall i :: 0 <= i < |rs| ==> rs[i].presented < rs[i].issued)
    && (forall i :: 0 <= i < |rs| - 1 ==> rs[i].issued == rs[i + 1].presented)
  }

  lemma EventKeepsSession(s: State, e: Event, id: SessionId)
    requires Inv(s) && Enabled(s, e) && id in s.db.sessions
    ensures id in Apply(s, e).db.sessions
    ensures s.db.sessions[id].revoked ==> Apply(s, e).db.sessions[id].revoked
    ensures !(e.Refresh? && e.session == id && Accepts(s.db, id, e.hash)) ==>
              Apply(s, e).db.sessions[id].hash == s.db.sessions[id].hash
  {
    if e.Commit? {
      assert Fact(s.db, e.tx, s.txs[e.tx]) && Unused(s, e.tx);
    }
  }

  lemma {:induction false} RevokedSessionNeverRefreshes(s: State, es: seq<Event>, id: SessionId)
    requires Inv(s) && Valid(s, es) && id in s.db.sessions && s.db.sessions[id].revoked
    ensures Rotations(s, es, id) == []
    decreases |es|
  {
    if es != [] {
      EventKeepsInv(s, es[0]);
      EventKeepsSession(s, es[0], id);
      RevokedSessionNeverRefreshes(Apply(s, es[0]), es[1..], id);
    }
  }

  // Accepted refreshes form one chain that starts at the session's current hash.
  lemma {:induction false} RefreshesFormAChain(s: State, es: seq<Event>, id: SessionId)
    requires Inv(s) && Valid(s, es) && id in s.db.sessions
    ensures var rs := Rotations(s, es, id);
            Chain(rs) && (rs != [] ==> rs[0].presented == s.db.sessions[id].hash && !s.db.sessions[id].revoked)
    decreases |es|
  {
    if es != [] {
      var s' := Apply(s, es[0]);
      EventKeepsInv(s, es[0]);
      EventKeepsSession(s, es[0], id);
      RefreshesFormAChain(s', es[1..], id);
      assert GoodSession(s.db, id, s.db.sessions[id], s.next);
    }
  }

  lemma {:induction false} ChainIncreases(rs: seq<Rotation>, i: nat, j: nat)
    requires Chain(rs) && i < j < |rs|
    ensures rs[i].presented < rs[j].presented
    decreases j
  {
    if i + 1 < j { ChainIncreases(rs, i, j - 1); }
    assert rs[j - 1].issued == rs[j].presented;
  }

  // No hash is accepted twice, whatever interleaves with the refreshes.
  lemma EachHashAcceptedAtMostOnce(s: State, es: seq<Event>, id: SessionId)
    requires Inv(s) && Valid(s, es) && id in s.db.sessions
    ensures forall i, j :: 0 <= i < j < |Rotations(s, es, id)| ==>
              Rotations(s, es, id)[i].presented != Rotations(s, es, id)[j].presented
  {
    RefreshesFormAChain(s, es, id);
    var rs := Rotations(s, es, id);
    forall i, j | 0 <= i < j < |rs| ensures rs[i].presented != rs[j].presented {
      ChainIncreases(rs, i, j);
    }
  }
}
