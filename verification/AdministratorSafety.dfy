/**
 At least one active administrator, over every interleaving of administrative
 requests.  The lock on the administrator role row is what makes the count that a
 save reads still good when it commits.
 */
module AdministratorSafety {
  import opened Common
  import opened AccountProtocol
  import opened AccountSessions

  // A write that takes a live administrator away comes with the role row and a count
  // of at least two; self-deletion is the one request that does not look.
  ghost predicate Careful(db: Db, tx: Tx) {
    tx.pc.Ready? && tx.pc.write.Put? && !tx.request.SelfDelete? &&
    LiveAdmin(db, tx.pc.write.user) && !IsLiveAdmin(tx.pc.write.row) ==>
      RoleRow in tx.held && |LiveAdmins(db)| >= 2
  }

  ghost predicate Administered(s: State) {
    LiveAdmins(s.db) != {} && forall t :: t in s.txs ==> Careful(s.db, s.txs[t])
  }

  // Nobody's self-deletion commits on an account that is an administrator by then.
  // (The request itself checks the role it was authenticated with.)
  ghost predicate NoAdminDeletesItself(s: State, es: seq<Event>)
    requires Valid(s, es)
    decreases |es|
  {
    es == [] || (!AdminDeletesItself(s, es[0]) && NoAdminDeletesItself(Apply(s, es[0]), es[1..]))
  }

  ghost predicate AdminDeletesItself(s: State, e: Event)
    requires Enabled(s, e)
  {
    e.Commit? && s.txs[e.tx].request.SelfDelete? && LiveAdmin(s.db, Target(s.txs[e.tx].request, e.tx))
  }

  // A commit outside the role lock takes no administrator away.
  lemma UnlockedCommitKeepsAdmins(s: State, t: TxId)
    requires Inv(s) && Administered(s) && Enabled(s, Commit(t)) && !AdminDeletesItself(s, Commit(t))
    requires RoleRow !in s.txs[t].held
    ensures LiveAdmins(s.db) <= LiveAdmins(Apply(s, Commit(t)).db)
  {
    assert Careful(s.db, s.txs[t]) && Fact(s.db, t, s.txs[t]);
  }

  lemma CommitKeepsAnAdmin(s: State, t: TxId)
    requires Inv(s) && Administered(s) && Enabled(s, Commit(t)) && !AdminDeletesItself(s, Commit(t))
    ensures LiveAdmins(Apply(s, Commit(t)).db) != {}
  {
    var db', tx := Apply(s, Commit(t)).db, s.txs[t];
    assert Careful(s.db, tx) && Fact(s.db, t, tx) && Unused(s, t);
    if tx.pc.write.Put? {
      var u := tx.pc.write.user;
      var rest := LiveAdmins(s.db) - {u};
      if LiveAdmin(s.db, u) && !IsLiveAdmin(tx.pc.write.row) {
        assert |rest| >= 1;
        var v :| v in rest;
        assert v in LiveAdmins(db');
      } else {
        var v :| v in LiveAdmins(s.db);
        assert v in LiveAdmins(db');
      }
    }
  }

  // The facts of the transaction that holds the role row survive the others.
  lemma CommitKeepsCareful(s: State, t: TxId, t': TxId)
    requires Inv(s) && Administered(s) && Enabled(s, Commit(t)) && !AdminDeletesItself(s, Commit(t))
    requires t' in s.txs && t' != t
    ensures Careful(Apply(s, Commit(t)).db, s.txs[t'])
  {
    var db', tx' := Apply(s, Commit(t)).db, s.txs[t'];
    assert Careful(s.db, tx') && Fact(s.db, t, s.txs[t]) && Fact(s.db, t', tx') && Unused(s, t) && Unused(s, t');
    if tx'.pc.Ready? && tx'.pc.write.Put? && !tx'.request.SelfDelete? && LiveAdmin(db', tx'.pc.write.user) &&
      !IsLiveAdmin(tx'.pc.write.row) {
      var u := tx'.pc.write.user;
      if tx'.request.Create? {
        assert false;
      }
      assert Acc(u) !in s.txs[t].held;
      assert db'.accounts[u] == s.db.accounts[u];
      UnlockedCommitKeepsAdmins(s, t);
      SubsetSize(LiveAdmins(s.db), LiveAdmins(db'));
    }
  }

  lemma PrepareCareful(db: Db, t: TxId, tx: Tx, row: Account)
    requires Fact(db, t, tx) && tx.pc.Locked? && db.accounts[Target(tx.request, t)] == row
    requires Prepare(db, t, tx.request, row).Grant?
    ensures Careful(db, tx.(pc := Ready(Prepare(db, t, tx.request, row).write)))
  {
  }

  lemma StepKeepsCareful(s: State, t: TxId)
    requires Inv(s) && Administered(s) && Enabled(s, Step(t)) && Advance(s, t).Go?
    ensures Careful(s.db, Advance(s, t).tx)
  {
    var tx := s.txs[t];
    assert Fact(s.db, t, tx) && Unused(s, t);
    if tx.pc.Locked? {
      PrepareCareful(s.db, t, tx, s.db.accounts[Target(tx.request, t)]);
    }
  }

  lemma EventKeepsAdministered(s: State, e: Event)
    requires Inv(s) && Administered(s) && Enabled(s, e) && !AdminDeletesItself(s, e)
    ensures Administered(Apply(s, e))
  {
    var s' := Apply(s, e);
    match e
    case Commit(t) =>
      CommitKeepsAnAdmin(s, t);
      forall t' | t' in s'.txs ensures Careful(s'.db, s'.txs[t']) {
        CommitKeepsCareful(s, t, t');
      }
    case Step(t) => if Advance(s, t).Go? { StepKeepsCareful(s, t); }
    case Register(plain, verified) => RegisterKeepsAdministered(s, plain, verified);
    case Refresh(_, _) => assert LiveAdmins(s'.db) == LiveAdmins(s.db);
    case Logout(_) => assert LiveAdmins(s'.db) == LiveAdmins(s.db);
    case _ =>
  }

  lemma RegisterKeepsAdministered(s: State, plain: Option<nat>, verified: bool)
    requires Inv(s) && Administered(s)
    ensures Administered(Apply(s, Register(plain, verified)))
  {
    var s' := Apply(s, Register(plain, verified));
    assert s.next !in s.db.accounts;
    assert LiveAdmins(s'.db) == LiveAdmins(s.db);
    forall t | t in s'.txs ensures Careful(s'.db, s'.txs[t]) {
      assert Careful(s.db, s.txs[t]);
    }
  }

  lemma {:induction false} RunKeepsAdministered(s: State, es: seq<Event>)
    requires Inv(s) && Administered(s) && Valid(s, es) && NoAdminDeletesItself(s, es)
    ensures Administered(Run(s, es))
    decreases |es|
  {
    if es != [] {
      EventKeepsInv(s, es[0]);
      EventKeepsAdministered(s, es[0]);
      RunKeepsAdministered(Apply(s, es[0]), es[1..]);
    }
  }

  // Starting with one active, undeleted administrator there always is one, also
  // when two of them demote, disable or remove each other at once.
  lemma SomeAdministratorRemains(s: State, es: seq<Event>)
    requires Initial(s) && LiveAdmins(s.db) != {} && Valid(s, es) && NoAdminDeletesItself(s, es)
    ensures var accounts := Run(s, es).db.accounts;
            exists u :: u in accounts && accounts[u].role == 1 && accounts[u].status == Active && !accounts[u].deleted
  {
    RunKeepsAdministered(s, es);
    var u :| u in LiveAdmins(Run(s, es).db);
    assert u in Run(s, es).db.accounts;
  }

  // Exactly when the last administrator goes: a self-deletion commits on an account
  // that is the only administrator by then.
  lemma LastAdministratorGoes(s: State, es: seq<Event>, e: Event)
    requires Initial(s) && LiveAdmins(s.db) != {} && Valid(s, es) && NoAdminDeletesItself(s, es)
    requires Enabled(Run(s, es), e)
    ensures var x := Run(s, es);
            LiveAdmins(Apply(x, e).db) == {} <==>
              AdminDeletesItself(x, e) && LiveAdmins(x.db) == {Target(x.txs[e.tx].request, e.tx)}
  {
    var x := Run(s, es);
    RunKeepsInv(s, es);
    RunKeepsAdministered(s, es);
    if AdminDeletesItself(x, e) {
      SelfDeletionTakesOne(x, e.tx);
    } else {
      EventKeepsAdministered(x, e);
    }
  }

  lemma SelfDeletionTakesOne(s: State, t: TxId)
    requires Inv(s) && Enabled(s, Commit(t)) && s.txs[t].request.SelfDelete?
    ensures LiveAdmins(Apply(s, Commit(t)).db) == LiveAdmins(s.db) - {Target(s.txs[t].request, t)}
  {
    assert Fact(s.db, t, s.txs[t]);
  }

  // ----- the guard that is missing -----

  // A self-deletion that has locked an administrator's row does not go on.  This is
  // what reading the role again under the lock would ensure.
  ghost predicate Guarded(s: State, e: Event)
    requires Enabled(s, e)
  {
    e.Step? && s.txs[e.tx].request.SelfDelete? && s.txs[e.tx].pc.Locked? ==>
      !LiveAdmin(s.db, Target(s.txs[e.tx].request, e.tx))
  }

  ghost predicate AllGuarded(s: State, es: seq<Event>)
    requires Valid(s, es)
    decreases |es|
  {
    es == [] || (Guarded(s, es[0]) && AllGuarded(Apply(s, es[0]), es[1..]))
  }

  // A self-deletion locks no more than its account, and is ready to delete it only if
  // it is no administrator's.
  ghost predicate Humble(db: Db, t: TxId, tx: Tx) {
    tx.request.SelfDelete? ==>
      && tx.held <= {Acc(tx.request.user)}
      && (tx.pc.Ready? ==> !LiveAdmin(db, tx.request.user))
  }

  ghost predicate AllHumble(s: State) {
    forall t :: t in s.txs ==> Humble(s.db, t, s.txs[t])
  }

  lemma StepKeepsHumble(s: State, t: TxId)
    requires Enabled(s, Step(t)) && Guarded(s, Step(t)) && Advance(s, t).Go?
    requires Humble(s.db, t, s.txs[t]) && Fact(s.db, t, s.txs[t])
    ensures Humble(s.db, t, Advance(s, t).tx)
  {
    StepHolds(s, t);
  }

  lemma EventKeepsHumble(s: State, e: Event)
    requires Inv(s) && AllHumble(s) && Enabled(s, e) && Guarded(s, e)
    ensures AllHumble(Apply(s, e))
  {
    var s' := Apply(s, e);
    forall t | t in s'.txs ensures Humble(s'.db, t, s'.txs[t]) {
      if t in s.txs {
        assert Humble(s.db, t, s.txs[t]) && Fact(s.db, t, s.txs[t]);
        if e == Step(t) {
          StepKeepsHumble(s, t);
        } else if s.txs[t].request.SelfDelete? && s.txs[t].pc.Ready? {
          RowsChangeUnderLock(s, e, s.txs[t].request.user);
          assert e.Commit? ==> Acc(s.txs[t].request.user) !in s.txs[e.tx].held;
        }
      }
    }
  }

  // What the guard keeps.
  ghost predicate Safe(s: State) {
    Inv(s) && Administered(s) && AllHumble(s)
  }

  lemma GuardedEventKeepsSafe(s: State, e: Event)
    requires Safe(s) && Enabled(s, e) && Guarded(s, e)
    ensures Safe(Apply(s, e)) && !AdminDeletesItself(s, e)
  {
    if e.Commit? { assert Humble(s.db, e.tx, s.txs[e.tx]); }
    EventKeepsInv(s, e);
    EventKeepsAdministered(s, e);
    EventKeepsHumble(s, e);
  }

  lemma {:induction false} GuardKeepsSafe(s: State, es: seq<Event>)
    requires Safe(s) && Valid(s, es) && AllGuarded(s, es)
    ensures Safe(Run(s, es)) && NoAdminDeletesItself(s, es)
    decreases |es|
  {
    if es != [] {
      GuardedEventKeepsSafe(s, es[0]);
      GuardKeepsSafe(Apply(s, es[0]), es[1..]);
    }
  }

  // With the guard an administrator remains in every run, self-deletions included.
  lemma GuardedRunsKeepAnAdministrator(s: State, es: seq<Event>)
    requires Initial(s) && LiveAdmins(s.db) != {} && Valid(s, es) && AllGuarded(s, es)
    ensures var accounts := Run(s, es).db.accounts;
            exists u :: u in accounts && accounts[u].role == 1 && accounts[u].status == Active && !accounts[u].deleted
  {
    GuardKeepsSafe(s, es);
    var u :| u in LiveAdmins(Run(s, es).db);
    assert u in Run(s, es).db.accounts;
  }

  // ----- and nothing less -----

  // A guarded run that leaves no administrator.
  ghost predicate Doomed(s: State, es: seq<Event>) {
    Valid(s, es) && AllGuarded(s, es) && LiveAdmins(Run(s, es).db) == {}
  }

  lemma DoomedFrom(s: State, e: Event, es: seq<Event>)
    requires Enabled(s, e) && Guarded(s, e) && Doomed(Apply(s, e), es)
    ensures Doomed(s, [e] + es)
  {
    assert ([e] + es)[1..] == es;
  }

  // A self-deletion past the lock of an administrator's row, alone in the system.
  ghost predicate Lone(s: State, t: TxId) {
    && Inv(s) && t in s.txs && s.txs == map[t := s.txs[t]]
    && s.txs[t].request.SelfDelete? && s.txs[t].pc.Ready? && s.txs[t].held <= {Acc(s.txs[t].request.user)}
    && LiveAdmin(s.db, s.txs[t].request.user)
  }

  function Demotion(s: State, u: UserId, v: UserId): Request
    requires v in s.db.accounts
  {
    Save(s.db.accounts[v].customer, v, u, None, None, Some(USER), true)
  }

  // The state in which the demotion of v, in transaction n, is at `pc`.
  ghost function Demoting(s: State, u: UserId, v: UserId, held: set<Resource>, pc: Pc): State
    requires v in s.db.accounts
  {
    s.(txs := s.txs[s.next := Tx(Demotion(s, u, v), held, pc)], next := s.next + 1)
  }

  lemma DemotionTakesLocks(s: State, t: TxId, v: UserId)
    requires Lone(s, t) && LiveAdmin(s.db, v) && v != s.txs[t].request.user
    ensures var u, n := s.txs[t].request.user, s.next;
            var asked, held := Demoting(s, u, v, {}, Ask), Demoting(s, u, v, {RoleRow}, RoleHeld);
            var locked := Demoting(s, u, v, {RoleRow, Acc(v)}, Locked);
            && n != t && Enabled(asked, Step(n)) && Apply(asked, Step(n)) == held
            && Enabled(held, Step(n)) && Apply(held, Step(n)) == locked
  {
    assert Unused(s, t);
    var u, n := s.txs[t].request.user, s.next;
    var asked, held := Demoting(s, u, v, {}, Ask), Demoting(s, u, v, {RoleRow}, RoleHeld);
    assert asked.txs[n].held + {RoleRow} == {RoleRow};
    assert held.txs[n].held + {Acc(v)} == {RoleRow, Acc(v)};
    assert Advance(asked, n) == Go(held.txs[n]);
    assert Apply(asked, Step(n)).txs == held.txs;
    assert Advance(held, n).Go?;
    assert Apply(held, Step(n)).txs == Demoting(s, u, v, {RoleRow, Acc(v)}, Locked).txs;
  }

  lemma DemotionWrites(s: State, t: TxId, v: UserId)
    requires Lone(s, t) && LiveAdmin(s.db, v) && v != s.txs[t].request.user
    ensures var u, n, row := s.txs[t].request.user, s.next, s.db.accounts[v];
            var locked := Demoting(s, u, v, {RoleRow, Acc(v)}, Locked);
            var ready := Demoting(s, u, v, {RoleRow, Acc(v)}, Ready(Put(v, row.(role := USER), RevokeAll)));
            Enabled(locked, Step(n)) && Apply(locked, Step(n)) == ready && Enabled(ready, Commit(n))
  {
    assert Unused(s, t);
    var u, n := s.txs[t].request.user, s.next;
    assert {u, v} <= LiveAdmins(s.db);
    SubsetSize({u, v}, LiveAdmins(s.db));
    var locked := Demoting(s, u, v, {RoleRow, Acc(v)}, Locked);
    assert Advance(locked, n) == Go(locked.txs[n].(pc := Ready(Put(v, s.db.accounts[v].(role := USER), RevokeAll))));
  }

  lemma DemotionCommits(s: State, t: TxId, v: UserId)
    requires Lone(s, t) && LiveAdmin(s.db, v) && v != s.txs[t].request.user
    ensures var row := s.db.accounts[v];
            var ready := Demoting(s, s.txs[t].request.user, v, {RoleRow, Acc(v)},
              Ready(Put(v, row.(role := USER), RevokeAll)));
            var after := Apply(ready, Commit(s.next));
            && after.txs == s.txs && LiveAdmins(after.db) == LiveAdmins(s.db) - {v}
            && LiveAdmin(after.db, s.txs[t].request.user)
  {
    assert Unused(s, t);
  }

  lemma Demote(s: State, t: TxId, v: UserId) returns (after: State)
    requires Lone(s, t) && LiveAdmin(s.db, v) && v != s.txs[t].request.user
    ensures Lone(after, t) && after.txs[t] == s.txs[t] && LiveAdmins(after.db) == LiveAdmins(s.db) - {v}
    ensures forall rest ::
              Doomed(after, rest) ==>
              Doomed(s, [Begin(Demotion(s, s.txs[t].request.user, v))] +
                ([Step(s.next)] + ([Step(s.next)] + ([Step(s.next)] + ([Commit(s.next)] + rest)))))
  {
    var u, n, row := s.txs[t].request.user, s.next, s.db.accounts[v];
    var begin := Begin(Demotion(s, u, v));
    var asked, held := Demoting(s, u, v, {}, Ask), Demoting(s, u, v, {RoleRow}, RoleHeld);
    var locked := Demoting(s, u, v, {RoleRow, Acc(v)}, Locked);
    var ready := Demoting(s, u, v, {RoleRow, Acc(v)}, Ready(Put(v, row.(role := USER), RevokeAll)));
    DemotionTakesLocks(s, t, v);
    DemotionWrites(s, t, v);
    DemotionCommits(s, t, v);
    after := Apply(ready, Commit(n));
    EventKeepsInv(s, begin);
    EventKeepsInv(asked, Step(n));
    EventKeepsInv(held, Step(n));
    EventKeepsInv(locked, Step(n));
    EventKeepsInv(ready, Commit(n));
    forall rest | Doomed(after, rest)
      ensures Doomed(s, [begin] + ([Step(n)] + ([Step(n)] + ([Step(n)] + ([Commit(n)] + rest)))))
    {
      hide Doomed, Apply, Enabled, Inv;
      DoomedFrom(ready, Commit(n), rest);
      DoomedFrom(locked, Step(n), [Commit(n)] + rest);
      DoomedFrom(held, Step(n), [Step(n)] + ([Commit(n)] + rest));
      DoomedFrom(asked, Step(n), [Step(n)] + ([Step(n)] + ([Commit(n)] + rest)));
      DoomedFrom(s, begin, [Step(n)] + ([Step(n)] + ([Step(n)] + ([Commit(n)] + rest))));
    }
  }

  // It demotes the others and then deletes itself.
  lemma {:induction false} LoneDooms(s: State, t: TxId) returns (es: seq<Event>)
    requires Lone(s, t)
    ensures Doomed(s, es)
    decreases |LiveAdmins(s.db)|
  {
    var u := s.txs[t].request.user;
    if v :| v in LiveAdmins(s.db) && v != u {
      var after := Demote(s, t, v);
      SmallerSet(LiveAdmins(s.db), v);
      var rest := LoneDooms(after, t);
      var n := s.next;
      es := [Begin(Demotion(s, u, v))] + ([Step(n)] + ([Step(n)] + ([Step(n)] + ([Commit(n)] + rest))));
    } else {
      SelfDeletionTakesOne(s, t);
      es := [Commit(t)];
      assert Doomed(Apply(s, Commit(t)), []);
      DoomedFrom(s, Commit(t), []);
      assert es == [Commit(t)] + [];
    }
  }

  lemma SmallerSet(a: set<UserId>, v: UserId)
    requires v in a
    ensures |a - {v}| < |a|
  {
  }

  // Everybody else gives up first.
  lemma {:induction false} AbortsDoom(s: State, t: TxId) returns (es: seq<Event>)
    requires Inv(s) && t in s.txs && s.txs[t].request.SelfDelete? && s.txs[t].pc.Ready?
    requires s.txs[t].held <= {Acc(s.txs[t].request.user)} && LiveAdmin(s.db, s.txs[t].request.user)
    ensures Doomed(s, es)
    decreases |s.txs|
  {
    if t' :| t' in s.txs && t' != t {
      EventKeepsInv(s, Abort(t'));
      assert |s.txs - {t'}| < |s.txs| by { assert (s.txs - {t'}).Keys == s.txs.Keys - {t'}; }
      var rest := AbortsDoom(Apply(s, Abort(t')), t);
      DoomedFrom(s, Abort(t'), rest);
      es := [Abort(t')] + rest;
    } else {
      assert s.txs == map[t := s.txs[t]];
      es := LoneDooms(s, t);
    }
  }

  // After any guarded run, letting an event happen keeps an administrator in every
  // guarded continuation if and only if the event itself passes the guard.
  lemma GuardIsExact(s: State, es: seq<Event>, e: Event)
    requires Initial(s) && LiveAdmins(s.db) != {} && Valid(s, es) && AllGuarded(s, es) && Enabled(Run(s, es), e)
    ensures Guarded(Run(s, es), e) <==> forall more :: !Doomed(Apply(Run(s, es), e), more)
  {
    var x := Run(s, es);
    var y := Apply(x, e);
    GuardKeepsSafe(s, es);
    if Guarded(x, e) {
      GuardedEventKeepsSafe(x, e);
      forall more ensures !Doomed(y, more) {
        if Valid(y, more) && AllGuarded(y, more) { GuardKeepsSafe(y, more); }
      }
    } else {
      assert Humble(x.db, e.tx, x.txs[e.tx]) && Fact(x.db, e.tx, x.txs[e.tx]);
      EventKeepsInv(x, e);
      var more := AbortsDoom(y, e.tx);
      assert Doomed(y, more);
    }
  }

  // ----- an example -----

  function Person(role: nat, salt: nat): Account {
    Account([PasswordChange(Hash(7, salt), None)], Active, role, false, false)
  }

  // One administrator, 0, and one user, 1.
  function OneAdmin(): State {
    State(Db(map[0 := Person(ADMIN, 0), 1 := Person(USER, 1)], map[]), map[], 2)
  }

  lemma Extend(es: seq<Event>, e: Event) returns (es': seq<Event>)
    requires Valid(OneAdmin(), es) && Enabled(Run(OneAdmin(), es), e)
    ensures es' == es + [e] && Valid(OneAdmin(), es') && Run(OneAdmin(), es') == Apply(Run(OneAdmin(), es), e)
  {
    RunAppend(OneAdmin(), es, e);
    es' := es + [e];
  }

  // A role change between two administrators' accounts, from its begin to its commit.
  lemma ChangeRole(es: seq<Event>, actor: UserId, target: UserId, role: nat) returns (es': seq<Event>)
    requires Valid(OneAdmin(), es)
    requires var s := Run(OneAdmin(), es);
             && actor != target && Exists(s.db, target) && !s.db.accounts[target].customer &&
                s.db.accounts[target].role != role
             && (forall t :: t in s.txs ==> s.txs[t].held == {} && t != s.next)
             && (s.db.accounts[target].role == ADMIN && s.db.accounts[target].status == Active ==>
                |LiveAdmins(s.db)| > 1)
    ensures Valid(OneAdmin(), es')
    ensures var s, s' := Run(OneAdmin(), es), Run(OneAdmin(), es');
            && s'.db.accounts == s.db.accounts[target := s.db.accounts[target].(role := role)]
            && s'.txs == s.txs && s'.next == s.next + 1 && s'.db.sessions.Keys == s.db.sessions.Keys
  {
    hide Valid, Run;
    var s := Run(OneAdmin(), es);
    var t := s.next;
    es' := Extend(es, Begin(Save(false, target, actor, None, None, Some(role), false)));
    es' := Extend(es', Step(t));
    es' := Extend(es', Step(t));
    es' := Extend(es', Step(t));
    assert Run(OneAdmin(), es').txs[t].pc == Ready(Put(target, s.db.accounts[target].(role := role), RevokeAll));
    es' := Extend(es', Commit(t));
    assert Run(OneAdmin(), es').txs == s.txs;
  }

  // While 1 is deleting the account, 0 hands the administration over to it.
  lemma HandedOver() returns (es: seq<Event>)
    ensures Valid(OneAdmin(), es)
    ensures Run(OneAdmin(), es) ==
            State(Db(map[0 := Person(USER, 0), 1 := Person(ADMIN, 1)], map[]),
              map[2 := Tx(SelfDelete(1, USER), {}, Ask)], 5)
  {
    es := Extend([], Begin(SelfDelete(1, USER)));
    es := ChangeRole(es, 0, 1, ADMIN);
    assert LiveAdmins(Run(OneAdmin(), es).db) == {0, 1};
    es := ChangeRole(es, 1, 0, USER);
    assert Run(OneAdmin(), es).db.sessions == map[];
  }

  // Without that condition the promise fails: the deletion still commits.
  lemma StaleSelfDeletionRemovesTheLast()
    ensures Initial(OneAdmin()) && LiveAdmin(OneAdmin().db, 0)
    ensures exists es :: Valid(OneAdmin(), es) && LiveAdmins(Run(OneAdmin(), es).db) == {}
  {
    var es := HandedOver();
    es := Extend(es, Step(2));
    es := Extend(es, Step(2));
    es := Extend(es, Commit(2));
    assert LiveAdmins(Run(OneAdmin(), es).db) == {};
  }
}
