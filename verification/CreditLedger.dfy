/**
 What every run of concurrent adjustments keeps: conservation, one entry per key,
 one audit row per entry, and equality with the committed adjustments run one
 after the other in commit order.
 */
module CreditLedger {
  import opened Common
  import opened CreditProtocol

  function Total(entries: seq<Entry>, credit: CreditId): int {
    if entries == [] then 0
    else Total(entries[..|entries| - 1], credit) +
         (if entries[|entries| - 1].credit == credit then entries[|entries| - 1].amount else 0)
  }

  ghost predicate Balanced(db: Db) {
    forall c :: c in db.balances ==> db.balances[c] == Total(db.entries, c)
  }

  ghost predicate KeysUnique(db: Db) {
    forall i, j :: 0 <= i < j < |db.entries| ==> db.entries[i].key != db.entries[j].key
  }

  ghost predicate Audited(db: Db) {
    |db.audits| == |db.entries| && forall i :: 0 <= i < |db.entries| ==> db.audits[i] == db.entries[i].credit
  }

  ghost predicate References(db: Db) {
    && (forall id :: id in db.credits ==> id in db.known && db.credits[id] in db.balances)
    && (forall id, id' :: id in db.credits && id' in db.credits && db.credits[id] == db.credits[id'] ==> id == id')
    && (forall i :: 0 <= i < |db.entries| ==> db.entries[i].credit in db.balances && db.entries[i].amount != 0)
    && (forall c :: c in db.balances ==> -BALANCE_BOUND < db.balances[c] < BALANCE_BOUND)
  }

  ghost predicate Sound(db: Db) {
    References(db) && Balanced(db) && KeysUnique(db) && Audited(db)
  }

  // What a transaction may rely on at its next statement.
  ghost predicate Fact(db: Db, t: TxId, tx: Tx) {
    var r, pc := tx.request, tx.pc;
    && t !in db.balances && r.amount != 0
    && (!pc.InsertCredit? ==>
          if pc.created then r.identity !in db.credits && r.identity in db.known else r.identity in db.credits)
    && (!pc.InsertCredit? && !pc.FindCredit? ==> pc.credit == if pc.created then t else db.credits[r.identity])
    && (pc.Compare? ==> KeyTaken(db, r.key))
    && (pc.ReadReplay? || (pc.Ready? && pc.response.replayed) ==> !pc.created && EntryOf(r, pc.credit) in db.entries)
    && (HoldsKey(tx, r.key) ==> !KeyTaken(db, r.key))
    && (pc.ReadBack? || pc.WriteAudit? || (pc.Ready? && !pc.response.replayed) ==>
          pc.balance == BalanceOf(db, pc.credit) + r.amount && -BALANCE_BOUND < pc.balance < BALANCE_BOUND)
    && (pc.WriteAudit? ==> pc.response == Response(pc.balance, false))
    && (pc.Ready? && !pc.response.replayed ==> pc.response.balance == pc.balance)
  }

  // Unique values and row locks exclude each other.
  ghost predicate Exclusive(s: State) {
    && (forall t, t', id :: t in s.txs && t' in s.txs && t != t' ==>
          !(HoldsIdentity(s.txs[t], id) && HoldsIdentity(s.txs[t'], id)))
    && (forall t, t', key :: t in s.txs && t' in s.txs && t != t' ==>
          !(HoldsKey(s.txs[t], key) && HoldsKey(s.txs[t'], key)))
    && (forall t, t', c :: t in s.txs && t' in s.txs && t != t' ==>
          !(HoldsCredit(s.txs[t], c) && HoldsCredit(s.txs[t'], c)))
  }

  ghost predicate Inv(s: State) {
    && Sound(s.db)
    && (forall c :: c in s.db.balances ==> c < s.next)
    && (forall t :: t in s.txs ==> t < s.next && Fact(s.db, t, s.txs[t]))
    && Exclusive(s)
  }

  lemma {:induction false} TotalOfStranger(entries: seq<Entry>, c: CreditId)
    requires forall i :: 0 <= i < |entries| ==> entries[i].credit != c
    ensures Total(entries, c) == 0
  {
    if entries != [] { TotalOfStranger(entries[..|entries| - 1], c); }
  }

  lemma TotalAppend(entries: seq<Entry>, e: Entry, c: CreditId)
    ensures Total(entries + [e], c) == Total(entries, c) + if e.credit == c then e.amount else 0
  {
    assert (entries + [e])[..|entries|] == entries;
  }

  // Committing is running the adjustment alone on the tables as they are now.
  lemma CommitIsSerial(s: State, t: TxId)
    requires Inv(s) && Enabled(s, Commit(t))
    ensures var tx := s.txs[t];
            var serial := AdjustAlone(s.db, tx.request, t);
            && Apply(s, Commit(t)).db == serial.db
            && serial.outcome.Answered?
            && serial.outcome.response.replayed == tx.pc.response.replayed
            && (!tx.pc.response.replayed ==> serial.outcome.response == tx.pc.response)
  {
    var tx, db := s.txs[t], s.db;
    assert Fact(db, t, tx);
    if tx.pc.response.replayed {
      var i :| 0 <= i < |db.entries| && db.entries[i] == EntryOf(tx.request, tx.pc.credit);
      assert KeyTaken(db, tx.request.key);
    }
  }

  // A refusal, too, is what the adjustment alone would get from the tables it read.
  lemma FailureIsSerial(db: Db, s: State, t: TxId)
    requires db == s.db && t in s.txs && References(db) && Fact(db, t, s.txs[t]) && Advance(s, t).Fail?
    ensures AdjustAlone(db, s.txs[t].request, t).outcome == Refused(Advance(s, t).error)
  {
    var tx := s.txs[t];
    if tx.pc.Compare? {
      assert tx.pc.created ==> forall i :: 0 <= i < |db.entries| ==> db.entries[i].credit != t;
    }
  }

  lemma WithCreditKeepsSound(db: Db, id: Identity, credit: CreditId)
    requires Sound(db) && id in db.known && id !in db.credits && credit !in db.balances
    ensures Sound(WithCredit(db, id, credit))
  {
    TotalOfStranger(db.entries, credit);
  }

  lemma PostKeepsSound(db: Db, e: Entry, balance: int)
    requires Sound(db) && e.credit in db.balances && e.amount != 0 && !KeyTaken(db, e.key)
    requires balance == db.balances[e.credit] + e.amount && -BALANCE_BOUND < balance < BALANCE_BOUND
    ensures Sound(Post(db, e, balance))
  {
    forall c ensures Total(db.entries + [e], c) == Total(db.entries, c) + if e.credit == c then e.amount else 0 {
      TotalAppend(db.entries, e, c);
    }
  }

  // One adjustment run alone keeps the ledger sound.
  lemma AdjustKeepsSound(db: Db, r: Request, newId: CreditId)
    requires Sound(db) && newId !in db.balances && r.amount != 0
    ensures Sound(AdjustAlone(db, r, newId).db)
  {
    if AdjustAlone(db, r, newId).db != db {
      var tables := if r.identity in db.credits then db else WithCredit(db, r.identity, newId);
      if r.identity !in db.credits { WithCreditKeepsSound(db, r.identity, newId); }
      var credit := tables.credits[r.identity];
      PostKeepsSound(tables, EntryOf(r, credit), BalanceOf(tables, credit) + r.amount);
    }
  }

  lemma StepKeepsExclusive(s: State, t: TxId)
    requires Exclusive(s) && Enabled(s, Step(t))
    ensures Exclusive(Apply(s, Step(t)))
  {
    if Advance(s, t).Go? {
      var tx, tx' := s.txs[t], s.txs[t].(pc := Advance(s, t).pc);
      assert forall id :: HoldsIdentity(tx', id) ==>
                            HoldsIdentity(tx, id) || (tx.pc.InsertCredit? && id == tx.request.identity);
      assert forall key :: HoldsKey(tx', key) ==> HoldsKey(tx, key) || (tx.pc.ClaimKey? && key == tx.request.key);
      assert forall c :: HoldsCredit(tx', c) ==> HoldsCredit(tx, c) || (tx.pc.Increment? && c == tx.pc.credit);
    }
  }

  lemma StepFact(s: State, t: TxId)
    requires t in s.txs && Fact(s.db, t, s.txs[t]) && Advance(s, t).Go? && References(s.db)
    ensures Fact(s.db, t, s.txs[t].(pc := Advance(s, t).pc))
  {
    if s.txs[t].pc.Compare? {
      var i :| 0 <= i < |s.db.entries| && s.db.entries[i] == EntryOf(s.txs[t].request, s.txs[t].pc.credit);
    }
  }

  lemma StepKeepsInv(s: State, t: TxId)
    requires Inv(s) && Enabled(s, Step(t))
    ensures Inv(Apply(s, Step(t)))
  {
    StepKeepsExclusive(s, t);
    if Advance(s, t).Go? { StepFact(s, t); }
  }

  // What one committed adjustment leaves alone.
  ghost predicate Frame(a: Db, b: Db, t: TxId, tx: Tx) {
    && a.known == b.known
    && (forall id :: id in a.credits ==> id in b.credits && b.credits[id] == a.credits[id])
    && (forall id :: id in b.credits && !HoldsIdentity(tx, id) ==> id in a.credits)
    && (forall c :: c in b.balances ==> c in a.balances || c == t)
    && (forall c :: c != t && !HoldsCredit(tx, c) ==> BalanceOf(a, c) == BalanceOf(b, c))
    && (forall e :: e in a.entries ==> e in b.entries)
    && (forall key :: KeyTaken(a, key) ==> KeyTaken(b, key))
    && (forall key :: KeyTaken(b, key) && !HoldsKey(tx, key) ==> KeyTaken(a, key))
  }

  lemma CommitFrame(db: Db, t: TxId, tx: Tx)
    requires tx.pc.Ready? && Fact(db, t, tx) && References(db)
    ensures Frame(db, ApplyCommit(db, t, tx), t, tx)
  {
    var db' := ApplyCommit(db, t, tx);
    assert db'.entries == db.entries || db'.entries == db.entries + [EntryOf(tx.request, tx.pc.credit)];
    forall key | KeyTaken(db, key) ensures KeyTaken(db', key) {
      var i :| 0 <= i < |db.entries| && db.entries[i].key == key;
      assert db'.entries[i].key == key;
    }
  }

  lemma FactSurvives(a: Db, b: Db, t: TxId, tx: Tx, t': TxId, tx': Tx)
    requires Frame(a, b, t, tx) && Fact(a, t', tx') && References(a) && t != t'
    requires forall id :: !(HoldsIdentity(tx, id) && HoldsIdentity(tx', id))
    requires forall key :: !(HoldsKey(tx, key) && HoldsKey(tx', key))
    requires forall c :: !(HoldsCredit(tx, c) && HoldsCredit(tx', c))
    requires tx.pc.Ready? && Fact(a, t, tx)
    ensures Fact(b, t', tx')
  {
    var r, pc := tx'.request, tx'.pc;
    if !pc.InsertCredit? && pc.created {
      assert HoldsIdentity(tx', r.identity);
    }
    if pc.ReadBack? || pc.WriteAudit? || (pc.Ready? && !pc.response.replayed) {
      assert HoldsCredit(tx', pc.credit);
    }
  }

  lemma CommitKeepsInv(s: State, t: TxId)
    requires Inv(s) && Enabled(s, Commit(t))
    ensures Inv(Apply(s, Commit(t)))
  {
    var s', tx := Apply(s, Commit(t)), s.txs[t];
    CommitIsSerial(s, t);
    AdjustKeepsSound(s.db, tx.request, t);
    CommitFrame(s.db, t, tx);
    forall t' | t' in s'.txs ensures t' < s'.next && Fact(s'.db, t', s'.txs[t']) {
      FactSurvives(s.db, s'.db, t, tx, t', s.txs[t']);
    }
  }

  lemma EventKeepsInv(s: State, e: Event)
    requires Inv(s) && Enabled(s, e)
    ensures Inv(Apply(s, e))
  {
    match e
    case Step(t) => StepKeepsInv(s, t);
    case Commit(t) => CommitKeepsInv(s, t);
    case Begin(_) =>
    case Abort(_) =>
  }

  lemma {:induction false} RunKeepsInv(s: State, es: seq<Event>)
    requires Inv(s) && Valid(s, es)
    ensures Inv(Run(s, es))
    decreases |es|
  {
    if es != [] {
      EventKeepsInv(s, es[0]);
      RunKeepsInv(Apply(s, es[0]), es[1..]);
    }
  }

  ghost predicate Initial(s: State) {
    s.txs == map[] && Sound(s.db) && forall c :: c in s.db.balances ==> c < s.next
  }

  // In every committed state each balance is the sum of its entries, each key
  // occurs at most once, and the audit rows are one per entry.
  lemma LedgerIsConserved(s: State, es: seq<Event>)
    requires Initial(s) && Valid(s, es)
    ensures Balanced(Run(s, es).db) && KeysUnique(Run(s, es).db) && Audited(Run(s, es).db)
  {
    RunKeepsInv(s, es);
  }

  // ----- serialisability -----

  datatype Committed = Committed(tx: TxId, request: Request, response: Response)

  // The committed adjustments of a run, in commit order.
  ghost function Log(s: State, es: seq<Event>): seq<Committed>
    requires Valid(s, es)
    decreases |es|
  {
    if es == [] then []
    else (if es[0].Commit? then [Committed(es[0].tx, s.txs[es[0].tx].request, s.txs[es[0].tx].pc.response)] else []) +
         Log(Apply(s, es[0]), es[1..])
  }

  // Running them one after the other gives `final`, and the same answers; only the
  // balance in the answer to a replay may be that of an earlier moment.
  ghost predicate SeriallyRuns(db: Db, log: seq<Committed>, final: Db)
    decreases |log|
  {
    if log == [] then db == final
    else
      var c := log[0];
      var serial := AdjustAlone(db, c.request, c.tx);
      && serial.outcome.Answered?
      && serial.outcome.response.replayed == c.response.replayed
      && (!c.response.replayed ==> serial.outcome.response == c.response)
      && SeriallyRuns(serial.db, log[1..], final)
  }

  // Any interleaving of adjustments, retries, conflicts, range errors and aborts
  // ends in the tables that the committed adjustments alone give, one at a time.
  lemma {:induction false} EveryRunIsSerialisable(s: State, es: seq<Event>)
    requires Inv(s) && Valid(s, es)
    ensures SeriallyRuns(s.db, Log(s, es), Run(s, es).db)
    decreases |es|
  {
    if es != [] {
      var s' := Apply(s, es[0]);
      EventKeepsInv(s, es[0]);
      EveryRunIsSerialisable(s', es[1..]);
      if es[0].Commit? {
        CommitIsSerial(s, es[0].tx);
        assert Log(s, es)[1..] == Log(s', es[1..]);
      } else {
        assert Log(s, es) == Log(s', es[1..]);
      }
    }
  }

  // ----- what it is to adjust alone -----

  // What has been paid in under an identity so far.
  function Paid(db: Db, id: Identity): int {
    if id in db.credits then Total(db.entries, db.credits[id]) else 0
  }

  // In terms of the entries alone: an unknown account or currency is refused, a used key
  // answered with the sum of the entries or refused, and otherwise the entry is added
  // unless it takes the sum out of the column.
  lemma AloneInEntries(db: Db, r: Request, newId: CreditId)
    requires Sound(db) && newId !in db.balances
    ensures var credit := if r.identity in db.credits then db.credits[r.identity] else newId;
            var entry := Entry(credit, r.amount, r.key, r.reason, r.operator);
            var total := Paid(db, r.identity) + r.amount;
            AdjustAlone(db, r, newId) ==
            if r.identity !in db.known then Serial(db, Refused(MissingRecord))
            else if exists e :: e in db.entries && e.key == r.key then
              if entry in db.entries then Serial(db, Answered(Response(Total(db.entries, credit), true)))
              else Serial(db, Refused(KeyReused))
            else if total <= -100_000_000_000_000_000_000 || total >= 100_000_000_000_000_000_000 then
              Serial(db, Refused(OutOfRange))
            else
              Serial(Db(db.known, db.credits[r.identity := credit], db.balances[credit := total], db.entries + [entry],
                        db.audits + [credit]),
                     Answered(Response(total, false)))
  {
    TotalOfStranger(db.entries, newId);
    KeyTakenMeans(db, r.key);
    if r.identity in db.credits {
      assert db.credits[r.identity := db.credits[r.identity]] == db.credits;
    }
  }

  lemma KeyTakenMeans(db: Db, key: nat)
    ensures KeyTaken(db, key) <==> exists e :: e in db.entries && e.key == key
  {
    if e :| e in db.entries && e.key == key {
      var i :| 0 <= i < |db.entries| && db.entries[i] == e;
      assert db.entries[i].key == key;
    }
  }

  // ----- exactly once -----

  ghost predicate AppliedOnce(db: Db, r: Request) {
    exists i :: 0 <= i < |db.entries| && r.identity in db.credits &&
      db.entries[i] == EntryOf(r, db.credits[r.identity]) &&
      forall j :: 0 <= j < |db.entries| && db.entries[j].key == r.key ==> j == i
  }

  lemma AnsweredIsApplied(db: Db, r: Request, newId: CreditId)
    requires Sound(db) && r.amount != 0 && newId !in db.balances
    requires AdjustAlone(db, r, newId).outcome.Answered?
    ensures AppliedOnce(AdjustAlone(db, r, newId).db, r)
  {
    var db' := AdjustAlone(db, r, newId).db;
    AdjustKeepsSound(db, r, newId);
    var e := EntryOf(r, db'.credits[r.identity]);
    var i := if db' == db then (var i :| 0 <= i < |db.entries| && db.entries[i] == e; i) else |db.entries|;
    assert db'.entries[i] == e;
  }

  lemma EventKeepsApplied(s: State, e: Event, r: Request)
    requires Inv(s) && Enabled(s, e) && AppliedOnce(s.db, r)
    ensures AppliedOnce(Apply(s, e).db, r)
  {
    EventKeepsInv(s, e);
    if e.Commit? {
      var db, db' := s.db, Apply(s, e).db;
      CommitIsSerial(s, e.tx);
      var i :| 0 <= i < |db.entries| && db.entries[i] == EntryOf(r, db.credits[r.identity]);
      assert db'.entries[i] == db.entries[i];
    }
  }

  lemma {:induction false} RunKeepsApplied(s: State, es: seq<Event>, r: Request)
    requires Inv(s) && Valid(s, es) && AppliedOnce(s.db, r)
    ensures AppliedOnce(Run(s, es).db, r)
    decreases |es|
  {
    if es != [] {
      EventKeepsInv(s, es[0]);
      EventKeepsApplied(s, es[0], r);
      RunKeepsApplied(Apply(s, es[0]), es[1..], r);
    }
  }

  lemma CommitApplies(s: State, t: TxId)
    requires Inv(s) && Enabled(s, Commit(t))
    ensures AppliedOnce(Apply(s, Commit(t)).db, s.txs[t].request)
  {
    assert Fact(s.db, t, s.txs[t]);
    CommitIsSerial(s, t);
    AnsweredIsApplied(s.db, s.txs[t].request, t);
  }

  ghost predicate Committing(log: seq<Committed>, r: Request) {
    exists i :: 0 <= i < |log| && log[i].request == r
  }

  lemma CommittingLater(s: State, es: seq<Event>, r: Request)
    requires Valid(s, es) && Committing(Log(s, es), r)
    ensures es != []
    ensures !(es[0].Commit? && s.txs[es[0].tx].request == r) ==> Committing(Log(Apply(s, es[0]), es[1..]), r)
  {
    var log, rest := Log(s, es), Log(Apply(s, es[0]), es[1..]);
    var i :| 0 <= i < |log| && log[i].request == r;
    if !(es[0].Commit? && s.txs[es[0].tx].request == r) {
      assert rest[i - (|log| - |rest|)].request == r;
    }
  }

  // However often a request is retried, once one attempt has committed the ledger
  // holds exactly one entry under its key, and that entry is the request's.
  lemma {:induction false} CommittedExactlyOnce(s: State, es: seq<Event>, r: Request)
    requires Inv(s) && Valid(s, es) && Committing(Log(s, es), r)
    ensures AppliedOnce(Run(s, es).db, r)
    decreases |es|
  {
    CommittingLater(s, es, r);
    EventKeepsInv(s, es[0]);
    if es[0].Commit? && s.txs[es[0].tx].request == r {
      CommitApplies(s, es[0].tx);
      RunKeepsApplied(Apply(s, es[0]), es[1..], r);
    } else {
      CommittedExactlyOnce(Apply(s, es[0]), es[1..], r);
    }
  }
}
