/**
 What every run of requests, workers, crashes and retries keeps: a counter reset at
 most once per request and exactly once when it completes as unblocked, a request
 completed once, one pending request per key, and no newer block deleted.
 */
module UnblockSafety {
  import opened Common
  import opened UnblockProtocol

  function Count<T(==)>(xs: seq<T>, x: T): nat {
    if xs == [] then 0 else Count(xs[..|xs| - 1], x) + if xs[|xs| - 1] == x then 1 else 0
  }

  lemma CountAppend<T>(xs: seq<T>, y: T, x: T)
    ensures Count(xs + [y], x) == Count(xs, x) + if y == x then 1 else 0
  {
    assert (xs + [y])[..|xs|] == xs;
  }

  // ----- at most one reset -----

  // A marker stands for the one deletion of its request and outlives the age limit.
  ghost predicate Marked(s: State, id: RequestId) {
    if id in s.redis.markers
    then id in s.db.requests && Count(s.redis.deletions, id) == 1 &&
      s.redis.markers[id] >= s.db.requests[id].created + RETENTION
    else Count(s.redis.deletions, id) == 0
  }

  ghost predicate Known(db: Db, key: Key) {
    exists id :: id in db.requests && db.requests[id].key == key
  }

  ghost predicate Fact(s: State, t: TxId, tx: Tx) {
    && t < s.next && t !in s.db.requests && tx.start <= s.now
    && match tx.pc
       case ProcessLocked(id) => Pending(s.db, id)
       case ProcessFresh(id, checked) => Pending(s.db, id) && checked - s.db.requests[id].created <= HORIZON
       case ProcessReset(id) => Pending(s.db, id) && id in s.redis.markers
       case Ready(Complete(id, result)) =>
         Pending(s.db, id) && (result == Unblocked ==> id in s.redis.markers)
       case Ready(Insert(key, _)) => !PendingKey(s.db, key)
       case UnblockTaken(key) => Known(s.db, key)
       case _ => true
  }

  ghost predicate Named(s: State) {
    && (forall id :: id in s.db.requests ==> id < s.next && s.db.requests[id].created <= s.now)
    && (forall id :: id in s.db.requests && s.db.requests[id].generation.Some? ==>
       s.db.requests[id].generation.value < s.next)
    && (forall key :: key in s.db.blocks ==> s.db.blocks[key] < s.next)
    && (forall t :: t in s.txs && GenerationOf(s.txs[t]).Some? ==> GenerationOf(s.txs[t]).value < s.next)
  }

  function GenerationOf(tx: Tx): Option<Generation> {
    match tx.pc
    case UnblockRead(_, g) => g
    case Ready(Insert(_, g)) => g
    case _ => None
  }

  ghost predicate OnePendingPerKey(db: Db) {
    forall i, j :: Pending(db, i) && Pending(db, j) && db.requests[i].key == db.requests[j].key ==> i == j
  }

  function Tally(b: bool): nat {
    if b then 1 else 0
  }

  predicate IsDone(db: Db, id: RequestId, result: Result) {
    id in db.requests && db.requests[id].completed == Some(result)
  }

  // The audit trail tells the life of each request.
  ghost predicate Audited(db: Db, id: RequestId) {
    && Count(db.audits, Requested(id)) == Tally(id in db.requests)
    && Count(db.audits, Finished(id, Unblocked)) == Tally(IsDone(db, id, Unblocked))
    && Count(db.audits, Finished(id, Expired)) == Tally(IsDone(db, id, Expired))
  }

  ghost predicate Exclusive(s: State) {
    && (forall t, t', id :: t in s.txs && t' in s.txs && t != t' ==>
       !(HoldsRow(s.txs[t], id) && HoldsRow(s.txs[t'], id)))
    && (forall t, t', key :: t in s.txs && t' in s.txs && t != t' ==>
       !(HoldsKey(s.txs[t], key) && HoldsKey(s.txs[t'], key)))
  }

  // Whatever is on the wire was sent within the age limit.
  ghost predicate InTime(db: Db, call: Call) {
    call.id in db.requests && call.checked - db.requests[call.id].created <= HORIZON
  }

  ghost predicate Inv(s: State) {
    && HORIZON + s.latency < RETENTION
    && Named(s)
    && (forall id :: Marked(s, id))
    && (forall id :: id in s.db.requests && s.db.requests[id].completed == Some(Unblocked) ==> id in s.redis.markers)
    && (forall t :: t in s.txs ==> Fact(s, t, s.txs[t]))
    && (forall call :: call in s.orphans ==> InTime(s.db, call))
    && OnePendingPerKey(s.db)
    && (forall id :: Audited(s.db, id))
    && Exclusive(s)
  }

  // The arithmetic behind once-only: while a call sent within the age limit may
  // still reach Redis, the marker of the first reset is alive.
  lemma MarkerOutlivesRetries(s: State, call: Call)
    requires Inv(s) && InTime(s.db, call) && s.now - call.checked <= s.latency && call.id in s.redis.markers
    ensures s.redis.markers[call.id] > s.now
  {
    assert Marked(s, call.id);
  }

  lemma ResetKeepsMarked(s: State, call: Call, s': State)
    requires Inv(s) && InTime(s.db, call) && s.now - call.checked <= s.latency
    requires s'.db == s.db && s'.redis == ResetOnce(s.redis, s.db.requests[call.id].key, call.id, s.now)
    ensures (forall id :: Marked(s', id)) && s.redis.markers.Keys <= s'.redis.markers.Keys
  {
    forall id ensures Marked(s', id) {
      assert Marked(s, id);
      if call.id in s.redis.markers {
        MarkerOutlivesRetries(s, call);
      } else {
        CountAppend(s.redis.deletions, call.id, id);
      }
    }
  }

  lemma StepKeepsExclusive(s: State, t: TxId)
    requires Exclusive(s) && Enabled(s, Step(t))
    ensures Exclusive(Apply(s, Step(t)))
  {
    if Advance(s, t).Go? {
      var tx, tx' := s.txs[t], s.txs[t].(pc := Advance(s, t).pc);
      assert forall id :: HoldsRow(tx', id) ==> HoldsRow(tx, id) || (tx.pc == ProcessAsk(id));
      assert forall key :: HoldsKey(tx', key) ==> tx.pc.UnblockRead? && tx.pc.key == key;
    }
  }

  lemma StepKeepsMarked(s: State, t: TxId)
    requires Inv(s) && Enabled(s, Step(t))
    ensures (forall id :: Marked(Apply(s, Step(t)), id)) && s.redis.markers.Keys <= Apply(s, Step(t)).redis.markers.Keys
  {
    var s' := Apply(s, Step(t));
    assert Fact(s, t, s.txs[t]);
    if s.txs[t].pc.ProcessFresh? {
      ResetKeepsMarked(s, Call(s.txs[t].pc.id, s.txs[t].pc.checked), s');
    } else {
      assert s'.redis == s.redis;
      assert forall id :: Marked(s, id) ==> Marked(s', id);
    }
  }

  lemma StepKeepsNamed(s: State, t: TxId)
    requires Named(s) && Enabled(s, Step(t))
    ensures Named(Apply(s, Step(t)))
  {
  }

  lemma StepKeepsInv(s: State, t: TxId)
    requires Inv(s) && Enabled(s, Step(t))
    ensures Inv(Apply(s, Step(t)))
  {
    var s' := Apply(s, Step(t));
    StepKeepsNamed(s, t);
    StepKeepsExclusive(s, t);
    StepKeepsMarked(s, t);
    forall t' | t' in s'.txs ensures Fact(s', t', s'.txs[t']) {
      StepKeepsFact(s, t, t');
    }
    assert s'.db == s.db;
  }

  lemma StepKeepsFact(s: State, t: TxId, t': TxId)
    requires Inv(s) && Enabled(s, Step(t)) && t' in Apply(s, Step(t)).txs
    ensures Fact(Apply(s, Step(t)), t', Apply(s, Step(t)).txs[t'])
  {
    assert Fact(s, t', s.txs[t']);
    assert s.redis.markers.Keys <= Apply(s, Step(t)).redis.markers.Keys;
  }

  // One more audit row counts for the request it names and for no other.
  lemma AuditAppended(audits: seq<Audit>, a: Audit, id: RequestId)
    ensures Count(audits + [a], Requested(id)) == Count(audits, Requested(id)) + Tally(a == Requested(id))
    ensures Count(audits + [a], Finished(id, Unblocked)) ==
              Count(audits, Finished(id, Unblocked)) + Tally(a == Finished(id, Unblocked))
    ensures Count(audits + [a], Finished(id, Expired)) ==
              Count(audits, Finished(id, Expired)) + Tally(a == Finished(id, Expired))
  {
    CountAppend(audits, a, Requested(id));
    CountAppend(audits, a, Finished(id, Unblocked));
    CountAppend(audits, a, Finished(id, Expired));
  }

  lemma InsertKeepsAudited(db: Db, db': Db, t: TxId, row: Request, id: RequestId)
    requires Audited(db, id) && t !in db.requests && row.completed.None?
    requires db'.requests == db.requests[t := row] && db'.audits == db.audits + [Requested(t)]
    ensures Audited(db', id)
  {
    hide Count;
    AuditAppended(db.audits, Requested(t), id);
  }

  lemma CompleteKeepsAudited(db: Db, db': Db, i: RequestId, result: Result, id: RequestId)
    requires Audited(db, id) && Pending(db, i)
    requires db'.requests == db.requests[i := db.requests[i].(completed := Some(result))]
    requires db'.audits == db.audits + [Finished(i, result)]
    ensures Audited(db', id)
  {
    hide Count;
    AuditAppended(db.audits, Finished(i, result), id);
  }

  lemma CommitKeepsAudited(s: State, t: TxId, id: RequestId)
    requires Enabled(s, Commit(t)) && Fact(s, t, s.txs[t]) && Audited(s.db, id)
    ensures Audited(Apply(s, Commit(t)).db, id)
  {
    hide Audited;
    var db' := Apply(s, Commit(t)).db;
    match s.txs[t].pc.write
    case Nothing =>
    case Insert(_, _) => InsertKeepsAudited(s.db, db', t, db'.requests[t], id);
    case Complete(i, result) => CompleteKeepsAudited(s.db, db', i, result, id);
  }

  lemma CommitKeepsFacts(s: State, t: TxId, t': TxId)
    requires Inv(s) && Enabled(s, Commit(t)) && t' in s.txs && t' != t
    ensures Fact(Apply(s, Commit(t)), t', s.txs[t'])
  {
    var s' := Apply(s, Commit(t));
    assert Fact(s, t, s.txs[t]) && Fact(s, t', s.txs[t']);
    if s.txs[t'].pc.Ready? && s.txs[t'].pc.write.Insert? {
      assert HoldsKey(s.txs[t'], s.txs[t'].pc.write.key);
      assert forall id :: id in s'.db.requests && Pending(s'.db, id) ==>
        (id in s.db.requests && Pending(s.db, id) && s.db.requests[id].key == s'.db.requests[id].key) ||
        (id == t && HoldsKey(s.txs[t], s'.db.requests[id].key));
    } else if s.txs[t'].pc.UnblockTaken? {
      var id :| id in s.db.requests && s.db.requests[id].key == s.txs[t'].pc.key;
      assert id in s'.db.requests && s'.db.requests[id].key == s.txs[t'].pc.key;
    } else if s.txs[t].pc.write.Complete? {
      assert HoldsRow(s.txs[t], s.txs[t].pc.write.id);
    }
  }

  lemma CommitKeepsInv(s: State, t: TxId)
    requires Inv(s) && Enabled(s, Commit(t))
    ensures Inv(Apply(s, Commit(t)))
  {
    var s' := Apply(s, Commit(t));
    assert Fact(s, t, s.txs[t]);
    forall id ensures Audited(s'.db, id) {
      CommitKeepsAudited(s, t, id);
    }
    forall t' | t' in s'.txs ensures Fact(s', t', s'.txs[t']) {
      CommitKeepsFacts(s, t, t');
    }
    forall id ensures Marked(s', id) {
      assert Marked(s, id) && Marked(s, t);
    }
    assert OnePendingPerKey(s'.db) by {
      forall i, j | i in s'.db.requests && j in s'.db.requests && Pending(s'.db, i) && Pending(s'.db, j) &&
        s'.db.requests[i].key == s'.db.requests[j].key
        ensures i == j
      {
        assert i != t ==> i in s.db.requests && Pending(s.db, i);
        assert j != t ==> j in s.db.requests && Pending(s.db, j);
      }
    }
  }

  lemma OtherEventKeepsFact(s: State, e: Event, t: TxId)
    requires Inv(s) && Enabled(s, e) && !e.Step? && !e.Commit? && !e.Deliver? && t in Apply(s, e).txs
    ensures Fact(Apply(s, e), t, Apply(s, e).txs[t])
  {
    if t in s.txs {
      assert Fact(s, t, s.txs[t]);
      assert forall key :: PendingKey(Apply(s, e).db, key) ==> PendingKey(s.db, key);
    }
  }

  lemma OtherEventKeepsInv(s: State, e: Event)
    requires Inv(s) && Enabled(s, e) && !e.Step? && !e.Commit? && !e.Deliver?
    ensures Inv(Apply(s, e))
  {
    var s' := Apply(s, e);
    forall id ensures Marked(s', id) && Audited(s'.db, id) {
      assert Marked(s, id) && Audited(s.db, id);
    }
    forall t | t in s'.txs ensures Fact(s', t, s'.txs[t]) {
      OtherEventKeepsFact(s, e, t);
    }
    OtherEventKeepsNamed(s, e);
    assert s'.db.requests == s.db.requests;
  }

  lemma OtherEventKeepsNamed(s: State, e: Event)
    requires Inv(s) && Enabled(s, e) && !e.Step? && !e.Commit? && !e.Deliver?
    ensures Named(Apply(s, e)) && Exclusive(Apply(s, e))
    ensures forall call :: call in Apply(s, e).orphans ==> InTime(Apply(s, e).db, call)
  {
    if e.Abort? { assert Fact(s, e.tx, s.txs[e.tx]); }
  }

  lemma DeliverKeepsInv(s: State, call: Call)
    requires Inv(s) && Enabled(s, Deliver(call))
    ensures Inv(Apply(s, Deliver(call)))
  {
    var s' := Apply(s, Deliver(call));
    ResetKeepsMarked(s, call, s');
    forall t | t in s'.txs ensures Fact(s', t, s'.txs[t]) {
      assert Fact(s, t, s.txs[t]);
    }
  }

  lemma EventKeepsInv(s: State, e: Event)
    requires Inv(s) && Enabled(s, e)
    ensures Inv(Apply(s, e))
  {
    if e.Step? { StepKeepsInv(s, e.tx); }
    else if e.Commit? { CommitKeepsInv(s, e.tx); }
    else if e.Deliver? { DeliverKeepsInv(s, e.call); }
    else { OtherEventKeepsInv(s, e); }
  }

  lemma {:induction false} RunKeepsInv(s: State, es: seq<Event>)
    requires Inv(s) && Valid(s, es)
    ensures Inv(Run(s, es))
    decreases |es|
  {
    if es != [] {
      EventKeepsInv(s, es[0]);
      RunKeepsInv(Apply(s, es[0]), es[1..]);
    }
  }

  // Before the first request: any blocks and counters, nothing in flight.
  function Start(blocks: map<Key, Generation>, counters: map<Key, nat>, now: int, next: nat, latency: nat): State {
    State(Db(map[], blocks, []), Redis(counters, map[], []), map[], {}, now, next, latency)
  }

  ghost predicate Initial(s: State) {
    && s == Start(s.db.blocks, s.redis.counters, s.now, s.next, s.latency)
    && HORIZON + s.latency < RETENTION && forall key :: key in s.db.blocks ==> s.db.blocks[key] < s.next
  }

  // Over any run the counter is deleted at most once for each request, exactly once
  // for one that completed as unblocked; a request is requested once and finished at
  // most once in the audit trail; and no key has two pending requests.
  lemma UnblockingIsOnceOnly(s0: State, es: seq<Event>, id: RequestId)
    requires Initial(s0) && Valid(s0, es)
    ensures var s := Run(s0, es);
            && Count(s.redis.deletions, id) <= 1
            && (id in s.db.requests && s.db.requests[id].completed == Some(Unblocked) ==>
               Count(s.redis.deletions, id) == 1)
            && Audited(s.db, id) && OnePendingPerKey(s.db)
  {
    RunKeepsInv(s0, es);
    assert Marked(Run(s0, es), id);
  }

  // ----- what a completion may delete -----

  // Helper: processing deletes a block only of the key and generation its request recorded.
  lemma OnlyTheRecordedGeneration(s: State, e: Event, key: Key)
    requires Enabled(s, e) && key in s.db.blocks && key !in Apply(s, e).db.blocks
    ensures e.Commit? && s.txs[e.tx].pc.write.Complete?
    ensures var id := s.txs[e.tx].pc.write.id;
            id in s.db.requests && s.db.requests[id].key == key &&
              s.db.requests[id].generation == Some(s.db.blocks[key])
  {
  }

  ghost predicate Deletes(s: State, e: Event, id: RequestId, generation: Generation)
    requires Enabled(s, e)
  {
    exists key :: key in s.db.blocks && s.db.blocks[key] == generation && key !in Apply(s, e).db.blocks &&
      e.Commit? && s.txs[e.tx].pc.write.Complete? && s.txs[e.tx].pc.write.id == id
  }

  lemma EventKeepsRequest(s: State, e: Event, id: RequestId)
    requires Inv(s) && Enabled(s, e) && id in s.db.requests
    ensures id in Apply(s, e).db.requests
    ensures var a, b := s.db.requests[id], Apply(s, e).db.requests[id];
            a.key == b.key && a.generation == b.generation && a.created == b.created && (a.completed.Some? ==> a == b)
  {
    if e.Commit? { assert Fact(s, e.tx, s.txs[e.tx]); }
  }

  // Over every run, no processing of a request deletes a block of another generation
  // than the one it recorded.
  lemma {:induction false} OlderGenerationStays(s: State, es: seq<Event>, e: Event, id: RequestId,
                                                generation: Generation)
    requires Inv(s) && id in s.db.requests && s.db.requests[id].generation != Some(generation)
    requires Valid(s, es) && Enabled(Run(s, es), e)
    ensures !Deletes(Run(s, es), e, id, generation)
    decreases |es|
  {
    if es != [] {
      EventKeepsInv(s, es[0]);
      EventKeepsRequest(s, es[0], id);
      OlderGenerationStays(Apply(s, es[0]), es[1..], e, id, generation);
    } else {
      forall key: Key | key in s.db.blocks && key !in Apply(s, e).db.blocks
        ensures s.txs[e.tx].pc.write.id == id ==> s.db.blocks[key] != generation
      {
        OnlyTheRecordedGeneration(s, e, key);
      }
    }
  }

  // A block written after the request was stored is never deleted on its behalf,
  // however late or often the request is processed.
  lemma NewerBlocksSurvive(s: State, es: seq<Event>, e: Event, id: RequestId, generation: Generation)
    requires Inv(s) && id in s.db.requests && generation >= s.next
    requires Valid(s, es) && Enabled(Run(s, es), e)
    ensures !Deletes(Run(s, es), e, id, generation)
  {
    OlderGenerationStays(s, es, e, id, generation);
  }

  // Completion is final.
  lemma {:induction false} CompletionIsFinal(s: State, es: seq<Event>, id: RequestId)
    requires Inv(s) && Valid(s, es) && id in s.db.requests && s.db.requests[id].completed.Some?
    ensures id in Run(s, es).db.requests && Run(s, es).db.requests[id] == s.db.requests[id]
    decreases |es|
  {
    if es != [] {
      EventKeepsInv(s, es[0]);
      EventKeepsRequest(s, es[0], id);
      CompletionIsFinal(Apply(s, es[0]), es[1..], id);
    }
  }

  // ----- exactly when the deduplication horizon suffices -----

  ghost predicate OnceOnly(latency: nat) {
    forall es, id :: Valid(Start(map[], map[], 0, 0, latency), es) ==>
      Count(Run(Start(map[], map[], 0, 0, latency), es).redis.deletions, id) <= 1
  }

  lemma {:induction false} RunAppend(s: State, es: seq<Event>, e: Event)
    requires Valid(s, es) && Enabled(Run(s, es), e)
    ensures Valid(s, es + [e]) && Run(s, es + [e]) == Apply(Run(s, es), e)
    decreases |es|
  {
    if es == [] {
      assert Valid(Apply(s, e), [e][1..]);
    } else {
      assert (es + [e])[1..] == es[1..] + [e];
      RunAppend(Apply(s, es[0]), es[1..], e);
    }
  }

  lemma Extend(latency: nat, es: seq<Event>, e: Event) returns (es': seq<Event>)
    requires Valid(Start(map[], map[], 0, 0, latency), es) && Enabled(Run(Start(map[], map[], 0, 0, latency), es), e)
    ensures es' == es + [e] && Valid(Start(map[], map[], 0, 0, latency), es')
    ensures Run(Start(map[], map[], 0, 0, latency), es') == Apply(Run(Start(map[], map[], 0, 0, latency), es), e)
  {
    RunAppend(Start(map[], map[], 0, 0, latency), es, e);
    es' := es + [e];
  }

  // A request stored at time 0.
  lemma StoredRequest(latency: nat) returns (es: seq<Event>)
    ensures Valid(Start(map[], map[], 0, 0, latency), es)
    ensures Run(Start(map[], map[], 0, 0, latency), es) ==
            State(Db(map[0 := Request(7, None, 0, None)], map[], [Requested(0)]), Redis(map[], map[], []), map[], {},
              0, 1, latency)
  {
    es := Extend(latency, [], Begin(UnblockAsk(7)));
    es := Extend(latency, es, Step(0));
    es := Extend(latency, es, Step(0));
    assert Run(Start(map[], map[], 0, 0, latency), es).txs == map[0 := Tx(0, Ready(Insert(7, None)))];
    es := Extend(latency, es, Commit(0));
  }

  // Its processing up to a reset that takes effect `wait` after the age check, when
  // there is no live marker; then the worker crashes.
  lemma Reset(latency: nat, es: seq<Event>, wait: nat) returns (es': seq<Event>)
    requires Valid(Start(map[], map[], 0, 0, latency), es) && wait <= latency
    requires var s := Run(Start(map[], map[], 0, 0, latency), es);
             && s.txs == map[] && s.db.requests == map[0 := Request(7, None, 0, None)] && 0 <= s.now <= HORIZON &&
                s.latency == latency
             && (0 in s.redis.markers ==> s.redis.markers[0] <= s.now + wait)
    ensures Valid(Start(map[], map[], 0, 0, latency), es')
    ensures var s, s' := Run(Start(map[], map[], 0, 0, latency), es), Run(Start(map[], map[], 0, 0, latency), es');
            && s'.txs == map[] && s'.db == s.db && s'.latency == latency && s'.now == s.now + wait
            && s'.redis.markers == s.redis.markers[0 := s.now + wait + RETENTION]
            && s'.redis.deletions == s.redis.deletions + [0]
  {
    hide Valid, Run;
    var s := Run(Start(map[], map[], 0, 0, latency), es);
    var t := s.next;
    es' := Extend(latency, es, Begin(ProcessAsk(0)));
    es' := Extend(latency, es', Step(t));
    es' := Extend(latency, es', Step(t));
    assert Run(Start(map[], map[], 0, 0, latency), es').txs == map[t := Tx(s.now, ProcessFresh(0, s.now))];
    es' := Extend(latency, es', Tick(wait));
    es' := Extend(latency, es', Step(t));
    assert Run(Start(map[], map[], 0, 0, latency), es').txs == map[t := Tx(s.now, ProcessReset(0))];
    es' := Extend(latency, es', Abort(t));
  }

  // With six days between check and effect, a retry checked at the end of the
  // horizon resets again after the marker has gone.
  lemma SlowRedisResetsTwice(latency: nat)
    requires latency >= 518_400_000
    ensures !OnceOnly(latency)
  {
    var es := StoredRequest(latency);
    es := Reset(latency, es, 0);
    es := Extend(latency, es, Tick(HORIZON));
    es := Reset(latency, es, RETENTION - HORIZON);
    var deletions := Run(Start(map[], map[], 0, 0, latency), es).redis.deletions;
    assert deletions == [0, 0];
    assert deletions[..1] == [0] && [0][..0] == [];
    assert Count(deletions, 0) > 1;
  }

  // Retries stop at 24 hours and markers live 7 days: the reset is once-only exactly
  // when a Redis call takes effect within less than the 6 days in between.
  lemma OnceOnlyExactlyWithinTheMargin(latency: nat)
    ensures OnceOnly(latency) <==> latency < 518_400_000
  {
    if latency >= 518_400_000 {
      SlowRedisResetsTwice(latency);
    } else {
      forall es, id | Valid(Start(map[], map[], 0, 0, latency), es)
        ensures Count(Run(Start(map[], map[], 0, 0, latency), es).redis.deletions, id) <= 1
      {
        UnblockingIsOnceOnly(Start(map[], map[], 0, 0, latency), es, id);
      }
    }
  }
}
