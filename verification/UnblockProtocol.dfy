/**
 Login unblocking across two stores: a durable request row and an audit trail in
 PostgreSQL, a counter and a once-only marker in Redis.  A Redis call cannot be
 rolled back, so a crash between it and the commit leaves the request pending and
 another worker, on any replica, processes it again.

 `latency` bounds how long after the age check the Redis call of that check may
 still take effect.  Times are milliseconds of one clock; a request drawn in
 transaction `t` is named `t`, block generations are drawn from the same names.
 */
module UnblockProtocol {
  import opened Common

  type Key = nat
  type RequestId = nat
  type Generation = nat
  type TxId = nat

  const HORIZON := 86_400_000
  const RETENTION := 7 * 86_400_000

  datatype Result = Unblocked | Expired

  datatype Request = Request(key: Key, generation: Option<Generation>, created: int, completed: Option<Result>)

  datatype Audit = Requested(id: RequestId) | Finished(id: RequestId, result: Result)

  datatype Db = Db(requests: map<RequestId, Request>, blocks: map<Key, Generation>, audits: seq<Audit>)

  // `deletions` records the operations whose script deleted a counter.
  datatype Redis = Redis(counters: map<Key, nat>, markers: map<RequestId, int>, deletions: seq<RequestId>)

  datatype Write =
    | Nothing
    | Insert(key: Key, generation: Option<Generation>)
    | Complete(id: RequestId, result: Result)

  datatype Pc =
    | UnblockAsk(key: Key)
    | UnblockRead(key: Key, generation: Option<Generation>)
    | UnblockTaken(key: Key)
    | ProcessAsk(id: RequestId)
    | ProcessLocked(id: RequestId)
    | ProcessFresh(id: RequestId, checked: int)
    | ProcessReset(id: RequestId)
    | Ready(write: Write)

  datatype Tx = Tx(start: int, pc: Pc)

  // A Redis call on the wire whose transaction has already gone.
  datatype Call = Call(id: RequestId, checked: int)

  datatype State = State(db: Db, redis: Redis, txs: map<TxId, Tx>, orphans: set<Call>, now: int, next: nat,
    latency: nat)

  predicate Pending(db: Db, id: RequestId) {
    id in db.requests && db.requests[id].completed.None?
  }

  predicate PendingKey(db: Db, key: Key) {
    exists id :: id in db.requests && Pending(db, id) && db.requests[id].key == key
  }

  // The row that the transaction has locked with FOR UPDATE SKIP LOCKED.
  predicate HoldsRow(tx: Tx, id: RequestId) {
    match tx.pc
    case ProcessLocked(i) => i == id
    case ProcessFresh(i, _) => i == id
    case ProcessReset(i) => i == id
    case Ready(Complete(i, _)) => i == id
    case _ => false
  }

  // The value of the partial unique index that the transaction has inserted.
  predicate HoldsKey(tx: Tx, key: Key) {
    tx.pc.Ready? && tx.pc.write.Insert? && tx.pc.write.key == key
  }

  predicate Waits(s: State, t: TxId)
    requires t in s.txs
  {
    var pc := s.txs[t].pc;
    pc.UnblockRead? && exists t' :: t' in s.txs && t' != t && HoldsKey(s.txs[t'], pc.key)
  }

  datatype Next = Go(pc: Pc, redis: Redis) | End

  // The script of resetOnce.
  function ResetOnce(redis: Redis, key: Key, id: RequestId, now: int): Redis {
    if id in redis.markers && redis.markers[id] > now then redis
    else Redis(redis.counters - {key}, redis.markers[id := now + RETENTION], redis.deletions + [id])
  }

  function Advance(s: State, t: TxId): Next
    requires t in s.txs
  {
    var db, redis := s.db, s.redis;
    match s.txs[t].pc
    case UnblockAsk(key) =>
      Go(UnblockRead(key, if key in db.blocks then Some(db.blocks[key]) else None), redis)
    case UnblockRead(key, generation) =>
      if PendingKey(db, key) then Go(UnblockTaken(key), redis) else Go(Ready(Insert(key, generation)), redis)
    case UnblockTaken(key) => Go(Ready(Nothing), redis)
    case ProcessAsk(id) =>
      if Pending(db, id) && forall t' :: t' in s.txs && t' != t ==> !HoldsRow(s.txs[t'], id)
      then Go(ProcessLocked(id), redis) else End
    case ProcessLocked(id) =>
      if id !in db.requests then End
      else if s.now - db.requests[id].created > HORIZON then Go(Ready(Complete(id, Expired)), redis)
      else Go(ProcessFresh(id, s.now), redis)
    case ProcessFresh(id, _) =>
      if id !in db.requests then End
      else Go(ProcessReset(id), ResetOnce(redis, db.requests[id].key, id, s.now))
    case ProcessReset(id) => Go(Ready(Complete(id, Unblocked)), redis)
    case Ready(_) => End
  }

  function ApplyWrite(db: Db, t: TxId, tx: Tx): Db
    requires tx.pc.Ready?
  {
    match tx.pc.write
    case Nothing => db
    case Insert(key, generation) =>
      db.(requests := db.requests[t := Request(key, generation, tx.start, None)], audits := db.audits + [Requested(t)])
    case Complete(id, result) =>
      if id !in db.requests then db
      else
        var r := db.requests[id];
        var matching := result.Unblocked? && r.generation.Some? && r.key in db.blocks &&
          db.blocks[r.key] == r.generation.value;
        Db(db.requests[id := r.(completed := Some(result))],
           if matching then db.blocks - {r.key} else db.blocks,
           db.audits + [Finished(id, result)])
  }

  datatype Event =
    | Begin(pc: Pc)
    | Step(tx: TxId)
    | Commit(tx: TxId)
    | Abort(tx: TxId)       // crash, Redis failure or lost connection
    | Deliver(call: Call)   // an abandoned call reaches Redis after all
    | Tick(ms: nat)
    | Attempt(key: Key)     // the guard counts
    | Lapse(key: Key)       // a counter window ends
    | Block(key: Key)       // the guard writes a block, with a fresh generation

  predicate Enabled(s: State, e: Event) {
    match e
    case Begin(pc) => pc.UnblockAsk? || pc.ProcessAsk?
    case Step(t) =>
      && t in s.txs && !s.txs[t].pc.Ready? && !Waits(s, t)
      && (s.txs[t].pc.ProcessFresh? ==> s.now - s.txs[t].pc.checked <= s.latency)
    case Commit(t) => t in s.txs && s.txs[t].pc.Ready?
    case Abort(t) => t in s.txs
    case Deliver(call) => call in s.orphans && call.id in s.db.requests && s.now - call.checked <= s.latency
    case _ => true
  }

  function Apply(s: State, e: Event): State
    requires Enabled(s, e)
  {
    match e
    case Begin(pc) => s.(txs := s.txs[s.next := Tx(s.now, pc)], next := s.next + 1)
    case Step(t) =>
      (match Advance(s, t)
       case Go(pc, redis) => s.(txs := s.txs[t := s.txs[t].(pc := pc)], redis := redis)
       case End => s.(txs := s.txs - {t}))
    case Commit(t) => s.(db := ApplyWrite(s.db, t, s.txs[t]), txs := s.txs - {t})
    case Abort(t) =>
      var pc := s.txs[t].pc;
      s.(txs := s.txs - {t}, orphans := if pc.ProcessFresh? then s.orphans + {Call(pc.id, pc.checked)} else s.orphans)
    case Deliver(call) =>
      s.(redis := ResetOnce(s.redis, s.db.requests[call.id].key, call.id, s.now), orphans := s.orphans - {call})
    case Tick(ms) => s.(now := s.now + ms)
    case Attempt(key) =>
      var n := if key in s.redis.counters then s.redis.counters[key] else 0;
      s.(redis := s.redis.(counters := s.redis.counters[key := n + 1]))
    case Lapse(key) => s.(redis := s.redis.(counters := s.redis.counters - {key}))
    case Block(key) => s.(db := s.db.(blocks := s.db.blocks[key := s.next]), next := s.next + 1)
  }

  predicate Valid(s: State, es: seq<Event>)
    decreases |es|
  {
    es == [] || (Enabled(s, es[0]) && Valid(Apply(s, es[0]), es[1..]))
  }

  function Run(s: State, es: seq<Event>): State
    requires Valid(s, es)
    decreases |es|
  {
    if es == [] then s else Run(Apply(s, es[0]), es[1..])
  }
}
