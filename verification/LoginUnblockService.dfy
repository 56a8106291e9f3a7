/**
 Unblocking and the retry worker, statement by statement.  `process` runs against
 whatever other replicas do in between; `reconcile` loops over the oldest pending
 requests, and the passes it needs are counted for a working and a failing Redis.
 */
module LoginUnblockService {
  import opened Common
  import opened UnblockProtocol
  import opened UnblockSafety

  const BATCH := 20

  // What everyone else does before each statement.
  type Schedule = nat -> seq<Event>

  datatype Processed = Completed(result: Result) | AlreadyDone | Skipped | Threw

  // The run went through the state `x` after `from` events or later.
  ghost predicate Passed(origin: State, trace: seq<Event>, from: nat, x: State) {
    exists n: nat :: from <= n <= |trace| && Valid(origin, trace[..n]) && Run(origin, trace[..n]) == x
  }

  lemma PassedStill(origin: State, trace: seq<Event>, trace': seq<Event>, from: nat, from': nat, x: State)
    requires Passed(origin, trace, from, x) && trace <= trace' && from' <= from
    ensures Passed(origin, trace', from', x)
  {
    var n: nat :| from <= n <= |trace| && Valid(origin, trace[..n]) && Run(origin, trace[..n]) == x;
    assert trace'[..n] == trace[..n];
  }

  // A longer history without a commit of `t` in what was added.
  ghost predicate Continues(before: seq<Event>, after: seq<Event>, t: TxId) {
    before <= after && forall i :: |before| <= i < |after| ==> after[i] != Commit(t)
  }

  ghost predicate Quiet(rivals: Schedule) {
    forall n :: rivals(n) == []
  }

  predicate Foreign(e: Event, t: TxId) {
    match e
    case Step(t') => t' != t
    case Commit(t') => t' != t
    case Abort(t') => t' != t
    case _ => true
  }

  // The request does not exist, or another transaction is at it.
  ghost predicate Unavailable(s: State, id: RequestId) {
    id !in s.db.requests || (Pending(s.db, id) && exists t :: t in s.txs && HoldsRow(s.txs[t], id))
  }

  // ----- the queue -----

  function PendingSet(db: Db): set<RequestId> {
    set id | id in db.requests && Pending(db, id)
  }

  predicate Before(db: Db, i: RequestId, j: RequestId)
    requires i in db.requests && j in db.requests
  {
    db.requests[i].created < db.requests[j].created || (db.requests[i].created == db.requests[j].created && i <= j)
  }

  predicate IsOldest(db: Db, ids: set<RequestId>, id: RequestId)
    requires ids <= db.requests.Keys
  {
    id in ids && forall j :: j in ids ==> Before(db, id, j)
  }

  lemma OldestExists(db: Db, ids: set<RequestId>)
    requires ids <= db.requests.Keys && ids != {}
    ensures exists id :: IsOldest(db, ids, id)
  {
    var i :| i in ids;
    var rest := ids - {i};
    if rest == {} {
      forall j | j in ids ensures Before(db, i, j) {
        assert j == i || j in rest;
      }
      assert IsOldest(db, ids, i);
    } else {
      OldestExists(db, rest);
      var m :| IsOldest(db, rest, m);
      var oldest := if Before(db, m, i) then m else i;
      forall j | j in ids ensures Before(db, oldest, j) {
        assert j == i || j in rest;
      }
      assert IsOldest(db, ids, oldest);
    }
  }

  function Oldest(db: Db, ids: set<RequestId>): (id: RequestId)
    requires ids <= db.requests.Keys && ids != {}
    ensures IsOldest(db, ids, id)
  {
    OldestExists(db, ids);
    var id :| IsOldest(db, ids, id);
    id
  }

  // ORDER BY created_at, id.
  function Queue(db: Db, ids: set<RequestId>): seq<RequestId>
    requires ids <= db.requests.Keys
  {
    if ids == {} then []
    else
      var first := Oldest(db, ids);
      [first] + Queue(db, ids - {first})
  }

  // Each of them once.
  lemma {:induction false} QueueHolds(db: Db, ids: set<RequestId>)
    requires ids <= db.requests.Keys
    ensures |Queue(db, ids)| == |ids| && forall id :: id in Queue(db, ids) <==> id in ids
  {
    if ids != {} {
      QueueHolds(db, ids - {Oldest(db, ids)});
    }
  }

  ghost predicate InOrder(db: Db, q: seq<RequestId>) {
    (forall i :: 0 <= i < |q| ==> q[i] in db.requests) &&
    forall i, j :: 0 <= i < j < |q| ==> Before(db, q[i], q[j]) && q[i] != q[j]
  }

  lemma {:induction false} QueueOrdered(db: Db, ids: set<RequestId>)
    requires ids <= db.requests.Keys
    ensures InOrder(db, Queue(db, ids))
  {
    var q := Queue(db, ids);
    QueueHolds(db, ids);
    forall i | 0 <= i < |q| ensures q[i] in db.requests {
      assert q[i] in q;
    }
    if ids != {} {
      var first := Oldest(db, ids);
      var rest := Queue(db, ids - {first});
      QueueOrdered(db, ids - {first});
      QueueHolds(db, ids - {first});
      forall j | 0 <= j < |rest| ensures Before(db, first, rest[j]) && first != rest[j] {
        assert rest[j] in rest;
      }
    }
  }

  // The pending requests, each once, by creation time and then identifier.
  lemma OldestFirst(db: Db)
    ensures var q := Queue(db, PendingSet(db));
            && (forall id :: id in q <==> id in db.requests && db.requests[id].completed.None?)
            && forall i, j :: 0 <= i < j < |q| ==>
                 && q[i] in db.requests && q[j] in db.requests
                 && var a, b := db.requests[q[i]].created, db.requests[q[j]].created;
                    a < b || (a == b && q[i] < q[j])
  {
    hide Queue;
    QueueHolds(db, PendingSet(db));
    QueueOrdered(db, PendingSet(db));
  }

  // The order of the rows does not depend on who else is pending or completed.
  ghost predicate SameTimes(a: Db, b: Db) {
    a.requests.Keys == b.requests.Keys && forall id :: id in a.requests ==>
      a.requests[id].created == b.requests[id].created
  }

  lemma OldestUnique(a: Db, b: Db, ids: set<RequestId>, x: RequestId, y: RequestId)
    requires SameTimes(a, b) && ids <= a.requests.Keys && IsOldest(a, ids, x) && IsOldest(b, ids, y)
    ensures x == y
  {
    assert Before(a, x, y) && Before(b, y, x);
  }

  lemma {:induction false} QueueStable(a: Db, b: Db, ids: set<RequestId>)
    requires SameTimes(a, b) && ids <= a.requests.Keys
    ensures Queue(a, ids) == Queue(b, ids)
    decreases ids
  {
    if ids != {} {
      OldestUnique(a, b, ids, Oldest(a, ids), Oldest(b, ids));
      QueueStable(a, b, ids - {Oldest(a, ids)});
    }
  }

  // Completing the oldest one leaves the rest of the queue.
  lemma QueueTail(a: Db, b: Db)
    requires SameTimes(a, b) && PendingSet(a) != {}
    requires PendingSet(b) == PendingSet(a) - {Queue(a, PendingSet(a))[0]}
    ensures Queue(b, PendingSet(b)) == Queue(a, PendingSet(a))[1..]
  {
    QueueStable(a, b, PendingSet(b));
  }

  // ----- requests past the age limit -----

  predicate Stale(db: Db, now: int, id: RequestId) {
    id in db.requests && now - db.requests[id].created > HORIZON
  }

  // The first n requests of q are all too old.
  ghost predicate StaleFirst(db: Db, now: int, q: seq<RequestId>, n: nat) {
    n <= |q| && forall i :: 0 <= i < n ==> Stale(db, now, q[i])
  }

  // Oldest first puts all the requests that are too old at the front.
  lemma {:induction false} StaleAreFirst(db: Db, now: int, ids: set<RequestId>)
    requires ids <= db.requests.Keys
    ensures var n := |StaleIn(db, now, ids)|;
            StaleFirst(db, now, Queue(db, ids), n) && forall id :: id in StaleIn(db, now, ids) ==>
              id in Queue(db, ids)[..n]
  {
    if ids != {} {
      var first := Oldest(db, ids);
      var n := |StaleIn(db, now, ids)|;
      StaleAreFirst(db, now, ids - {first});
      StaleHead(db, now, ids, first);
      if n > 0 {
        StaleConsed(db, now, first, Queue(db, ids - {first}), n - 1);
        assert Queue(db, ids) == [first] + Queue(db, ids - {first});
      }
    }
  }

  lemma StaleConsed(db: Db, now: int, first: RequestId, q: seq<RequestId>, n: nat)
    requires StaleFirst(db, now, q, n) && Stale(db, now, first)
    ensures StaleFirst(db, now, [first] + q, n + 1)
    ensures ([first] + q)[..n + 1] == [first] + q[..n]
  {
  }

  function StaleIn(db: Db, now: int, ids: set<RequestId>): set<RequestId> {
    set id | id in ids && Stale(db, now, id)
  }

  // If the oldest is not too old, none is.
  lemma StaleHead(db: Db, now: int, ids: set<RequestId>, first: RequestId)
    requires ids <= db.requests.Keys && IsOldest(db, ids, first)
    ensures Stale(db, now, first) ==>
              && StaleIn(db, now, ids) == {first} + StaleIn(db, now, ids - {first})
              && first !in StaleIn(db, now, ids - {first})
    ensures !Stale(db, now, first) ==> StaleIn(db, now, ids) == {}
  {
    forall id | id in ids && Stale(db, now, id) ensures Stale(db, now, first) {
      assert Before(db, first, id);
    }
  }

  lemma NotLocked(s: State, t: TxId)
    requires t in s.txs && s.txs[t].pc.ProcessAsk? && Advance(s, t).End?
    ensures var id := s.txs[t].pc.id;
            Unavailable(Apply(s, Step(t)), id) || (id in s.db.requests && s.db.requests[id].completed.Some?)
  {
    var id, after := s.txs[t].pc.id, Apply(s, Step(t));
    if Pending(s.db, id) {
      var t' :| t' in s.txs && t' != t && HoldsRow(s.txs[t'], id);
      assert t' in after.txs && after.txs[t'] == s.txs[t'];
    }
  }

  function Min(a: nat, b: nat): nat {
    if a <= b then a else b
  }

  class Worker {
    var s: State
    ghost var origin: State
    ghost var trace: seq<Event>
    ghost var previous: State // before the latest event

    // Everything the object goes through is a run of the protocol.
    ghost predicate Reachable()
      reads this
    {
      && Initial(origin) && Valid(origin, trace) && Run(origin, trace) == s
      && (trace != [] ==>
            var n := |trace| - 1;
            Valid(origin, trace[..n]) && Run(origin, trace[..n]) == previous)
    }

    // The call was one transaction of this run, named by the next free name: its first
    // event is the request, and its commit is the latest event or does not exist.
    twostate predicate Conducted(request: Pc, done: bool)
      reads this
    {
      && origin == old(origin) && old(trace) < trace && trace[|old(trace)|] == Begin(request)
      && old(s).next !in s.txs
      && if done then trace[|trace| - 1] == Commit(old(s).next) else Continues(old(trace), trace, old(s).next)
    }

    // The transaction `t` went on without committing; with an error it is gone.
    twostate predicate Carried(t: TxId, gone: bool)
      reads this
    {
      && origin == old(origin) && Continues(old(trace), trace, t)
      && (gone ==> t !in s.txs)
    }

    // A state this call went through.
    twostate predicate Met(x: State)
      reads this
    {
      Passed(origin, trace, |old(trace)|, x)
    }

    // Nothing has happened but in Redis.
    twostate predicate Unmoved()
      reads this
    {
      s.db == old(s).db && s.now == old(s).now && s.latency == old(s).latency
    }

    lemma Promise()
      requires Reachable()
      ensures Inv(s)
    {
      RunKeepsInv(origin, trace);
    }

    constructor (s0: State)
      requires Initial(s0)
      ensures Reachable() && s == origin == s0 && trace == []
    {
      s, origin, trace, previous := s0, s0, [], s0;
    }

    method Perform(e: Event)
      requires Reachable() && Enabled(s, e)
      modifies this
      ensures Reachable() && s == Apply(old(s), e) && previous == old(s)
      ensures origin == old(origin) && trace == old(trace) + [e]
    {
      hide Advance, ApplyWrite, ResetOnce, Waits;
      RunAppend(origin, trace, e);
      s, trace, previous := Apply(s, e), trace + [e], s;
      assert trace[..|trace| - 1] == old(trace);
    }

    method Others(t: TxId, rivals: seq<Event>)
      requires Reachable() && t in s.txs
      modifies this
      ensures Reachable() && t in s.txs && s.txs[t] == old(s.txs[t])
      ensures origin == old(origin) && Continues(old(trace), trace, t)
      ensures s.now >= old(s).now && s.latency == old(s).latency
      ensures rivals == [] ==> s == old(s)
    {
      hide Reachable;
      for i := 0 to |rivals|
        invariant Reachable() && t in s.txs && s.txs[t] == old(s.txs[t])
        invariant origin == old(origin) && Continues(old(trace), trace, t)
        invariant s.now >= old(s).now && s.latency == old(s).latency
        invariant i == 0 ==> s == old(s)
      {
        if Foreign(rivals[i], t) && Enabled(s, rivals[i]) {
          assert t < s.next by { Promise(); assert Fact(s, t, s.txs[t]); }
          Perform(rivals[i]);
        }
      }
    }

    // One statement of a processing transaction.  A call that finds Redis down, or
    // takes longer than the connection allows, rolls the transaction back.
    method Statement(t: TxId, rivals: seq<Event>, redisUp: bool) returns (ok: bool)
      requires Reachable() && t in s.txs && !s.txs[t].pc.Ready? && !s.txs[t].pc.UnblockRead?
      modifies this
      ensures Reachable() && Carried(t, !ok) && |old(trace)| < |trace|
      ensures s.now == previous.now >= old(s).now && s.latency == old(s).latency
      ensures var pre := previous;
              && t in pre.txs && pre.txs[t] == old(s.txs[t]) && Fact(pre, t, pre.txs[t]) && s.db == pre.db
              && (ok ==> t in s.txs && Enabled(pre, Step(t)) && s == Apply(pre, Step(t)))
              && (!ok ==> s == Apply(pre, Abort(t)) || (Enabled(pre, Step(t)) && Advance(pre, t).End?))
              && (!ok && redisUp && Enabled(pre, Step(t)) ==> Advance(pre, t).End? && s == Apply(pre, Step(t)))
              && (ok && pre.txs[t].pc.ProcessFresh? ==> redisUp)
              && (rivals == [] ==> pre == old(s))
    {
      hide Reachable;
      Others(t, rivals);
      assert Fact(s, t, s.txs[t]) by { Promise(); }
      if !Enabled(s, Step(t)) || (s.txs[t].pc.ProcessFresh? && !redisUp) {
        Perform(Abort(t));
        ok := false;
      } else {
        ok := Advance(s, t).Go?;
        Perform(Step(t));
      }
    }

    // The latest state but one is a state of the run.
    lemma PreviousPassed(from: nat)
      requires Reachable() && from < |trace|
      ensures Passed(origin, trace, from, previous)
    {
    }

    // The row lock that skips a locked row, then the age check.
    method LockRequest(t: TxId, rivals: Schedule) returns (r: Option<Processed>)
      requires Reachable() && t in s.txs && s.txs[t].pc.ProcessAsk?
      modifies this
      ensures Reachable() && Carried(t, r.Some?)
      ensures var id := old(s.txs[t]).pc.id;
              && (r == Some(AlreadyDone) ==> id in s.db.requests && s.db.requests[id].completed.Some?)
              && (r.Some? ==> r.value in {AlreadyDone, Skipped})
              && (r.None? ==>
                    && t in s.txs
                    && (s.txs[t].pc == Ready(Complete(id, Expired)) ||
                        (s.txs[t].pc.ProcessFresh? && s.txs[t].pc.id == id && s.txs[t].pc.checked >= old(s).now)))
      ensures r == Some(Skipped) ==> Unavailable(s, old(s.txs[t]).pc.id)
      ensures Quiet(rivals) && old(s).txs.Keys == {t} ==>
                var db, id := s.db, old(s.txs[t]).pc.id;
                && Unmoved() && s.redis == old(s).redis
                && r == (if id !in db.requests then Some(Skipped)
                         else if db.requests[id].completed.Some? then Some(AlreadyDone) else None)
                && (r.Some? ==> s.txs == map[])
                && (r.None? ==>
                      && s.txs.Keys == {t}
                      && s.txs[t].pc == if s.now - db.requests[id].created > HORIZON then Ready(Complete(id, Expired))
                                        else ProcessFresh(id, s.now))
    {
      hide Reachable;
      var id := s.txs[t].pc.id;
      var ok := Statement(t, rivals(0), true);
      if !ok {
        NotLocked(previous, t);
        return if id in s.db.requests && s.db.requests[id].completed.Some? then Some(AlreadyDone) else Some(Skipped);
      }
      ok := Statement(t, rivals(1), true);
      r := if ok then None else Some(Threw);
    }

    // The Redis call, then the statements up to the commit.
    method ResetCounter(t: TxId, rivals: Schedule, redisUp: bool) returns (ok: bool)
      requires Reachable() && t in s.txs && s.txs[t].pc.ProcessFresh?
      modifies this
      ensures Reachable() && Carried(t, !ok)
      ensures ok ==> t in s.txs && s.txs[t].pc == Ready(Complete(old(s.txs[t]).pc.id, Unblocked))
      ensures !redisUp ==> !ok
      ensures !ok ==> Pending(s.db, old(s.txs[t]).pc.id)
      ensures !ok && redisUp ==> s.now - old(s.txs[t]).pc.checked > s.latency
      ensures Quiet(rivals) && old(s).txs.Keys == {t} && old(s.txs[t]).pc.checked == old(s).now ==>
                var id := old(s.txs[t]).pc.id;
                && Unmoved() && ok == redisUp && id in s.db.requests
                && s.txs.Keys == (if ok then {t} else {}) && (ok ==> s.redis == ResetOnce(old(s).redis,
                  s.db.requests[id].key, id, s.now))
                && (!ok ==> s.redis == old(s).redis)
    {
      hide Reachable;
      ok := Statement(t, rivals(2), redisUp);
      if !ok { return; }
      ok := Statement(t, rivals(3), redisUp);
    }

    // The statements of a processing transaction.
    method Handle(t: TxId, id: RequestId, rivals: Schedule, redisUp: bool) returns (r: Processed)
      requires Reachable() && t in s.txs && s.txs[t].pc == ProcessAsk(id)
      modifies this
      ensures Reachable() && t !in s.txs && origin == old(origin)
      ensures if r.Completed? then old(trace) < trace && trace[|trace| - 1] == Commit(t)
              else Continues(old(trace), trace, t)
      ensures r == Completed(Unblocked) ==>
                redisUp && Done(s, id, Unblocked) && Count(s.redis.deletions, id) == 1 && RecordedBlockGone(s.db, id)
      ensures r == Completed(Expired) ==> Done(s, id, Expired)
      ensures r.AlreadyDone? ==> id in s.db.requests && s.db.requests[id].completed.Some?
      ensures r.Skipped? ==> Unavailable(s, id)
      ensures r.Threw? ==> Pending(s.db, id) && (redisUp ==> s.now - old(s).now > s.latency)
      ensures Quiet(rivals) && old(s).txs.Keys == {t} ==> HandledAlone(old(s), s, id, redisUp, r)
    {
      hide Reachable, Done, RecordedBlockGone, Unavailable, Completes, Resets;
      var early := LockRequest(t, rivals);
      if early.Some? {
        return early.value;
      }
      if s.txs[t].pc.ProcessFresh? {
        var ok := ResetCounter(t, rivals, redisUp);
        if !ok {
          return Threw;
        }
        if Quiet(rivals) && old(s).txs.Keys == {t} {
          ScriptResets(old(s).redis, old(s).db.requests[id].key, id, s.now);
        }
      }
      r := CommitCompletion(t, rivals(4));
    }

    // One transaction that completes the request, or tells why not.  It gives up only
    // where Redis does not answer in time.
    method Process(id: RequestId, rivals: Schedule, redisUp: bool) returns (r: Processed)
      requires Reachable()
      modifies this
      ensures Reachable() && Conducted(ProcessAsk(id), r.Completed?)
      ensures r == Completed(Unblocked) ==>
                redisUp && Done(s, id, Unblocked) && Count(s.redis.deletions, id) == 1 && RecordedBlockGone(s.db, id)
      ensures r == Completed(Expired) ==> Done(s, id, Expired)
      ensures r.AlreadyDone? ==> id in s.db.requests && s.db.requests[id].completed.Some?
      ensures r.Skipped? ==>
                id !in s.db.requests || (Pending(s.db, id) && exists t :: t in s.txs && HoldsRow(s.txs[t], id))
      ensures r.Threw? ==> Pending(s.db, id) && (redisUp ==> s.now - old(s).now > s.latency)
      ensures Quiet(rivals) && old(s).txs == map[] ==>
                r == if id !in old(s).db.requests then Skipped
                     else if old(s).db.requests[id].completed.Some? then AlreadyDone
                     else if old(s).now - old(s).db.requests[id].created > 86_400_000 then Completed(Expired)
                     else if redisUp then Completed(Unblocked)
                     else Threw
      ensures Quiet(rivals) && old(s).txs == map[] ==>
                && s.txs == map[] && s.now == old(s).now && s.latency == old(s).latency
                && (!r.Completed? ==> s.db == old(s).db)
                && (r != Completed(Unblocked) ==> s.redis == old(s).redis)
                && (r.Completed? ==> Completes(old(s).db, s.db, id, r.result))
                && (r == Completed(Unblocked) ==> Resets(old(s).redis, s.redis, old(s).db.requests[id].key, id, s.now))
    {
      hide Reachable, Done, RecordedBlockGone, Completes, Resets, Quiet;
      var t := s.next;
      Perform(Begin(ProcessAsk(id)));
      r := Handle(t, id, rivals, redisUp);
    }

    method CommitCompletion(t: TxId, rivals: seq<Event>) returns (r: Processed)
      requires Reachable() && t in s.txs && s.txs[t].pc.Ready? && s.txs[t].pc.write.Complete?
      modifies this
      ensures Reachable() && origin == old(origin) && old(trace) < trace && trace[|trace| - 1] == Commit(t)
      ensures var wr := old(s.txs[t]).pc.write;
              && t !in s.txs && r == Completed(wr.result) && Done(s, wr.id, wr.result)
              && (wr.result.Unblocked? ==> Count(s.redis.deletions, wr.id) == 1 && RecordedBlockGone(s.db, wr.id))
      ensures rivals == [] ==>
                && s.txs == old(s).txs - {t} && s.redis == old(s).redis && s.now == old(s).now
                && s.latency == old(s).latency && Completes(old(s).db, s.db, old(s.txs[t]).pc.write.id, r.result)
    {
      hide Reachable;
      Others(t, rivals);
      assert Fact(s, t, s.txs[t]) && Marked(s, s.txs[t].pc.write.id) by { Promise(); }
      r := Completed(s.txs[t].pc.write.result);
      Perform(Commit(t));
    }

    // The insert that loses to an existing pending request of the key, and may have to
    // wait for one that is not committed yet.
    method InsertRequest(t: TxId, rivals: seq<Event>) returns (ok: bool)
      requires Reachable() && t in s.txs && s.txs[t].pc.UnblockRead?
      modifies this
      ensures Reachable() && Carried(t, !ok)
      ensures ok ==>
                var key := old(s.txs[t]).pc.key;
                && t in s.txs && s.txs[t].start == old(s.txs[t]).start
                && (s.txs[t].pc == UnblockTaken(key) || s.txs[t].pc == Ready(Insert(key, old(s.txs[t]).pc.generation)))
      ensures !ok ==> exists t' :: t' in s.txs && HoldsKey(s.txs[t'], old(s.txs[t]).pc.key)
      ensures rivals == [] && old(s).txs.Keys == {t} ==>
                var pc := old(s.txs[t]).pc;
                && ok && Unmoved() && s.redis == old(s).redis && s.txs.Keys == {t}
                && s.txs[t].pc == if PendingKey(s.db, pc.key) then UnblockTaken(pc.key)
                                  else Ready(Insert(pc.key, pc.generation))
    {
      hide Reachable;
      Others(t, rivals);
      ok := !Waits(s, t);
      if ok {
        Perform(Step(t));
      } else {
        ghost var holder :| holder in s.txs && holder != t && HoldsKey(s.txs[holder], s.txs[t].pc.key);
        Perform(Abort(t));
        assert holder in s.txs;
      }
    }

    // The pending request of the key, unless a worker has completed it meanwhile.
    method FindExisting(t: TxId, rivals: seq<Event>) returns (id: Option<RequestId>)
      requires Reachable() && t in s.txs && s.txs[t].pc.UnblockTaken?
      modifies this
      ensures Reachable() && origin == old(origin) && old(trace) < trace && trace[|trace| - 1] == Commit(t)
      ensures t !in s.txs
      ensures id.Some? ==> Pending(s.db, id.value) && s.db.requests[id.value].key == old(s.txs[t]).pc.key
      ensures id.None? ==> EverCompleted(s.db, old(s.txs[t]).pc.key) && !PendingKey(s.db, old(s.txs[t]).pc.key)
      ensures rivals == [] ==> Unmoved() && s.redis == old(s).redis && s.txs == old(s).txs - {t}
    {
      hide Reachable;
      Others(t, rivals);
      assert Fact(s, t, s.txs[t]) by { Promise(); }
      var ids := set i | i in s.db.requests && Pending(s.db, i) && s.db.requests[i].key == s.txs[t].pc.key;
      if ids == {} {
        id := None;
        assert forall i :: i in s.db.requests && s.db.requests[i].key == s.txs[t].pc.key ==> i !in ids;
      } else {
        var i :| i in ids;
        id := Some(i);
      }
      Perform(Step(t));
      Perform(Commit(t));
    }

    method StoreRequest(t: TxId, rivals: seq<Event>)
      requires Reachable() && t in s.txs && s.txs[t].pc.Ready? && s.txs[t].pc.write.Insert?
      modifies this
      ensures Reachable() && origin == old(origin) && old(trace) < trace && trace[|trace| - 1] == Commit(t)
      ensures var wr := old(s.txs[t]).pc.write;
              && t !in s.txs && t in s.db.requests
              && s.db.requests[t] == Request(wr.key, wr.generation, old(s.txs[t]).start, None)
      ensures rivals == [] ==>
                var wr := old(s.txs[t]).pc.write;
                && s.now == old(s).now && s.latency == old(s).latency && s.redis == old(s).redis
                && s.txs == old(s).txs - {t}
                && s.db == old(s).db.(requests := old(s).db.requests[t := Request(wr.key, wr.generation,
                                                  old(s.txs[t]).start, None)],
                                      audits := old(s).db.audits + [Requested(t)])
    {
      hide Reachable;
      Others(t, rivals);
      Perform(Commit(t));
    }

    // The first two statements: read the block, insert the request.  `read` is the state
    // in which the block of the key was read.
    method RecordIntent(t: TxId, key: Key, intent: Schedule) returns (ok: bool, ghost read: State)
      requires Reachable() && t in s.txs && s.txs[t].pc == UnblockAsk(key)
      modifies this
      ensures Reachable() && Carried(t, !ok)
      ensures ok ==>
                && Met(read) && t in s.txs && s.txs[t].start == old(s.txs[t]).start
                && (s.txs[t].pc == UnblockTaken(key) || s.txs[t].pc == Ready(Insert(key, BlockOf(read.db, key))))
      ensures !ok ==> exists t' :: t' in s.txs && HoldsKey(s.txs[t'], key)
      ensures Quiet(intent) && old(s).txs.Keys == {t} ==>
                && ok && Unmoved() && s.redis == old(s).redis && s.txs.Keys == {t}
                && s.txs[t].pc == if PendingKey(s.db, key) then UnblockTaken(key)
                                  else Ready(Insert(key, BlockOf(s.db, key)))
    {
      hide Reachable, Passed;
      ok := Statement(t, intent(0), true);
      read := previous;
      if !ok { return; }
      PreviousPassed(|old(trace)|);
      ghost var history := trace;
      ok := InsertRequest(t, intent(1));
      PassedStill(origin, history, trace, |old(trace)|, |old(trace)|, read);
    }

    // The transaction that stores the intent, or finds the pending one of the key.
    method SaveIntent(key: Key, intent: Schedule)
      returns (id: Option<RequestId>, o: Answer, stored: bool, ghost read: State)
      requires Reachable()
      modifies this
      ensures Reachable() && Conducted(UnblockAsk(key), o != RolledBack) && (id.Some? ==> o != RolledBack)
      ensures o == RolledBack ==> exists t :: t in s.txs && HoldsKey(s.txs[t], key)
      ensures id.Some? ==> Pending(s.db, id.value) && s.db.requests[id.value].key == key
      ensures Quiet(intent) && old(s).txs == map[] ==>
                && o == Success && id.Some?
                && s.txs == map[] && s.now == old(s).now && s.latency == old(s).latency && s.redis == old(s).redis
                && (stored <==> forall i :: i in old(s).db.requests && old(s).db.requests[i].key == key ==>
                                  old(s).db.requests[i].completed.Some?)
                && s.db == if !stored then old(s).db
                           else
                             var db, t := old(s).db, old(s).next;
                             var generation := if key in db.blocks then Some(db.blocks[key]) else None;
                             db.(requests := db.requests[t := Request(key, generation, old(s).now, None)],
                                 audits := db.audits + [Requested(t)])
      ensures id.Some? && stored ==>
                && id.value == old(s).next && Met(read)
                && s.db.requests[id.value] == Request(key, BlockOf(read.db, key), old(s).now, None)
      ensures id.None? && o != RolledBack ==>
                && o == Success && EverCompleted(s.db, key)
                && forall i :: i in s.db.requests && s.db.requests[i].key == key ==> s.db.requests[i].completed.Some?
    {
      hide Reachable, Passed;
      stored := false;
      var t := s.next;
      Perform(Begin(UnblockAsk(key)));
      ghost var from := |trace|;
      var ok;
      ok, read := RecordIntent(t, key, intent);
      if !ok { return None, RolledBack, stored, read; }
      o := Success;
      ghost var history := trace;
      if s.txs[t].pc.UnblockTaken? {
        id := FindExisting(t, intent(2));
      } else {
        StoreRequest(t, intent(2));
        id, stored := Some(t), true;
        PassedStill(origin, history, trace, from, |old(trace)|, read);
      }
    }

    // The request of an administrator: store the intent, then try it once.
    method Unblock(key: Key, intent: Schedule, attempt: Schedule, redisUp: bool) returns (o: Answer)
      requires Reachable()
      modifies this
      ensures Reachable() && origin == old(origin) && old(trace) < trace &&
              trace[|old(trace)|] == Begin(UnblockAsk(key))
      ensures o == Success ==> EverCompleted(s.db, key)
      ensures o == SavedForRetry ==> Retried(s.db, key)
      ensures o == RolledBack ==> Continues(old(trace), trace, old(s).next)
      ensures o == RolledBack ==> exists t :: t in s.txs && HoldsKey(s.txs[t], key)
      ensures Quiet(intent) && Quiet(attempt) && old(s).txs == map[] ==>
                var late := exists i :: i in old(s).db.requests && old(s).db.requests[i].key == key &&
                              old(s).db.requests[i].completed.None? &&
                              old(s).now - old(s).db.requests[i].created > 86_400_000;
                o == if redisUp && !late then Success else SavedForRetry
    {
      hide Reachable, Quiet, EverCompleted, Retried, ResetOnce;
      var id, isNew;
      ghost var read;
      ghost var before := s;
      assert OnePendingPerKey(before.db) && Named(before) by { Promise(); }
      id, o, isNew, read := SaveIntent(key, intent);
      if id.None? { return; }
      ghost var stored := s;
      o := TryOnce(key, id.value, attempt, redisUp);
      if Quiet(intent) && Quiet(attempt) && before.txs == map[] {
        StoredAge(before, stored, key, id.value, isNew);
      }
    }

    // The one attempt right after the request was stored or found.
    method TryOnce(key: Key, id: RequestId, attempt: Schedule, redisUp: bool) returns (o: Answer)
      requires Reachable() && Pending(s.db, id) && s.db.requests[id].key == key
      modifies this
      ensures Reachable() && origin == old(origin) && old(trace) <= trace && o != RolledBack
      ensures o == Success ==> EverCompleted(s.db, key)
      ensures o == SavedForRetry ==> Retried(s.db, key)
      ensures Quiet(attempt) && old(s).txs == map[] ==>
                o == if redisUp && old(s).now - old(s).db.requests[id].created <= 86_400_000 then Success
                     else SavedForRetry
    {
      hide Quiet;
      ghost var stored := trace;
      var r := Process(id, attempt, redisUp);
      KeyKept(origin, stored, trace, id);
      assert id in s.db.requests && s.db.requests[id].key == key;
      o := if r == Completed(Unblocked) || r == AlreadyDone then Success else SavedForRetry;
      if o == SavedForRetry {
        assert r.Completed? ==> r.result == Expired;
        assert r.Threw? || r.Skipped? ==> s.db.requests[id].completed.None?;
        assert r.Completed? ==> s.db.requests[id].completed == Some(Expired);
      }
    }

    // The next request of a pass that began on the tables `before` with queue q.
    method Retry(id: RequestId, redisUp: bool, tick: nat, ghost before: Db, ghost q: seq<RequestId>, ghost done: nat)
      returns (ok: bool)
      requires Reachable() && s.txs == map[]
      requires Progress(before, s.db, q, done, !redisUp) && done < |q| && id == q[done]
      modifies this
      ensures Reachable() && origin == old(origin) && old(trace) <= trace
      ensures s.txs == map[] && s.now >= old(s).now
      ensures Progress(before, s.db, q, if ok then done + 1 else done, !redisUp)
      ensures redisUp ==> ok
      ensures !ok ==> !Stale(before, old(s).now, id)
    {
      Perform(Tick(tick));
      ghost var db := s.db;
      NextPending(before, db, q, done, !redisUp);
      var r := Process(id, n => [], redisUp);
      ok := r.Completed?;
      if ok {
        CompletesOne(db, s.db, id, r.result);
        OneMore(before, db, s.db, q, done, !redisUp);
      }
    }

    // SELECT .. WHERE completed_at IS NULL ORDER BY created_at, id LIMIT 20.
    method FindPending() returns (pending: seq<RequestId>)
      ensures var q := Queue(s.db, PendingSet(s.db)); |pending| == Min(BATCH, |q|) && pending <= q
    {
      var all := Queue(s.db, PendingSet(s.db));
      pending := all[..Min(BATCH, |all|)];
    }

    // The loop over the requests found; the first that throws ends it.
    method RetryEach(pending: seq<RequestId>, redisUp: bool, ticks: nat -> nat,
                     ghost before: Db, ghost start: int, ghost q: seq<RequestId>, ghost stale: nat)
      returns (done: nat)
      requires Reachable() && s.txs == map[] && s.now >= start
      requires Progress(before, s.db, q, 0, !redisUp) && StaleFirst(before, start, q, stale) && pending <= q
      modifies this
      ensures Reachable() && origin == old(origin) && old(trace) <= trace
      ensures s.txs == map[] && s.now >= old(s).now
      ensures done <= |pending| && Progress(before, s.db, q, done, !redisUp)
      ensures done == |pending| || (!redisUp && done >= stale)
    {
      done := 0;
      while done < |pending|
        invariant done <= |pending|
        invariant Reachable() && origin == old(origin) && old(trace) <= trace
        invariant s.txs == map[] && s.now >= old(s).now
        invariant Progress(before, s.db, q, done, !redisUp)
      {
        ghost var now := s.now;
        var ok := Retry(pending[done], redisUp, ticks(done), before, q, done);
        if !ok {
          FreshEndsStale(before, start, now, q, stale, done);
          return;
        }
        done := done + 1;
      }
    }

    // One pass over the oldest twenty.
    method Reconcile(redisUp: bool, ticks: nat -> nat, ghost stale: nat) returns (done: nat, ghost q: seq<RequestId>)
      requires Reachable() && s.txs == map[]
      requires StaleFirst(s.db, s.now, Queue(s.db, PendingSet(s.db)), stale)
      modifies this
      ensures Reachable() && origin == old(origin) && old(trace) <= trace
      ensures s.txs == map[] && s.now >= old(s).now
      ensures q == Queue(old(s).db, PendingSet(old(s).db)) && done <= Min(BATCH, |q|)
      ensures Progress(old(s).db, s.db, q, done, !redisUp)
      ensures redisUp ==> done == Min(20, |q|)
      ensures !redisUp ==> done >= Min(20, stale)
      ensures forall i :: 0 <= i < done ==> q[i] in s.db.requests && s.db.requests[q[i]].completed.Some?
    {
      q := Queue(s.db, PendingSet(s.db));
      var pending := FindPending();
      NoProgress(s.db);
      QueueHolds(s.db, PendingSet(s.db));
      QueueOrdered(s.db, PendingSet(s.db));
      done := RetryEach(pending, redisUp, ticks, s.db, s.now, q, stale);
      NoLongerPending(old(s).db, s.db, q, done, !redisUp);
    }

    // One more pass after n passes that completed the first `done` requests of q.
    method PassAgain(n: nat, redisUp: bool, ticks: nat -> nat, ghost before: Db, ghost start: int,
                     ghost q: seq<RequestId>,
                     ghost stale: nat, ghost done: nat)
      returns (ghost done': nat)
      requires Reachable() && s.txs == map[] && s.now >= start && StaleFirst(before, start, q, stale)
      requires Progress(before, s.db, q, done, !redisUp) && Reaches(n, |q|, stale, redisUp, done)
      modifies this
      ensures Reachable() && origin == old(origin) && old(trace) <= trace
      ensures s.txs == map[] && s.now >= start
      ensures Progress(before, s.db, q, done', !redisUp) && Reaches(n + 1, |q|, stale, redisUp, done')
    {
      hide Reachable, Progress, Reaches, StaleFirst, Queue, PendingSet, Min;
      ghost var db := s.db;
      ghost var left := Left(stale, done);
      LeftAreFirst(before, start, db, s.now, q, done, stale, !redisUp);
      ghost var more, rest;
      more, rest := Reconcile(redisUp, ticks, left);
      FurtherOn(before, db, s.db, q, rest, n, stale, redisUp, done, more);
      done' := done + more;
    }

    // n passes of the timer, one after the other.
    method Passes(n: nat, redisUp: bool, ticks: nat -> nat -> nat, ghost q: seq<RequestId>, ghost stale: nat)
      returns (ghost done: nat)
      requires Reachable() && s.txs == map[]
      requires Progress(s.db, s.db, q, 0, !redisUp) && StaleFirst(s.db, s.now, q, stale)
      modifies this
      ensures Reachable() && origin == old(origin) && old(trace) <= trace
      ensures s.txs == map[] && s.now >= old(s).now
      ensures Progress(old(s).db, s.db, q, done, !redisUp) && Reaches(n, |q|, stale, redisUp, done)
    {
      done := 0;
      if n > 0 {
        done := Passes(n - 1, redisUp, ticks, q, stale);
        done := PassAgain(n - 1, redisUp, ticks(n - 1), old(s).db, old(s).now, q, stale, done);
      }
    }

    // With Redis working, ceil(n / 20) passes empty a queue of n requests.
    method DrainQueue(ticks: nat -> nat -> nat) returns (passes: nat)
      requires Reachable() && s.txs == map[]
      modifies this
      ensures passes == (|set id | id in old(s).db.requests && old(s).db.requests[id].completed.None?| + 19) / 20
      ensures Reachable() && forall id :: id in s.db.requests ==> s.db.requests[id].completed.Some?
      ensures SameTimes(old(s).db, s.db)
    {
      ghost var q := Queue(s.db, PendingSet(s.db));
      QueueHolds(s.db, PendingSet(s.db));
      NoProgress(s.db);
      passes := (|PendingSet(s.db)| + BATCH - 1) / BATCH;
      ghost var done := Passes(passes, true, ticks, q, 0);
      QueueHolds(s.db, PendingSet(s.db));
      assert q[done..] == [];
      assert forall id :: id in s.db.requests && s.db.requests[id].completed.None? ==> id in PendingSet(s.db);
      assert PendingSet(old(s).db) == set id | id in old(s).db.requests && old(s).db.requests[id].completed.None?;
    }

    // With Redis failing on every call, every request that was older than 24 hours is
    // completed as expired all the same, in ceil(e / 20) passes for e of them.
    method ExpireStale(ticks: nat -> nat -> nat) returns (passes: nat)
      requires Reachable() && s.txs == map[]
      modifies this
      ensures var stale := set id | id in old(s).db.requests && old(s).db.requests[id].completed.None? &&
                             old(s).now - old(s).db.requests[id].created > 86_400_000;
              && passes == (|stale| + 19) / 20
              && forall id :: id in stale ==> id in s.db.requests && s.db.requests[id].completed == Some(Expired)
      ensures Reachable()
    {
      ghost var before, start := s.db, s.now;
      var stale := StaleIn(s.db, s.now, PendingSet(s.db));
      StaleAreFirst(before, start, PendingSet(before));
      ghost var q := Queue(before, PendingSet(before));
      NoProgress(before);
      passes := (|stale| + BATCH - 1) / BATCH;
      ghost var done := Passes(passes, false, ticks, q, |stale|);
      forall id | id in stale ensures Done(s, id, Expired) {
        assert id in q[..|stale|];
      }
      assert stale == set id | id in before.requests && before.requests[id].completed.None? &&
                        start - before.requests[id].created > 86_400_000;
    }
  }

  // The generation of the key's block, if there is one.
  function BlockOf(db: Db, key: Key): Option<Generation> {
    if key in db.blocks then Some(db.blocks[key]) else None
  }

  ghost predicate EverCompleted(db: Db, key: Key) {
    exists i :: i in db.requests && db.requests[i].key == key && db.requests[i].completed.Some?
  }

  // A request of the key waits for the worker, or was given up for its age.
  ghost predicate Retried(db: Db, key: Key) {
    exists i :: i in db.requests && db.requests[i].key == key &&
      (db.requests[i].completed.None? || db.requests[i].completed == Some(Expired))
  }

  // The age of the request to process, new or found.
  lemma StoredAge(a: State, b: State, key: Key, id: RequestId, isNew: bool)
    requires OnePendingPerKey(a.db) && Named(a)
    requires Pending(b.db, id) && b.db.requests[id].key == key && b.now == a.now
    requires isNew <==> forall i :: i in a.db.requests && a.db.requests[i].key == key ==>
                          a.db.requests[i].completed.Some?
    requires if isNew then b.db.requests[id].created == a.now else b.db == a.db
    ensures b.now - b.db.requests[id].created > 86_400_000 <==>
              exists i :: i in a.db.requests && a.db.requests[i].key == key && a.db.requests[i].completed.None? &&
                a.now - a.db.requests[i].created > 86_400_000
  {
    if !isNew {
      assert forall i :: Pending(a.db, i) && a.db.requests[i].key == key ==> i == id;
    }
  }

  datatype Answer = Success | SavedForRetry | RolledBack

  lemma {:induction false} RequestKept(s: State, es: seq<Event>, id: RequestId)
    requires Inv(s) && Valid(s, es) && id in s.db.requests
    ensures id in Run(s, es).db.requests && Run(s, es).db.requests[id].key == s.db.requests[id].key
    decreases |es|
  {
    if es != [] {
      EventKeepsInv(s, es[0]);
      EventKeepsRequest(s, es[0], id);
      RequestKept(Apply(s, es[0]), es[1..], id);
    }
  }

  // Between two points of one run, a stored request keeps its key.
  lemma {:induction false} KeyKept(s: State, prefix: seq<Event>, es: seq<Event>, id: RequestId)
    requires Inv(s) && Valid(s, es) && prefix <= es && Valid(s, prefix) && id in Run(s, prefix).db.requests
    ensures id in Run(s, es).db.requests && Run(s, es).db.requests[id].key == Run(s, prefix).db.requests[id].key
    decreases |es|
  {
    if prefix == [] {
      RequestKept(s, es, id);
    } else {
      EventKeepsInv(s, es[0]);
      KeyKept(Apply(s, es[0]), prefix[1..], es[1..], id);
    }
  }

  // How far n passes get in a queue of `total` requests, `stale` of them too old.
  ghost predicate Reaches(n: nat, total: nat, stale: nat, redisUp: bool, done: nat) {
    if redisUp then done == Min(BATCH * n, total) else done >= Min(BATCH * n, stale)
  }

  lemma ReachesFurther(n: nat, total: nat, stale: nat, redisUp: bool, done: nat, more: nat)
    requires Reaches(n, total, stale, redisUp, done) && done <= total
    requires redisUp ==> more == Min(BATCH, total - done)
    requires !redisUp && done <= stale ==> more >= Min(BATCH, stale - done)
    ensures Reaches(n + 1, total, stale, redisUp, done + more)
  {
    assert BATCH * (n + 1) == BATCH * n + BATCH;
  }

  // From tables a to b the first `done` requests of the queue q were completed, as
  // expired if nothing else was possible, and the rest of the queue is what is left.
  ghost predicate Progress(a: Db, b: Db, q: seq<RequestId>, done: nat, expiredOnly: bool) {
    && SameTimes(a, b) && done <= |q| && Queue(b, PendingSet(b)) == q[done..]
    && (expiredOnly ==> forall i :: 0 <= i < done ==> IsDone(b, q[i], Expired))
    && CompletedKept(a, b)
  }

  ghost predicate CompletedKept(a: Db, b: Db) {
    forall id :: id in a.requests && a.requests[id].completed.Some? ==>
                   id in b.requests && b.requests[id] == a.requests[id]
  }

  lemma NoProgress(a: Db)
    ensures Progress(a, a, Queue(a, PendingSet(a)), 0, true) && Progress(a, a, Queue(a, PendingSet(a)), 0, false)
  {
  }

  lemma NextPending(a: Db, b: Db, q: seq<RequestId>, done: nat, expiredOnly: bool)
    requires Progress(a, b, q, done, expiredOnly) && done < |q|
    ensures Pending(b, q[done])
  {
    assert q[done..][0] in Queue(b, PendingSet(b));
  }

  lemma OneMore(a: Db, b: Db, c: Db, q: seq<RequestId>, done: nat, expiredOnly: bool)
    requires Progress(a, b, q, done, expiredOnly) && done < |q| && SameTimes(b, c)
    requires PendingSet(c) == PendingSet(b) - {q[done]}
    requires expiredOnly ==> IsDone(c, q[done], Expired)
    requires Pending(b, q[done]) && forall i :: i in b.requests && i != q[done] ==> c.requests[i] == b.requests[i]
    ensures Progress(a, c, q, done + 1, expiredOnly)
  {
    assert q[done..][0] == q[done] && q[done..][1..] == q[done + 1..];
    QueueTail(b, c);
  }

  lemma ProgressAdds(a: Db, b: Db, c: Db, q: seq<RequestId>, done: nat, more: nat, expiredOnly: bool)
    requires Progress(a, b, q, done, expiredOnly) && Progress(b, c, q[done..], more, expiredOnly)
    ensures Progress(a, c, q, done + more, expiredOnly)
  {
    assert q[done..][more..] == q[done + more..];
    if expiredOnly {
      forall i | 0 <= i < done + more ensures IsDone(c, q[i], Expired) {
        if i >= done { assert q[i] == q[done..][i - done]; }
      }
    }
  }

  lemma NoLongerPending(a: Db, b: Db, q: seq<RequestId>, done: nat, expiredOnly: bool)
    requires Progress(a, b, q, done, expiredOnly) && InOrder(a, q)
    ensures forall i :: 0 <= i < done ==> q[i] in b.requests && b.requests[q[i]].completed.Some?
  {
    QueueHolds(b, PendingSet(b));
    forall i | 0 <= i < done ensures q[i] in b.requests && b.requests[q[i]].completed.Some? {
      assert q[i] !in q[done..];
    }
  }

  function Left(stale: nat, done: nat): nat {
    if done <= stale then stale - done else 0
  }

  // What is left of the expired requests is at the front of what is left of the queue.
  lemma LeftAreFirst(a: Db, start: int, b: Db, now: int, q: seq<RequestId>, done: nat, stale: nat, expiredOnly: bool)
    requires Progress(a, b, q, done, expiredOnly) && StaleFirst(a, start, q, stale) && start <= now
    ensures StaleFirst(b, now, Queue(b, PendingSet(b)), Left(stale, done))
  {
    if done <= stale { StaleStays(a, start, b, now, q, done, stale); }
  }

  lemma FurtherOn(a: Db, b: Db, c: Db, q: seq<RequestId>, rest: seq<RequestId>, n: nat, stale: nat, redisUp: bool,
                  done: nat, more: nat)
    requires Progress(a, b, q, done, !redisUp) && rest == Queue(b, PendingSet(b))
    requires Progress(b, c, rest, more, !redisUp)
    requires Reaches(n, |q|, stale, redisUp, done)
    requires redisUp ==> more == Min(BATCH, |rest|)
    requires !redisUp ==> more >= Min(BATCH, Left(stale, done))
    ensures Progress(a, c, q, done + more, !redisUp) && Reaches(n + 1, |q|, stale, redisUp, done + more)
  {
    assert rest == q[done..];
    ProgressAdds(a, b, c, q, done, more, !redisUp);
    ReachesFurther(n, |q|, stale, redisUp, done, more);
  }

  lemma FreshEndsStale(db: Db, start: int, now: int, q: seq<RequestId>, stale: nat, i: nat)
    requires StaleFirst(db, start, q, stale) && start <= now && i < |q| && !Stale(db, now, q[i])
    ensures stale <= i
  {
  }

  // What was too old stays too old.
  lemma StaleStays(a: Db, start: int, b: Db, now: int, q: seq<RequestId>, done: nat, n: nat)
    requires SameTimes(a, b) && start <= now && StaleFirst(a, start, q, n) && done <= n
    ensures StaleFirst(b, now, q[done..], n - done)
  {
  }

  lemma CompletesOne(a: Db, b: Db, id: RequestId, result: Result)
    requires Pending(a, id) && Completes(a, b, id, result)
    ensures SameTimes(a, b) && PendingSet(b) == PendingSet(a) - {id} && IsDone(b, id, result)
    ensures forall i :: i in a.requests && i != id ==> b.requests[i] == a.requests[i]
  {
  }

  // The request is completed, the block it recorded goes if it was unblocked.
  ghost predicate Completes(a: Db, b: Db, id: RequestId, result: Result) {
    id in a.requests &&
    var r := a.requests[id];
    && b.requests == a.requests[id := r.(completed := Some(result))]
    && b.audits == a.audits + [Finished(id, result)]
    && b.blocks == if result.Unblocked? && r.generation.Some? && r.key in a.blocks &&
                      a.blocks[r.key] == r.generation.value
                   then a.blocks - {r.key} else a.blocks
  }

  // What processing comes to where nothing else happens.
  ghost predicate HandledAlone(a: State, b: State, id: RequestId, redisUp: bool, r: Processed) {
    && r == (if id !in a.db.requests then Skipped
             else if a.db.requests[id].completed.Some? then AlreadyDone
             else if a.now - a.db.requests[id].created > 86_400_000 then Completed(Expired)
             else if redisUp then Completed(Unblocked)
             else Threw)
    && b.txs == map[] && b.now == a.now && b.latency == a.latency
    && (!r.Completed? ==> b.db == a.db)
    && (r != Completed(Unblocked) ==> b.redis == a.redis)
    && (r.Completed? ==> Completes(a.db, b.db, id, r.result))
    && (r == Completed(Unblocked) ==> Resets(a.redis, b.redis, a.db.requests[id].key, id, b.now))
  }

  lemma ScriptResets(redis: Redis, key: Key, id: RequestId, now: int)
    ensures Resets(redis, ResetOnce(redis, key, id, now), key, id, now)
  {
  }

  // The counter goes unless the request's marker is alive, and leaves one for seven days.
  ghost predicate Resets(a: Redis, b: Redis, key: Key, id: RequestId, now: int) {
    if id in a.markers && a.markers[id] > now then b == a
    else b == Redis(a.counters - {key}, a.markers[id := now + 604_800_000], a.deletions + [id])
  }

  ghost predicate Done(s: State, id: RequestId, result: Result) {
    IsDone(s.db, id, result)
  }

  ghost predicate RecordedBlockGone(db: Db, id: RequestId)
    requires id in db.requests
  {
    var r := db.requests[id];
    r.generation.Some? && r.key in db.blocks ==> db.blocks[r.key] != r.generation.value
  }
}
