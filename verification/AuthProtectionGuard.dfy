/**
 Admission of authentication attempts: consume the counter of the caller's key,
 refuse past the limit, and write the block row on the first refusal of a window.
 */
module AuthProtectionGuard {
  import opened Common
  import opened RateWindow
  import opened RedisService

  datatype Block = Block(generation: nat, attempts: nat, lockedUntil: int)

  datatype Answer = Proceed | TooMany(retryAfter: int) | Down

  lemma {:induction false} AppendOp(w: Option<Window>, ops: seq<Op>, op: Op, length: int, limit: nat, start: int)
    ensures var v := AfterAll(w, ops, length);
            && Admitted(w, ops + [op], length, limit, start) ==
                 Admitted(w, ops, length, limit, start) + One(Within(op, start, length) && Admits(v, op, length, limit))
            && EffectiveResets(w, ops + [op], length, start) ==
                 EffectiveResets(w, ops, length, start) + One(Within(op, start, length) && Effective(v, op))
            && AfterAll(w, ops + [op], length) == After(v, op, length)
    decreases |ops|
  {
    if ops == [] {
      assert [op][1..] == [];
    } else {
      assert (ops + [op])[1..] == ops[1..] + [op];
      AppendOp(After(w, ops[0], length), ops[1..], op, length, limit, start);
    }
  }

  function AfterAll(w: Option<Window>, ops: seq<Op>, length: int): Option<Window>
    decreases |ops|
  {
    if ops == [] then w else AfterAll(After(w, ops[0], length), ops[1..], length)
  }

  // ----- what a sequence of operations on one key should get -----

  datatype Stored = Stored(counters: map<Key, Window>, blocks: map<Key, Block>, nextGeneration: nat)

  datatype Response = Answered(answer: Answer) | Cleared(counting: bool)

  // No room for one more key.
  predicate Full(counters: map<Key, Window>, name: Key, now: int) {
    |LiveCounters(counters, now)| >= CAPACITY && At(Entry(counters, name), now).None?
  }

  function Name(key: Key): Key {
    "auth:" + key
  }

  function AfterOp(st: Stored, key: Key, op: Op, length: int, limit: nat): Stored
    requires length > 0
  {
    match op
    case Reset(_) => st.(counters := st.counters - {Name(key)})
    case Attempt(now) =>
      var live := LiveCounters(st.counters, now);
      if Full(st.counters, Name(key), now) then st.(counters := live)
      else
        var v := Counted(Entry(st.counters, Name(key)), now, length);
        var counted := st.(counters := live[Name(key) := v]);
        if v.count != limit + 1 then counted
        else
          var block := Block(st.nextGeneration, limit + 1, now + 1000 * RetryAfter(v.expires - now));
          counted.(blocks := st.blocks[key := block], nextGeneration := st.nextGeneration + 1)
  }

  function Respond(st: Stored, key: Key, op: Op, length: int, limit: nat): Response
    requires length > 0
  {
    match op
    case Reset(now) => Cleared(At(Entry(st.counters, Name(key)), now).Some?)
    case Attempt(now) =>
      if Full(st.counters, Name(key), now) then Answered(Down)
      else
        var v := Counted(Entry(st.counters, Name(key)), now, length);
        Answered(if v.count <= limit then Proceed else TooMany(RetryAfter(v.expires - now)))
  }

  function AfterOps(st: Stored, key: Key, ops: seq<Op>, length: int, limit: nat): Stored
    requires length > 0
  {
    if ops == [] then st
    else AfterOp(AfterOps(st, key, ops[..|ops| - 1], length, limit), key, ops[|ops| - 1], length, limit)
  }

  function Responses(st: Stored, key: Key, ops: seq<Op>, length: int, limit: nat): (rs: seq<Response>)
    requires length > 0
    ensures |rs| == |ops|
  {
    if ops == [] then []
    else
      var front := ops[..|ops| - 1];
      Responses(st, key, front, length, limit) +
      [Respond(AfterOps(st, key, front, length, limit), key, ops[|ops| - 1], length, limit)]
  }

  // The operations that were not turned away for lack of room, in their order.
  function Reached(ops: seq<Op>, rs: seq<Response>): seq<Op>
    requires |rs| == |ops|
  {
    if ops == [] then []
    else
      var n := |ops| - 1;
      Reached(ops[..n], rs[..n]) + (if rs[n] == Answered(Down) then [] else [ops[n]])
  }

  // How many operations of the interval got this response.
  function Got(ops: seq<Op>, rs: seq<Response>, response: Response, start: int, length: int): nat
    requires |rs| == |ops|
  {
    if ops == [] then 0
    else
      var n := |ops| - 1;
      Got(ops[..n], rs[..n], response, start, length) + One(Within(ops[n], start, length) && rs[n] == response)
  }

  // The stored entry and the window of the history read the same from `now` on.
  ghost predicate Agree(have: Option<Window>, history: Option<Window>, now: int) {
    have == history || (have.None? && At(history, now).None?)
  }

  lemma OpAgrees(st: Stored, key: Key, history: Option<Window>, op: Op, length: int, limit: nat)
    requires length > 0 && Agree(Entry(st.counters, Name(key)), history, op.time)
    ensures var r := Respond(st, key, op, length, limit);
            var have := Entry(AfterOp(st, key, op, length, limit).counters, Name(key));
            && (r == Answered(Proceed)) == (r != Answered(Down) && Admits(history, op, length, limit))
            && (r == Cleared(true)) == (r != Answered(Down) && Effective(history, op))
            && Agree(have, if r == Answered(Down) then history else After(history, op, length), op.time)
  {
  }

  lemma LaterAgrees(have: Option<Window>, history: Option<Window>, now: int, later: int)
    requires Agree(have, history, now) && now <= later
    ensures Agree(have, history, later)
  {
  }

  // The operations that reach the counter are counted as the rate window counts them.
  lemma {:induction false} GuardCounts(st: Stored, key: Key, ops: seq<Op>, length: int, limit: nat, start: int)
    requires length > 0 && Ordered(ops)
    ensures var w, rs := Entry(st.counters, Name(key)), Responses(st, key, ops, length, limit);
            var reached := Reached(ops, rs);
            && Got(ops, rs, Answered(Proceed), start, length) == Admitted(w, reached, length, limit, start)
            && Got(ops, rs, Cleared(true), start, length) == EffectiveResets(w, reached, length, start)
            && forall now :: (ops != [] ==> ops[|ops| - 1].time <= now) ==>
                 Agree(Entry(AfterOps(st, key, ops, length, limit).counters, Name(key)), AfterAll(w, reached, length),
                   now)
  {
    if ops != [] {
      var w, n, op := Entry(st.counters, Name(key)), |ops| - 1, ops[|ops| - 1];
      var front := ops[..n];
      var rs := Responses(st, key, ops, length, limit);
      var reached := Reached(front, rs[..n]);
      var before := AfterOps(st, key, front, length, limit);
      assert rs[..n] == Responses(st, key, front, length, limit);
      GuardCounts(st, key, front, length, limit, start);
      OpAgrees(before, key, AfterAll(w, reached, length), op, length, limit);
      AppendOp(w, reached, op, length, limit, start);
      var have := Entry(AfterOps(st, key, ops, length, limit).counters, Name(key));
      var history := AfterAll(w, Reached(ops, rs), length);
      assert Agree(have, history, op.time) by {
        if rs[n] == Answered(Down) { assert Reached(ops, rs) == reached; }
      }
      forall now | op.time <= now ensures Agree(have, history, now) {
        LaterAgrees(have, history, op.time, now);
      }
      if rs[n] == Answered(Down) { assert Reached(ops, rs) == reached; }
    }
  }

  predicate Between(ops: seq<Op>, from: int, to: int) {
    forall i :: 0 <= i < |ops| ==> from <= ops[i].time <= to
  }

  lemma OrderedAppend(ops: seq<Op>, op: Op, from: int)
    requires Ordered(ops) && Between(ops, from, op.time) && from <= op.time
    ensures Ordered(ops + [op]) && Between(ops + [op], from, op.time)
  {
  }

  lemma {:induction false} ReachedInOrder(ops: seq<Op>, rs: seq<Response>)
    requires |rs| == |ops| && Ordered(ops)
    ensures Ordered(Reached(ops, rs))
    ensures ops == [] ==> Reached(ops, rs) == []
    ensures ops != [] ==> Between(Reached(ops, rs), ops[0].time, ops[|ops| - 1].time)
  {
    if ops != [] {
      var n := |ops| - 1;
      var front := Reached(ops[..n], rs[..n]);
      ReachedInOrder(ops[..n], rs[..n]);
      if n > 0 {
        assert ops[..n][0] == ops[0] && ops[..n][n - 1].time <= ops[n].time;
      }
      assert Between(front, ops[0].time, ops[n].time);
      OrderedAppend(front, ops[n], ops[0].time);
    }
  }

  // Whatever the mix of attempts and resets, the attempts that the guard lets through
  // in one window length stay within limit * (2 + the resets that cleared a window).
  lemma GuardBound(st: Stored, key: Key, ops: seq<Op>, length: int, limit: nat, start: int)
    requires length > 0 && Ordered(ops)
    requires ops != [] ==> Bounded(Entry(st.counters, Name(key)), ops[0].time, length)
    ensures var rs := Responses(st, key, ops, length, limit);
            Got(ops, rs, Answered(Proceed), start, length) <= limit * (2 + Got(ops, rs, Cleared(true), start, length))
  {
    var rs := Responses(st, key, ops, length, limit);
    GuardCounts(st, key, ops, length, limit, start);
    ReachedInOrder(ops, rs);
    AdmissionBound(Entry(st.counters, Name(key)), Reached(ops, rs), length, limit, start);
  }

  class Guard {
    const redis: InMemory
    const limit: nat
    const seconds: nat
    var blocks: map<Key, Block>
    var nextGeneration: nat

    ghost predicate Valid()
      reads this, redis
    {
      redis.Valid() && seconds > 0 && forall k :: k in blocks ==> blocks[k].generation < nextGeneration
    }

    constructor (limit: nat, seconds: nat)
      requires seconds > 0
      ensures Valid() && fresh(redis) && this.limit == limit && this.seconds == seconds
      ensures redis.counters == map[] && blocks == map[]
    {
      redis := new InMemory();
      this.limit, this.seconds := limit, seconds;
      blocks, nextGeneration := map[], 0;
    }

    ghost function Contents(): Stored
      reads this, redis
    {
      Stored(redis.counters, blocks, nextGeneration)
    }

    // `key` is the digest of the caller's address.
    method CanActivate(key: Key, now: int) returns (a: Answer)
      requires Valid()
      modifies this`blocks, this`nextGeneration, redis`counters
      ensures Valid()
      ensures var name, w := "auth:" + key, old(redis.counters);
              var running := name in w && w[name].expires > now;
              var count := if running then w[name].count + 1 else 1;
              var expires := if running then w[name].expires else now + seconds * 1000;
              && (a.Down? <==> |LiveCounters(w, now)| >= 10_000 && !running)
              && (a.Down? ==> redis.counters == LiveCounters(w, now))
              && (!a.Down? ==> redis.counters == LiveCounters(w, now)[name := Window(count, expires)])
              && (!a.Down? ==> (a.Proceed? <==> count <= limit))
              && (a.TooMany? ==> 1000 * (a.retryAfter - 1) < expires - now <= 1000 * a.retryAfter)
              && blocks == (if a.TooMany? && count == limit + 1
                            then old(blocks)[key := Block(old(nextGeneration), limit + 1, now + 1000 * a.retryAfter)]
                            else old(blocks))
              && nextGeneration == old(nextGeneration) + if a.TooMany? && count == limit + 1 then 1 else 0
    {
      hide LiveCounters;
      var window := redis.Consume("auth:" + key, seconds, now);
      if window.Unavailable? {
        return Down;
      }
      if window.count > limit {
        if window.count == limit + 1 {
          blocks := blocks[key := Block(nextGeneration, window.count, now + 1000 * window.retryAfter)];
          nextGeneration := nextGeneration + 1;
        }
        return TooMany(window.retryAfter);
      }
      a := Proceed;
    }

    // One attempt, or one reset of the counter.
    method ServeOne(key: Key, op: Op) returns (r: Response)
      requires Valid()
      modifies this`blocks, this`nextGeneration, redis`counters
      ensures Valid()
      ensures r == Respond(old(Contents()), key, op, seconds * 1000, limit)
      ensures Contents() == AfterOp(old(Contents()), key, op, seconds * 1000, limit)
    {
      hide LiveCounters;
      match op {
        case Attempt(now) =>
          var answer := CanActivate(key, now);
          r := Answered(answer);
        case Reset(now) =>
          r := Cleared(At(Entry(redis.counters, "auth:" + key), now).Some?);
          redis.Reset("auth:" + key);
      }
    }

    // Attempts and resets of one key as they come in, one response each.
    method Serve(key: Key, ops: seq<Op>) returns (responses: seq<Response>)
      requires Valid()
      modifies this`blocks, this`nextGeneration, redis`counters
      ensures Valid()
      ensures responses == Responses(old(Contents()), key, ops, seconds * 1000, limit)
      ensures Contents() == AfterOps(old(Contents()), key, ops, seconds * 1000, limit)
    {
      responses := [];
      for i := 0 to |ops|
        invariant Valid()
        invariant responses == Responses(old(Contents()), key, ops[..i], seconds * 1000, limit)
        invariant Contents() == AfterOps(old(Contents()), key, ops[..i], seconds * 1000, limit)
      {
        assert ops[..i + 1][..i] == ops[..i];
        var r := ServeOne(key, ops[i]);
        responses := responses + [r];
      }
      assert ops[..|ops|] == ops;
    }
  }
}
