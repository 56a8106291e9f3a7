/**
 The fixed-window counter of one key: attempts and resets in time order, and the
 bound on how many attempts any interval of one window length can admit.
 */
module RateWindow {
  import opened Common

  datatype Window = Window(count: nat, expires: int)

  datatype Op = Attempt(time: int) | Reset(time: int)

  // The window that is still counting at a moment; an entry whose expiry has come
  // is treated as absent.
  function At(w: Option<Window>, now: int): Option<Window> {
    if w.Some? && w.value.expires > now then w else None
  }

  // What one attempt makes of the entry; `length` is the window in milliseconds.
  function Counted(w: Option<Window>, now: int, length: int): Window {
    match At(w, now)
    case Some(v) => v.(count := v.count + 1)
    case None => Window(1, now + length)
  }

  function After(w: Option<Window>, op: Op, length: int): Option<Window> {
    match op
    case Attempt(now) => Some(Counted(w, now, length))
    case Reset(_) => None
  }

  predicate Admits(w: Option<Window>, op: Op, length: int, limit: nat) {
    op.Attempt? && Counted(w, op.time, length).count <= limit
  }

  // A reset that deletes a window that is still counting.
  predicate Effective(w: Option<Window>, op: Op) {
    op.Reset? && At(w, op.time).Some?
  }

  predicate Ordered(ops: seq<Op>) {
    forall i, j :: 0 <= i < j < |ops| ==> ops[i].time <= ops[j].time
  }

  predicate Within(op: Op, start: int, length: int) {
    start <= op.time <= start + length
  }

  // Attempts admitted between `start` and `start + length`, both included.
  function Admitted(w: Option<Window>, ops: seq<Op>, length: int, limit: nat, start: int): nat
    decreases |ops|
  {
    if ops == [] then 0
    else (if Within(ops[0], start, length) && Admits(w, ops[0], length, limit) then 1 else 0) +
         Admitted(After(w, ops[0], length), ops[1..], length, limit, start)
  }

  function EffectiveResets(w: Option<Window>, ops: seq<Op>, length: int, start: int): nat
    decreases |ops|
  {
    if ops == [] then 0
    else (if Within(ops[0], start, length) && Effective(w, ops[0]) then 1 else 0) +
         EffectiveResets(After(w, ops[0], length), ops[1..], length, start)
  }

  // No window reaches further than one length ahead.
  predicate Bounded(w: Option<Window>, now: int, length: int) {
    w.Some? ==> w.value.expires <= now + length
  }

  // How many whole windows may still open inside the interval, resets apart.
  function Fresh(w: Option<Window>, now: int, length: int, start: int): nat {
    match At(w, now)
    case Some(v) => if v.expires <= start + length then 1 else 0
    case None => if now > start then 1 else 2
  }

  function Remaining(w: Option<Window>, now: int, limit: nat): nat {
    match At(w, now)
    case Some(v) => if v.count < limit then limit - v.count else 0
    case None => 0
  }

  lemma {:induction false} NothingAfterTheInterval(w: Option<Window>, ops: seq<Op>, length: int, limit: nat, start: int)
    requires forall i :: 0 <= i < |ops| ==> ops[i].time > start + length
    ensures Admitted(w, ops, length, limit, start) == 0
    decreases |ops|
  {
    if ops != [] {
      NothingAfterTheInterval(After(w, ops[0], length), ops[1..], length, limit, start);
    }
  }

  // From a moment inside the interval: what the counting window has left, and one
  // limit for every window that can still open.
  lemma {:induction false} AdmittedFrom(w: Option<Window>, ops: seq<Op>, length: int, limit: nat, start: int)
    requires ops != [] && Ordered(ops) && start <= ops[0].time && length > 0
    requires Bounded(w, ops[0].time, length)
    ensures Admitted(w, ops, length, limit, start) <=
            Remaining(w, ops[0].time, limit) +
            limit * (EffectiveResets(w, ops, length, start) + Fresh(w, ops[0].time, length, start))
    decreases |ops|
  {
    var op, rest, w' := ops[0], ops[1..], After(w, ops[0], length);
    if op.time > start + length {
      NothingAfterTheInterval(w, ops, length, limit, start);
    } else if rest != [] {
      assert rest[0].time == ops[1].time >= op.time;
      if rest[0].time > start + length {
        NothingAfterTheInterval(w', rest, length, limit, start);
      } else {
        AdmittedFrom(w', rest, length, limit, start);
        StepBound(w, op, rest[0].time, length, limit, start, EffectiveResets(w', rest, length, start));
      }
    }
    LastBound(w, op, length, limit, start, EffectiveResets(w', rest, length, start));
  }

  function Budget(w: Option<Window>, now: int, length: int, limit: nat, start: int, resets: nat): nat {
    Remaining(w, now, limit) + limit * (resets + Fresh(w, now, length, start))
  }

  function One(b: bool): nat {
    if b then 1 else 0
  }

  // The budget pays for the operation and for the budget that is left after it.
  lemma StepBound(w: Option<Window>, op: Op, next: int, length: int, limit: nat, start: int, resets: nat)
    requires start <= op.time <= next <= start + length && length > 0 && Bounded(w, op.time, length)
    ensures One(Admits(w, op, length, limit)) + Budget(After(w, op, length), next, length, limit, start, resets) <=
            Budget(w, op.time, length, limit, start, resets + One(Effective(w, op)))
  {
    var a := Fresh(w, op.time, length, start);
    var b := Fresh(After(w, op, length), next, length, start);
    assert limit * (resets + 0) + limit == limit * (resets + 1);
    assert limit * (resets + 1) + limit == limit * (resets + 2);
    assert limit * (resets + 1 + a) == limit * (resets + a) + limit;
    assert a <= 2 && b <= 2;
  }

  lemma LastBound(w: Option<Window>, op: Op, length: int, limit: nat, start: int, resets: nat)
    requires start <= op.time && length > 0 && Bounded(w, op.time, length)
    ensures op.time <= start + length ==>
              One(Admits(w, op, length, limit)) <= Budget(w, op.time, length, limit, start,
                resets + One(Effective(w, op)))
  {
    var n := resets + One(Effective(w, op)) + Fresh(w, op.time, length, start);
    assert n >= 1 ==> limit * n >= limit;
  }

  // In any interval of one window length, limit * (2 + r) attempts at most are
  // admitted, r being the effective resets inside it.
  lemma {:induction false} AdmissionBound(w: Option<Window>, ops: seq<Op>, length: int, limit: nat, start: int)
    requires Ordered(ops) && length > 0 && (ops != [] ==> Bounded(w, ops[0].time, length))
    ensures Admitted(w, ops, length, limit, start) <= limit * (2 + EffectiveResets(w, ops, length, start))
    decreases |ops|
  {
    if ops != [] {
      if ops[0].time < start {
        AdmissionBound(After(w, ops[0], length), ops[1..], length, limit, start);
      } else {
        AdmittedFrom(w, ops, length, limit, start);
        var r := EffectiveResets(w, ops, length, start);
        assert limit * (r + 1) + limit == limit * (2 + r);
        assert Remaining(w, ops[0].time, limit) <= limit;
      }
    }
  }

  function Burst(time: int, n: nat): seq<Op> {
    if n == 0 then [] else [Attempt(time)] + Burst(time, n - 1)
  }

  // A burst inside the limit is admitted whole.
  lemma {:induction false} BurstAdmitted(v: Window, time: int, n: nat, rest: seq<Op>, length: int, limit: nat,
                                         start: int)
    requires time < v.expires && v.count + n <= limit && start <= time <= start + length
    ensures Admitted(Some(v), Burst(time, n) + rest, length, limit, start) ==
            n + Admitted(Some(v.(count := v.count + n)), rest, length, limit, start)
    ensures EffectiveResets(Some(v), Burst(time, n) + rest, length, start) ==
            EffectiveResets(Some(v.(count := v.count + n)), rest, length, start)
    decreases n
  {
    if n == 0 {
      assert Burst(time, 0) + rest == rest;
    } else {
      var ops := Burst(time, n) + rest;
      assert ops[0] == Attempt(time) && ops[1..] == Burst(time, n - 1) + rest;
      BurstAdmitted(v.(count := v.count + 1), time, n - 1, rest, length, limit, start);
    }
  }

  lemma {:induction false} BurstTimes(time: int, n: nat)
    ensures |Burst(time, n)| == n && forall i :: 0 <= i < n ==> Burst(time, n)[i] == Attempt(time)
  {
    if n > 0 { BurstTimes(time, n - 1); }
  }

  // A full burst in a window of its own.
  lemma FreshBurst(w: Option<Window>, time: int, rest: seq<Op>, length: int, limit: nat, start: int)
    requires length > 0 && limit > 0 && start <= time <= start + length && At(w, time).None?
    ensures var full := Some(Window(limit, time + length));
            && Admitted(w, Burst(time, limit) + rest, length, limit, start) ==
                 limit + Admitted(full, rest, length, limit, start)
            && EffectiveResets(w, Burst(time, limit) + rest, length, start) ==
               EffectiveResets(full, rest, length, start)
  {
    var ops := Burst(time, limit) + rest;
    assert ops[0] == Attempt(time) && ops[1..] == Burst(time, limit - 1) + rest;
    BurstAdmitted(Window(1, time + length), time, limit - 1, rest, length, limit, start);
  }

  // A reset and a full burst at one moment, r times.
  function Rounds(time: int, limit: nat, r: nat): seq<Op> {
    if r == 0 then [] else [Reset(time)] + Burst(time, limit) + Rounds(time, limit, r - 1)
  }

  lemma {:induction false} RoundsTimes(time: int, limit: nat, r: nat)
    ensures forall i :: 0 <= i < |Rounds(time, limit, r)| ==> Rounds(time, limit, r)[i].time == time
  {
    if r > 0 {
      BurstTimes(time, limit);
      RoundsTimes(time, limit, r - 1);
    }
  }

  lemma {:induction false} RoundsAdmitted(limit: nat, r: nat, rest: seq<Op>, length: int)
    requires length > 0 && limit > 0
    ensures var full := Some(Window(limit, length));
            && Admitted(full, Rounds(0, limit, r) + rest, length, limit, 0) ==
                 limit * r + Admitted(full, rest, length, limit, 0)
            && EffectiveResets(full, Rounds(0, limit, r) + rest, length, 0) ==
               r + EffectiveResets(full, rest, length, 0)
  {
    if r == 0 {
      assert Rounds(0, limit, 0) + rest == rest;
    } else {
      var tail := Rounds(0, limit, r - 1) + rest;
      var ops := Rounds(0, limit, r) + rest;
      assert ops == [Reset(0)] + (Burst(0, limit) + tail);
      assert ops[0] == Reset(0) && ops[1..] == Burst(0, limit) + tail;
      FreshBurst(None, 0, tail, length, limit, 0);
      RoundsAdmitted(limit, r - 1, rest, length);
      assert limit * r == limit * (r - 1) + limit;
    }
  }

  lemma TightRunOrdered(length: int, limit: nat, r: nat)
    requires length > 0
    ensures Ordered(Burst(0, limit) + (Rounds(0, limit, r) + Burst(length, limit)))
  {
    BurstTimes(0, limit);
    RoundsTimes(0, limit, r);
    BurstTimes(length, limit);
  }

  // For every limit, window length and number of resets the bound is reached: a full
  // window, r resets each followed by a full one, and a full one as the last ends.
  lemma AdmissionBoundIsTight(length: int, limit: nat, r: nat)
    requires length > 0 && limit > 0
    ensures exists ops ::
              && Ordered(ops) && EffectiveResets(None, ops, length, 0) == r
              && Admitted(None, ops, length, limit, 0) == limit * (2 + r)
  {
    var late := Burst(length, limit);
    var rest := Rounds(0, limit, r) + late;
    var ops := Burst(0, limit) + rest;
    var full := Some(Window(limit, length));
    TightRunOrdered(length, limit, r);
    FreshBurst(None, 0, rest, length, limit, 0);
    RoundsAdmitted(limit, r, late, length);
    assert late + [] == late;
    FreshBurst(full, length, [], length, limit, 0);
    assert limit + limit * r + limit == limit * (2 + r);
    assert EffectiveResets(None, ops, length, 0) == r;
  }

  // ----- one block per window -----

  // The attempts among which the counter reads limit + 1, the ones that write the block.
  function BlockWrites(w: Option<Window>, times: seq<int>, length: int, limit: nat): nat
    decreases |times|
  {
    if times == [] then 0
    else One(Counted(w, times[0], length).count == limit + 1) +
         BlockWrites(Some(Counted(w, times[0], length)), times[1..], length, limit)
  }

  lemma {:induction false} BlockWritesFrom(v: Window, times: seq<int>, length: int, limit: nat)
    requires forall i :: 0 <= i < |times| ==> times[i] < v.expires
    ensures BlockWrites(Some(v), times, length, limit) == One(v.count <= limit < v.count + |times|)
    decreases |times|
  {
    if times != [] {
      BlockWritesFrom(v.(count := v.count + 1), times[1..], length, limit);
    }
  }

  // However many attempts one window sees, the block is written exactly once if they
  // pass the limit and never otherwise.
  lemma OneBlockPerWindow(times: seq<int>, length: int, limit: nat)
    requires times != [] && length > 0 && forall i :: 0 <= i < |times| ==> times[i] < times[0] + length
    ensures BlockWrites(None, times, length, limit) == One(|times| > limit)
  {
    var v := Counted(None, times[0], length);
    BlockWritesFrom(v, times[1..], length, limit);
  }
}
