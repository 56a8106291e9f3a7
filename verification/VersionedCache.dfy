/**
 The versioned cache of one namespace: readers take the version, look under it, load
 on a miss and write what they loaded under the version they took, however late;
 `invalidate` moves the version on.  Steps of different calls interleave freely.
 */
module VersionedCache {
  import opened Common

  type Key = string
  type Value = nat
  type CallId = nat

  datatype Entry = Entry(value: Value, loaded: nat)

  datatype Pc =
    | Start
    | Versioned(version: nat)
    | Missed(version: nat)
    | Loaded(version: nat, entry: Entry)
    | Returned(entry: Entry, unanswered: Option<nat>)

  // `seen` is the last invalidation the call is bound to respect: the one before it
  // read the version, or before it began if it never could.  A write that went
  // unanswered may still reach Redis after the call has returned.
  datatype Call = Call(key: Key, seen: nat, pc: Pc)

  // `past[i]` is the data before step i of the run, `moved[v]` the step at which the
  // version became v.
  datatype State = State(data: map<Key, Value>, past: seq<map<Key, Value>>, version: nat, moved: seq<nat>,
                         cache: map<(nat, Key), Entry>, calls: map<CallId, Call>)

  datatype Event =
    | Begin(call: CallId, key: Key)
    | Step(call: CallId)
    | Failure(call: CallId)          // Redis does not answer the call
    | Write(key: Key, value: Value)  // the source of the cached data changes
    | Invalidate
    | Land(call: CallId)             // an unanswered write arrives
    | Evict(version: nat, key: Key)  // time to live

  function Clock(s: State): nat {
    |s.past|
  }

  function Fetch(data: map<Key, Value>, key: Key): Value {
    if key in data then data[key] else 0
  }

  function Load(s: State, key: Key): Entry {
    Entry(Fetch(s.data, key), Clock(s))
  }

  function LastMove(s: State): nat {
    if s.version < |s.moved| then s.moved[s.version] else 0
  }

  predicate Enabled(s: State, e: Event) {
    match e
    case Begin(c, _) => c !in s.calls
    case Step(c) => c in s.calls && !s.calls[c].pc.Returned?
    case Failure(c) => c in s.calls && !s.calls[c].pc.Returned?
    case Land(c) => c in s.calls && s.calls[c].pc.Returned? && s.calls[c].pc.unanswered.Some?
    case _ => true
  }

  function Advance(s: State, call: Call): Call {
    match call.pc
    case Start => call.(seen := LastMove(s), pc := Versioned(s.version))
    case Versioned(v) =>
      if (v, call.key) in s.cache then call.(pc := Returned(s.cache[(v, call.key)], None)) else call.(pc := Missed(v))
    case Missed(v) => call.(pc := Loaded(v, Load(s, call.key)))
    case Loaded(_, entry) => call.(pc := Returned(entry, None))
    case Returned(_, _) => call
  }

  // Without an answer: before the load, load and return; after it, return regardless.
  function GiveUp(s: State, call: Call): Call {
    match call.pc
    case Loaded(v, entry) => call.(pc := Returned(entry, Some(v)))
    case Returned(_, _) => call
    case _ => call.(pc := Returned(Load(s, call.key), None))
  }

  function Change(s: State, e: Event): State
    requires Enabled(s, e)
  {
    match e
    case Begin(c, key) => s.(calls := s.calls[c := Call(key, LastMove(s), Start)])
    case Step(c) =>
      var call := s.calls[c];
      s.(calls := s.calls[c := Advance(s, call)],
         cache := if call.pc.Loaded? then s.cache[(call.pc.version, call.key) := call.pc.entry] else s.cache)
    case Failure(c) => s.(calls := s.calls[c := GiveUp(s, s.calls[c])])
    case Write(key, value) => s.(data := s.data[key := value])
    case Invalidate => s.(version := s.version + 1, moved := s.moved + [Clock(s)])
    case Land(c) =>
      var call := s.calls[c];
      s.(cache := s.cache[(call.pc.unanswered.value, call.key) := call.pc.entry],
         calls := s.calls[c := call.(pc := Returned(call.pc.entry, None))])
    case Evict(v, key) => s.(cache := s.cache - {(v, key)})
  }

  function Apply(s: State, e: Event): State
    requires Enabled(s, e)
  {
    Change(s, e).(past := s.past + [s.data])
  }

  predicate Valid(s: State, es: seq<Event>)
    decreases |es|
  {
    es == [] || (Enabled(s, es[0]) && Valid(Apply(s, es[0]), es[1..]))
  }

  function Run(s: State, es: seq<Event>): State
    requires Valid(s, es)
    decreases |es|
  {
    if es == [] then s else Run(Apply(s, es[0]), es[1..])
  }

  // ----- what is in the cache -----

  // The entry is what the source held for the key at the moment it was loaded.
  ghost predicate Genuine(s: State, key: Key, entry: Entry) {
    entry.loaded < Clock(s) && entry.value == Fetch(s.past[entry.loaded], key)
  }

  ghost predicate After(s: State, version: nat, entry: Entry) {
    version < |s.moved| && entry.loaded >= s.moved[version]
  }

  ghost predicate Bound(s: State, version: nat, seen: nat) {
    version < |s.moved| && seen == s.moved[version]
  }

  ghost predicate CallOk(s: State, call: Call) {
    match call.pc
    case Start => call.seen <= LastMove(s)
    case Versioned(v) => Bound(s, v, call.seen)
    case Missed(v) => Bound(s, v, call.seen)
    case Loaded(v, entry) => Bound(s, v, call.seen) && Genuine(s, call.key, entry) && After(s, v, entry)
    case Returned(entry, unanswered) =>
      && Genuine(s, call.key, entry) && entry.loaded >= call.seen
      && (unanswered.Some? ==> After(s, unanswered.value, entry))
  }

  ghost predicate ClockOk(s: State) {
    |s.moved| == s.version + 1 && (forall v :: 0 <= v < |s.moved| ==> s.moved[v] <= Clock(s))
  }

  ghost predicate CacheOk(s: State) {
    forall k :: k in s.cache ==> Genuine(s, k.1, s.cache[k]) && After(s, k.0, s.cache[k])
  }

  ghost predicate Inv(s: State) {
    ClockOk(s) && CacheOk(s) && (forall c :: c in s.calls ==> CallOk(s, s.calls[c]))
  }

  // Time and versions only move forward.
  ghost predicate Onward(s: State, s': State) {
    s.past <= s'.past && s.moved <= s'.moved && LastMove(s) <= LastMove(s')
  }

  lemma EventIsOnward(s: State, e: Event)
    requires ClockOk(s) && Enabled(s, e)
    ensures Onward(s, Apply(s, e)) && ClockOk(Apply(s, e))
  {
  }

  lemma CallStaysOk(s: State, s': State, call: Call)
    requires Onward(s, s') && CallOk(s, call)
    ensures CallOk(s', call)
  {
  }

  lemma AdvanceIsOk(s: State, s': State, call: Call)
    requires ClockOk(s) && CacheOk(s) && CallOk(s, call) && Onward(s, s') && s'.past == s.past + [s.data]
    ensures CallOk(s', Advance(s, call)) && CallOk(s', GiveUp(s, call))
  {
    if call.pc.Versioned? && (call.pc.version, call.key) in s.cache {
      assert After(s, call.pc.version, s.cache[(call.pc.version, call.key)]);
    }
  }

  lemma EventKeepsCache(s: State, e: Event)
    requires Inv(s) && Enabled(s, e)
    ensures CacheOk(Apply(s, e))
  {
    EventIsOnward(s, e);
    var s' := Apply(s, e);
    forall k: (nat, Key) | k in s'.cache ensures Genuine(s', k.1, s'.cache[k]) && After(s', k.0, s'.cache[k]) {
      if (e.Step? || e.Land?) && !(k in s.cache && s'.cache[k] == s.cache[k]) {
        assert CallOk(s, s.calls[e.call]);
      } else {
        assert Genuine(s, k.1, s.cache[k]);
      }
    }
  }

  lemma EventKeepsInv(s: State, e: Event)
    requires Inv(s) && Enabled(s, e)
    ensures Inv(Apply(s, e))
  {
    EventIsOnward(s, e);
    EventKeepsCache(s, e);
    var s' := Apply(s, e);
    forall c: CallId | c in s'.calls ensures CallOk(s', s'.calls[c]) {
      if c in s.calls {
        CallStaysOk(s, s', s.calls[c]);
        AdvanceIsOk(s, s', s.calls[c]);
      }
    }
  }

  lemma {:induction false} RunKeepsInv(s: State, es: seq<Event>)
    requires Inv(s) && Valid(s, es)
    ensures Inv(Run(s, es))
    decreases |es|
  {
    if es != [] {
      EventKeepsInv(s, es[0]);
      RunKeepsInv(Apply(s, es[0]), es[1..]);
    }
  }

  function Empty(data: map<Key, Value>): State {
    State(data, [], 0, [0], map[], map[])
  }

  // Whatever a call returns was in the source at a moment not before the last
  // invalidation that preceded its reading of the version; in particular a late write
  // from an older load is never returned.
  lemma ReturnsNothingOlder(data: map<Key, Value>, es: seq<Event>, c: CallId)
    requires Valid(Empty(data), es) && c in Run(Empty(data), es).calls && Run(Empty(data), es).calls[c].pc.Returned?
    ensures var s := Run(Empty(data), es);
            var call := s.calls[c];
            && call.seen <= call.pc.entry.loaded < Clock(s)
            && var past := s.past[call.pc.entry.loaded];
            call.pc.entry.value == if call.key in past then past[call.key] else 0
  {
    RunKeepsInv(Empty(data), es);
  }

  // Data written and then invalidated is what every call that starts afterwards gets,
  // until it is written again.
  lemma WriteThenInvalidateIsSeen(data: map<Key, Value>, es: seq<Event>, c: CallId, value: Value)
    requires Valid(Empty(data), es) && c in Run(Empty(data), es).calls && Run(Empty(data), es).calls[c].pc.Returned?
    requires var s := Run(Empty(data), es);
             forall i :: s.calls[c].seen <= i < |s.past| ==>
                           (if s.calls[c].key in s.past[i] then s.past[i][s.calls[c].key] else 0) == value
    ensures Run(Empty(data), es).calls[c].pc.entry.value == value
  {
    ReturnsNothingOlder(data, es, c);
  }

  lemma {:induction false} RunAppend(s: State, es: seq<Event>, e: Event)
    requires Valid(s, es) && Enabled(Run(s, es), e)
    ensures Valid(s, es + [e]) && Run(s, es + [e]) == Apply(Run(s, es), e)
    decreases |es|
  {
    if es == [] {
      assert Valid(Apply(s, e), [e][1..]);
    } else {
      assert (es + [e])[1..] == es[1..] + [e];
      RunAppend(Apply(s, es[0]), es[1..], e);
    }
  }

  predicate Foreign(e: Event, c: CallId) {
    match e
    case Step(c') => c' != c
    case Failure(c') => c' != c
    case Land(c') => c' != c
    case _ => true
  }

  // A call on its own, on the way from `a` to `b`.
  ghost predicate Undisturbed(a: State, b: State, c: CallId) {
    c in b.calls && b.version == a.version && b.data == a.data &&
    var k, pc := (a.version, b.calls[c].key), b.calls[c].pc;
    match pc
    case Start => b.cache == a.cache
    case Versioned(v) => b.cache == a.cache && v == a.version
    case Missed(v) => b.cache == a.cache && v == a.version && k !in a.cache
    case Loaded(v, entry) => b.cache == a.cache && v == a.version && k !in a.cache && entry.value == Fetch(a.data, k.1)
    case Returned(entry, _) =>
      k in b.cache && b.cache[k] == entry &&
        entry.value == (if k in a.cache then a.cache[k].value else Fetch(a.data, k.1))
  }

  lemma UndisturbedStep(a: State, b: State, c: CallId)
    requires Undisturbed(a, b, c) && Enabled(b, Step(c))
    ensures Undisturbed(a, Apply(b, Step(c)), c)
  {
  }

  // How many statements a call has behind it at most.
  function Stage(pc: Pc): nat {
    match pc
    case Start => 0
    case Versioned(_) => 1
    case Missed(_) => 2
    case Loaded(_, _) => 3
    case Returned(_, _) => 4
  }

  // The methods of the service, among other callers.
  class Cache {
    var s: State
    ghost var origin: map<Key, Value>
    ghost var trace: seq<Event>

    ghost predicate Reachable()
      reads this
    {
      Valid(Empty(origin), trace) && Run(Empty(origin), trace) == s
    }

    constructor (data: map<Key, Value>)
      ensures Reachable() && s == Empty(data)
    {
      s, origin, trace := Empty(data), data, [];
    }

    method Perform(e: Event)
      requires Reachable() && Enabled(s, e)
      modifies this
      ensures Reachable() && s == Apply(old(s), e) && origin == old(origin)
    {
      RunAppend(Empty(origin), trace, e);
      s, trace := Apply(s, e), trace + [e];
    }

    method Others(c: CallId, rivals: seq<Event>)
      requires Reachable() && c in s.calls
      modifies this
      ensures Reachable() && c in s.calls && s.calls[c] == old(s.calls[c]) && Clock(s) >= old(Clock(s)) &&
              origin == old(origin)
      ensures rivals == [] ==> s == old(s)
    {
      for i := 0 to |rivals|
        invariant Reachable() && c in s.calls && s.calls[c] == old(s.calls[c]) && Clock(s) >= old(Clock(s)) &&
                  origin == old(origin)
        invariant i == 0 ==> s == old(s)
      {
        if Foreign(rivals[i], c) && Enabled(s, rivals[i]) {
          Perform(rivals[i]);
        }
      }
    }

    // One statement of `cached`, with Redis up or not.
    method Statement(c: CallId, rivals: seq<Event>, redisUp: bool)
      requires Reachable() && c in s.calls && !s.calls[c].pc.Returned?
      modifies this
      ensures Reachable() && c in s.calls && Clock(s) > old(Clock(s)) && origin == old(origin) &&
              s.calls[c].key == old(s.calls[c]).key
      ensures s.calls[c].seen >= old(s.calls[c]).seen
      ensures rivals == [] ==> s == Apply(old(s), if redisUp then Step(c) else Failure(c))
      ensures Stage(s.calls[c].pc) == Stage(old(s.calls[c]).pc) + 1 || s.calls[c].pc.Returned?
    {
      Others(c, rivals);
      RunKeepsInv(Empty(origin), trace);
      assert CallOk(s, s.calls[c]);
      Perform(if redisUp then Step(c) else Failure(c));
      RunKeepsInv(Empty(origin), trace);
    }

    method Begun(c: CallId, key: Key)
      requires Reachable() && c !in s.calls
      modifies this
      ensures Reachable() && c in s.calls && s.calls[c] == Call(key, LastMove(old(s)), Start)
      ensures Undisturbed(old(s), s, c)
    {
      Perform(Begin(c, key));
    }

    method Cached(c: CallId, key: Key, rivals: nat -> seq<Event>, redisUp: nat -> bool) returns (value: Value)
      requires Reachable() && c !in s.calls
      modifies this
      ensures Reachable() && c in s.calls
      ensures exists i :: LastMove(old(s)) <= i < |s.past| && value == if key in s.past[i] then s.past[i][key] else 0
      ensures (forall n :: rivals(n) == [] && redisUp(n)) ==>
                var k := (old(s).version, key);
                && value == (if k in old(s).cache then old(s).cache[k].value
                             else if key in old(s).data then old(s).data[key] else 0)
                && s.version == old(s).version && k in s.cache && s.cache[k].value == value
    {
      hide Apply, Valid, Run;
      RunKeepsInv(Empty(origin), trace);
      Begun(c, key);
      var n := 0;
      ghost var seen := s.calls[c].seen;
      ghost var quiet := forall n :: rivals(n) == [] && redisUp(n);
      while !s.calls[c].pc.Returned?
        invariant Reachable() && c in s.calls && s.calls[c].key == key && s.calls[c].seen >= seen && n <= 4
        invariant Stage(s.calls[c].pc) == n || s.calls[c].pc.Returned?
        invariant quiet ==> Undisturbed(old(s), s, c)
        decreases 4 - n
      {
        if quiet { UndisturbedStep(old(s), s, c); }
        Statement(c, rivals(n), redisUp(n));
        n := n + 1;
      }
      ReturnsNothingOlder(origin, trace, c);
      value := s.calls[c].pc.entry.value;
    }
  }
}
