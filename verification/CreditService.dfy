/**
 `adjust`, statement by statement, while other adjustments run in between.
 */
module CreditService {
  import opened Common
  import opened CreditProtocol
  import opened CreditLedger
  import Amounts

  // What the other transactions do before each statement of the request.
  type Schedule = nat -> seq<Event>

  // The validated request body.
  datatype Body = Body(identity: Identity, amount: string, key: nat, reason: string)

  function RequestOf(body: Body, operator: nat): Request
    requires Amounts.Grammar(body.amount)
  {
    Request(body.identity, Amounts.Stored(body.amount), body.key, body.reason, operator)
  }

  lemma {:induction false} RunAppend(s: State, es: seq<Event>, e: Event)
    requires Valid(s, es) && Enabled(Run(s, es), e)
    ensures Valid(s, es + [e]) && Run(s, es + [e]) == Apply(Run(s, es), e)
    decreases |es|
  {
    if es == [] {
      assert Valid(Apply(s, e), [e][1..]);
    } else {
      assert (es + [e])[1..] == es[1..] + [e];
      RunAppend(Apply(s, es[0]), es[1..], e);
    }
  }

  // The adjustment alone would take the tables from `a` to `b` with this answer; the
  // balance in the answer to a replay may be that of an earlier moment.
  ghost predicate AnsweredAlone(a: Db, r: Request, newId: CreditId, response: Response, b: Db) {
    var alone := AdjustAlone(a, r, newId);
    && b == alone.db && alone.outcome.Answered?
    && alone.outcome.response.replayed == response.replayed
    && (!response.replayed ==> alone.outcome.response == response)
  }

  // What a refusal means in the tables it was decided on.
  ghost predicate RefusedFor(db: Db, r: Request, error: Error) {
    match error
    case MissingRecord => r.identity !in db.known
    case KeyReused =>
      && r.identity in db.known
      && exists e :: e in db.entries && e.key == r.key &&
           !(r.identity in db.credits && e == Entry(db.credits[r.identity], r.amount, r.key, r.reason, r.operator))
    case OutOfRange =>
      && r.identity in db.known && (forall e :: e in db.entries ==> e.key != r.key)
      && var total := Paid(db, r.identity) + r.amount;
         total <= -100_000_000_000_000_000_000 || total >= 100_000_000_000_000_000_000
    case Zero => false
    case Aborted => false
  }

  lemma RefusedInTables(s: State, t: TxId)
    requires t in s.txs && Sound(s.db) && Fact(s.db, t, s.txs[t]) && Advance(s, t).Fail?
    ensures RefusedFor(s.db, s.txs[t].request, Advance(s, t).error)
  {
    hide Fact, Sound, Advance, AdjustAlone, Total;
    var r := s.txs[t].request;
    Reminders(s.db, t, s.txs[t]);
    FailureIsSerial(s.db, s, t);
    AloneInEntries(s.db, r, t);
  }

  lemma Reminders(db: Db, t: TxId, tx: Tx)
    requires Fact(db, t, tx) && Sound(db)
    ensures t !in db.balances && References(db)
  {
  }

  // A new entry is added, and its credit's balance is what the entries now add up to.
  ghost predicate Posted(a: Db, b: Db, r: Request, newId: CreditId, balance: int) {
    var credit := if r.identity in a.credits then a.credits[r.identity] else newId;
    && r.identity in a.known && (forall e :: e in a.entries ==> e.key != r.key)
    && balance == Total(b.entries, credit) == Paid(a, r.identity) + r.amount
    && -100_000_000_000_000_000_000 < balance < 100_000_000_000_000_000_000
    && b == Db(a.known, a.credits[r.identity := credit], a.balances[credit := balance],
               a.entries + [Entry(credit, r.amount, r.key, r.reason, r.operator)], a.audits + [credit])
  }

  lemma AnsweredInTables(a: Db, r: Request, newId: CreditId, response: Response, b: Db)
    requires AnsweredAlone(a, r, newId, response, b) && Sound(a) && newId !in a.balances
    ensures if response.replayed then b == a else Posted(a, b, r, newId, response.balance)
  {
    hide AdjustAlone, Sound;
    AloneInEntries(a, r, newId);
    var credit := if r.identity in a.credits then a.credits[r.identity] else newId;
    TotalAppend(a.entries, Entry(credit, r.amount, r.key, r.reason, r.operator), credit);
    if r.identity !in a.credits { StrangersOwnNothing(a, newId); }
  }

  lemma StrangersOwnNothing(db: Db, newId: CreditId)
    requires Sound(db) && newId !in db.balances
    ensures Total(db.entries, newId) == 0
  {
    TotalOfStranger(db.entries, newId);
  }

  ghost function AloneOutcome(db: Db, r: Request): Outcome {
    if r.identity !in db.known then Refused(MissingRecord)
    else if exists e :: e in db.entries && e.key == r.key then
      if r.identity in db.credits && Entry(db.credits[r.identity], r.amount, r.key, r.reason, r.operator) in db.entries
      then Answered(Response(Paid(db, r.identity), true))
      else Refused(KeyReused)
    else
      var total := Paid(db, r.identity) + r.amount;
      if total <= -100_000_000_000_000_000_000 || total >= 100_000_000_000_000_000_000 then Refused(OutOfRange)
      else Answered(Response(total, false))
  }

  lemma RefusedAlone(db: Db, r: Request, error: Error)
    requires Sound(db) && RefusedFor(db, r, error)
    ensures AloneOutcome(db, r) == Refused(error) && error != Zero
  {
    if error == KeyReused && r.identity in db.credits {
      var own := Entry(db.credits[r.identity], r.amount, r.key, r.reason, r.operator);
      var e :| e in db.entries && e.key == r.key && e != own;
      var i :| 0 <= i < |db.entries| && db.entries[i] == e;
      assert KeysUnique(db) && forall j :: 0 <= j < |db.entries| && db.entries[j].key == r.key ==> j == i;
    }
  }

  lemma PostedAlone(a: Db, b: Db, r: Request, newId: CreditId, balance: int)
    requires Posted(a, b, r, newId, balance)
    ensures AloneOutcome(a, r) == Answered(Response(balance, false))
  {
  }

  lemma ReplayedAlone(db: Db, r: Request, balance: int)
    requires Sound(db) && Shows(db, r, balance)
    ensures AloneOutcome(db, r) == Answered(Response(balance, true))
  {
    var own := Entry(db.credits[r.identity], r.amount, r.key, r.reason, r.operator);
    assert own in db.entries && own.key == r.key;
    assert References(db);
  }

  lemma ReadingShows(s: State, t: TxId)
    requires t in s.txs && Sound(s.db) && Fact(s.db, t, s.txs[t]) && s.txs[t].pc.ReadReplay?
    ensures Shows(s.db, s.txs[t].request, BalanceOf(s.db, s.txs[t].pc.credit))
  {
    assert References(s.db) && Balanced(s.db);
  }

  // The run went through the state `x` after `from` events or later.
  ghost predicate Passed(origin: State, trace: seq<Event>, from: nat, x: State) {
    exists n: nat :: from <= n <= |trace| && Valid(origin, trace[..n]) && Run(origin, trace[..n]) == x
  }

  lemma PassedStill(origin: State, trace: seq<Event>, trace': seq<Event>, from: nat, from': nat, x: State)
    requires Passed(origin, trace, from, x) && trace <= trace' && from' <= from
    ensures Passed(origin, trace', from', x)
  {
    var n: nat :| from <= n <= |trace| && Valid(origin, trace[..n]) && Run(origin, trace[..n]) == x;
    assert trace'[..n] == trace[..n];
  }

  // The tables hold the entry of the request, and the balance is what they add up to.
  ghost predicate Shows(db: Db, r: Request, balance: int) {
    && r.identity in db.credits
    && Entry(db.credits[r.identity], r.amount, r.key, r.reason, r.operator) in db.entries
    && balance == Total(db.entries, db.credits[r.identity])
  }

  ghost predicate Saw(origin: State, trace: seq<Event>, from: nat, r: Request, balance: int) {
    exists x: State :: Passed(origin, trace, from, x) && Shows(x.db, r, balance)
  }

  lemma SawStill(origin: State, trace: seq<Event>, trace': seq<Event>, from: nat, from': nat, r: Request, balance: int)
    requires Saw(origin, trace, from, r, balance) && trace <= trace' && from' <= from
    ensures Saw(origin, trace', from', r, balance)
  {
    var x: State :| Passed(origin, trace, from, x) && Shows(x.db, r, balance);
    PassedStill(origin, trace, trace', from, from', x);
  }

  // A longer history without a commit of `t` in what was added.
  ghost predicate Continues(before: seq<Event>, after: seq<Event>, t: TxId) {
    before <= after && forall i :: |before| <= i < |after| ==> after[i] != Commit(t)
  }

  ghost predicate Quiet(rivals: Schedule) {
    forall n :: rivals(n) == []
  }

  // The transaction wants a row or a unique value that another one has.
  ghost predicate Stuck(s: State, t: TxId) {
    t in s.txs && Blocked(s, t)
  }

  predicate Foreign(e: Event, t: TxId) {
    e.Begin? || e.tx != t
  }

  class Ledger {
    var s: State
    ghost var origin: State
    ghost var trace: seq<Event>
    ghost var previous: State // before the latest event

    // Everything the object goes through is a run of the protocol.
    ghost predicate Reachable()
      reads this
    {
      && Initial(origin) && Valid(origin, trace) && Run(origin, trace) == s
      && (trace != [] ==>
            var n := |trace| - 1;
            Valid(origin, trace[..n]) && Run(origin, trace[..n]) == previous)
    }

    // The call was one transaction of this run, named by the next free name: its first
    // event is the request, and its commit is the latest event or does not exist.
    twostate predicate Conducted(request: Request, done: bool)
      reads this
    {
      && origin == old(origin) && old(trace) < trace && trace[|old(trace)|] == Begin(request)
      && old(s).next !in s.txs
      && if done then trace[|trace| - 1] == Commit(old(s).next) else Continues(old(trace), trace, old(s).next)
    }

    // The transaction `t` went on without committing; with an error it is gone.
    twostate predicate Carried(t: TxId, gone: bool)
      reads this
    {
      && origin == old(origin) && Continues(old(trace), trace, t)
      && (gone ==> t !in s.txs && s.db == previous.db)
    }

    // A state this call went through.
    twostate predicate Met(x: State)
      reads this
    {
      Passed(origin, trace, |old(trace)|, x)
    }

    // Where nothing else was going on, nothing else is, and the tables are the same.
    twostate predicate Still(t: TxId)
      reads this
    {
      old(s).txs.Keys == {t} ==> s.db == old(s).db && s.txs.Keys <= {t}
    }

    // What the protocol guarantees to an open transaction.
    lemma Promise(t: TxId)
      requires Reachable() && t in s.txs
      ensures t < s.next && Inv(s) && Fact(s.db, t, s.txs[t])
    {
      RunKeepsInv(origin, trace);
    }

    constructor (s0: State)
      requires Initial(s0)
      ensures Reachable() && s == origin == s0 && trace == []
    {
      s, origin, trace, previous := s0, s0, [], s0;
    }

    method Perform(e: Event)
      requires Reachable() && Enabled(s, e)
      modifies this
      ensures Reachable() && s == Apply(old(s), e) && previous == old(s)
      ensures origin == old(origin) && trace == old(trace) + [e]
    {
      RunAppend(origin, trace, e);
      s, trace, previous := Apply(s, e), trace + [e], s;
      assert trace[..|trace| - 1] == old(trace);
    }

    method Others(t: TxId, rivals: seq<Event>)
      requires Reachable() && t in s.txs
      modifies this
      ensures Reachable() && t in s.txs && s.txs[t] == old(s.txs[t])
      ensures origin == old(origin) && Continues(old(trace), trace, t)
      ensures rivals == [] ==> s == old(s)
    {
      for i := 0 to |rivals|
        invariant Reachable() && t in s.txs && s.txs[t] == old(s.txs[t])
        invariant origin == old(origin) && Continues(old(trace), trace, t)
        invariant i == 0 ==> s == old(s)
      {
        if Foreign(rivals[i], t) && Enabled(s, rivals[i]) {
          assert t < s.next by { Promise(t); }
          Perform(rivals[i]);
        }
      }
    }

    // The statement itself: it executes, raises, or is still waiting for a concurrent
    // insert or row lock and the transaction is given up.
    method Execute(t: TxId) returns (raised: Option<Error>)
      requires Reachable() && t in s.txs && !s.txs[t].pc.Ready?
      modifies this
      ensures Reachable() && Carried(t, raised.Some?) && Still(t) && previous == old(s) && |trace| == |old(trace)| + 1
      ensures old(s).txs.Keys == {t} ==> raised != Some(Aborted)
      ensures raised.None? ==>
                && s.db == old(s).db && t in s.txs && Advance(old(s), t).Go?
                && s.txs[t] == old(s).txs[t].(pc := Advance(old(s), t).pc)
      ensures raised.Some? && raised != Some(Aborted) ==> Advance(old(s), t) == Fail(raised.value)
      ensures raised == Some(Aborted) ==> Stuck(old(s), t)
    {
      if Blocked(s, t) {
        Perform(Abort(t));
        raised := Some(Aborted);
      } else {
        raised := if Advance(s, t).Go? then None else Some(Advance(s, t).error);
        Perform(Step(t));
      }
    }

    // The others run, then the statement executes.
    method Statement(t: TxId, rivals: seq<Event>) returns (raised: Option<Error>)
      requires Reachable() && t in s.txs && !s.txs[t].pc.Ready?
      modifies this
      ensures Reachable() && Carried(t, raised.Some?) && Met(previous)
      ensures rivals == [] ==> Still(t) && (old(s).txs.Keys == {t} ==> raised != Some(Aborted))
      ensures raised == Some(Aborted) ==> Stuck(previous, t)
      ensures var pre := previous;
              && t in pre.txs && pre.txs[t] == old(s.txs[t]) && s.db == pre.db
              && Sound(pre.db) && Fact(pre.db, t, pre.txs[t])
              && (raised.None? ==>
                    t in s.txs && Advance(pre, t).Go? && s.txs[t] == pre.txs[t].(pc := Advance(pre, t).pc))
              && (raised.Some? ==> raised == Some(Aborted) || RefusedFor(s.db, pre.txs[t].request, raised.value))
    {
      hide Sound, Fact, Advance, Blocked, RefusedFor, Stuck;
      Others(t, rivals);
      assert Fact(s.db, t, s.txs[t]) && Sound(s.db) by { Promise(t); }
      raised := Execute(t);
      if raised.Some? && raised != Some(Aborted) { RefusedInTables(previous, t); }
      PreviousPassed(|old(trace)|);
    }

    // The latest state but one is a state of the run.
    lemma PreviousPassed(from: nat)
      requires Reachable() && from < |trace|
      ensures Passed(origin, trace, from, previous)
    {
    }

    // COMMIT: the tables become what the adjustment alone would make of them.
    method Finish(t: TxId, rivals: seq<Event>) returns (response: Response)
      requires Reachable() && t in s.txs && s.txs[t].pc.Ready?
      modifies this
      ensures Reachable() && origin == old(origin) && old(trace) < trace && trace[|trace| - 1] == Commit(t)
      ensures rivals == [] ==> previous == old(s)
      ensures t !in s.txs && response == old(s.txs[t]).pc.response
      ensures AnsweredAlone(previous.db, old(s.txs[t]).request, t, response, s.db)
      ensures if response.replayed then s.db == previous.db
              else Posted(previous.db, s.db, old(s.txs[t]).request, t, response.balance)
      ensures AppliedOnce(s.db, old(s.txs[t]).request)
    {
      Others(t, rivals);
      response := s.txs[t].pc.response;
      Promise(t);
      CommitIsSerial(s, t);
      AnsweredIsApplied(s.db, s.txs[t].request, t);
      ghost var before := s;
      Perform(Commit(t));
      AnsweredInTables(before.db, before.txs[t].request, t, response, s.db);
    }

    // The first statements of the transaction: the credit row, then the key.
    method Claim(t: TxId, rivals: Schedule) returns (raised: Option<Error>)
      requires Reachable() && t in s.txs && s.txs[t].pc.InsertCredit?
      modifies this
      ensures Reachable() && Carried(t, raised.Some?)
      ensures Quiet(rivals) ==> Still(t) && (old(s).txs.Keys == {t} ==> raised != Some(Aborted))
      ensures raised == Some(Aborted) ==> Stuck(previous, t)
      ensures raised.None? ==>
                && t in s.txs && s.txs[t].request == old(s.txs[t]).request
                && (s.txs[t].pc.Compare? || s.txs[t].pc.Increment?)
      ensures raised.Some? && raised != Some(Aborted) ==> RefusedFor(s.db, old(s.txs[t]).request, raised.value)
    {
      hide Reachable, RefusedFor, Sound, Passed, Stuck;
      raised := Statement(t, rivals(0));
      if raised.Some? { return; }
      raised := Statement(t, rivals(1));
      if raised.Some? { return; }
      raised := Statement(t, rivals(2));
    }

    // A key that was already used: the stored entry decides.
    method Replay(t: TxId, rivals: Schedule) returns (raised: Option<Error>)
      requires Reachable() && t in s.txs && s.txs[t].pc.Compare?
      modifies this
      ensures Reachable() && Carried(t, raised.Some?)
      ensures Quiet(rivals) ==> Still(t) && (old(s).txs.Keys == {t} ==> raised != Some(Aborted))
      ensures raised == Some(Aborted) ==> Stuck(previous, t)
      ensures raised.None? ==>
                && t in s.txs && s.txs[t].request == old(s.txs[t]).request
                && s.txs[t].pc.Ready? && s.txs[t].pc.response.replayed
                && Saw(origin, trace, |old(trace)|, s.txs[t].request, s.txs[t].pc.response.balance)
                && Shows(s.db, s.txs[t].request, s.txs[t].pc.response.balance)
      ensures raised.Some? && raised != Some(Aborted) ==> RefusedFor(s.db, old(s.txs[t]).request, raised.value)
    {
      hide Reachable, RefusedFor, Sound, Passed, Shows, Stuck;
      raised := Statement(t, rivals(3));
      if raised.Some? { return; }
      label Reading:
      raised := Statement(t, rivals(4));
      if raised.Some? { return; }
      ReadingShows(previous, t);
      PassedStill(origin, trace, trace, |old@Reading(trace)|, |old(trace)|, previous);
    }

    // A key claimed: increment, read back, audit.
    method Increase(t: TxId, rivals: Schedule) returns (raised: Option<Error>)
      requires Reachable() && t in s.txs && s.txs[t].pc.Increment?
      modifies this
      ensures Reachable() && Carried(t, raised.Some?)
      ensures Quiet(rivals) ==> Still(t) && (old(s).txs.Keys == {t} ==> raised != Some(Aborted))
      ensures raised == Some(Aborted) ==> Stuck(previous, t)
      ensures raised.None? ==>
                && t in s.txs && s.txs[t].request == old(s.txs[t]).request
                && s.txs[t].pc.Ready? && !s.txs[t].pc.response.replayed
      ensures raised.Some? && raised != Some(Aborted) ==> RefusedFor(s.db, old(s.txs[t]).request, raised.value)
    {
      hide Reachable, RefusedFor, Sound, Passed, Stuck;
      raised := Statement(t, rivals(3));
      if raised.Some? { return; }
      raised := Statement(t, rivals(4));
      if raised.Some? { return; }
      raised := Statement(t, rivals(5));
    }

    // Everything up to the commit.
    method Decide(t: TxId, rivals: Schedule) returns (raised: Option<Error>)
      requires Reachable() && t in s.txs && s.txs[t].pc.InsertCredit?
      modifies this
      ensures Reachable() && Carried(t, raised.Some?)
      ensures Quiet(rivals) ==> Still(t) && (old(s).txs.Keys == {t} ==> raised != Some(Aborted))
      ensures raised == Some(Aborted) ==> Stuck(previous, t)
      ensures raised.None? ==> t in s.txs && s.txs[t].request == old(s.txs[t]).request && s.txs[t].pc.Ready?
      ensures raised.None? && s.txs[t].pc.response.replayed ==>
                && Saw(origin, trace, |old(trace)|, s.txs[t].request, s.txs[t].pc.response.balance)
                && Shows(s.db, s.txs[t].request, s.txs[t].pc.response.balance)
      ensures raised.Some? && raised != Some(Aborted) ==> RefusedFor(s.db, old(s.txs[t]).request, raised.value)
    {
      hide Reachable, RefusedFor, Saw, Shows, Stuck;
      raised := Claim(t, rivals);
      if raised.None? {
        if s.txs[t].pc.Compare? {
          label Claimed:
          raised := Replay(t, rivals);
          if raised.None? {
            SawStill(origin, trace, trace, |old@Claimed(trace)|, |old(trace)|, s.txs[t].request,
                     s.txs[t].pc.response.balance);
          }
        } else {
          raised := Increase(t, rivals);
        }
      }
    }

    // The transaction of a validated request.
    method Transact(r: Request, rivals: Schedule) returns (o: Outcome)
      requires Reachable() && r.amount != 0
      modifies this
      ensures Reachable() && Conducted(r, o.Answered?) && o != Refused(Zero)
      ensures o == Refused(Aborted) ==> Stuck(previous, old(s).next)
      ensures o.Answered? ==>
                && AnsweredAlone(previous.db, r, old(s).next, o.response, s.db) && AppliedOnce(s.db, r)
                && if o.response.replayed
                   then s.db == previous.db && Saw(origin, trace, |old(trace)|, r, o.response.balance)
                   else Posted(previous.db, s.db, r, old(s).next, o.response.balance)
      ensures o.Refused? ==> s.db == previous.db && (o.error == Aborted || RefusedFor(s.db, r, o.error))
      ensures Quiet(rivals) && old(s).txs == map[] ==> previous.db == old(s).db && o == AloneOutcome(old(s).db, r)
    {
      hide Reachable, AnsweredAlone, AppliedOnce, RefusedFor, Posted, Saw, Shows, AloneOutcome, Stuck;
      ghost var db := s.db;
      assert Sound(db) by { SoundNow(); }
      var t := s.next;
      Perform(Begin(r));
      label Begun:
      var raised := Decide(t, rivals);
      if raised.Some? {
        if raised != Some(Aborted) {
          SoundNow();
          RefusedAlone(s.db, r, raised.value);
        }
        return Refused(raised.value);
      }
      label Decided:
      var response := Finish(t, rivals(6));
      o := Answered(response);
      if response.replayed {
        SawStill(origin, old@Decided(trace), trace, |old@Begun(trace)|, |old(trace)|, r, response.balance);
        if old@Decided(s).db == db { ReplayedAlone(db, r, response.balance); }
      } else if previous.db == db {
        PostedAlone(db, s.db, r, t, response.balance);
      }
    }

    lemma SoundNow()
      requires Reachable()
      ensures Sound(s.db)
    {
      RunKeepsInv(origin, trace);
    }

    // An amount of zero is refused before anything happens.  Everything else is one
    // transaction.  A new entry is answered with what the entries then add up to, a used
    // key with what they added up to in a state the call went through; nothing is
    // refused but for its reason, and alone an adjustment always ends as it should.
    method Adjust(body: Body, actor: nat, rivals: Schedule) returns (o: Outcome)
      requires Reachable() && Amounts.Grammar(body.amount)
      modifies this
      ensures Reachable()
      ensures o == Refused(Zero) <==> Amounts.Exact(body.amount) == 0.0
      ensures o == Refused(Zero) ==> s == old(s) && trace == old(trace) && origin == old(origin)
      ensures o != Refused(Zero) ==>
                var r := Request(body.identity, Amounts.Stored(body.amount), body.key, body.reason, actor);
                Conducted(r, o.Answered?)
      ensures o.Answered? ==>
                var r := Request(body.identity, Amounts.Stored(body.amount), body.key, body.reason, actor);
                AnsweredAlone(previous.db, r, old(s).next, o.response, s.db) && AppliedOnce(s.db, r)
      ensures o.Answered? && !o.response.replayed ==>
                var a, b, amount := previous.db, s.db, Amounts.Stored(body.amount);
                var credit := if body.identity in a.credits then a.credits[body.identity] else old(s).next;
                && body.identity in a.known && (forall e :: e in a.entries ==> e.key != body.key)
                && o.response.balance == Total(b.entries, credit)
                && b == Db(a.known, a.credits[body.identity := credit], a.balances[credit := o.response.balance],
                           a.entries + [Entry(credit, amount, body.key, body.reason, actor)], a.audits + [credit])
      ensures o.Answered? && o.response.replayed ==>
                && s.db == previous.db
                && exists x: State :: Met(x) && body.identity in x.db.credits &&
                     var credit := x.db.credits[body.identity];
                     && Entry(credit, Amounts.Stored(body.amount), body.key, body.reason, actor) in x.db.entries
                     && o.response.balance == Total(x.db.entries, credit)
      ensures o.Refused? && o.error != Zero ==> s.db == previous.db
      ensures o == Refused(Aborted) ==> Stuck(previous, old(s).next)
      ensures o == Refused(MissingRecord) ==> body.identity !in s.db.known
      ensures o == Refused(KeyReused) ==>
                var amount := Amounts.Stored(body.amount);
                exists e :: e in s.db.entries && e.key == body.key &&
                  !(&& body.identity in s.db.credits
                    && e == Entry(s.db.credits[body.identity], amount, body.key, body.reason, actor))
      ensures o == Refused(OutOfRange) ==>
                && (forall e :: e in s.db.entries ==> e.key != body.key)
                && var total := (if body.identity in s.db.credits
                                 then Total(s.db.entries, s.db.credits[body.identity]) else 0) +
                                Amounts.Stored(body.amount);
                   total <= -100_000_000_000_000_000_000 || total >= 100_000_000_000_000_000_000
      ensures (forall n :: rivals(n) == []) && old(s).txs == map[] && o != Refused(Zero) ==>
                var db, amount := old(s).db, Amounts.Stored(body.amount);
                var paid := if body.identity in db.credits then Total(db.entries, db.credits[body.identity]) else 0;
                && previous.db == db
                && o == if body.identity !in db.known then Refused(MissingRecord)
                        else if exists e :: e in db.entries && e.key == body.key then
                          if body.identity in db.credits &&
                             Entry(db.credits[body.identity], amount, body.key, body.reason, actor) in db.entries
                          then Answered(Response(paid, true))
                          else Refused(KeyReused)
                        else if paid + amount <= -100_000_000_000_000_000_000 ||
                                paid + amount >= 100_000_000_000_000_000_000
                        then Refused(OutOfRange)
                        else Answered(Response(paid + amount, false))
    {
      hide Reachable, AnsweredAlone, AppliedOnce, Stuck, Total, Sound, Passed;
      hide Amounts.Stored, Amounts.Exact, Amounts.Grammar, Amounts.ZeroTest;
      Amounts.ZeroTestIsExact(body.amount);
      if Amounts.ZeroTest(body.amount) {
        return Refused(Zero);
      }
      o := Transact(RequestOf(body, actor), rivals);
    }
  }
}
