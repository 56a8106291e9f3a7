/**
 Credit adjustments as concurrent transactions.  A step is one statement; an
 INSERT .. ON CONFLICT DO NOTHING waits for a concurrent uncommitted insert of the
 same unique value, and the balance increment waits for the row lock.  Amounts and
 balances are integers in ten-thousandths, as numeric(20,4) holds them.  The serial
 id drawn by an insert in transaction `t` is named `t`.
 */
module CreditProtocol {
  import opened Common

  type TxId = nat
  type CreditId = nat

  datatype Identity = Identity(account: nat, currency: nat)

  datatype Request = Request(identity: Identity, amount: int, key: nat, reason: string, operator: nat)

  datatype Entry = Entry(credit: CreditId, amount: int, key: nat, reason: string, operator: nat)

  // `known` are the account and currency pairs that the foreign keys accept,
  // `audits` the credit ids of the 'credit.adjusted' rows in the activity table.
  datatype Db = Db(known: set<Identity>, credits: map<Identity, CreditId>, balances: map<CreditId, int>,
                   entries: seq<Entry>, audits: seq<CreditId>)

  const BALANCE_BOUND := 100_000_000_000_000_000_000 // 10^16 with four decimals

  datatype Error = MissingRecord | KeyReused | OutOfRange | Zero | Aborted

  datatype Response = Response(balance: int, replayed: bool)

  function EntryOf(r: Request, credit: CreditId): Entry {
    Entry(credit, r.amount, r.key, r.reason, r.operator)
  }

  predicate KeyTaken(db: Db, key: nat) {
    exists i :: 0 <= i < |db.entries| && db.entries[i].key == key
  }

  function BalanceOf(db: Db, credit: CreditId): int {
    if credit in db.balances then db.balances[credit] else 0
  }

  // ----- one adjustment run alone -----

  datatype Serial = Serial(db: Db, outcome: Outcome)
  datatype Outcome = Answered(response: Response) | Refused(error: Error)

  // INSERT INTO account_credits with the default balance.
  function WithCredit(db: Db, id: Identity, credit: CreditId): Db {
    db.(credits := db.credits[id := credit], balances := db.balances[credit := 0])
  }

  // The entry, the new balance and the audit row.
  function Post(db: Db, e: Entry, balance: int): Db {
    db.(balances := db.balances[e.credit := balance], entries := db.entries + [e], audits := db.audits + [e.credit])
  }

  // `newId` is the id a new credit row would get.
  function AdjustAlone(db: Db, r: Request, newId: CreditId): Serial {
    var tables := if r.identity in db.credits then db else WithCredit(db, r.identity, newId);
    var credit := tables.credits[r.identity];
    var balance := BalanceOf(tables, credit) + r.amount;
    if r.identity !in db.known then Serial(db, Refused(MissingRecord))
    else if KeyTaken(db, r.key) then
      if EntryOf(r, credit) in db.entries then Serial(db, Answered(Response(BalanceOf(db, credit), true)))
      else Serial(db, Refused(KeyReused))
    else if !(-BALANCE_BOUND < balance < BALANCE_BOUND) then Serial(db, Refused(OutOfRange))
    else Serial(Post(tables, EntryOf(r, credit), balance), Answered(Response(balance, false)))
  }

  // ----- the same adjustment among others -----

  // `created` says whether the transaction inserted the credit row itself.
  datatype Pc =
    | InsertCredit
    | FindCredit(created: bool)
    | ClaimKey(created: bool, credit: CreditId)
    | Compare(created: bool, credit: CreditId)
    | ReadReplay(created: bool, credit: CreditId)
    | Increment(created: bool, credit: CreditId)
    | ReadBack(created: bool, credit: CreditId, balance: int)
    | WriteAudit(created: bool, credit: CreditId, balance: int, response: Response)
    | Ready(created: bool, credit: CreditId, balance: int, response: Response)

  datatype Tx = Tx(request: Request, pc: Pc)

  datatype State = State(db: Db, txs: map<TxId, Tx>, next: TxId)

  datatype Next = Go(pc: Pc) | Fail(error: Error)

  // Uncommitted rows and row locks.
  predicate HoldsIdentity(tx: Tx, id: Identity) {
    !tx.pc.InsertCredit? && tx.pc.created && tx.request.identity == id
  }

  predicate HoldsKey(tx: Tx, key: nat) {
    tx.request.key == key &&
    (tx.pc.Increment? || tx.pc.ReadBack? || tx.pc.WriteAudit? || (tx.pc.Ready? && !tx.pc.response.replayed))
  }

  predicate HoldsCredit(tx: Tx, credit: CreditId) {
    (tx.pc.ReadBack? || tx.pc.WriteAudit? || (tx.pc.Ready? && !tx.pc.response.replayed)) && tx.pc.credit == credit
  }

  predicate Blocked(s: State, t: TxId)
    requires t in s.txs
  {
    var tx := s.txs[t];
    match tx.pc
    case InsertCredit => exists t' :: t' in s.txs && t' != t && HoldsIdentity(s.txs[t'], tx.request.identity)
    case ClaimKey(_, _) => exists t' :: t' in s.txs && t' != t && HoldsKey(s.txs[t'], tx.request.key)
    case Increment(_, credit) => exists t' :: t' in s.txs && t' != t && HoldsCredit(s.txs[t'], credit)
    case _ => false
  }

  function Advance(s: State, t: TxId): Next
    requires t in s.txs
  {
    var db, r := s.db, s.txs[t].request;
    match s.txs[t].pc
    case InsertCredit =>
      if r.identity in db.credits then Go(FindCredit(false))
      else if r.identity in db.known then Go(FindCredit(true))
      else Fail(MissingRecord)
    case FindCredit(created) =>
      if created then Go(ClaimKey(true, t))
      else if r.identity in db.credits then Go(ClaimKey(false, db.credits[r.identity]))
      else Fail(MissingRecord)
    case ClaimKey(created, credit) =>
      if KeyTaken(db, r.key) then Go(Compare(created, credit)) else Go(Increment(created, credit))
    case Compare(created, credit) =>
      if EntryOf(r, credit) in db.entries then Go(ReadReplay(created, credit)) else Fail(KeyReused)
    case ReadReplay(created, credit) =>
      Go(Ready(created, credit, BalanceOf(db, credit), Response(BalanceOf(db, credit), true)))
    case Increment(created, credit) =>
      var balance := BalanceOf(db, credit) + r.amount;
      if -BALANCE_BOUND < balance < BALANCE_BOUND then Go(ReadBack(created, credit, balance)) else Fail(OutOfRange)
    case ReadBack(created, credit, balance) =>
      Go(WriteAudit(created, credit, balance, Response(balance, false)))
    case WriteAudit(created, credit, balance, response) =>
      Go(Ready(created, credit, balance, response))
    case Ready(_, _, _, _) => Go(s.txs[t].pc)
  }

  function ApplyCommit(db: Db, t: TxId, tx: Tx): Db
    requires tx.pc.Ready?
  {
    var r, pc := tx.request, tx.pc;
    var tables := if pc.created then WithCredit(db, r.identity, t) else db;
    if pc.response.replayed then tables else Post(tables, EntryOf(r, pc.credit), pc.balance)
  }

  datatype Event = Begin(request: Request) | Step(tx: TxId) | Commit(tx: TxId) | Abort(tx: TxId)

  predicate Enabled(s: State, e: Event) {
    match e
    case Begin(r) => r.amount != 0
    case Step(t) => t in s.txs && !s.txs[t].pc.Ready? && !Blocked(s, t)
    case Commit(t) => t in s.txs && s.txs[t].pc.Ready?
    case Abort(t) => t in s.txs
  }

  function Apply(s: State, e: Event): State
    requires Enabled(s, e)
  {
    match e
    case Begin(r) => s.(txs := s.txs[s.next := Tx(r, InsertCredit)], next := s.next + 1)
    case Step(t) =>
      (match Advance(s, t)
       case Go(pc) => s.(txs := s.txs[t := s.txs[t].(pc := pc)])
       case Fail(_) => s.(txs := s.txs - {t}))
    case Commit(t) => s.(db := ApplyCommit(s.db, t, s.txs[t]), txs := s.txs - {t})
    case Abort(t) => s.(txs := s.txs - {t})
  }

  predicate Valid(s: State, es: seq<Event>)
    decreases |es|
  {
    es == [] || (Enabled(s, es[0]) && Valid(Apply(s, es[0]), es[1..]))
  }

  function Run(s: State, es: seq<Event>): State
    requires Valid(s, es)
    decreases |es|
  {
    if es == [] then s else Run(Apply(s, es[0]), es[1..])
  }
}
