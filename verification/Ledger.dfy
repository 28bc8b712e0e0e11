/** The committed database and what one booked operation does to it, in exact integers.
    Everything the services promise about the books is a property of `Replay`. */
module Ledger {
  import opened Currencies

  // ---- Rows ----

  // A wallet is identified with its owner: the schema allows one per user and one system wallet.
  datatype Owner = House | User(id: nat)

  // A balance row, identified by its unique (walletId, currency).
  datatype Slot = Slot(owner: Owner, ccy: Currency)

  datatype Side = Credit | Debit

  datatype Leg = Leg(slot: Slot, side: Side, amount: int, before: int, after: int)

  datatype Purpose = Funding | Exchange | Trading

  datatype Status = Pending | Success | Failed

  // The unique (userId, idempotencyKey) of a journal.
  datatype BookKey = BookKey(user: nat, key: nat)

  datatype Journal = Journal(id: nat, key: BookKey, purpose: Purpose, status: Status, rate: Option<int>, legs: seq<Leg>)

  // The payload of a `journal.created` outbox row.
  datatype Event = JournalCreated(journalId: nat, key: BookKey, purpose: Purpose, status: Status,
                                  rate: Option<int>, legs: seq<Leg>)

  datatype OrderStatus = OrderPending | Filled | Rejected

  datatype Order = Order(id: nat, user: nat, src: Currency, dst: Currency, amountIn: int, amountOut: int,
                         status: OrderStatus, quoteId: nat, journalId: Option<nat>)

  datatype Db = Db(balances: map<Slot, int>, journals: seq<Journal>, outbox: seq<Event>, orders: seq<Order>)

  // The effective rate is kept to 10 decimals, in units of the tenth; times are in milliseconds.
  datatype Quote = Quote(id: nat, user: nat, src: Currency, dst: Currency, amountIn: int, amountOut: int,
                         rate: int, expiresAt: int)

  // ---- Operations ----

  /** What a request comes down to once its rate or quote is known.  A conversion's rate is
      in units of the eighth decimal, the last one of the journal's rate column. */
  datatype Op =
    | Fund(key: BookKey, ccy: Currency, amount: int)
    | Convert(key: BookKey, src: Currency, dst: Currency, amount: int, converted: int, rate: int, purpose: Purpose)
    | Trade(key: BookKey, quote: Quote)

  /** What the services check before opening a transaction, and `createQuote` before issuing. */
  ghost predicate ValidOp(op: Op) {
    match op
    case Fund(_, _, amount) => 0 < amount
    case Convert(_, src, dst, amount, converted, _, purpose) =>
      src != dst && 0 < amount && 0 < converted && purpose != Funding
    case Trade(key, q) => ValidQuote(q) && q.user == key.user
  }

  ghost predicate ValidQuote(q: Quote) {
    q.src != q.dst && 0 < q.amountIn && 0 < q.amountOut
  }

  /** The balance rows an operation locks, in the order it locks and later updates them. */
  function Plan(op: Op): (plan: seq<Slot>)
    ensures |plan| == 2 || |plan| == 4
  {
    match op
    case Fund(key, ccy, _) => [Slot(User(key.user), ccy), Slot(House, ccy)]
    case Convert(key, src, dst, _, _, _, _) => ExchangePlan(key.user, src, dst)
    case Trade(key, q) => ExchangePlan(key.user, q.src, q.dst)
  }

  function ExchangePlan(user: nat, src: Currency, dst: Currency): (plan: seq<Slot>)
    ensures |plan| == 4
  {
    [Slot(User(user), src), Slot(User(user), dst), Slot(House, src), Slot(House, dst)]
  }

  function SourceOf(op: Op): Currency {
    match op case Fund(_, c, _) => c case Convert(_, src, _, _, _, _, _) => src case Trade(_, q) => q.src
  }

  function TargetOf(op: Op): Currency {
    match op case Fund(_, c, _) => c case Convert(_, _, dst, _, _, _, _) => dst case Trade(_, q) => q.dst
  }

  function AmountIn(op: Op): int {
    match op case Fund(_, _, a) => a case Convert(_, _, _, a, _, _, _) => a case Trade(_, q) => q.amountIn
  }

  function AmountOut(op: Op): int {
    match op case Fund(_, _, a) => a case Convert(_, _, _, _, c, _, _) => c case Trade(_, q) => q.amountOut
  }

  /** What each planned row changes by. */
  function Deltas(op: Op): (d: seq<int>)
    ensures |d| == |Plan(op)|
  {
    if op.Fund? then [AmountIn(op), -AmountIn(op)]
    else [-AmountIn(op), AmountOut(op), AmountIn(op), -AmountOut(op)]
  }

  /** Only the row that receives money may be created on the way. */
  predicate MayInsert(op: Op, i: nat) {
    if op.Fund? then i == 0 else i == 1
  }

  function Amount(m: map<Slot, int>, s: Slot): int {
    if s in m then m[s] else 0
  }

  function Befores(m: map<Slot, int>, op: Op): (b: seq<int>)
    ensures |b| == |Plan(op)|
  {
    seq(|Plan(op)|, i requires 0 <= i < |Plan(op)| => Amount(m, Plan(op)[i]))
  }

  function Afters(op: Op, befores: seq<int>): (a: seq<int>)
    requires |befores| == |Plan(op)|
    ensures |a| == |befores|
  {
    seq(|befores|, i requires 0 <= i < |befores| => befores[i] + Deltas(op)[i])
  }

  /** The legs of the journal, in the order the services list them. */
  function LegsOf(op: Op, amountIn: int, amountOut: int, befores: seq<int>, afters: seq<int>): seq<Leg>
    requires |befores| == |afters| == |Plan(op)|
  {
    var p := Plan(op);
    if op.Fund? then
      [Leg(p[0], Credit, amountIn, befores[0], afters[0]),
       Leg(p[1], Debit, amountIn, befores[1], afters[1])]
    else
      [Leg(p[0], Debit, amountIn, befores[0], afters[0]),
       Leg(p[2], Credit, amountIn, befores[2], afters[2]),
       Leg(p[3], Debit, amountOut, befores[3], afters[3]),
       Leg(p[1], Credit, amountOut, befores[1], afters[1])]
  }

  /** The rate as the journal's column stores it, to 8 decimals; the column rounds a quote's
      ten decimals half up. */
  function RateOf(op: Op): Option<int> {
    match op
    case Fund(_, _, _) => None
    case Convert(_, _, _, _, _, r, _) => Some(r)
    case Trade(_, q) => Some((q.rate + 50) / 100)
  }

  // The journal's rate column takes positive numbers of 18 digits, 8 of them decimals.
  predicate JournalTakesRate(rate: Option<int>) {
    rate.Some? ==> 0 < rate.value < 1_000_000_000_000_000_000
  }

  // The order's takes numbers of 18 digits, 10 of them decimals.
  predicate OrderTakesRate(rate: int) {
    -1_000_000_000_000_000_000 < rate < 1_000_000_000_000_000_000
  }

  predicate RateStorable(op: Op) {
    JournalTakesRate(RateOf(op)) && (op.Trade? ==> OrderTakesRate(op.quote.rate))
  }

  function PurposeOf(op: Op): Purpose {
    match op case Fund(_, _, _) => Funding case Convert(_, _, _, _, _, _, p) => p case Trade(_, _) => Trading
  }

  function JournalOf(id: nat, op: Op, legs: seq<Leg>): Journal {
    Journal(id, op.key, PurposeOf(op), Success, RateOf(op), legs)
  }

  function EventOf(j: Journal): Event {
    JournalCreated(j.id, j.key, j.purpose, j.status, j.rate, j.legs)
  }

  function FilledOrder(id: nat, q: Quote, journalId: nat): Order {
    Order(id, q.user, q.src, q.dst, q.amountIn, q.amountOut, Filled, q.id, Some(journalId))
  }

  function RejectedOrder(id: nat, q: Quote): Order {
    Order(id, q.user, q.src, q.dst, q.amountIn, q.amountOut, Rejected, q.id, None)
  }

  /** Write the first n values into their rows, one after the other. */
  function Put(m: map<Slot, int>, slots: seq<Slot>, values: seq<int>, n: nat): map<Slot, int>
    requires n <= |slots| == |values|
  {
    if n == 0 then m else Put(m, slots, values, n - 1)[slots[n - 1] := values[n - 1]]
  }

  predicate KeyFresh(db: Db, key: BookKey) {
    forall j :: 0 <= j < |db.journals| ==> db.journals[j].key != key
  }

  /** An operation goes through when its rows are there (or may be created), nobody is
      overdrawn, and its idempotency key is new. */
  ghost predicate Accepts(db: Db, op: Op) {
    && KeyFresh(db, op.key)
    && RateStorable(op)
    && (forall i :: 0 <= i < |Plan(op)| ==> Plan(op)[i] in db.balances || MayInsert(op, i))
    && (forall i :: 0 <= i < |Plan(op)| ==> 0 <= Afters(op, Befores(db.balances, op))[i])
  }

  function Book(db: Db, id: nat, op: Op): Db {
    var befores := Befores(db.balances, op);
    var afters := Afters(op, befores);
    var j := JournalOf(id, op, LegsOf(op, AmountIn(op), AmountOut(op), befores, afters));
    Db(Put(db.balances, Plan(op), afters, |Plan(op)|),
       db.journals + [j],
       db.outbox + [EventOf(j)],
       db.orders + if op.Trade? then [FilledOrder(id, op.quote, id)] else [])
  }

  // ---- Serial execution ----

  datatype Entry = Booked(id: nat, op: Op) | Audited(id: nat, quote: Quote)

  /** One entry of a serial history: an operation run alone, or the order row that a failed
      trade leaves behind. */
  ghost function Apply(db: Db, e: Entry): Option<Db> {
    match e
    case Booked(id, op) => if ValidOp(op) && Accepts(db, op) then Some(Book(db, id, op)) else None
    case Audited(id, q) => Some(db.(orders := db.orders + [RejectedOrder(id, q)]))
  }

  ghost function Replay(log: seq<Entry>): Option<Db> {
    if log == [] then Some(SeedDb())
    else
      match Replay(log[..|log| - 1])
      case None => None
      case Some(db) => Apply(db, log[|log| - 1])
  }

  // ---- The seed ----

  const SEED: int := 9_000_000_000_000_000

  const CURRENCIES: seq<Currency> := [NGN, USD, EUR, GBP, CAD, AUD, CHF, JPY, CNY, ZAR, KES, GHS]

  function SeedBalances(): map<Slot, int> {
    map c: Currency | c in CURRENCIES :: Slot(House, c) := SEED
  }

  function SeedDb(): Db {
    Db(SeedBalances(), [], [], [])
  }
}
