/** The three money flows one request at a time, in the machine's arithmetic, proved against the
    exact bookkeeping.  `Engine` has the same flows interleaved. */
module WalletService {
  import opened Currencies
  import opened Decimal40
  import opened Doubles
  import opened Money
  import opened Ledger
  import opened LedgerFacts
  import opened MachineMoney
  import opened Database
  import opened QuoteService
  import opened Outcomes
  import opened Results
  import C = WalletCache
  import F = FairPayouts
  import Q = QuoteStore

  predicate Whole(x: real) {
    x == x.Floor as real
  }

  /** A rate in the last of eight decimals, as the journal keeps it. */
  function EightDecimals(rate: real): int {
    HalfEven(rate * 100_000_000.0)
  }

  /** Why the database or a check turns an operation down, in the order they are met. */
  function RefusalOf(db: Db, op: Op): Error {
    if !op.Fund? && Amount(db.balances, Plan(op)[0]) < AmountIn(op) then InsufficientBalance
    else if Amount(db.balances, Plan(op)[|Plan(op)| - 1]) < AmountOut(op) then LiquidityExhausted
    else Internal
  }

  /** What a look-up by key makes of a request before anything else is done. */
  function ReplayOf(found: Journal): Result<Receipt> {
    match found.status
    case Success => Ok(Receipt(true, found))
    case Pending => Err(InProgress)
    case Failed => Err(FailedBefore)
  }

  /** For an operation on sound books, what the machine checks is what `Accepts` asks. */
  lemma AcceptsIsChecks(db: Db, op: Op)
    requires Conserved(db.balances) && ValidOp(op)
    ensures Accepts(db, op) <==>
      && KeyFresh(db, op.key) && RateStorable(op)
      && !Refuses(op, 0, Befores(db.balances, op)[0])
      && !Refuses(op, |Plan(op)| - 1, Befores(db.balances, op)[|Plan(op)| - 1])
  {
    var m, p, b := db.balances, Plan(op), Befores(db.balances, op);
    forall i | 0 <= i < |p| ensures Refuses(op, i, b[i]) <==> Afters(op, b)[i] < 0 { ChecksAreExact(m, op, i); }
    forall i | 0 <= i < |p| ensures 0 <= b[i] { BalanceBounded(m, p[i]); }
    assert Slot(House, AnyCurrency(op)) in m;
    if !Refuses(op, 0, b[0]) { PaidRowExists(m, op); }
  }

  function AnyCurrency(op: Op): Currency {
    Plan(op)[0].ccy
  }

  /** A row that can pay is there. */
  lemma PaidRowExists(m: map<Slot, int>, op: Op)
    requires Conserved(m) && ValidOp(op) && !Refuses(op, 0, Befores(m, op)[0])
    ensures forall i :: 0 <= i < |Plan(op)| ==> Plan(op)[i] in m || MayInsert(op, i)
  {
    ChecksAreExact(m, op, 0);
    forall i | 0 <= i < |Plan(op)| && Plan(op)[i].owner == House ensures Plan(op)[i] in m { }
  }

  lemma AfterParts(m: map<Slot, int>, op: Op)
    ensures Afters(op, Befores(m, op))[0] == Amount(m, Plan(op)[0]) + if op.Fund? then AmountIn(op) else -AmountIn(op)
    ensures Afters(op, Befores(m, op))[|Plan(op)| - 1] == Amount(m, Plan(op)[|Plan(op)| - 1]) - AmountOut(op)
  {
    var b := Befores(m, op);
    forall i | 0 <= i < |Plan(op)|
      ensures Afters(op, b)[i] == Amount(m, Plan(op)[i]) + Deltas(op)[i]
    { AfterAt(m, op, i); }
  }

  /** Which refusal it is when a check fails, and when none does. */
  lemma RefusalIsFirst(db: Db, op: Op)
    requires Conserved(db.balances) && ValidOp(op)
    ensures var b, last := Befores(db.balances, op), |Plan(op)| - 1;
            RefusalOf(db, op) ==
              if Refuses(op, 0, b[0]) then InsufficientBalance
              else if Refuses(op, last, b[last]) then LiquidityExhausted
              else Internal
  {
    ChecksAreExact(db.balances, op, |Plan(op)| - 1);
    ChecksAreExact(db.balances, op, 0);
    AfterParts(db.balances, op);
    BalanceBounded(db.balances, Plan(op)[0]);
  }

  /** What the machine's numbers are, once every check has passed. */
  lemma ChecksPassed(db: Db, op: Op)
    requires Conserved(db.balances) && ValidOp(op)
    requires !Refuses(op, 0, Befores(db.balances, op)[0])
    requires !Refuses(op, |Plan(op)| - 1, Befores(db.balances, op)[|Plan(op)| - 1])
    ensures var b := Befores(db.balances, op); var a := Afters(op, b);
            && (forall i :: 0 <= i < |Plan(op)| ==>
                  Number(b[i]) == b[i] && MachineAfter(op, i, b[i]) == a[i] && Storable(a[i]))
            && MachineLegs(op, b) == LegsOf(op, AmountIn(op), AmountOut(op), b, a)
            && (forall i :: 0 <= i < |MachineLegs(op, b)| ==> LegStorable(MachineLegs(op, b)[i]))
    ensures forall i :: 0 <= i < |Plan(op)| ==> Plan(op)[i] in db.balances || MayInsert(op, i)
    ensures Number(AmountIn(op)) == AmountIn(op) && Number(AmountOut(op)) == AmountOut(op)
  {
    var m, b := db.balances, Befores(db.balances, op);
    PaidRowExists(m, op);
    MachineIsExact(m, op);
    LegsStorable(m, op);
    AcceptedBounded(m, op);
    NumberExact(AmountIn(op));
    NumberExact(AmountOut(op));
    forall i | 0 <= i < |Plan(op)|
      ensures Number(b[i]) == b[i] && MachineAfter(op, i, b[i]) == Afters(op, b)[i]
    { AfterIsExact(m, op, i); }
  }

  /** Everything a funding's transaction needs to know about its numbers. */
  lemma FundFacts(db: Db, op: Op)
    requires Conserved(db.balances) && ValidOp(op) && op.Fund?
    ensures var own, house := Amount(db.balances, Plan(op)[0]), Amount(db.balances, Plan(op)[1]);
            && Plan(op)[1] in db.balances && Number(0) == 0
            && (Number(Number(house) - op.amount) < 0 ==> !Accepts(db, op) && RefusalOf(db, op) == LiquidityExhausted)
            && (Number(Number(house) - op.amount) >= 0 ==>
                  && (Accepts(db, op) <==> KeyFresh(db, op.key)) && RefusalOf(db, op) == Internal
                  && Number(own) == own && Number(own + op.amount) == own + op.amount && Storable(own + op.amount)
                  && Number(house) == house && Number(house - op.amount) == house - op.amount
                  && Storable(house - op.amount)
                  && forall i :: 0 <= i < 2 ==> LegStorable(FundLegs(db, op)[i]))
  {
    AcceptsIsChecks(db, op);
    RefusalIsFirst(db, op);
    NumberExact(0);
    var b := Befores(db.balances, op);
    if Number(Number(b[1]) - op.amount) >= 0 { ChecksPassed(db, op); }
  }

  function FundLegs(db: Db, op: Op): (legs: seq<Leg>)
    requires op.Fund?
    ensures |legs| == 2
  {
    var own, house := Amount(db.balances, Plan(op)[0]), Amount(db.balances, Plan(op)[1]);
    [Leg(Plan(op)[0], Credit, op.amount, own, own + op.amount),
     Leg(Plan(op)[1], Debit, op.amount, house, house - op.amount)]
  }

  lemma FundIsBook(db: Db, id: nat, op: Op, db': Db)
    requires ValidOp(op) && op.Fund?
    requires var own, house := Amount(db.balances, Plan(op)[0]), Amount(db.balances, Plan(op)[1]);
             (db'.balances == db.balances[Plan(op)[0] := own + op.amount][Plan(op)[1] := house - op.amount])
    requires db'.journals == db.journals + [JournalOf(id, op, FundLegs(db, op))] && db'.orders == db.orders
    requires db'.outbox == db.outbox + [EventOf(JournalOf(id, op, FundLegs(db, op)))]
    ensures db' == Book(db, id, op)
  {
    var b := Befores(db.balances, op);
    AfterParts(db.balances, op);
    assert b[0] == Amount(db.balances, Plan(op)[0]) && b[1] == Amount(db.balances, Plan(op)[1]);
    assert LegsOf(op, AmountIn(op), AmountOut(op), b, Afters(op, b)) == FundLegs(db, op);
    assert Put(db.balances, Plan(op), Afters(op, b), 1) == db.balances[Plan(op)[0] := Afters(op, b)[0]];
  }

  /** The same for a conversion or a trade, whose rows are checked at both ends of the plan. */
  lemma ExchangeFacts(db: Db, op: Op)
    requires Conserved(db.balances) && ValidOp(op) && !op.Fund?
    ensures var m, p := db.balances, Plan(op);
            && p[2] in m && p[3] in m && Number(0) == 0
            && (Refuses(op, 0, Amount(m, p[0])) ==> !Accepts(db, op) && RefusalOf(db, op) == InsufficientBalance)
            && (!Refuses(op, 0, Amount(m, p[0])) ==> p[0] in m)
            && (!Refuses(op, 0, Amount(m, p[0])) && Refuses(op, 3, Amount(m, p[3])) ==>
                  !Accepts(db, op) && RefusalOf(db, op) == LiquidityExhausted)
            && (!Refuses(op, 0, Amount(m, p[0])) && !Refuses(op, 3, Amount(m, p[3])) ==>
                  (Accepts(db, op) <==> KeyFresh(db, op.key) && RateStorable(op)) && RefusalOf(db, op) == Internal)
  {
    AcceptsIsChecks(db, op);
    RefusalIsFirst(db, op);
    NumberExact(0);
    var b := Befores(db.balances, op);
    assert b[0] == Amount(db.balances, Plan(op)[0]) && b[3] == Amount(db.balances, Plan(op)[3]);
    if !Refuses(op, 0, b[0]) { PaidRowExists(db.balances, op); }
  }

  function ExchangeLegs(db: Db, op: Op): (legs: seq<Leg>)
    requires !op.Fund?
    ensures |legs| == 4
  {
    var m, p := db.balances, Plan(op);
    [Leg(p[0], Debit, AmountIn(op), Amount(m, p[0]), Amount(m, p[0]) - AmountIn(op)),
     Leg(p[2], Credit, AmountIn(op), Amount(m, p[2]), Amount(m, p[2]) + AmountIn(op)),
     Leg(p[3], Debit, AmountOut(op), Amount(m, p[3]), Amount(m, p[3]) - AmountOut(op)),
     Leg(p[1], Credit, AmountOut(op), Amount(m, p[1]), Amount(m, p[1]) + AmountOut(op))]
  }

  lemma ExchangeLegsAreBooked(db: Db, op: Op)
    requires !op.Fund?
    ensures var b := Befores(db.balances, op);
            LegsOf(op, AmountIn(op), AmountOut(op), b, Afters(op, b)) == ExchangeLegs(db, op)
  {
    var m, b := db.balances, Befores(db.balances, op);
    RowAt(m, op, 0);
    RowAt(m, op, 1);
    RowAt(m, op, 2);
    RowAt(m, op, 3);
    FourLegs(db, op, b, Afters(op, b));
  }

  /** What an exchange reads from and writes to each of its rows. */
  lemma RowAt(m: map<Slot, int>, op: Op, i: nat)
    requires !op.Fund? && i < 4
    ensures Befores(m, op)[i] == Amount(m, Plan(op)[i])
    ensures Afters(op, Befores(m, op))[i] == Amount(m, Plan(op)[i])
      + (if i == 0 then -AmountIn(op) else if i == 1 then AmountOut(op)
         else if i == 2 then AmountIn(op) else -AmountOut(op))
  {
    AfterAt(m, op, i);
  }

  lemma FourLegs(db: Db, op: Op, b: seq<int>, a: seq<int>)
    requires !op.Fund? && |b| == |a| == 4
    requires forall i :: 0 <= i < 4 ==> b[i] == Amount(db.balances, Plan(op)[i])
    requires a[0] == b[0] - AmountIn(op) && a[1] == b[1] + AmountOut(op)
    requires a[2] == b[2] + AmountIn(op) && a[3] == b[3] - AmountOut(op)
    ensures LegsOf(op, AmountIn(op), AmountOut(op), b, a) == ExchangeLegs(db, op)
  {
    assert forall i :: 0 <= i < 4 ==> LegsOf(op, AmountIn(op), AmountOut(op), b, a)[i] == ExchangeLegs(db, op)[i];
  }

  /** A number that a double holds and a balance column takes. */
  predicate Exact(n: int) {
    Number(n) == n && Storable(n)
  }

  /** With both checks passed, every number along the way is exact. */
  lemma ExchangeNumbers(db: Db, op: Op)
    requires Conserved(db.balances) && ValidOp(op) && !op.Fund?
    requires !Refuses(op, 0, Amount(db.balances, Plan(op)[0])) && !Refuses(op, 3, Amount(db.balances, Plan(op)[3]))
    ensures var m, p := db.balances, Plan(op);
            && Exact(Amount(m, p[0])) && Exact(Amount(m, p[0]) - AmountIn(op))
            && Exact(Amount(m, p[1])) && Exact(Amount(m, p[1]) + AmountOut(op))
            && Exact(Amount(m, p[2])) && Exact(Amount(m, p[2]) + AmountIn(op))
            && Exact(Amount(m, p[3])) && Exact(Amount(m, p[3]) - AmountOut(op))
            && Exact(AmountIn(op)) && Exact(AmountOut(op))
            && (forall i :: 0 <= i < 4 ==> LegStorable(ExchangeLegs(db, op)[i]))
  {
    var m, p, b := db.balances, Plan(op), Befores(db.balances, op);
    assert b[0] == Amount(m, p[0]) && b[3] == Amount(m, p[3]);
    ChecksPassed(db, op);
    ExchangeLegsAreBooked(db, op);
    AcceptedParts(m, op);
    ExactWithin(Amount(m, p[0]));
    ExactWithin(Amount(m, p[1]));
    ExactWithin(Amount(m, p[2]));
    ExactWithin(Amount(m, p[3]));
    ExactWithin(Amount(m, p[0]) - AmountIn(op));
    ExactWithin(Amount(m, p[1]) + AmountOut(op));
    ExactWithin(Amount(m, p[2]) + AmountIn(op));
    ExactWithin(Amount(m, p[3]) - AmountOut(op));
    ExactWithin(AmountIn(op));
    ExactWithin(AmountOut(op));
  }

  lemma ExactWithin(n: int)
    requires 0 <= n <= SEED
    ensures Exact(n)
  {
    NumberExact(n);
  }

  lemma AcceptedParts(m: map<Slot, int>, op: Op)
    requires Conserved(m) && ValidOp(op) && !op.Fund?
    requires !Refuses(op, 0, Befores(m, op)[0]) && !Refuses(op, 3, Befores(m, op)[3])
    ensures var p := Plan(op);
            && 0 <= Amount(m, p[0]) <= SEED && 0 <= Amount(m, p[0]) - AmountIn(op) <= SEED
            && 0 <= Amount(m, p[1]) <= SEED && 0 <= Amount(m, p[1]) + AmountOut(op) <= SEED
            && 0 <= Amount(m, p[2]) <= SEED && 0 <= Amount(m, p[2]) + AmountIn(op) <= SEED
            && 0 <= Amount(m, p[3]) <= SEED && 0 <= Amount(m, p[3]) - AmountOut(op) <= SEED
            && 0 < AmountIn(op) <= SEED && 0 < AmountOut(op) <= SEED
  {
    forall i | 0 <= i < 4 ensures 0 <= Amount(m, Plan(op)[i]) <= SEED && Befores(m, op)[i] == Amount(m, Plan(op)[i])
    {
      BalanceBounded(m, Plan(op)[i]);
    }
    forall i | 0 <= i < 4 ensures 0 <= Afters(op, Befores(m, op))[i] { ChecksAreExact(m, op, i); }
    AcceptedBounded(m, op);
    AfterAt(m, op, 0);
    AfterAt(m, op, 1);
    AfterAt(m, op, 2);
    AfterAt(m, op, 3);
  }

  /** Books with the four rows, the journal, its outbox row and a trade's order written are the
      booked ones. */
  lemma ExchangeIsBook(db: Db, id: nat, op: Op, db': Db, legs: seq<Leg>)
    requires !op.Fund?
    requires legs == LegsOf(op, AmountIn(op), AmountOut(op),
                            Befores(db.balances, op), Afters(op, Befores(db.balances, op)))
    requires db'.balances == Put(db.balances, Plan(op), Afters(op, Befores(db.balances, op)), 4)
    requires db'.journals == db.journals + [JournalOf(id, op, legs)]
    requires db'.outbox == db.outbox + [EventOf(JournalOf(id, op, legs))]
    requires db'.orders == db.orders + if op.Trade? then [FilledOrder(id, op.quote, id)] else []
    ensures db' == Book(db, id, op)
  {
  }

  lemma FourAfters(m: map<Slot, int>, op: Op)
    requires !op.Fund?
    ensures var p, a := Plan(op), Afters(op, Befores(m, op));
            && a[0] == Amount(m, p[0]) - AmountIn(op) && a[1] == Amount(m, p[1]) + AmountOut(op)
            && a[2] == Amount(m, p[2]) + AmountIn(op) && a[3] == Amount(m, p[3]) - AmountOut(op)
  {
    RowAt(m, op, 0);
    RowAt(m, op, 1);
    RowAt(m, op, 2);
    RowAt(m, op, 3);
  }

  lemma ExchangePuts(m: map<Slot, int>, op: Op)
    requires !op.Fund?
    ensures var p := Plan(op);
            Put(m, p, Afters(op, Befores(m, op)), 4) ==
            m[p[0] := Amount(m, p[0]) - AmountIn(op)][p[1] := Amount(m, p[1]) + AmountOut(op)]
            [p[2] := Amount(m, p[2]) + AmountIn(op)][p[3] := Amount(m, p[3]) - AmountOut(op)]
  {
    FourAfters(m, op);
    var p, a := Plan(op), Afters(op, Befores(m, op));
    PutFour(m, p, a, a[0], a[1], a[2], a[3]);
  }

  lemma PutFour(m: map<Slot, int>, p: seq<Slot>, a: seq<int>, w: int, x: int, y: int, z: int)
    requires |p| == |a| == 4 && a[0] == w && a[1] == x && a[2] == y && a[3] == z
    ensures Put(m, p, a, 4) == m[p[0] := w][p[1] := x][p[2] := y][p[3] := z]
  {
    assert Put(m, p, a, 1) == m[p[0] := a[0]];
    assert Put(m, p, a, 2) == m[p[0] := a[0]][p[1] := a[1]];
    assert Put(m, p, a, 3) == m[p[0] := a[0]][p[1] := a[1]][p[2] := a[2]];
  }

  // ---- What a request should come to, in exact arithmetic ----

  datatype Verdict = Reject(error: Error) | Answer(journal: Journal) | Perform(op: Op)

  function FundVerdict(db: Db, user: nat, code: string, amount: real, key: nat): Verdict {
    if Supported(code) == None then Reject(UnsupportedCurrency)
    else if !Whole(amount) || amount <= 0.0 then Reject(BadAmount)
    else
      match FindByIdempotencyKey(db, BookKey(user, key))
      case Some(j) => Answer(j)
      case None => Perform(Fund(BookKey(user, key), Supported(code).value, amount.Floor))
  }

  /** A conversion pays the whole subunits of the exact-decimal conversion at the cross rate. */
  function ConvertVerdict(db: Db, user: nat, fromCode: string, toCode: string, amount: real, key: nat, purpose: Purpose,
                          rates: map<Currency, RawRate>): Verdict
  {
    if fromCode == toCode then Reject(SameCurrency)
    else if Supported(fromCode) == None || Supported(toCode) == None then Reject(UnsupportedCurrency)
    else if !Whole(amount) || amount <= 0.0 then Reject(BadAmount)
    else
      match FindByIdempotencyKey(db, BookKey(user, key))
      case Some(j) => Answer(j)
      case None =>
        var src, dst := Supported(fromCode).value, Supported(toCode).value;
        if RateIn(rates, src) == None || RateIn(rates, dst) == None then Reject(BadRate)
        else
          var rate := CrossRate(RateIn(rates, src).value, RateIn(rates, dst).value);
          var converted := ConvertSubunits(amount.Floor, src, dst, rate);
          if converted <= 0 then Reject(AmountTooSmall)
          else Perform(Convert(BookKey(user, key), src, dst, amount.Floor, converted, EightDecimals(rate), purpose))
  }

  ghost function BooksAfter(db: Db, id: nat, v: Verdict): Db {
    if v.Perform? && Accepts(db, v.op) then Book(db, id, v.op) else db
  }

  ghost function ReplyAfter(db: Db, id: nat, v: Verdict): Result<Receipt> {
    match v
    case Reject(e) => Err(e)
    case Answer(j) => ReplayOf(j)
    case Perform(op) =>
      if Accepts(db, op) then Ok(Receipt(false, Book(db, id, op).journals[|db.journals|])) else Err(RefusalOf(db, op))
  }

  lemma {:induction false} FoundAtEnd(journals: seq<Journal>, j: Journal)
    requires forall i :: 0 <= i < |journals| ==> journals[i].key != j.key
    ensures FindIn(journals + [j], j.key) == Some(j)
  {
    if journals != [] {
      assert (journals + [j])[1..] == journals[1..] + [j];
      FoundAtEnd(journals[1..], j);
    }
  }

  /** Once a request has booked a journal, every later funding or conversion with its key that
      passes validation, whatever its amounts, currencies and rates, is answered with that very
      journal and changes nothing. */
  lemma RetriesAnswerTheJournal(db: Db, id: nat, v: Verdict, retryId: nat, code: string, toCode: string, amount: real,
                                purpose: Purpose,
                                rates: map<Currency, RawRate>)
    requires BooksSound(db) && v.Perform? && ReplyAfter(db, id, v).Ok?
    requires Supported(code).Some? && Supported(toCode).Some? && code != toCode && Whole(amount) && 0.0 < amount
    ensures var db', journal, key := BooksAfter(db, id, v), ReplyAfter(db, id, v).value.journal, v.op.key;
            var fund := FundVerdict(db', key.user, code, amount, key.key);
            var convert := ConvertVerdict(db', key.user, code, toCode, amount, key.key, purpose, rates);
            && BooksAfter(db', retryId, fund) == db' == BooksAfter(db', retryId, convert)
            && ReplyAfter(db', retryId, fund) == Ok(Receipt(true, journal)) == ReplyAfter(db', retryId, convert)
  {
    FoundAtEnd(db.journals, ReplyAfter(db, id, v).value.journal);
  }

  // ---- The verdicts in the tables' own terms ----

  lemma CodeKnown(code: string)
    ensures Supported(code) == None <==> NoCode(code)
    ensures forall c :: CodeOf(c) == code ==> Supported(code) == Some(c)
  {
    forall c ensures CodeOf(c) == code <==> Supported(code) == Some(c) { SupportedIsCode(code, c); }
  }

  lemma KeyKnown(db: Db, user: nat, key: nat)
    ensures KeyUsed(db, user, key) <==> !KeyFresh(db, BookKey(user, key))
  {
  }

  /** Keys are unique, so the journal found is the one that has the key, whatever its status. */
  lemma FoundIsRetold(db: Db, user: nat, key: nat)
    requires forall i, j :: 0 <= i < j < |db.journals| ==> db.journals[i].key != db.journals[j].key
    requires !KeyFresh(db, BookKey(user, key))
    ensures Retold(db, db, user, key, ReplayOf(FindByIdempotencyKey(db, BookKey(user, key)).value))
  {
    var found := FindByIdempotencyKey(db, BookKey(user, key)).value;
    var k :| 0 <= k < |db.journals| && db.journals[k] == found;
    forall i | 0 <= i < |db.journals| && db.journals[i].key == BookKey(user, key) ensures i == k {
      OnePerKey(db, i, k);
    }
  }

  lemma OnePerKey(db: Db, i: nat, k: nat)
    requires forall i, j :: 0 <= i < j < |db.journals| ==> db.journals[i].key != db.journals[j].key
    requires i < |db.journals| && k < |db.journals| && db.journals[i].key == db.journals[k].key
    ensures i == k
  {
  }

  lemma FundsAmount(db: Db, id: nat, user: nat, c: Currency, n: int, key: nat)
    requires BooksSound(db) && 0 < n && KeyFresh(db, BookKey(user, key))
    ensures var v := Perform(Fund(BookKey(user, key), c, n));
            Funded(db, BooksAfter(db, id, v), id, user, c, n, key, ReplyAfter(db, id, v))
  {
    var op := Fund(BookKey(user, key), c, n);
    var own, house := Slot(User(user), c), Slot(House, c);
    FundFacts(db, op);
    NumberSign(Amount(db.balances, house) - n);
    BalanceBounded(db.balances, house);
    NumberExact(Amount(db.balances, house));
    if Accepts(db, op) {
      var legs := FundLegs(db, op);
      FundIsBook(db, id, op,
                 Db(db.balances[own := Amount(db.balances, own) + n][house := Amount(db.balances, house) - n],
                    db.journals + [JournalOf(id, op, legs)], db.outbox + [EventOf(JournalOf(id, op, legs))],
                    db.orders));
    }
  }

  /** What a funding comes to, from its arguments alone. */
  lemma FundVerdictMeans(db: Db, id: nat, user: nat, code: string, amount: real, key: nat)
    requires BooksSound(db)
    ensures var v := FundVerdict(db, user, code, amount, key);
            FundOutcome(db, BooksAfter(db, id, v), id, user, code, amount, key, ReplyAfter(db, id, v))
  {
    CodeKnown(code);
    KeyKnown(db, user, key);
    if Supported(code).Some? && !NoAmount(amount) {
      if KeyUsed(db, user, key) {
        FoundIsRetold(db, user, key);
      } else {
        FundsAmount(db, id, user, Supported(code).value, amount.Floor, key);
      }
    }
  }

  lemma BookExchanges(db: Db, id: nat, op: Op, rate: int)
    requires Conserved(db.balances) && ValidOp(op) && !op.Fund? && RateOf(op) == Some(rate)
    ensures var db' := Book(db, id, op);
            && |db'.journals| == |db.journals| + 1
            && Exchanged(db, db', id, op.key.user, op.key.key, PurposeOf(op), rate, SourceOf(op), TargetOf(op),
                         AmountIn(op), AmountOut(op), db'.journals[|db.journals|])
            && db'.orders == db.orders + if op.Trade? then [FilledOrder(id, op.quote, id)] else []
  {
    ExchangeLegsAreBooked(db, op);
    ExchangePuts(db.balances, op);
  }

  /** Which balance is short, if any, and otherwise whether the columns take the rate. */
  lemma ExchangeDecided(db: Db, op: Op)
    requires Conserved(db.balances) && ValidOp(op) && !op.Fund? && KeyFresh(db, op.key)
    ensures var short := Amount(db.balances, Slot(User(op.key.user), SourceOf(op))) < AmountIn(op);
            var empty := Amount(db.balances, Slot(House, TargetOf(op))) < AmountOut(op);
            && (Accepts(db, op) <==> !short && !empty && RateStorable(op))
            && RefusalOf(db, op) ==
                 if short then InsufficientBalance else if empty then LiquidityExhausted else Internal
  {
    AcceptsIsChecks(db, op);
    ChecksAreExact(db.balances, op, 0);
    ChecksAreExact(db.balances, op, 3);
    AfterParts(db.balances, op);
  }

  lemma ConvertsAmount(db: Db, id: nat, user: nat, src: Currency, dst: Currency, n: int, key: nat, purpose: Purpose,
                       rate: real)
    requires BooksSound(db) && src != dst && 0 < n && purpose != Funding && KeyFresh(db, BookKey(user, key))
    ensures var paid := ConvertSubunits(n, src, dst, rate);
            var op := Convert(BookKey(user, key), src, dst, n, paid, EightDecimals(rate), purpose);
            var v := if paid <= 0 then Reject(AmountTooSmall) else Perform(op);
            Converted(db, BooksAfter(db, id, v), id, user, src, dst, n, key, purpose, rate, ReplyAfter(db, id, v))
  {
    var paid := ConvertSubunits(n, src, dst, rate);
    if paid > 0 {
      var op := Convert(BookKey(user, key), src, dst, n, paid, EightDecimals(rate), purpose);
      ExchangeDecided(db, op);
      BookExchanges(db, id, op, op.rate);
    }
  }

  /** What a conversion comes to, from its arguments alone. */
  lemma ConvertVerdictMeans(db: Db, id: nat, user: nat, fromCode: string, toCode: string, amount: real, key: nat,
                            purpose: Purpose, rates: map<Currency, RawRate>)
    requires BooksSound(db) && purpose != Funding
    ensures var v := ConvertVerdict(db, user, fromCode, toCode, amount, key, purpose, rates);
            ConvertOutcome(db, BooksAfter(db, id, v), id, user, fromCode, toCode, amount, key, purpose, rates,
                           ReplyAfter(db, id, v))
  {
    CodeKnown(fromCode);
    CodeKnown(toCode);
    KeyKnown(db, user, key);
    if fromCode != toCode && Supported(fromCode).Some? && Supported(toCode).Some? && !NoAmount(amount) {
      if KeyUsed(db, user, key) {
        FoundIsRetold(db, user, key);
      } else {
        SupportedDistinct(fromCode, toCode);
        var src, dst := Supported(fromCode).value, Supported(toCode).value;
        if Given(rates, src) && Given(rates, dst) {
          ConvertsAmount(db, id, user, src, dst, amount.Floor, key, purpose,
                         CrossRate(rates[src].value, rates[dst].value));
        }
      }
    }
  }

  /** What a trade on a redeemed quote comes to, from the quote alone. */
  lemma TradeMeans(before: Db, after: Db, id: nat, key: BookKey, q: Quote, audited: bool, r: Result<Receipt>)
    requires BooksSound(before) && KeyFresh(before, key) && ValidOp(Trade(key, q))
    requires TradeDone(before, after, id, Trade(key, q), audited, r)
    ensures Trades(before, after, id, key.user, key.key, q, audited, r)
  {
    var op := Trade(key, q);
    ExchangeDecided(before, op);
    BookExchanges(before, id, op, RateOf(op).value);
  }

  /** Converting the amount paid to a double changes neither the decision nor, when it is
      taken, the amount. */
  lemma RoundedPayout(db: Db, op: Op)
    requires Conserved(db.balances) && ValidOp(op) && op.Convert?
    ensures var rounded := op.(converted := Number(op.converted));
            && ValidOp(rounded) && (Accepts(db, rounded) <==> Accepts(db, op))
            && RefusalOf(db, rounded) == RefusalOf(db, op)
            && (Accepts(db, op) ==> rounded == op)
  {
    var rounded := op.(converted := Number(op.converted));
    NumberSign(op.converted);
    if rounded != op {
      if Number(op.converted) < TWO53 { NumberReflects(op.converted); }
      TooMuch(db, op);
      TooMuch(db, rounded);
    }
  }

  lemma TooMuch(db: Db, op: Op)
    requires Conserved(db.balances) && ValidOp(op) && op.Convert? && op.converted > SEED
    ensures !Accepts(db, op)
    ensures var own := Amount(db.balances, Slot(User(op.key.user), op.src));
            RefusalOf(db, op) == if own < op.amount then InsufficientBalance else LiquidityExhausted
  {
    BalanceBounded(db.balances, Plan(op)[3]);
    AfterAt(db.balances, op, 3);
  }

  /** At rates a provider can quote, a conversion the books accept pays the whole subunits owed
      at their exact ratio: never more, and less by one only when what is owed is whole. */
  lemma BookedPayoutIsOwed(db: Db, user: nat, fromCode: string, toCode: string, amount: real, key: nat,
                           purpose: Purpose, rates: map<Currency, RawRate>)
    requires Conserved(db.balances) && purpose != Funding
    requires var v := ConvertVerdict(db, user, fromCode, toCode, amount, key, purpose, rates);
             && v.Perform? && Accepts(db, v.op)
             && RateIn(rates, v.op.src).Some? && F.Quoted(RateIn(rates, v.op.src).value)
             && RateIn(rates, v.op.dst).Some? && F.Quoted(RateIn(rates, v.op.dst).value)
    ensures var op := ConvertVerdict(db, user, fromCode, toCode, amount, key, purpose, rates).op;
            var owed := F.Owed(op.amount, op.src, op.dst, RateIn(rates, op.src).value, RateIn(rates, op.dst).value);
            op.converted == owed.Floor || (op.converted + 1) as real == owed
  {
    SupportedDistinct(fromCode, toCode);
    var op := ConvertVerdict(db, user, fromCode, toCode, amount, key, purpose, rates).op;
    AcceptedBounded(db.balances, op);
    F.PaysWhatIsOwed(op.amount, op.src, op.dst, RateIn(rates, op.src).value, RateIn(rates, op.dst).value);
  }

  /** A booking changes no view but its user's. */
  lemma BookKeepsViews(db: Db, id: nat, op: Op)
    ensures forall v :: v != op.key.user ==> C.ViewOf(Book(db, id, op).balances, v) == C.ViewOf(db.balances, v)
  {
    var m, p, a := db.balances, Plan(op), Afters(op, Befores(db.balances, op));
    var m' := Put(m, p, a, |p|);
    forall v | v != op.key.user ensures C.ViewOf(m', v) == C.ViewOf(m, v) {
      forall s: Slot | s.owner == User(v) ensures (s in m' <==> s in m) && Amount(m', s) == Amount(m, s) {
        PutElsewhere(m, p, a, |p|, s);
      }
      forall s ensures s in C.ViewOf(m', v) <==> s in C.ViewOf(m, v) { }
      forall s | s in C.ViewOf(m, v)
        ensures C.ViewOf(m', v)[s] == C.ViewOf(m, v)[s]
      { assert Amount(m', s) == Amount(m, s); }
    }
  }

  /** What a trade on a redeemed quote comes to: the booking, or a refusal and at most an order
      row telling of it. */
  ghost predicate TradeDone(before: Db, after: Db, id: nat, op: Op, audited: bool, r: Result<Receipt>)
    requires op.Trade?
  {
    if Accepts(before, op) then
      after == Book(before, id, op) && r == Ok(Receipt(false, after.journals[|before.journals|]))
    else
      && r == Err(RefusalOf(before, op))
      && var rejected := RejectedOrder(id, op.quote);
         var kept := audited && OrderStorable(rejected, op.quote.rate);
         after == if kept then before.(orders := before.orders + [rejected]) else before
  }

  lemma AuditKeepsSound(db: Db, db': Db)
    requires BooksSound(db) && db' == db.(orders := db'.orders)
    requires db'.orders == db.orders
          || (|db'.orders| == |db.orders| + 1 && db.orders <= db'.orders && db'.orders[|db.orders|].status == Rejected)
    ensures BooksSound(db')
  {
    forall i | 0 <= i < |db'.orders| ensures OrderSound(db', db'.orders[i]) {
      if i < |db.orders| { OrderStays(db, db', db.orders[i]); }
    }
  }

  lemma PostedIsBook(before: Db, id: nat, op: Op, after: Db, legs: seq<Leg>)
    requires !op.Fund? && legs == ExchangeLegs(before, op)
    requires after.balances == before.balances[legs[0].slot := legs[0].after][legs[3].slot := legs[3].after]
                                              [legs[1].slot := legs[1].after][legs[2].slot := legs[2].after]
    requires after.journals == before.journals + [JournalOf(id, op, legs)]
    requires after.outbox == before.outbox + [EventOf(JournalOf(id, op, legs))]
    requires after.orders == before.orders + if op.Trade? then [FilledOrder(id, op.quote, id)] else []
    ensures after == Book(before, id, op)
  {
    ExchangePuts(before.balances, op);
    ExchangeLegsAreBooked(before, op);
    ExchangeIsBook(before, id, op, after, legs);
  }

  /** Creating the row first makes no difference to what it ends up holding. */
  lemma InsertedThenSet(m: map<Slot, int>, made: Slot, other: Slot, x: int, y: int)
    ensures m[made := 0][other := x][made := y] == m[other := x][made := y]
  {
  }

  class WalletService {
    const db: Database
    const quotes: QuoteService
    var cache: map<nat, C.View>

    constructor (db: Database, quotes: QuoteService)
      ensures this.db == db && this.quotes == quotes && cache == map[]
    {
      this.db := db;
      this.quotes := quotes;
      cache := map[];
    }

    /** Between requests: no transaction open, sound books. */
    ghost predicate Valid()
      reads this, db
    {
      db.saved == None && BooksSound(db.Contents())
    }

    /** Every cached view is what is stored. */
    ghost predicate CacheTrue()
      reads this, db
    {
      forall user :: user in cache ==> cache[user] == C.ViewOf(db.balances, user)
    }

    // Inside the transaction: lock the user's row, then the house's, journal, update.
    method FundRows(id: nat, key: BookKey, ccy: Currency, amount: int) returns (r: Result<Journal>)
      requires Conserved(db.balances) && 0 < amount
      modifies db
      ensures db.saved == old(db.saved)
      ensures r.Ok? <==> Accepts(old(db.Contents()), Fund(key, ccy, amount))
      ensures r.Ok? ==> db.Contents() == Book(old(db.Contents()), id, Fund(key, ccy, amount))
                        && r.value == db.journals[|db.journals| - 1]
      ensures r.Err? ==> r.error == RefusalOf(old(db.Contents()), Fund(key, ccy, amount))
    {
      ghost var before := db.Contents();
      ghost var op := Fund(key, ccy, amount);
      FundFacts(before, op);
      var userRow, houseRow := Slot(User(key.user), ccy), Slot(House, ccy);
      var balance := db.LockBalance(userRow);
      var balanceBefore := if balance.Some? then Number(balance.value) else 0;
      if balance == None { db.InsertBalance(userRow, 0); }
      var balanceAfter := Number(balanceBefore + amount);
      var houseBalance := db.LockBalance(houseRow);
      assert houseBalance.Some?;   // seeded for every currency, and no flow removes a row
      var houseBefore := Number(houseBalance.value);
      var houseAfter := Number(houseBefore - amount);
      if houseAfter < 0 { return Err(LiquidityExhausted); }
      var legs := [Leg(userRow, Credit, amount, balanceBefore, balanceAfter),
                   Leg(houseRow, Debit, amount, houseBefore, houseAfter)];
      assert legs == FundLegs(before, op);
      var journal := db.RecordJournalEntry(id, key, Funding, Some(Success), None, legs);
      if journal == None { return Err(Internal); }
      db.UpdateBalance(userRow, balanceAfter);
      db.UpdateBalance(houseRow, houseAfter);
      assert db.balances == before.balances[userRow := balanceAfter][houseRow := houseAfter];
      FundIsBook(before, id, op, db.Contents());
      return Ok(journal.value);
    }

    // Journal an exchange and update its four rows, the user's first.
    method PostExchange(id: nat, key: BookKey, purpose: Purpose, rate: int, legs: seq<Leg>)
      returns (journal: Option<Journal>)
      requires |legs| == 4 && forall i :: 0 <= i < 4 ==> legs[i].slot in db.balances && LegStorable(legs[i])
      modifies db
      ensures db.saved == old(db.saved) && db.orders == old(db.orders)
      ensures journal.Some? <==> KeyFresh(old(db.Contents()), key) && JournalTakesRate(Some(rate))
      ensures journal.Some? ==>
        && journal.value == Journal(id, key, purpose, Success, Some(rate), legs)
        && db.journals == old(db.journals) + [journal.value] && db.outbox == old(db.outbox) + [EventOf(journal.value)]
        && db.balances == old(db.balances)[legs[0].slot := legs[0].after][legs[3].slot := legs[3].after]
                                          [legs[1].slot := legs[1].after][legs[2].slot := legs[2].after]
    {
      journal := db.RecordJournalEntry(id, key, purpose, Some(Success), Some(rate), legs);
      if journal.Some? {
        db.UpdateBalance(legs[0].slot, legs[0].after);
        db.UpdateBalance(legs[3].slot, legs[3].after);
        db.UpdateBalance(legs[1].slot, legs[1].after);
        db.UpdateBalance(legs[2].slot, legs[2].after);
      }
    }

    // Write the order, the journal and the rows of a trade, and fill the order.
    method PostTrade(id: nat, op: Op, legs: seq<Leg>) returns (journal: Option<Journal>)
      requires ValidOp(op) && op.Trade? && Storable(op.quote.amountIn) && Storable(op.quote.amountOut)
      requires |legs| == 4 && forall i :: 0 <= i < 4 ==> legs[i].slot in db.balances && LegStorable(legs[i])
      modifies db
      ensures db.saved == old(db.saved)
      ensures journal.Some? <==> KeyFresh(old(db.Contents()), op.key) && RateStorable(op)
      ensures journal.Some? ==>
        && journal.value == JournalOf(id, op, legs)
        && db.journals == old(db.journals) + [journal.value] && db.outbox == old(db.outbox) + [EventOf(journal.value)]
        && db.orders == old(db.orders) + [FilledOrder(id, op.quote, id)]
        && db.balances == old(db.balances)[legs[0].slot := legs[0].after][legs[3].slot := legs[3].after]
                                          [legs[1].slot := legs[1].after][legs[2].slot := legs[2].after]
    {
      var quote := op.quote;
      var order := Order(id, quote.user, quote.src, quote.dst, quote.amountIn, quote.amountOut,
                         OrderPending, quote.id, None);
      var stored := db.InsertOrder(order, quote.rate);
      if !stored { return None; }
      journal := PostExchange(id, op.key, Trading, (quote.rate + 50) / 100, legs);
      if journal.Some? { db.FillOrder(|db.orders| - 1, id); }
    }

    /** With the rows locked, the target row made if it was missing, and the legs as exact
        bookkeeping has them, what is written is the booking. */
    method FinishExchange(ghost before: Db, id: nat, op: Op, legs: seq<Leg>) returns (journal: Option<Journal>)
      requires ValidOp(op) && !op.Fund? && legs == ExchangeLegs(before, op)
      requires Storable(AmountIn(op)) && Storable(AmountOut(op))
      requires db.journals == before.journals && db.outbox == before.outbox && db.orders == before.orders
      requires db.balances == before.balances || db.balances == before.balances[Plan(op)[1] := 0]
      requires forall i :: 0 <= i < 4 ==> legs[i].slot in db.balances && LegStorable(legs[i])
      modifies db
      ensures db.saved == old(db.saved)
      ensures journal.Some? <==> KeyFresh(before, op.key) && RateStorable(op)
      ensures journal.Some? ==> db.Contents() == Book(before, id, op) && journal.value == db.journals[|db.journals| - 1]
    {
      if op.Trade? {
        journal := PostTrade(id, op, legs);
      } else {
        journal := PostExchange(id, op.key, op.purpose, op.rate, legs);
      }
      if journal.Some? {
        InsertedThenSet(before.balances, Plan(op)[1], Plan(op)[0], legs[0].after, legs[3].after);
        PostedIsBook(before, id, op, db.Contents(), legs);
      }
    }

    // Inside the transaction: the user's two rows, then the house's two, journal, update; all
    // in doubles.
    method ConvertRows(id: nat, op: Op) returns (r: Result<Journal>)
      requires Conserved(db.balances) && ValidOp(op) && op.Convert?
      modifies db
      ensures db.saved == old(db.saved)
      ensures r.Ok? <==> Accepts(old(db.Contents()), op)
      ensures r.Ok? ==> db.Contents() == Book(old(db.Contents()), id, op) && r.value == db.journals[|db.journals| - 1]
      ensures r.Err? ==> r.error == RefusalOf(old(db.Contents()), op)
    {
      ghost var before := db.Contents();
      ExchangeFacts(before, op);
      var fromRow, toRow := Slot(User(op.key.user), op.src), Slot(User(op.key.user), op.dst);
      var houseFromRow, houseToRow := Slot(House, op.src), Slot(House, op.dst);
      var fromBalance := db.LockBalance(fromRow);
      if fromBalance == None || Number(fromBalance.value) < op.amount { return Err(InsufficientBalance); }
      var toBalance := db.LockBalance(toRow);
      if toBalance == None { db.InsertBalance(toRow, 0); }
      var fromBefore := Number(fromBalance.value);
      var fromAfter := Number(fromBefore - op.amount);
      var toBefore := Number(if toBalance.Some? then toBalance.value else 0);
      var toAfter := Number(toBefore + op.converted);
      var houseFrom := db.LockBalance(houseFromRow);
      var houseTo := db.LockBalance(houseToRow);
      assert houseFrom.Some? && houseTo.Some?;   // seeded, and never removed
      var houseFromBefore := Number(houseFrom.value);
      var houseFromAfter := Number(houseFromBefore + op.amount);
      var houseToBefore := Number(houseTo.value);
      var houseToAfter := Number(houseToBefore - op.converted);
      if houseToAfter < 0 { return Err(LiquidityExhausted); }
      ExchangeNumbers(before, op);
      var legs := [Leg(fromRow, Debit, op.amount, fromBefore, fromAfter),
                   Leg(houseFromRow, Credit, op.amount, houseFromBefore, houseFromAfter),
                   Leg(houseToRow, Debit, op.converted, houseToBefore, houseToAfter),
                   Leg(toRow, Credit, op.converted, toBefore, toAfter)];
      assert legs == ExchangeLegs(before, op);
      var journal := FinishExchange(before, id, op, legs);
      return if journal.Some? then Ok(journal.value) else Err(Internal);
    }

    // The same for a trade, in big integers, with its order row written first.
    method TradeRows(id: nat, op: Op) returns (r: Result<Journal>)
      requires Conserved(db.balances) && ValidOp(op) && op.Trade?
      modifies db
      ensures db.saved == old(db.saved)
      ensures r.Ok? <==> Accepts(old(db.Contents()), op)
      ensures r.Ok? ==> db.Contents() == Book(old(db.Contents()), id, op) && r.value == db.journals[|db.journals| - 1]
      ensures r.Err? ==> r.error == RefusalOf(old(db.Contents()), op)
    {
      ghost var before := db.Contents();
      ExchangeFacts(before, op);
      var quote := op.quote;
      var fromRow, toRow := Slot(User(op.key.user), quote.src), Slot(User(op.key.user), quote.dst);
      var houseFromRow, houseToRow := Slot(House, quote.src), Slot(House, quote.dst);
      var fromBalance := db.LockBalance(fromRow);
      if fromBalance == None || fromBalance.value < quote.amountIn { return Err(InsufficientBalance); }
      var toBalance := db.LockBalance(toRow);
      if toBalance == None { db.InsertBalance(toRow, 0); }
      var houseFrom := db.LockBalance(houseFromRow);
      var houseTo := db.LockBalance(houseToRow);
      assert houseFrom.Some? && houseTo.Some?;   // seeded, and never removed
      var fromBefore, toBefore := fromBalance.value, if toBalance.Some? then toBalance.value else 0;
      var houseFromBefore, houseToBefore := houseFrom.value, houseTo.value;
      var fromAfter, toAfter := fromBefore - quote.amountIn, toBefore + quote.amountOut;
      var houseFromAfter, houseToAfter := houseFromBefore + quote.amountIn, houseToBefore - quote.amountOut;
      if houseToAfter < 0 { return Err(LiquidityExhausted); }
      ExchangeNumbers(before, op);
      var legs := [Leg(fromRow, Debit, Number(quote.amountIn), Number(fromBefore), Number(fromAfter)),
                   Leg(houseFromRow, Credit, Number(quote.amountIn), Number(houseFromBefore), Number(houseFromAfter)),
                   Leg(houseToRow, Debit, Number(quote.amountOut), Number(houseToBefore), Number(houseToAfter)),
                   Leg(toRow, Credit, Number(quote.amountOut), Number(toBefore), Number(toAfter))];
      assert legs == ExchangeLegs(before, op);
      var journal := FinishExchange(before, id, op, legs);
      return if journal.Some? then Ok(journal.value) else Err(Internal);
    }

    /** Fund a wallet.  `id` is the journal's fresh identifier; `deleted` says whether the cache
        delete after a commit succeeds. */
    method FundWallet(id: nat, user: nat, code: string, amount: real, key: nat, deleted: bool)
      returns (r: Result<Receipt>)
      requires Valid()
      modifies db, this`cache
      ensures Valid()
      ensures var v := FundVerdict(old(db.Contents()), user, code, amount, key);
              db.Contents() == BooksAfter(old(db.Contents()), id, v) && r == ReplyAfter(old(db.Contents()), id, v)
      ensures FundOutcome(old(db.Contents()), db.Contents(), id, user, code, amount, key, r)
      ensures cache == if r.Ok? && !r.value.replayed && deleted then old(cache) - {user} else old(cache)
      ensures old(CacheTrue()) && deleted ==> CacheTrue()
    {
      FundVerdictMeans(db.Contents(), id, user, code, amount, key);
      var ccy := Supported(code);
      if ccy == None { return Err(UnsupportedCurrency); }
      if !Whole(amount) || amount <= 0.0 { return Err(BadAmount); }
      var existing := FindByIdempotencyKey(db.Contents(), BookKey(user, key));
      if existing.Some? { return ReplayOf(existing.value); }
      ghost var before := db.Contents();
      ghost var op := Fund(BookKey(user, key), ccy.value, amount.Floor);
      db.StartTransaction();
      var journal := FundRows(id, BookKey(user, key), ccy.value, amount.Floor);
      if journal.Ok? {
        db.CommitTransaction();
        if deleted { cache := cache - {user}; }
        BookKeepsSound(before, id, op);
        BookKeepsViews(before, id, op);
        r := Ok(Receipt(false, journal.value));
      } else {
        db.RollbackTransaction();
        r := Err(journal.error);
      }
    }

    // The conversion's transaction from its start to its commit or rollback.
    method ConvertTransaction(id: nat, op: Op, deleted: bool) returns (r: Result<Receipt>)
      requires Valid() && ValidOp(op) && op.Convert?
      modifies db, this`cache
      ensures Valid()
      ensures db.Contents() == BooksAfter(old(db.Contents()), id, Perform(op))
      ensures r == ReplyAfter(old(db.Contents()), id, Perform(op))
      ensures r.Ok? ==> !r.value.replayed
      ensures cache == if r.Ok? && deleted then old(cache) - {op.key.user} else old(cache)
      ensures old(CacheTrue()) && deleted ==> CacheTrue()
    {
      ghost var before := db.Contents();
      db.StartTransaction();
      var journal := ConvertRows(id, op);
      if journal.Ok? {
        db.CommitTransaction();
        if deleted { cache := cache - {op.key.user}; }
        BookKeepsSound(before, id, op);
        BookKeepsViews(before, id, op);
        r := Ok(Receipt(false, journal.value));
      } else {
        db.RollbackTransaction();
        r := Err(journal.error);
      }
    }

    /** Convert between two of a user's balances at the going cross rate. */
    method ConvertFunds(id: nat, user: nat, fromCode: string, toCode: string, amount: real, key: nat, purpose: Purpose,
                        rates: map<Currency, RawRate>, deleted: bool)
      returns (r: Result<Receipt>)
      requires Valid() && purpose != Funding
      modifies db, this`cache
      ensures Valid()
      ensures var v := ConvertVerdict(old(db.Contents()), user, fromCode, toCode, amount, key, purpose, rates);
              db.Contents() == BooksAfter(old(db.Contents()), id, v) && r == ReplyAfter(old(db.Contents()), id, v)
      ensures ConvertOutcome(old(db.Contents()), db.Contents(), id, user, fromCode, toCode, amount, key, purpose,
                             rates, r)
      ensures cache == if r.Ok? && !r.value.replayed && deleted then old(cache) - {user} else old(cache)
      ensures old(CacheTrue()) && deleted ==> CacheTrue()
    {
      ConvertVerdictMeans(db.Contents(), id, user, fromCode, toCode, amount, key, purpose, rates);
      if fromCode == toCode { return Err(SameCurrency); }
      var src, dst := Supported(fromCode), Supported(toCode);
      if src == None { return Err(UnsupportedCurrency); }
      if dst == None { return Err(UnsupportedCurrency); }
      if !Whole(amount) || amount <= 0.0 { return Err(BadAmount); }
      var existing := FindByIdempotencyKey(db.Contents(), BookKey(user, key));
      if existing.Some? { return ReplayOf(existing.value); }
      var from, to := RateIn(rates, src.value), RateIn(rates, dst.value);
      if from == None || to == None { return Err(BadRate); }
      var rate := CrossRate(from.value, to.value);
      var exact := ConvertSubunits(amount.Floor, src.value, dst.value, rate);
      var converted := Number(exact);
      NumberSign(exact);
      if converted <= 0 { return Err(AmountTooSmall); }
      SupportedDistinct(fromCode, toCode);
      var op := Convert(BookKey(user, key), src.value, dst.value, amount.Floor,
                        converted, EightDecimals(rate), purpose);
      RoundedPayout(db.Contents(), op.(converted := exact));
      r := ConvertTransaction(id, op, deleted);
    }

    /** Redeem a quote and trade at its amounts.  The quote is spent even when the trade fails;
        a failure leaves an order row behind if the database takes one (`audited`). */
    method ExecuteTrade(id: nat, user: nat, quoteId: nat, key: nat, takenAt: int, readAt: int, writtenAt: int,
                        atomic: bool, restored: bool, deleted: bool, audited: bool)
      returns (r: Result<Receipt>)
      requires Valid() && quotes.Valid() && takenAt <= readAt <= writtenAt
      modifies db, quotes, this`cache
      ensures Valid() && quotes.Valid()
      ensures !KeyFresh(old(db.Contents()), BookKey(user, key)) ==>
        && quotes.cells == old(quotes.cells) && Retold(old(db.Contents()), db.Contents(), user, key, r)
      ensures KeyFresh(old(db.Contents()), BookKey(user, key)) ==>
        && quotes.cells == Consumed(old(quotes.cells), quoteId, user, takenAt, readAt, writtenAt, restored)
        && if Q.Live(old(quotes.cells), quoteId, takenAt) && old(quotes.cells)[quoteId].quote.user == user
           then Trades(old(db.Contents()), db.Contents(), id, user, key, old(quotes.cells)[quoteId].quote, audited, r)
           else r == Err(QuoteUnavailable) && db.Contents() == old(db.Contents())
      ensures cache == if r.Ok? && !r.value.replayed && deleted then old(cache) - {user} else old(cache)
      ensures old(CacheTrue()) && deleted ==> CacheTrue()
    {
      var existing := FindByIdempotencyKey(db.Contents(), BookKey(user, key));
      if existing.Some? {
        FoundIsRetold(db.Contents(), user, key);
        return ReplayOf(existing.value);
      }
      ghost var before := db.Contents();
      var quote := quotes.ConsumeQuote(quoteId, user, takenAt, readAt, writtenAt, atomic, restored);
      if quote == None { return Err(QuoteUnavailable); }
      r := TradeTransaction(id, Trade(BookKey(user, key), quote.value), deleted, audited);
      TradeMeans(before, db.Contents(), id, BookKey(user, key), quote.value, audited, r);
    }

    // The trade's transaction from its start to its commit, or its rollback and audit row.
    method TradeTransaction(id: nat, op: Op, deleted: bool, audited: bool) returns (r: Result<Receipt>)
      requires Valid() && ValidOp(op) && op.Trade?
      modifies db, this`cache
      ensures Valid() && TradeDone(old(db.Contents()), db.Contents(), id, op, audited, r)
      ensures r.Ok? ==> !r.value.replayed
      ensures cache == if r.Ok? && deleted then old(cache) - {op.key.user} else old(cache)
      ensures old(CacheTrue()) && deleted ==> CacheTrue()
    {
      ghost var before := db.Contents();
      db.StartTransaction();
      var journal := TradeRows(id, op);
      if journal.Ok? {
        db.CommitTransaction();
        if deleted { cache := cache - {op.key.user}; }
        BookKeepsSound(before, id, op);
        BookKeepsViews(before, id, op);
        r := Ok(Receipt(false, journal.value));
      } else {
        db.RollbackTransaction();
        if audited {
          var kept := db.InsertOrder(RejectedOrder(id, op.quote), op.quote.rate);
          AuditKeepsSound(before, db.Contents());
        }
        r := Err(journal.error);
      }
    }

    /** A user's balances, from the cache if it has them and can be read, and then kept there if
        it can be written. */
    method GetWallet(user: nat, readable: bool, writable: bool) returns (view: C.View)
      modifies this`cache
      ensures view == if readable && user in old(cache) then old(cache)[user] else C.ViewOf(db.balances, user)
      ensures !(readable && user in old(cache)) || old(CacheTrue()) ==>
        && (forall c :: Slot(User(user), c) in view <==> Slot(User(user), c) in db.balances)
        && (forall s :: s in view ==> s.owner == User(user) && view[s] == db.balances[s])
      ensures cache == if (readable && user in old(cache)) || !writable then old(cache) else old(cache)[user := view]
      ensures old(CacheTrue()) ==> CacheTrue() && view == C.ViewOf(db.balances, user)
    {
      if readable && user in cache { return cache[user]; }
      view := C.ViewOf(db.balances, user);
      if writable { cache := cache[user := view]; }
    }
  }
}
