/** What each flow answers and what it leaves in the tables, row by row and field by field, in terms
    of its arguments and of what the tables held. */
module Outcomes {
  import opened Currencies
  import opened Money
  import opened Ledger
  import opened Results

  datatype Receipt = Receipt(replayed: bool, journal: Journal)

  ghost predicate Rejects(before: Db, after: Db, error: Error, r: Result<Receipt>) {
    r == Err(error) && after == before
  }

  ghost predicate NoCode(code: string) {
    forall c :: CodeOf(c) != code
  }

  predicate NoAmount(amount: real) {
    amount <= 0.0 || amount != amount.Floor as real
  }

  ghost predicate KeyUsed(db: Db, user: nat, key: nat) {
    exists i :: 0 <= i < |db.journals| && db.journals[i].key == BookKey(user, key)
  }

  /** The journal stored under the key is the answer, and nothing changes. */
  ghost predicate Retold(before: Db, after: Db, user: nat, key: nat, r: Result<Receipt>) {
    && after == before
    && forall i :: 0 <= i < |before.journals| && before.journals[i].key == BookKey(user, key) ==>
         r == match before.journals[i].status
              case Success => Ok(Receipt(true, before.journals[i]))
              case Pending => Err(InProgress)
              case Failed => Err(FailedBefore)
  }

  // ---- Funding ----

  ghost predicate FundOutcome(before: Db, after: Db, id: nat, user: nat, code: string, amount: real, key: nat,
                              r: Result<Receipt>)
  {
    if NoCode(code) then Rejects(before, after, UnsupportedCurrency, r)
    else if NoAmount(amount) then Rejects(before, after, BadAmount, r)
    else if KeyUsed(before, user, key) then Retold(before, after, user, key, r)
    else forall c :: CodeOf(c) == code ==> Funded(before, after, id, user, c, amount.Floor, key, r)
  }

  /** The house pays the user the amount, or cannot. */
  ghost predicate Funded(before: Db, after: Db, id: nat, user: nat, c: Currency, n: int, key: nat, r: Result<Receipt>) {
    var own, house := Slot(User(user), c), Slot(House, c);
    var has, left := Amount(before.balances, own), Amount(before.balances, house);
    if left < n then Rejects(before, after, LiquidityExhausted, r)
    else
      var legs := [Leg(own, Credit, n, has, has + n), Leg(house, Debit, n, left, left - n)];
      && r == Ok(Receipt(false, Journal(id, BookKey(user, key), Funding, Success, None, legs)))
      && after.balances == before.balances[own := has + n][house := left - n]
      && after.journals == before.journals + [r.value.journal]
      && after.outbox == before.outbox + [JournalCreated(id, BookKey(user, key), Funding, Success, None, legs)]
      && after.orders == before.orders
  }

  // ---- Exchanging ----

  /** The user pays n to the house and the house pays the user in the other currency; the journal
      and its outbox row say so. */
  ghost predicate Exchanged(before: Db, after: Db, id: nat, user: nat, key: nat, purpose: Purpose, rate: int,
                            src: Currency, dst: Currency, n: int, paid: int, journal: Journal)
  {
    var own, gains := Slot(User(user), src), Slot(User(user), dst);
    var houseIn, houseOut := Slot(House, src), Slot(House, dst);
    var a, b := Amount(before.balances, own), Amount(before.balances, gains);
    var c, d := Amount(before.balances, houseIn), Amount(before.balances, houseOut);
    var legs := [Leg(own, Debit, n, a, a - n), Leg(houseIn, Credit, n, c, c + n),
                 Leg(houseOut, Debit, paid, d, d - paid), Leg(gains, Credit, paid, b, b + paid)];
    && journal == Journal(id, BookKey(user, key), purpose, Success, Some(rate), legs)
    && after.balances == before.balances[own := a - n][gains := b + paid][houseIn := c + n][houseOut := d - paid]
    && after.journals == before.journals + [journal]
    && after.outbox == before.outbox + [JournalCreated(id, BookKey(user, key), purpose, Success, Some(rate), legs)]
  }

  predicate Given(rates: map<Currency, RawRate>, c: Currency) {
    c in rates && rates[c].Finite? && 0.0 < rates[c].value
  }

  ghost predicate ConvertOutcome(before: Db, after: Db, id: nat, user: nat, fromCode: string, toCode: string,
                                 amount: real, key: nat, purpose: Purpose, rates: map<Currency, RawRate>,
                                 r: Result<Receipt>)
  {
    if fromCode == toCode then Rejects(before, after, SameCurrency, r)
    else if NoCode(fromCode) || NoCode(toCode) then Rejects(before, after, UnsupportedCurrency, r)
    else if NoAmount(amount) then Rejects(before, after, BadAmount, r)
    else if KeyUsed(before, user, key) then Retold(before, after, user, key, r)
    else
      forall src, dst :: CodeOf(src) == fromCode && CodeOf(dst) == toCode ==>
        if !Given(rates, src) || !Given(rates, dst) then Rejects(before, after, BadRate, r)
        else
          var rate := CrossRate(rates[src].value, rates[dst].value);
          Converted(before, after, id, user, src, dst, amount.Floor, key, purpose, rate, r)
  }

  /** At a rate, the conversion is booked with the rate to eight decimals, unless the payout is
      nothing, a balance is short or the rate does not fit its column. */
  ghost predicate Converted(before: Db, after: Db, id: nat, user: nat, src: Currency, dst: Currency, n: int, key: nat,
                            purpose: Purpose, rate: real, r: Result<Receipt>)
  {
    var paid := ConvertSubunits(n, src, dst, rate);
    if paid <= 0 then Rejects(before, after, AmountTooSmall, r)
    else if Amount(before.balances, Slot(User(user), src)) < n then Rejects(before, after, InsufficientBalance, r)
    else if Amount(before.balances, Slot(House, dst)) < paid then Rejects(before, after, LiquidityExhausted, r)
    else if r.Err? then
      && Rejects(before, after, Internal, r)
      && (100_000_000.0 * rate <= 0.5 || 999_999_999_999_999_999.5 <= 100_000_000.0 * rate)
    else
      && !r.value.replayed && r.value.journal.rate.Some? && after.orders == before.orders
      && var recorded := r.value.journal.rate.value;
         && 0 < recorded < 1_000_000_000_000_000_000 && -0.5 <= recorded as real - 100_000_000.0 * rate <= 0.5
         && Exchanged(before, after, id, user, key, purpose, recorded, src, dst, n, paid, r.value.journal)
  }

  // ---- Trading a redeemed quote ----

  ghost predicate Trades(before: Db, after: Db, id: nat, user: nat, key: nat, q: Quote, audited: bool,
                         r: Result<Receipt>)
  {
    if Amount(before.balances, Slot(User(user), q.src)) < q.amountIn then
      Refused(before, after, id, q, audited, InsufficientBalance, r)
    else if Amount(before.balances, Slot(House, q.dst)) < q.amountOut then
      Refused(before, after, id, q, audited, LiquidityExhausted, r)
    else if q.rate < 50 || 1_000_000_000_000_000_000 <= q.rate then Refused(before, after, id, q, audited, Internal, r)
    else
      && r.Ok? && !r.value.replayed && r.value.journal.rate.Some?
      && var recorded := r.value.journal.rate.value;
         && 100 * recorded - 50 <= q.rate < 100 * recorded + 50
         && Exchanged(before, after, id, user, key, Trading, recorded, q.src, q.dst, q.amountIn, q.amountOut,
                      r.value.journal)
         && after.orders == before.orders
            + [Order(id, q.user, q.src, q.dst, q.amountIn, q.amountOut, Filled, q.id, Some(id))]
  }

  /** The trade is rolled back; if it is to be kept and fits its columns, a rejected order says so. */
  ghost predicate Refused(before: Db, after: Db, id: nat, q: Quote, audited: bool, error: Error, r: Result<Receipt>) {
    var fits := 0 < q.amountIn < 0x8000_0000_0000_0000 && 0 < q.amountOut < 0x8000_0000_0000_0000
      && -1_000_000_000_000_000_000 < q.rate < 1_000_000_000_000_000_000;
    && r == Err(error)
    && after.balances == before.balances && after.journals == before.journals && after.outbox == before.outbox
    && after.orders == before.orders
       + if audited && fits
         then [Order(id, q.user, q.src, q.dst, q.amountIn, q.amountOut, Rejected, q.id, None)] else []
  }
}
