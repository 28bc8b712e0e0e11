/** The quote service over its key-value store: pricing and issuing a quote, and taking it back
    out once. */
module QuoteService {
  import opened Currencies
  import opened Decimal40
  import opened Money
  import P = Spreads
  import opened Ledger
  import opened Results
  import Q = QuoteStore

  /** A rate in the last of ten decimals, as `toFixed(10)` prints it. */
  function TenDecimals(rate: real): int {
    HalfEven(rate * 10_000_000_000.0)
  }

  /** The recorded rate and the payout against the true bid. */
  lemma PricedAtTrueBid(amount: int, src: Currency, dst: Currency, from: real, to: real, spreadBps: real)
    requires 0 < amount && 0.0 < from && 0.0 < to && 0.0 <= spreadBps <= 20000.0
    ensures var bid, slip := P.TrueBid(from, to, spreadBps), 9.0 * P.Slip(to / from);
            var rate := TenDecimals(ApplySpread(CrossRate(from, to), spreadBps).bid);
            && -0.5 - 10_000_000_000.0 * slip <= rate as real - 10_000_000_000.0 * bid
            && rate as real - 10_000_000_000.0 * bid <= 0.5 + 10_000_000_000.0 * slip
    ensures amount as real < E40 ==>
              var out := QuotedAmount(amount, src, dst, from, to, spreadBps);
              var slack := 12.0 * P.Slip(ExactConversion(amount, src, dst, to / from));
              var exact := ExactConversion(amount, src, dst, P.TrueBid(from, to, spreadBps));
              out as real <= exact + slack && exact - slack < (out + 1) as real
  {
    P.BidNearTrue(from, to, spreadBps);
    if amount as real < E40 {
      DigitsInt(amount);
      P.QuoteChargesSpread(amount, src, dst, from, to, spreadBps);
    }
  }

  /** Getting a quote out of the store, in the three clock readings it may take: the read, the
      look at the remaining time after a wrong user asked, and the write that puts it back. */
  function Consumed(cells: map<nat, Q.Cell>, id: nat, user: nat, takenAt: int, readAt: int, writtenAt: int,
                    restored: bool)
    : map<nat, Q.Cell>
  {
    if !Q.Live(cells, id, takenAt) then cells
    else
      var q := cells[id].quote;
      var left := Q.RemainingSeconds(q, readAt);
      if q.user != user && left > 0 && restored then cells[id := Q.Cell(q, writtenAt + 1000 * left)] else cells - {id}
  }

  // What the restoring steps do to one hand, the cells and the clock.
  predicate HandState(s: Q.Store, hand: nat, h: Q.Hand, cells: map<nat, Q.Cell>, now: int, latency: nat) {
    hand in s.hands && s.hands[hand] == h && s.cells == cells && s.now == now && s.latency == latency
  }

  lemma TakeRejects(s: Q.Store, id: nat, user: nat, hand: nat)
    requires hand !in s.hands && Q.Live(s.cells, id, s.now) && s.cells[id].quote.user != user
    ensures HandState(Q.Next(s, Q.Take(id, user, hand)), hand,
                      Q.Rejecting(s.cells[id].quote), s.cells - {id}, s.now, s.latency)
  {
  }

  lemma TickWaits(s: Q.Store, ms: nat, hand: nat, h: Q.Hand, cells: map<nat, Q.Cell>, now: int, latency: nat)
    requires HandState(s, hand, h, cells, now, latency)
    ensures HandState(Q.Next(s, Q.Tick(ms)), hand, h, cells, now + ms, latency)
  {
  }

  lemma ReadComputes(s: Q.Store, hand: nat, q: Quote, cells: map<nat, Q.Cell>, now: int, latency: nat)
    requires HandState(s, hand, Q.Rejecting(q), cells, now, latency) && Q.RemainingSeconds(q, now) > 0
    ensures HandState(Q.Next(s, Q.ReadClock(hand)), hand,
                      Q.Restoring(q, Q.RemainingSeconds(q, now), now), cells, now, latency)
  {
  }

  lemma WriteRestores(s: Q.Store, hand: nat, q: Quote, seconds: int, readAt: int, cells: map<nat, Q.Cell>, now: int,
                      latency: nat)
    requires HandState(s, hand, Q.Restoring(q, seconds, readAt), cells, now, latency)
    ensures Q.Next(s, Q.Lose(hand)).cells == cells
    ensures now <= readAt + latency ==>
              Q.Enabled(s, Q.Write(hand))
              && Q.Next(s, Q.Write(hand)).cells == cells[q.id := Q.Cell(q, now + 1000 * seconds)]
  {
  }

  function RestoreSteps(id: nat, user: nat, hand: nat, toRead: nat, toWrite: nat, restored: bool): seq<Q.Act> {
    [Q.Take(id, user, hand), Q.Tick(toRead), Q.ReadClock(hand), Q.Tick(toWrite),
     if restored then Q.Write(hand) else Q.Lose(hand)]
  }

  predicate Steps(s: Q.Store, a: Q.Act, s': Q.Store) {
    Q.Enabled(s, a) && s' == Q.Next(s, a)
  }

  lemma FiveSteps(s: Q.Store, acts: seq<Q.Act>, s1: Q.Store, s2: Q.Store, s3: Q.Store, s4: Q.Store)
    requires |acts| == 5 && Steps(s, acts[0], s1) && Steps(s1, acts[1], s2) && Steps(s2, acts[2], s3)
    requires Steps(s3, acts[3], s4)
    requires Q.Enabled(s4, acts[4])
    ensures Q.RunsTo(s, acts) && Q.Run(s, acts) == Some(Q.Next(s4, acts[4]))
  {
    Q.RunMore(s, acts, 0, s);
    Q.RunMore(s, acts, 1, s1);
    Q.RunMore(s, acts, 2, s2);
    Q.RunMore(s, acts, 3, s3);
    Q.RunMore(s, acts, 4, s4);
    assert acts[..5] == acts;
  }

  /** Up to the write that puts the quote back. */
  lemma RestoreReaches(s: Q.Store, id: nat, user: nat, hand: nat, toRead: nat, toWrite: nat)
    returns (s1: Q.Store, s2: Q.Store, s3: Q.Store, s4: Q.Store)
    requires hand !in s.hands && Q.Live(s.cells, id, s.now) && s.cells[id].quote.user != user
    requires Q.RemainingSeconds(s.cells[id].quote, s.now + toRead) > 0
    ensures Steps(s, Q.Take(id, user, hand), s1) && Steps(s1, Q.Tick(toRead), s2)
    ensures Steps(s2, Q.ReadClock(hand), s3) && Steps(s3, Q.Tick(toWrite), s4)
    ensures var q := s.cells[id].quote;
            HandState(s4, hand, Q.Restoring(q, Q.RemainingSeconds(q, s.now + toRead), s.now + toRead),
                      s.cells - {id}, s.now + toRead + toWrite, s.latency)
  {
    var q, cells := s.cells[id].quote, s.cells - {id};
    s1 := Q.Next(s, Q.Take(id, user, hand));
    TakeRejects(s, id, user, hand);
    s2 := Q.Next(s1, Q.Tick(toRead));
    TickWaits(s1, toRead, hand, Q.Rejecting(q), cells, s.now, s.latency);
    s3 := Q.Next(s2, Q.ReadClock(hand));
    ReadComputes(s2, hand, q, cells, s.now + toRead, s.latency);
    s4 := Q.Next(s3, Q.Tick(toWrite));
    TickWaits(s3, toWrite, hand, Q.Restoring(q, Q.RemainingSeconds(q, s.now + toRead), s.now + toRead),
              cells, s.now + toRead, s.latency);
  }

  /** A wrong user's attempt in time puts the quote back. */
  lemma RestoringIsStoreSteps(s: Q.Store, id: nat, user: nat, hand: nat, toRead: nat, toWrite: nat, restored: bool)
    requires hand !in s.hands && toWrite <= s.latency && Q.CellsNamed(s)
    requires Q.Live(s.cells, id, s.now) && s.cells[id].quote.user != user
    requires Q.RemainingSeconds(s.cells[id].quote, s.now + toRead) > 0
    ensures var acts := RestoreSteps(id, user, hand, toRead, toWrite, restored);
            Q.RunsTo(s, acts)
            && Q.Run(s, acts).value.cells
            == Consumed(s.cells, id, user, s.now, s.now + toRead, s.now + toRead + toWrite, restored)
  {
    var q, cells, readAt := s.cells[id].quote, s.cells - {id}, s.now + toRead;
    var s1, s2, s3, s4 := RestoreReaches(s, id, user, hand, toRead, toWrite);
    WriteRestores(s4, hand, q, Q.RemainingSeconds(q, readAt), readAt, cells, readAt + toWrite, s.latency);
    var acts := RestoreSteps(id, user, hand, toRead, toWrite, restored);
    assert q.id == id;
    assert Steps(s, acts[0], s1) && Steps(s1, acts[1], s2) && Steps(s2, acts[2], s3) && Steps(s3, acts[3], s4);
    if restored { assert acts[4] == Q.Write(hand); } else { assert acts[4] == Q.Lose(hand); }
    FiveSteps(s, acts, s1, s2, s3, s4);
  }

  lemma ReadDrops(s: Q.Store, hand: nat, q: Quote, cells: map<nat, Q.Cell>, now: int, latency: nat)
    requires HandState(s, hand, Q.Rejecting(q), cells, now, latency) && Q.RemainingSeconds(q, now) <= 0
    ensures Q.Enabled(s, Q.ReadClock(hand)) && Q.Next(s, Q.ReadClock(hand)).cells == cells
  {
  }

  lemma ThreeSteps(s: Q.Store, acts: seq<Q.Act>, s1: Q.Store, s2: Q.Store)
    requires |acts| == 3 && Steps(s, acts[0], s1) && Steps(s1, acts[1], s2) && Q.Enabled(s2, acts[2])
    ensures Q.RunsTo(s, acts) && Q.Run(s, acts) == Some(Q.Next(s2, acts[2]))
  {
    Q.RunMore(s, acts, 0, s);
    Q.RunMore(s, acts, 1, s1);
    Q.RunMore(s, acts, 2, s2);
    assert acts[..3] == acts;
  }

  /** One after its expiry drops it. */
  lemma DroppingIsStoreSteps(s: Q.Store, id: nat, user: nat, hand: nat, toRead: nat)
    requires hand !in s.hands && Q.Live(s.cells, id, s.now) && s.cells[id].quote.user != user
    requires Q.RemainingSeconds(s.cells[id].quote, s.now + toRead) <= 0
    ensures var acts := [Q.Take(id, user, hand), Q.Tick(toRead), Q.ReadClock(hand)];
            Q.RunsTo(s, acts) && Q.Run(s, acts).value.cells == s.cells - {id}
  {
    var q, cells := s.cells[id].quote, s.cells - {id};
    var s1 := Q.Next(s, Q.Take(id, user, hand));
    TakeRejects(s, id, user, hand);
    var s2 := Q.Next(s1, Q.Tick(toRead));
    TickWaits(s1, toRead, hand, Q.Rejecting(q), cells, s.now, s.latency);
    ReadDrops(s2, hand, q, cells, s.now + toRead, s.latency);
    ThreeSteps(s, [Q.Take(id, user, hand), Q.Tick(toRead), Q.ReadClock(hand)], s1, s2);
  }

  /** What a client does to take a quote out of the store. */
  function ConsumeSteps(s: Q.Store, id: nat, user: nat, hand: nat, toRead: nat, toWrite: nat,
                        restored: bool): seq<Q.Act> {
    if !Q.Live(s.cells, id, s.now) || s.cells[id].quote.user == user then [Q.Take(id, user, hand)]
    else if Q.RemainingSeconds(s.cells[id].quote, s.now + toRead) <= 0 then
      [Q.Take(id, user, hand), Q.Tick(toRead), Q.ReadClock(hand)]
    else RestoreSteps(id, user, hand, toRead, toWrite, restored)
  }

  /** Taking a quote, by whomever and whenever, does what the store machine's steps do when nobody
      comes between them. */
  lemma ConsumedIsStoreSteps(s: Q.Store, id: nat, user: nat, hand: nat, toRead: nat, toWrite: nat, restored: bool)
    requires hand !in s.hands && toWrite <= s.latency && Q.CellsNamed(s)
    ensures var acts := ConsumeSteps(s, id, user, hand, toRead, toWrite, restored);
            Q.RunsTo(s, acts)
            && Q.Run(s, acts).value.cells
            == Consumed(s.cells, id, user, s.now, s.now + toRead, s.now + toRead + toWrite, restored)
  {
    if !Q.Live(s.cells, id, s.now) || s.cells[id].quote.user == user {
      OneStep(s, Q.Take(id, user, hand));
    } else if Q.RemainingSeconds(s.cells[id].quote, s.now + toRead) <= 0 {
      DroppingIsStoreSteps(s, id, user, hand, toRead);
    } else {
      RestoringIsStoreSteps(s, id, user, hand, toRead, toWrite, restored);
    }
  }

  lemma OneStep(s: Q.Store, a: Q.Act)
    requires Q.Enabled(s, a)
    ensures Q.RunsTo(s, [a]) && Q.Run(s, [a]) == Some(Q.Next(s, a))
  {
    Q.RunMore(s, [a], 0, s);
    assert [a][..1] == [a];
  }

  class QuoteService {
    var cells: map<nat, Q.Cell>
    const spreadBps: real
    const ttlSeconds: nat

    ghost predicate Valid()
      reads this
    {
      forall id :: id in cells ==> cells[id].quote.id == id && ValidQuote(cells[id].quote)
    }

    constructor (spreadBps: real, ttlSeconds: nat)
      ensures Valid() && cells == map[] && this.spreadBps == spreadBps && this.ttlSeconds == ttlSeconds
    {
      this.spreadBps := spreadBps;
      this.ttlSeconds := ttlSeconds;
      cells := map[];
    }

    /** Price a conversion at the bid and keep the quote for its lifetime.  `id` is a fresh
        identifier, `fetched` the rate table if there is one to be had, `now` and `writtenAt` the
        clock when the expiry is computed and when the store takes the quote, if it does
        (`written`). */
    method CreateQuote(id: nat, user: nat, fromCode: string, toCode: string, amount: int,
                       fetched: Option<map<Currency, RawRate>>, now: int, writtenAt: int, written: bool)
      returns (r: Result<Quote>)
      requires Valid() && id !in cells && now <= writtenAt
      modifies this
      ensures Valid()
      ensures r.Err? ==> cells == old(cells)
      ensures r == Err(SameCurrency) <==> fromCode == toCode
      ensures r == Err(UnsupportedCurrency) <==> (
        fromCode != toCode && (Supported(fromCode) == None || Supported(toCode) == None))
      ensures r == Err(BadAmount) <==> (
        fromCode != toCode && Supported(fromCode).Some? && Supported(toCode).Some? && amount <= 0)
      ensures r == Err(BadRate) <==> (
        fromCode != toCode && Supported(fromCode).Some? && Supported(toCode).Some? && 0 < amount && fetched.Some?
        && var rates := fetched.value;
           RateIn(rates, Supported(fromCode).value) == None || RateIn(rates, Supported(toCode).value) == None)
      ensures (fromCode != toCode && Supported(fromCode).Some? && Supported(toCode).Some? && 0 < amount
               && fetched == None)
        ==> r == Err(Internal)
      ensures r == Err(Internal) ==> fetched == None || !written
      ensures r.Ok? ==>
        && Supported(fromCode) == Some(r.value.src) && Supported(toCode) == Some(r.value.dst)
        && fetched.Some? && written
        && RateIn(fetched.value, r.value.src).Some? && RateIn(fetched.value, r.value.dst).Some?
        && var from, to := RateIn(fetched.value, r.value.src).value, RateIn(fetched.value, r.value.dst).value;
           var out := QuotedAmount(amount, r.value.src, r.value.dst, from, to, spreadBps);
           && r.value == Quote(id, user, r.value.src, r.value.dst, amount, out,
                               TenDecimals(ApplySpread(CrossRate(from, to), spreadBps).bid), now + 1000 * ttlSeconds)
           && ValidQuote(r.value)
           && -0.5 <= r.value.rate as real - 10_000_000_000.0 * ApplySpread(CrossRate(from, to), spreadBps).bid <= 0.5
           && (0.0 <= spreadBps <= 20000.0 ==>
                 r.value.amountOut <= ConvertSubunits(amount, r.value.src, r.value.dst, CrossRate(from, to)))
           && cells == old(cells)[id := Q.Cell(r.value, writtenAt + 1000 * ttlSeconds)]
      ensures r.Ok? ==>
        && r.value.id == id && r.value.user == user && fromCode == CodeOf(r.value.src) && toCode == CodeOf(r.value.dst)
        && r.value.amountIn == amount && r.value.expiresAt == now + 1000 * ttlSeconds
      ensures r.Ok? && 0.0 <= spreadBps <= 20000.0 ==>
        && r.value.src in fetched.value && fetched.value[r.value.src].Finite? && 0.0 < fetched.value[r.value.src].value
        && r.value.dst in fetched.value && fetched.value[r.value.dst].Finite? && 0.0 < fetched.value[r.value.dst].value
        && var from, to := fetched.value[r.value.src].value, fetched.value[r.value.dst].value;
           var bid, slip := P.TrueBid(from, to, spreadBps), 9.0 * P.Slip(to / from);
           && -0.5 - 10_000_000_000.0 * slip <= r.value.rate as real - 10_000_000_000.0 * bid
           && r.value.rate as real - 10_000_000_000.0 * bid <= 0.5 + 10_000_000_000.0 * slip
           && (amount as real < E40 ==>
                 var slack := 12.0 * P.Slip(ExactConversion(amount, r.value.src, r.value.dst, to / from));
                 var exact := ExactConversion(amount, r.value.src, r.value.dst, bid);
                 r.value.amountOut as real <= exact + slack && exact - slack < (r.value.amountOut + 1) as real)
      ensures r == Err(AmountTooSmall) ==>
        && Supported(fromCode).Some? && Supported(toCode).Some? && fetched.Some?
        && var src, dst, rates := Supported(fromCode).value, Supported(toCode).value, fetched.value;
           RateIn(rates, src).Some? && RateIn(rates, dst).Some?
           && QuotedAmount(amount, src, dst, RateIn(rates, src).value, RateIn(rates, dst).value, spreadBps) <= 0
      ensures r.Ok? || r.error in {SameCurrency, UnsupportedCurrency, BadAmount, BadRate, AmountTooSmall, Internal}
    {
      if fromCode == toCode { return Err(SameCurrency); }
      var src, dst := Supported(fromCode), Supported(toCode);
      if src == None { return Err(UnsupportedCurrency); }
      if dst == None { return Err(UnsupportedCurrency); }
      if amount <= 0 { return Err(BadAmount); }
      if fetched == None { return Err(Internal); }
      var from, to := RateIn(fetched.value, src.value), RateIn(fetched.value, dst.value);
      if from == None || to == None { return Err(BadRate); }
      var mid := CrossRate(from.value, to.value);
      var bid := ApplySpread(mid, spreadBps).bid;
      var amountOut := ConvertSubunits(amount, src.value, dst.value, bid);
      if amountOut <= 0 { return Err(AmountTooSmall); }
      if 0.0 <= spreadBps <= 20000.0 {
        QuoteNeverBeatsMid(amount, src.value, dst.value, from.value, to.value, spreadBps);
        PricedAtTrueBid(amount, src.value, dst.value, from.value, to.value, spreadBps);
      }
      SupportedDistinct(fromCode, toCode);
      SupportedIsCode(fromCode, src.value);
      SupportedIsCode(toCode, dst.value);
      if !written { return Err(Internal); }
      var quote := Quote(id, user, src.value, dst.value, amount, amountOut, TenDecimals(bid), now + 1000 * ttlSeconds);
      cells := cells[id := Q.Cell(quote, writtenAt + 1000 * ttlSeconds)];
      return Ok(quote);
    }

    /** The store's cell, if its time is not up. */
    function Get(id: nat, now: int): (cell: Option<Q.Cell>)
      reads this
      ensures cell.Some? <==> Q.Live(cells, id, now)
      ensures cell.Some? ==> cell.value == cells[id]
    {
      if Q.Live(cells, id, now) then Some(cells[id]) else None
    }

    method GetDel(id: nat, now: int) returns (cell: Option<Q.Cell>)
      modifies this
      ensures cell == old(Get(id, now))
      ensures cells == if cell.Some? then old(cells) - {id} else old(cells)
    {
      cell := Get(id, now);
      if cell.Some? { cells := cells - {id}; }
    }

    /** Take the quote out, with the atomic command or, where the store has none, by a read and a
        delete; if someone else's, put it back for the time it has left, which the store may
        refuse to do.  With nobody in between, the two ways do the same. */
    method ConsumeQuote(id: nat, user: nat, takenAt: int, readAt: int, writtenAt: int, atomic: bool, restored: bool)
      returns (quote: Option<Quote>)
      requires Valid() && takenAt <= readAt <= writtenAt
      modifies this
      ensures Valid()
      ensures quote.Some? <==> Q.Live(old(cells), id, takenAt) && old(cells)[id].quote.user == user
      ensures quote.Some? ==> quote.value == old(cells)[id].quote && quote.value.id == id && ValidQuote(quote.value)
      ensures quote.Some? ==> id !in cells
      ensures cells == Consumed(old(cells), id, user, takenAt, readAt, writtenAt, restored)
    {
      var raw: Option<Q.Cell> := None;
      if atomic {
        raw := GetDel(id, takenAt);
      } else {
        raw := Get(id, takenAt);
        if raw.Some? { cells := cells - {id}; }
      }
      if raw == None { return None; }
      var parsed := raw.value.quote;
      if parsed.user != user {
        var remainingSeconds := Q.RemainingSeconds(parsed, readAt);
        if remainingSeconds > 0 && restored {
          cells := cells[id := Q.Cell(parsed, writtenAt + 1000 * remainingSeconds)];
        }
        return None;
      }
      return Some(parsed);
    }
  }
}
