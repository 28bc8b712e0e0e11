/** The store of single-use quotes under many concurrent clients: issuing, redeeming with an
    atomic get-and-delete, putting a quote back after the wrong user asked for it, expiry,
    and the get-then-delete fallback for servers without the atomic command.

    A client is between two of its own steps while a hand holds what it works on. */
module QuoteStore {
  import opened Currencies
  import opened Ledger

  datatype Cell = Cell(quote: Quote, diesAt: int)

  datatype Hand =
    | Issuing(quote: Quote, readAt: int)                  // quote built, not yet written
    | Rejecting(quote: Quote)                             // taken by the wrong user
    | Restoring(quote: Quote, seconds: int, readAt: int)  // remaining time computed, not yet written
    | Peeked(quote: Quote, user: nat)                     // fallback: read, not yet deleted

  /** `latency` bounds the time between a clock reading and the write that uses it; `fellBack` has
      the quotes that were ever read by the fallback. */
  datatype Store = Store(ttlSeconds: nat, latency: nat, now: int,
                         cells: map<nat, Cell>, hands: map<nat, Hand>,
                         issued: map<nat, Quote>, redeemed: multiset<nat>, lost: set<nat>, fellBack: set<nat>)

  datatype Act =
    | Tick(ms: nat)
    | Issue(hand: nat, quote: Quote)
    | Write(hand: nat)
    | Lose(hand: nat)
    | Take(quoteId: nat, user: nat, hand: nat)
    | ReadClock(hand: nat)
    | Peek(quoteId: nat, user: nat, hand: nat)
    | Delete(hand: nat)

  function Empty(ttlSeconds: nat, latency: nat, now: int): Store {
    Store(ttlSeconds, latency, now, map[], map[], map[], multiset{}, {}, {})
  }

  predicate Live(cells: map<nat, Cell>, id: nat, now: int) {
    id in cells && now < cells[id].diesAt
  }

  /** Whole seconds left before a quote expires, rounded up. */
  function RemainingSeconds(q: Quote, now: int): int {
    -((now - q.expiresAt) / 1000)
  }

  function Seconds(s: Store, h: Hand): int {
    if h.Restoring? then h.seconds else s.ttlSeconds
  }

  /** The quote a step works on: the one in the hand, or the one read from the store. */
  predicate Finds(s: Store, a: Act) {
    match a
    case Take(id, _, _) => Live(s.cells, id, s.now)
    case Peek(id, _, _) => Live(s.cells, id, s.now)
    case _ => false
  }

  predicate Enabled(s: Store, a: Act) {
    match a
    case Tick(_) => true
    case Issue(h, q) =>
      h !in s.hands && q.id !in s.issued && q.src != q.dst && 0 < q.amountIn && 0 < q.amountOut
      && q.expiresAt == s.now + 1000 * s.ttlSeconds
    case Write(h) =>
      h in s.hands && (s.hands[h].Issuing? || s.hands[h].Restoring?) && s.now <= s.hands[h].readAt + s.latency
    case Lose(h) => h in s.hands
    case Take(_, _, h) => h !in s.hands
    case ReadClock(h) => h in s.hands && s.hands[h].Rejecting?
    case Peek(_, _, h) => h !in s.hands
    case Delete(h) => h in s.hands && s.hands[h].Peeked?
  }

  /** The quote a step hands to its owner, if any. */
  function Delivered(s: Store, a: Act): Option<Quote>
    requires Enabled(s, a)
  {
    match a
    case Take(id, user, _) => if Finds(s, a) && s.cells[id].quote.user == user then Some(s.cells[id].quote) else None
    case Delete(h) => if s.hands[h].quote.user == s.hands[h].user then Some(s.hands[h].quote) else None
    case _ => None
  }

  // ---- The effect of a step, component by component ----

  function NextCells(s: Store, a: Act): map<nat, Cell>
    requires Enabled(s, a)
  {
    match a
    case Write(h) =>
      var hand := s.hands[h];
      s.cells[hand.quote.id := Cell(hand.quote, s.now + 1000 * Seconds(s, hand))]
    case Take(id, _, _) => if Finds(s, a) then s.cells - {id} else s.cells
    case Delete(h) => s.cells - {s.hands[h].quote.id}
    case _ => s.cells
  }

  /** The owner redeems the quote and lets go of it; anyone else's hand is left holding it. */
  function NextHands(s: Store, a: Act): map<nat, Hand>
    requires Enabled(s, a)
  {
    match a
    case Tick(_) => s.hands
    case Issue(h, q) => s.hands[h := Issuing(q, s.now)]
    case Write(h) => s.hands - {h}
    case Lose(h) => s.hands - {h}
    case Take(id, user, h) =>
      if Finds(s, a) && s.cells[id].quote.user != user then s.hands[h := Rejecting(s.cells[id].quote)] else s.hands
    case ReadClock(h) =>
      var q := s.hands[h].quote;
      var left := RemainingSeconds(q, s.now);
      if left > 0 then s.hands[h := Restoring(q, left, s.now)] else s.hands - {h}
    case Peek(id, user, h) => if Finds(s, a) then s.hands[h := Peeked(s.cells[id].quote, user)] else s.hands
    case Delete(h) =>
      var hand := s.hands[h];
      if hand.quote.user == hand.user then s.hands - {h} else s.hands[h := Rejecting(hand.quote)]
  }

  function NextRedeemed(s: Store, a: Act): multiset<nat>
    requires Enabled(s, a)
  {
    var d := Delivered(s, a);
    if d.Some? then s.redeemed + multiset{d.value.id} else s.redeemed
  }

  function Next(s: Store, a: Act): Store
    requires Enabled(s, a)
  {
    Store(s.ttlSeconds, s.latency, if a.Tick? then s.now + a.ms else s.now, NextCells(s, a), NextHands(s, a),
          if a.Issue? then s.issued[a.quote.id := a.quote] else s.issued, NextRedeemed(s, a),
          if a.Lose? then s.lost + {s.hands[a.hand].quote.id} else s.lost,
          if a.Peek? && Finds(s, a) then s.fellBack + {a.quoteId} else s.fellBack)
  }

  // ---- One copy of every quote ----

  function HandsWith(s: Store, id: nat): set<nat> {
    set h | h in s.hands && !s.hands[h].Peeked? && s.hands[h].quote.id == id
  }

  /** The copies of a quote: in the store, on their way in or back, and redeemed. */
  function Copies(s: Store, id: nat): nat {
    (if id in s.cells then 1 else 0) + |HandsWith(s, id)| + s.redeemed[id]
  }

  ghost predicate CellsNamed(s: Store) {
    && (forall id :: id in s.cells ==> s.cells[id].quote.id == id && Known(s, s.cells[id].quote))
    && (forall h :: h in s.hands ==> Known(s, s.hands[h].quote))
    && (forall id :: id in s.redeemed ==> id in s.issued)
    && (forall id :: id in s.issued ==> s.issued[id].id == id && ValidQuote(s.issued[id]))
  }

  ghost predicate Known(s: Store, q: Quote) {
    q.id in s.issued && s.issued[q.id] == q
  }

  ghost predicate OneCopy(s: Store) {
    && CellsNamed(s)
    && (forall h :: h in s.hands && s.hands[h].Peeked? ==> s.hands[h].quote.id in s.fellBack)
    && (forall id :: id !in s.fellBack ==> Copies(s, id) <= 1)
  }

  lemma NextKeepsCell(s: Store, a: Act, id: nat)
    requires CellsNamed(s) && Enabled(s, a) && id in Next(s, a).cells
    ensures var s' := Next(s, a); s'.cells[id].quote.id == id && Known(s', s'.cells[id].quote)
  {
  }

  lemma NextKeepsHand(s: Store, a: Act, h: nat)
    requires CellsNamed(s) && Enabled(s, a) && h in Next(s, a).hands
    ensures Known(Next(s, a), Next(s, a).hands[h].quote)
  {
  }

  lemma NextKeepsIssued(s: Store, a: Act)
    requires CellsNamed(s) && Enabled(s, a)
    ensures var s' := Next(s, a);
            forall id :: id in s'.issued ==> s'.issued[id].id == id && ValidQuote(s'.issued[id])
    ensures forall id :: id in Next(s, a).redeemed ==> id in Next(s, a).issued
    ensures Delivered(s, a).Some? ==> Known(Next(s, a), Delivered(s, a).value)
  {
  }

  lemma NextKeepsNames(s: Store, a: Act)
    requires CellsNamed(s) && Enabled(s, a)
    ensures CellsNamed(Next(s, a))
  {
    var s' := Next(s, a);
    NextKeepsIssued(s, a);
    forall id | id in s'.cells
      ensures s'.cells[id].quote.id == id && Known(s', s'.cells[id].quote)
    { NextKeepsCell(s, a, id); }
    forall h | h in s'.hands ensures Known(s', s'.hands[h].quote) { NextKeepsHand(s, a, h); }
  }

  /** A step adds a hand to those with copies of a quote, removes one, or leaves them be. */
  lemma NextMovesHands(s: Store, a: Act, id: nat)
    requires OneCopy(s) && Enabled(s, a) && id !in Next(s, a).fellBack
    ensures var s' := Next(s, a);
            var before, after := HandsWith(s, id), HandsWith(s', id);
            match a
            case Issue(h, q) => after == if q.id == id then before + {h} else before
            case Take(q, _, h) => after == if h in s'.hands && q == id then before + {h} else before
            case Write(h) => after == before - {h}
            case Lose(h) => after == before - {h}
            case ReadClock(h) => after == if h in s'.hands then before else before - {h}
            case _ => after == before
  {
  }

  lemma UnissuedHasNoCopies(s: Store, id: nat)
    requires CellsNamed(s) && id !in s.issued
    ensures id !in s.cells && HandsWith(s, id) == {} && s.redeemed[id] == 0
  {
    forall h | h in s.hands ensures s.hands[h].quote.id != id { assert Known(s, s.hands[h].quote); }
  }

  /** No step makes a second copy of a quote. */
  lemma NextMovesCopies(s: Store, a: Act, id: nat)
    requires OneCopy(s) && Enabled(s, a) && id !in Next(s, a).fellBack
    ensures Copies(Next(s, a), id) <= 1
  {
    NextMovesHands(s, a, id);
    assert Copies(s, id) <= 1;
    match a
    case Issue(h, q) =>
      if q.id == id {
        UnissuedHasNoCopies(s, id);
      }
    case Write(h) =>
      if s.hands[h].quote.id == id { assert h in HandsWith(s, id); }
    case Take(q, user, h) =>
      if q == id && Live(s.cells, id, s.now) { assert s.cells[id].quote.id == id; }
    case _ =>
  }

  ghost function Run(s: Store, acts: seq<Act>): Option<Store> {
    if acts == [] then Some(s)
    else
      match Run(s, acts[..|acts| - 1])
      case None => None
      case Some(t) =>
        if Enabled(t, acts[|acts| - 1]) then Some(Next(t, acts[|acts| - 1])) else None
  }

  lemma NextKeepsPeeks(s: Store, a: Act, h: nat)
    requires OneCopy(s) && Enabled(s, a) && h in Next(s, a).hands && Next(s, a).hands[h].Peeked?
    ensures Next(s, a).hands[h].quote.id in Next(s, a).fellBack
  {
  }

  lemma NextKeepsOneCopy(s: Store, a: Act)
    requires OneCopy(s) && Enabled(s, a)
    ensures OneCopy(Next(s, a))
  {
    var s' := Next(s, a);
    NextKeepsNames(s, a);
    forall h | h in s'.hands && s'.hands[h].Peeked? ensures s'.hands[h].quote.id in s'.fellBack {
      NextKeepsPeeks(s, a, h);
    }
    forall id | id !in s'.fellBack ensures Copies(s', id) <= 1 { NextMovesCopies(s, a, id); }
  }

  /** In every interleaving, a quote that the fallback never read exists at most once among the
      store, the clients' hands and the redeemed, so it is redeemed at most once. */
  lemma {:induction false} QuoteTokenConserved(ttl: nat, latency: nat, now: int, acts: seq<Act>, id: nat)
    requires Run(Empty(ttl, latency, now), acts).Some?
    ensures var s := Run(Empty(ttl, latency, now), acts).value;
            OneCopy(s) && (id !in s.fellBack ==> Copies(s, id) <= 1 && s.redeemed[id] <= 1)
  {
    if acts == [] {
      forall id: nat ensures HandsWith(Empty(ttl, latency, now), id) == {} { }
    } else {
      QuoteTokenConserved(ttl, latency, now, acts[..|acts| - 1], id);
      NextKeepsOneCopy(Run(Empty(ttl, latency, now), acts[..|acts| - 1]).value, acts[|acts| - 1]);
    }
  }

  /** The fallback does not keep the promise: whenever a quote is live, two reads before the
      first delete hand it to its owner twice. */
  lemma FallbackRedeemsTwice(s: Store, id: nat, g: nat, h: nat)
    requires Live(s.cells, id, s.now) && s.cells[id].quote.id == id && g !in s.hands && h !in s.hands && g != h
    ensures var user := s.cells[id].quote.user;
            var acts := [Peek(id, user, g), Peek(id, user, h), Delete(g), Delete(h)];
            RunsTo(s, acts) && Run(s, acts).value.redeemed[id] == s.redeemed[id] + 2
  {
    var q := s.cells[id].quote;
    var acts := [Peek(id, q.user, g), Peek(id, q.user, h), Delete(g), Delete(h)];
    var s1 := Next(s, acts[0]);
    var s2 := Next(s1, acts[1]);
    PeekReads(s, id, g);
    PeekReads(s1, id, h);
    var s3 := Next(s2, acts[2]);
    DeleteDelivers(s2, g);
    DeleteDelivers(s3, h);
    RunMore(s, acts, 0, s);
    RunMore(s, acts, 1, s1);
    RunMore(s, acts, 2, s2);
    RunMore(s, acts, 3, s3);
    assert acts[..4] == acts;
  }

  lemma PeekReads(s: Store, id: nat, h: nat)
    requires Live(s.cells, id, s.now) && h !in s.hands
    ensures var q := s.cells[id].quote; var s' := Next(s, Peek(id, q.user, h));
            && s'.hands == s.hands[h := Peeked(q, q.user)] && s'.cells == s.cells
            && s'.now == s.now && s'.redeemed == s.redeemed
  {
  }

  lemma DeleteDelivers(s: Store, h: nat)
    requires h in s.hands && s.hands[h].Peeked? && s.hands[h].user == s.hands[h].quote.user
    ensures var s' := Next(s, Delete(h));
            Delivered(s, Delete(h)) == Some(s.hands[h].quote) &&
            s'.hands == s.hands - {h} && s'.redeemed == s.redeemed + multiset{s.hands[h].quote.id}
  {
  }

  /** Nor is it in time: a client that stops between its read and its delete redeems the quote as
      late after its expiry as one likes. */
  lemma FallbackRedeemsLate(s: Store, id: nat, h: nat, late: nat)
    requires Live(s.cells, id, s.now) && s.cells[id].quote.id == id && h !in s.hands
    requires s.now <= s.cells[id].quote.expiresAt
    ensures var q := s.cells[id].quote;
            var acts := [Peek(id, q.user, h), Tick(q.expiresAt + late - s.now), Delete(h)];
            && RunsTo(s, acts) && Run(s, acts).value.redeemed[id] == s.redeemed[id] + 1
            && Run(s, acts).value.now == q.expiresAt + late
  {
    var q := s.cells[id].quote;
    var acts := [Peek(id, q.user, h), Tick(q.expiresAt + late - s.now), Delete(h)];
    var s1 := Next(s, acts[0]);
    PeekReads(s, id, h);
    var s2 := Next(s1, acts[1]);
    DeleteDelivers(s2, h);
    RunMore(s, acts, 0, s);
    RunMore(s, acts, 1, s1);
    RunMore(s, acts, 2, s2);
    assert acts[..3] == acts;
  }

  ghost predicate RunsTo(s: Store, acts: seq<Act>) {
    Run(s, acts).Some?
  }

  lemma RunMore(start: Store, acts: seq<Act>, n: nat, s: Store)
    requires n < |acts| && Run(start, acts[..n]) == Some(s) && Enabled(s, acts[n])
    ensures Run(start, acts[..n + 1]) == Some(Next(s, acts[n]))
  {
    assert acts[..n + 1][..n] == acts[..n];
  }

  // ---- A quote's lifetime does not drift ----

  ghost predicate CellTimely(s: Store, c: Cell) {
    c.quote.expiresAt <= c.diesAt <= c.quote.expiresAt + 999 + s.latency
  }

  ghost predicate HandTimely(s: Store, h: Hand) {
    match h
    case Issuing(q, readAt) => readAt <= s.now && q.expiresAt == readAt + 1000 * s.ttlSeconds
    case Restoring(q, seconds, readAt) => readAt <= s.now && q.expiresAt <= readAt + 1000 * seconds <= q.expiresAt + 999
    case _ => true
  }

  /** An unexpired quote is redeemed, lost to a failed write, in the store, or in a hand. */
  ghost predicate Accounted(s: Store, id: nat)
    requires id in s.issued
  {
    s.issued[id].expiresAt <= s.now || id in s.redeemed || id in s.lost || Live(s.cells, id, s.now)
    || exists h :: Holds(s, h, id)
  }

  ghost predicate Timely(s: Store) {
    && CellsNamed(s)
    && (forall id :: id in s.cells ==> CellTimely(s, s.cells[id]))
    && (forall h :: h in s.hands ==> HandTimely(s, s.hands[h]))
    && (forall id :: id in s.issued ==> Accounted(s, id))
  }

  lemma NextKeepsCellTimely(s: Store, a: Act, id: nat)
    requires Timely(s) && Enabled(s, a) && id in Next(s, a).cells
    ensures CellTimely(Next(s, a), Next(s, a).cells[id])
  {
    if a.Write? && id == s.hands[a.hand].quote.id {
      assert HandTimely(s, s.hands[a.hand]);
    } else {
      assert CellTimely(s, s.cells[id]);
    }
  }

  lemma NextKeepsHandTimely(s: Store, a: Act, h: nat)
    requires Enabled(s, a) && h in Next(s, a).hands && (h in s.hands ==> HandTimely(s, s.hands[h]))
    ensures HandTimely(Next(s, a), Next(s, a).hands[h])
  {
    match a
    case ReadClock(g) => RemainingBounds(s.hands[g].quote, s.now);
    case Tick(_) =>
    case Issue(_, _) =>
    case Write(_) =>
    case Lose(_) =>
    case Take(_, _, _) =>
    case Peek(_, _, _) =>
    case Delete(_) =>
  }

  lemma RemainingBounds(q: Quote, now: int)
    ensures q.expiresAt <= now + 1000 * RemainingSeconds(q, now) <= q.expiresAt + 999
  {
  }

  ghost predicate Holds(s: Store, h: nat, id: nat) {
    h in s.hands && s.hands[h].quote.id == id && !s.hands[h].Peeked?
  }

  lemma HeldStaysAccounted(s: Store, a: Act, id: nat, h: nat)
    requires Timely(s) && Enabled(s, a) && Holds(s, h, id)
    ensures id in Next(s, a).issued && Accounted(Next(s, a), id)
  {
    assert Known(s, s.hands[h].quote);
    var s' := Next(s, a);
    match a
    case Write(g) =>
      if g == h { NextKeepsCellTimely(s, a, id); } else { assert Holds(s', h, id); }
    case ReadClock(g) =>
      RemainingBounds(s.hands[g].quote, s.now);
      if g != h || RemainingSeconds(s.hands[g].quote, s.now) > 0 { assert Holds(s', h, id); }
    case Lose(g) => if g != h { assert Holds(s', h, id); }
    case Tick(_) => assert Holds(s', h, id);
    case Issue(_, _) => assert Holds(s', h, id);
    case Take(_, _, _) => assert Holds(s', h, id);
    case Peek(_, _, _) => assert Holds(s', h, id);
    case Delete(_) => assert Holds(s', h, id);
  }

  lemma LiveStaysAccounted(s: Store, a: Act, id: nat)
    requires Timely(s) && Enabled(s, a) && Live(s.cells, id, s.now)
    ensures id in Next(s, a).issued && Accounted(Next(s, a), id)
  {
    assert Known(s, s.cells[id].quote);
    var s' := Next(s, a);
    match a
    case Tick(_) => assert CellTimely(s, s.cells[id]);
    case Take(q, user, h) => if q == id && s.cells[id].quote.user != user { assert Holds(s', h, id); }
    case Write(g) => NextKeepsCellTimely(s, a, id);
    case Delete(h) =>
      if s.hands[h].quote.id == id {
        assert Known(s, s.hands[h].quote);
        if s.hands[h].quote.user != s.hands[h].user { assert Holds(s', h, id); }
      }
    case ReadClock(_) =>
    case Lose(_) =>
    case Issue(_, _) =>
    case Peek(_, _, _) =>
  }

  lemma GoneStaysAccounted(s: Store, a: Act, id: nat)
    requires Timely(s) && Enabled(s, a) && id in s.issued
    requires s.issued[id].expiresAt <= s.now || id in s.redeemed || id in s.lost
    ensures id in Next(s, a).issued && Accounted(Next(s, a), id)
  {
  }

  lemma NextKeepsAccounted(s: Store, a: Act, id: nat)
    requires Timely(s) && Enabled(s, a) && id in Next(s, a).issued
    ensures Accounted(Next(s, a), id)
  {
    if id !in s.issued {
      assert a.Issue? && Holds(Next(s, a), a.hand, id);
    } else {
      assert Accounted(s, id);
      if h :| Holds(s, h, id) {
        HeldStaysAccounted(s, a, id, h);
      } else if Live(s.cells, id, s.now) {
        LiveStaysAccounted(s, a, id);
      } else {
        GoneStaysAccounted(s, a, id);
      }
    }
  }

  /** After any number of wrong-user attempts a quote is never redeemable 999 ms plus the
      write latency past its expiry, and until its expiry an unredeemed quote is in the store
      or in a client's hand unless a write was lost. */
  lemma {:induction false} QuoteLifetimeBounded(ttl: nat, latency: nat, now: int, acts: seq<Act>)
    requires Run(Empty(ttl, latency, now), acts).Some?
    ensures Timely(Run(Empty(ttl, latency, now), acts).value)
  {
    if acts != [] {
      QuoteLifetimeBounded(ttl, latency, now, acts[..|acts| - 1]);
      var t := Run(Empty(ttl, latency, now), acts[..|acts| - 1]).value;
      var a := acts[|acts| - 1];
      NextKeepsNames(t, a);
      var t' := Next(t, a);
      forall id | id in t'.cells ensures CellTimely(t', t'.cells[id]) { NextKeepsCellTimely(t, a, id); }
      forall h | h in t'.hands ensures HandTimely(t', t'.hands[h]) { NextKeepsHandTimely(t, a, h); }
      forall id | id in Next(t, a).issued ensures Accounted(Next(t, a), id) {
        NextKeepsAccounted(t, a, id);
      }
    }
  }

  /** What the atomic command hands out is the user's own quote of that id, in time; and the owner
      of a stored unexpired quote gets it. */
  lemma DeliveredInTime(s: Store, id: nat, user: nat, hand: nat)
    requires Timely(s) && hand !in s.hands
    ensures var d := Delivered(s, Take(id, user, hand));
            && (d.Some? ==> d.value.id == id && d.value.user == user && s.now < d.value.expiresAt + 999 + s.latency)
            && (id in s.cells && s.cells[id].quote.user == user && s.now < s.cells[id].quote.expiresAt ==>
                  d == Some(s.cells[id].quote))
  {
  }
}
