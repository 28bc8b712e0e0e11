/** A quote is settled at most once: from the store's single copy, through the call that
    redeemed it, to the order row and the journal. */
module QuoteOrders {
  import opened Currencies
  import opened Ledger
  import opened LedgerFacts
  import opened Engine
  import opened EngineTheorems
  import Q = QuoteStore

  predicate IsTrade(c: Call) {
    c.op.Some? && c.op.value.Trade?
  }

  /** The call's quote was redeemed, and is the one that was issued under its id. */
  ghost predicate QuoteGenuine(q: Quote, store: Q.Store) {
    q.id in store.redeemed && Q.Known(store, q)
  }

  /** Calls hold redeemed quotes as they were issued, no two the same one but for the fallback. */
  ghost predicate QuotesLinked(s: State) {
    && Q.OneCopy(s.quotes)
    && (forall t :: t in s.calls && IsTrade(s.calls[t]) ==> QuoteGenuine(s.calls[t].op.value.quote, s.quotes))
    && (forall t, u :: t in s.calls && u in s.calls && t != u && IsTrade(s.calls[t]) && IsTrade(s.calls[u]) ==>
          s.calls[t].op.value.quote.id != s.calls[u].op.value.quote.id
          || s.calls[t].op.value.quote.id in s.quotes.fellBack)
  }

  lemma RedeemedStays(s: Q.Store, a: Q.Act)
    requires Q.Enabled(s, a)
    ensures forall q :: QuoteGenuine(q, s) ==> QuoteGenuine(q, Q.Next(s, a))
    ensures var d := Q.Delivered(s, a); d.Some? ==> Q.Next(s, a).redeemed == s.redeemed + multiset{d.value.id}
  {
  }

  /** Delivering a quote proves nobody had redeemed it, unless the fallback had read it. */
  lemma DeliveredIsNew(s: Q.Store, a: Q.Act)
    requires Q.OneCopy(s) && Q.Enabled(s, a) && Q.Delivered(s, a).Some?
    ensures Q.Delivered(s, a).value.id !in s.redeemed || Q.Delivered(s, a).value.id in s.fellBack
  {
    var id := Q.Delivered(s, a).value.id;
    if a.Take? { assert id in s.cells && (id !in s.fellBack ==> Q.Copies(s, id) <= 1); }
  }

  lemma FellBackStays(s: Q.Store, a: Q.Act)
    requires Q.Enabled(s, a)
    ensures s.fellBack <= Q.Next(s, a).fellBack
  {
  }

  /** Only redeeming gives a call a trade to run. */
  lemma TradesOnlyRedeemed(s: State, a: Action)
    requires Enabled(s, a) && !a.Redeem?
    ensures var s' := Next(s, a);
            && (forall t :: t in s.calls ==>
                  t in s'.calls && (s'.calls[t].op == s.calls[t].op || !IsTrade(s'.calls[t])))
            && (forall t :: t in s'.calls && t !in s.calls ==> !IsTrade(s'.calls[t]))
            && (s'.quotes == s.quotes || (a.Quotes? && s'.quotes == Q.Next(s.quotes, a.act)))
  {
    if !a.Release? && !a.Lapse? && !a.Quotes? { CallStaysTrade(s, a); }
  }

  lemma CallStaysTrade(s: State, a: Action)
    requires Enabled(s, a) && !a.Redeem? && !a.Release? && !a.Lapse? && !a.Quotes?
    ensures var c := NextCall(s, a);
            if a.t in s.calls then c.op == s.calls[a.t].op || !IsTrade(c) else !IsTrade(c)
  {
  }

  lemma RedeemShape(s: State, a: Action)
    requires Enabled(s, a) && a.Redeem?
    ensures var s', q := Next(s, a), Q.Delivered(s.quotes, a.act);
            && Q.Enabled(s.quotes, a.act) && q.Some? && s'.quotes == Q.Next(s.quotes, a.act)
            && a.t in s.calls && !IsTrade(s.calls[a.t]) && a.t in s'.calls && s'.calls == s.calls[a.t := s'.calls[a.t]]
            && IsTrade(s'.calls[a.t]) && s'.calls[a.t].op.value.quote == q.value
  {
  }

  lemma RedeemKeepsQuotesLinked(s: State, a: Action)
    requires QuotesLinked(s) && Enabled(s, a) && a.Redeem?
    ensures QuotesLinked(Next(s, a))
  {
    RedeemShape(s, a);
    FellBackStays(s.quotes, a.act);
    Q.NextKeepsOneCopy(s.quotes, a.act);
    RedeemedStays(s.quotes, a.act);
    Q.NextKeepsIssued(s.quotes, a.act);
    DeliveredIsNew(s.quotes, a.act);
  }

  lemma NextKeepsQuotesLinked(s: State, a: Action)
    requires QuotesLinked(s) && Enabled(s, a)
    ensures QuotesLinked(Next(s, a))
  {
    if a.Redeem? {
      RedeemKeepsQuotesLinked(s, a);
    } else {
      TradesOnlyRedeemed(s, a);
      if a.Quotes? {
        Q.NextKeepsOneCopy(s.quotes, a.act);
        RedeemedStays(s.quotes, a.act);
        FellBackStays(s.quotes, a.act);
      }
    }
  }

  lemma {:induction false} AlwaysQuotesLinked(acts: seq<Action>, s: State)
    requires Reaches(acts, s)
    ensures QuotesLinked(s)
  {
    var ttl, latency, now :| Run(Initial(ttl, latency, now), acts) == Some(s);
    if acts == [] {
      forall id: nat ensures Q.HandsWith(s.quotes, id) == {} { }
    } else {
      var prior := acts[..|acts| - 1];
      var p := Run(Initial(ttl, latency, now), prior).value;
      assert Reaches(prior, p);
      AlwaysQuotesLinked(prior, p);
      NextKeepsQuotesLinked(p, acts[|acts| - 1]);
    }
  }

  /** The journal has the quote's rate to eight decimals, the half rounded up. */
  predicate RateTold(j: Journal, q: Quote) {
    j.rate.Some? && 100 * j.rate.value - 50 <= q.rate < 100 * j.rate.value + 50
  }

  lemma SettledAtQuote(acts: seq<Action>, s: State, i: nat)
    requires Reaches(acts, s) && i < |s.db.orders| && s.db.orders[i].status == Filled
    ensures var o := s.db.orders[i];
            && o.id in s.calls && IsTrade(s.calls[o.id])
            && exists n :: 0 <= n < |s.db.journals| && Settles(s.db.journals[n], o)
                           && RateTold(s.db.journals[n], s.calls[o.id].op.value.quote)
  {
    AlwaysLinked(acts, s);
    var o := s.db.orders[i];
    assert OrderOwned(s, o) && OrderSound(s.db, o);
    var n :| 0 <= n < |s.db.journals| && Settles(s.db.journals[n], o);
    assert JournalOwned(s, s.db.journals[n]);
    assert RateTold(s.db.journals[n], s.calls[o.id].op.value.quote);
  }

  /** In every interleaving, a quote the fallback never read has at most one order row; if that
      order is filled, one journal moved exactly the quote's two amounts between its owner
      and the house, and the copies of the quote never number more than one. */
  lemma OneOrderPerQuote(acts: seq<Action>, s: State, i: nat, j: nat)
    requires Reaches(acts, s)
    requires i < |s.db.orders| && j < |s.db.orders| && s.db.orders[i].quoteId == s.db.orders[j].quoteId
    requires s.db.orders[i].quoteId !in s.quotes.fellBack
    ensures i == j
    ensures var o := s.db.orders[i];
            && o.quoteId in s.quotes.issued
            && var q := s.quotes.issued[o.quoteId];
               && o.user == q.user && o.src == q.src && o.dst == q.dst
               && o.amountIn == q.amountIn && o.amountOut == q.amountOut
    ensures Q.Copies(s.quotes, s.db.orders[i].quoteId) == 1 == s.quotes.redeemed[s.db.orders[i].quoteId]
    ensures var o := s.db.orders[i];
            o.status == Rejected
            || (o.status == Filled && exists n :: 0 <= n < |s.db.journals| && Settles(s.db.journals[n], o)
                                                  && RateTold(s.db.journals[n], s.quotes.issued[o.quoteId]))
  {
    AlwaysLinked(acts, s);
    AlwaysQuotesLinked(acts, s);
    var o, p := s.db.orders[i], s.db.orders[j];
    assert OrderOwned(s, o) && OrderOwned(s, p);
    assert QuoteGenuine(s.calls[o.id].op.value.quote, s.quotes) && QuoteGenuine(s.calls[p.id].op.value.quote, s.quotes);
    assert Q.Copies(s.quotes, o.quoteId) <= 1;
    assert OrderSound(s.db, o);
    if o.status == Filled { SettledAtQuote(acts, s, i); }
  }
}
