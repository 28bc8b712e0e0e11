/** Two calls for one thing: with one idempotency key, or with one quote on the fallback. */
module Duplicates {
  import opened Currencies
  import opened Ledger
  import opened MachineMoney
  import opened Engine
  import opened EngineSafety
  import opened EngineTheorems
  import opened EngineRuns
  import opened Histories
  import L = Leases
  import Q = QuoteStore

  // ---- One key ----

  /** While no lease of its user lapses, a call that has its rows can write its journal if and only
      if no journal has its key yet and the columns take its rate: nothing else can stop it, and
      for a conversion or a trade, which do not look again once inside, the first can. */
  lemma RecordsIffFresh(acts: seq<Action>, s: State, t: nat)
    requires Reaches(acts, s)
    requires t in s.calls && InTransaction(s.calls[t]) && s.calls[t].stage == Open
    requires |s.calls[t].seen| == |Plan(s.calls[t].op.value)| && s.calls[t].req.key.user !in s.lapsed
    ensures var op := s.calls[t].op.value; Enabled(s, Record(t)) <==> KeyFresh(s.db, op.key) && RateStorable(op)
  {
    LegsFit(s, t, s.calls[t].op.value);
    KeyIsFree(acts, s, t);
    RecordNeeds(s, t, s.calls[t].op.value);
  }

  lemma RecordNeeds(s: State, t: nat, op: Op)
    requires t in s.calls && InTransaction(s.calls[t]) && s.calls[t].stage == Open && s.calls[t].op == Some(op)
    requires |s.calls[t].seen| == |Plan(op)| && op.key !in s.keys
    requires forall i :: 0 <= i < |MachineLegs(op, s.calls[t].seen)| ==>
               LegStorable(MachineLegs(op, s.calls[t].seen)[i])
    ensures Enabled(s, Record(t)) <==> KeyFresh(s.db, op.key) && RateStorable(op)
  {
  }

  lemma KeyIsFree(acts: seq<Action>, s: State, t: nat)
    requires Reaches(acts, s)
    requires t in s.calls && InTransaction(s.calls[t]) && s.calls[t].stage == Open
    requires s.calls[t].req.key.user !in s.lapsed
    ensures s.calls[t].op.value.key !in s.keys
  {
    Serializable(acts, s);
    assert CallSound(s, t, s.calls[t]);
    var key := s.calls[t].op.value.key;
    if key in s.keys { KeyIsMine(acts, s, t, key); }
  }

  /** A call about to write the user's key is inside the section, so it is alone there. */
  lemma KeyIsMine(acts: seq<Action>, s: State, t: nat, key: BookKey)
    requires Reaches(acts, s) && Inv(s) && t in s.calls && L.Critical(s.calls[t])
    requires key in s.keys && key == s.calls[t].req.key && key.user !in s.lapsed
    ensures s.keys[key] == t && s.calls[t].stage == Posting
  {
    var u := s.keys[key];
    assert KeyOwned(s, key) && CallSound(s, u, s.calls[u]);
    L.LeaseExcludes(acts, s, t, u);
  }

  /** A call that has looked for its key and found nothing. */
  predicate LookedUp(c: Call, op: Op) {
    c == Call(RequestFor(op), Checked, None, [], false, map[], 0)
  }

  lemma CanLookUp(s: State, t: nat, op: Op) returns (s': State)
    requires Reachable(s) && t !in s.calls && KeyFresh(s.db, op.key) && ValidOp(op) && !op.Trade?
    ensures Reachable(s') && OnlyMoved(s, s', t) && LookedUp(s'.calls[t], op) && SameLocks(s, s')
  {
    var asked := DoAsk(s, t, RequestFor(op));
    s' := DoLookup(asked, t);
  }

  lemma DoPrice(s: State, t: nat, op: Op) returns (s': State)
    requires Reachable(s) && t in s.calls && op.Convert? && ValidOp(op)
    requires s.calls[t] == Call(RequestFor(op), Leased, None, [], false, map[], 0)
    ensures Reachable(s') && Moves(s, s', t, s.calls[t].(op := Some(op))) && SameLocks(s, s')
  {
    StepReaches(s, Price(t, op.converted, op.rate));
    s' := Next(s, Price(t, op.converted, op.rate));
  }

  /** It goes on into its transaction, whatever has become of the key since. */
  lemma CanGoOn(s: State, t: nat, op: Op) returns (s': State)
    requires Reachable(s) && Idle(s) && t in s.calls && op.Convert? && ValidOp(op) && LookedUp(s.calls[t], op)
    ensures Reachable(s') && OnlyMoved(s, s', t) && Opened(s'.calls[t], op, 0)
    ensures s'.rows == map[] && s'.keys == map[] && s'.leases == map[op.key.user := t]
  {
    var leased := DoAcquire(s, t);
    var priced := DoPrice(leased, t, op);
    s' := DoBegin(priced, t);
  }

  /** Alone, it locks the rows that pass its checks. */
  lemma {:induction false} CanLockPassed(s: State, t: nat, op: Op, n: nat) returns (s': State)
    requires Reachable(s) && t in s.calls && Opened(s.calls[t], op, 0) && LocksOnly(s, t, op, 0)
    requires ValidOp(op) && n <= |Plan(op)| && forall i :: 0 <= i < n ==> Passes(s.db, op, i)
    ensures Reachable(s') && OnlyMoved(s, s', t) && Opened(s'.calls[t], op, n) && LocksOnly(s', t, op, n)
  {
    if n == 0 {
      s' := s;
    } else {
      var before := CanLockPassed(s, t, op, n - 1);
      s' := CanLockOneMore(before, t, op, n - 1);
      MovedTwice(s, before, s', t);
    }
  }

  /** From its look-up a call can go on to have all its rows. */
  lemma CanGetRows(s: State, t: nat, op: Op) returns (s': State)
    requires Reachable(s) && Idle(s) && t in s.calls && op.Convert? && ValidOp(op) && LookedUp(s.calls[t], op)
    requires forall i :: 0 <= i < |Plan(op)| ==> Passes(s.db, op, i)
    ensures Reachable(s') && OnlyMoved(s, s', t) && Opened(s'.calls[t], op, |Plan(op)|)
    ensures LocksOnly(s', t, op, |Plan(op)|)
  {
    var begun := CanGoOn(s, t, op);
    s' := CanLockPassed(begun, t, op, |Plan(op)|);
    MovedTwice(s, begun, s', t);
  }

  /** An accepted conversion that has looked up its key can be booked from an idle state. */
  lemma CanBookLookedUp(s: State, t: nat, op: Op) returns (s': State)
    requires Reachable(s) && Idle(s) && t in s.calls && op.Convert? && ValidOp(op) && LookedUp(s.calls[t], op)
    requires Accepts(s.db, op)
    ensures Reachable(s') && Idle(s') && OnlyCall(s, s', t) && s'.db == Book(s.db, t, op)
  {
    forall i | 0 <= i < |Plan(op)| ensures Passes(s.db, op, i) { AcceptedPasses(s, op, i); }
    var locked := CanGetRows(s, t, op);
    s' := CanCommitAll(locked, t, op);
    CallsSoFar(s, locked, s', s', t);
  }

  lemma BookUsesKey(db: Db, id: nat, op: Op)
    ensures !KeyFresh(Book(db, id, op), op.key)
  {
    assert Book(db, id, op).journals[|db.journals|].key == op.key;
  }

  lemma BothLookUp(s: State, t: nat, u: nat, a: Op, b: Op) returns (s': State)
    requires Reachable(s) && Idle(s) && t !in s.calls && u !in s.calls && t != u
    requires a.Convert? && b.Convert? && ValidOp(a) && ValidOp(b) && KeyFresh(s.db, a.key) && KeyFresh(s.db, b.key)
    ensures Reachable(s') && Idle(s') && s'.db == s.db && t in s'.calls && u in s'.calls
    ensures LookedUp(s'.calls[t], a) && LookedUp(s'.calls[u], b)
  {
    var one := CanLookUp(s, t, a);
    s' := CanLookUp(one, u, b);
  }

  lemma KeyTaken(s: State, t: nat, op: Op)
    requires t in s.calls && Opened(s.calls[t], op, |Plan(op)|) && !KeyFresh(s.db, op.key)
    ensures !Enabled(s, Record(t))
  {
  }

  /** Two conversions of one user with one key overlap: both look the key up before either is
      booked, the first is booked, and the second, with lease, rows and money in hand, can never
      write its journal.  A funding looks again inside the section and answers instead. */
  lemma SecondConversionRefused(s: State, t: nat, u: nat, a: Op, b: Op) returns (s': State)
    requires Reachable(s) && Idle(s) && t !in s.calls && u !in s.calls && t != u
    requires a.Convert? && b.Convert? && a.key == b.key && ValidOp(a) && ValidOp(b) && Accepts(s.db, a)
    requires forall i :: 0 <= i < |Plan(b)| ==> Passes(Book(s.db, t, a), b, i)
    ensures Reachable(s') && s'.db == Book(s.db, t, a) && u in s'.calls && Opened(s'.calls[u], b, |Plan(b)|)
    ensures !KeyFresh(s'.db, b.key) && !Enabled(s', Record(u))
  {
    var both := BothLookUp(s, t, u, a, b);
    var booked := CanBookLookedUp(both, t, a);
    s' := CanGetRows(booked, u, b);
    BookUsesKey(s.db, t, a);
    KeyTaken(s', u, b);
  }

  // ---- One quote, read by the fallback ----

  lemma PeekShape(st: Q.Store, id: nat, h: nat)
    requires Q.Live(st.cells, id, st.now) && h !in st.hands
    ensures var q := st.cells[id].quote; var peek := Q.Peek(id, q.user, h);
            && Q.Enabled(st, peek) && Q.Delivered(st, peek) == None
            && Q.Next(st, peek).hands == st.hands[h := Q.Peeked(q, q.user)]
            && Q.Next(st, peek).cells == st.cells && Q.Next(st, peek).now == st.now
  {
  }

  lemma DeleteShape(st: Q.Store, h: nat, q: Quote)
    requires h in st.hands && st.hands[h] == Q.Peeked(q, q.user)
    ensures Q.Enabled(st, Q.Delete(h)) && Q.Delivered(st, Q.Delete(h)) == Some(q)
    ensures Q.Next(st, Q.Delete(h)).hands == st.hands - {h}
  {
  }

  /** Two clients read a live quote before either deletes it. */
  lemma BothPeek(s: State, id: nat, g: nat, h: nat) returns (s': State)
    requires Reachable(s) && Q.Live(s.quotes.cells, id, s.quotes.now)
    requires g !in s.quotes.hands && h !in s.quotes.hands && g != h
    ensures Reachable(s') && OnlyQuotes(s, s')
    ensures var q := s.quotes.cells[id].quote;
            s'.quotes.hands == s.quotes.hands[g := Q.Peeked(q, q.user)][h := Q.Peeked(q, q.user)]
  {
    var user := s.quotes.cells[id].quote.user;
    PeekShape(s.quotes, id, g);
    var one := DoQuotes(s, Q.Peek(id, user, g));
    PeekShape(one.quotes, id, h);
    s' := DoQuotes(one, Q.Peek(id, user, h));
  }

  /** Both redeem it, for two calls of the owner with keys of their own. */
  lemma BothRedeem(s: State, q: Quote, g: nat, h: nat, t: nat, u: nat, first: BookKey, second: BookKey)
    returns (s': State)
    requires Reachable(s) && t !in s.calls && u !in s.calls && t != u && g != h
    requires g in s.quotes.hands && h in s.quotes.hands
    requires s.quotes.hands[g] == Q.Peeked(q, q.user) == s.quotes.hands[h]
    requires KeyFresh(s.db, first) && KeyFresh(s.db, second) && first.user == q.user == second.user
    ensures Reachable(s') && s'.db == s.db && s'.log == s.log
    ensures s'.calls == s.calls[t := Prepared(first, q)][u := Prepared(second, q)]
    ensures s'.rows == s.rows && s'.keys == s.keys && s'.leases == s.leases
  {
    DeleteShape(s.quotes, g, q);
    var one := CanRedeem(s, t, first, Q.Delete(g));
    DeleteShape(one.quotes, h, q);
    s' := CanRedeem(one, u, second, Q.Delete(h));
  }

  /** Whenever a quote is stored and its owner can pay for it twice, the fallback can have it traded
      twice: two filled orders with one quote's identifier, settled by two journals. */
  lemma FallbackFillsTwice(s: State, id: nat, t: nat, u: nat, first: BookKey, second: BookKey) returns (s': State)
    requires Reachable(s) && Idle(s) && t !in s.calls && u !in s.calls && t != u
    requires Q.Live(s.quotes.cells, id, s.quotes.now)
    requires var q := s.quotes.cells[id].quote;
             && ValidQuote(q) && first.user == q.user == second.user && KeyFresh(s.db, second)
             && Accepts(s.db, Trade(first, q)) && Accepts(Book(s.db, t, Trade(first, q)), Trade(second, q))
    ensures Reachable(s') && Idle(s')
    ensures var q := s.quotes.cells[id].quote;
            && s'.db == Book(Book(s.db, t, Trade(first, q)), u, Trade(second, q))
            && s'.db.orders == s.db.orders + [FilledOrder(t, q, t)] + [FilledOrder(u, q, u)]
  {
    var q := s.quotes.cells[id].quote;
    var g, h := TwoFree(s.quotes.hands.Keys);
    var peeked := BothPeek(s, id, g, h);
    var redeemed := BothRedeem(peeked, q, g, h, t, u, first, second);
    var one := CanBookPrepared(redeemed, t, first, q);
    s' := CanBookPrepared(one, u, second, q);
  }

  lemma {:induction false} FreeAbove(taken: set<nat>) returns (bound: nat)
    ensures forall n :: n in taken ==> n < bound
    decreases |taken|
  {
    bound := 0;
    if n :| n in taken {
      bound := FreeAbove(taken - {n});
      if bound <= n { bound := n + 1; }
      forall m | m in taken ensures m < bound { assert m == n || m in taken - {n}; }
    }
  }

  lemma TwoFree(taken: set<nat>) returns (g: nat, h: nat)
    ensures g !in taken && h !in taken && g != h
  {
    g := FreeAbove(taken);
    h := g + 1;
  }
}
