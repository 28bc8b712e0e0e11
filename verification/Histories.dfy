/** The converse of serializability: every serial history the books accept is one of the engine's
    runs, trades and rejected orders included. */
module Histories {
  import opened Currencies
  import opened Ledger
  import opened Engine
  import opened EngineSafety
  import opened EngineTheorems
  import opened EngineRuns
  import O = QuoteOrders
  import Q = QuoteStore

  // ---- Getting a quote ----

  /** A trade call that has its quote and waits for the lock. */
  function Prepared(key: BookKey, q: Quote): Call {
    Call(TradeReq(key, q.id), Checked, Some(Trade(key, q)), [], false, map[], 0)
  }

  /** Nothing but the quotes changed. */
  ghost predicate OnlyQuotes(s: State, s': State) {
    && s'.db == s.db && s'.log == s.log && s'.calls == s.calls
    && s'.rows == s.rows && s'.keys == s.keys && s'.leases == s.leases
  }

  lemma DoQuotes(s: State, act: Q.Act) returns (s': State)
    requires Reachable(s) && Q.Enabled(s.quotes, act) && Q.Delivered(s.quotes, act) == None
    ensures Reachable(s') && OnlyQuotes(s, s') && s'.quotes == Q.Next(s.quotes, act)
  {
    StepReaches(s, Quotes(act));
    s' := Next(s, Quotes(act));
  }

  /** Like `Moves`, but that the quotes may change too. */
  ghost predicate Draws(s: State, s': State, t: nat, c: Call) {
    s'.db == s.db && s'.log == s.log && s'.calls == s.calls[t := c]
  }

  lemma DoRedeem(s: State, t: nat, key: BookKey, act: Q.Act) returns (s': State)
    requires Reachable(s) && t in s.calls && Q.Enabled(s.quotes, act) && Q.Delivered(s.quotes, act).Some?
    requires var q := Q.Delivered(s.quotes, act).value;
             q.user == key.user && s.calls[t] == Call(TradeReq(key, q.id), Checked, None, [], false, map[], 0)
    ensures Reachable(s') && Draws(s, s', t, Prepared(key, Q.Delivered(s.quotes, act).value))
    ensures s'.rows == s.rows && s'.keys == s.keys && s'.leases == s.leases && s'.quotes == Q.Next(s.quotes, act)
  {
    StepReaches(s, Redeem(t, act));
    s' := Next(s, Redeem(t, act));
  }

  /** A new call with a fresh key can redeem whatever quote of its user the store delivers. */
  lemma CanRedeem(s: State, t: nat, key: BookKey, act: Q.Act) returns (s': State)
    requires Reachable(s) && t !in s.calls && KeyFresh(s.db, key)
    requires Q.Enabled(s.quotes, act) && Q.Delivered(s.quotes, act).Some?
    requires Q.Delivered(s.quotes, act).value.user == key.user
    ensures Reachable(s') && Draws(s, s', t, Prepared(key, Q.Delivered(s.quotes, act).value))
    ensures s'.rows == s.rows && s'.keys == s.keys && s'.leases == s.leases && s'.quotes == Q.Next(s.quotes, act)
  {
    var q := Q.Delivered(s.quotes, act).value;
    var asked := DoAsk(s, t, TradeReq(key, q.id));
    var checked := DoLookup(asked, t);
    s' := DoRedeem(checked, t, key, act);
    MovedThrice(s, asked, checked, s', t, Call(TradeReq(key, q.id), Checked, None, [], false, map[], 0),
                 Prepared(key, q));
  }

  lemma MovedThrice(s: State, s1: State, s2: State, s': State, t: nat, c: Call, last: Call)
    requires Moves(s, s1, t, c.(stage := Asked)) && Moves(s1, s2, t, c) && Draws(s2, s', t, last)
    ensures Draws(s, s', t, last)
  {
  }

  // ---- From the quote to the commit ----

  /** A call that has its quote can open its transaction when its user has no lease. */
  lemma CanBegin(s: State, t: nat, key: BookKey, q: Quote) returns (s': State)
    requires Reachable(s) && t in s.calls && s.calls[t] == Prepared(key, q) && key.user !in s.leases
    ensures Reachable(s') && OnlyMoved(s, s', t) && Opened(s'.calls[t], Trade(key, q), 0)
    ensures s'.calls[t].req == TradeReq(key, q.id)
    ensures s'.rows == s.rows && s'.keys == s.keys && s'.leases == s.leases[key.user := t]
  {
    var leased := DoAcquire(s, t);
    s' := DoBegin(leased, t);
  }

  /** In an idle state a call that has its quote can book the trade the books accept. */
  lemma CanBookPrepared(s: State, t: nat, key: BookKey, q: Quote) returns (s': State)
    requires Reachable(s) && Idle(s) && t in s.calls && s.calls[t] == Prepared(key, q)
    requires ValidOp(Trade(key, q)) && Accepts(s.db, Trade(key, q))
    ensures Reachable(s') && Idle(s') && OnlyCall(s, s', t) && s'.quotes == s.quotes
    ensures s'.db == Book(s.db, t, Trade(key, q)) && s'.log == s.log + [Booked(t, Trade(key, q))]
  {
    var op := Trade(key, q);
    var begun := CanBegin(s, t, key, q);
    var locked := CanLockAll(begun, t, op, |Plan(op)|);
    s' := CanCommitAll(locked, t, op);
    CallsSoFar(s, begun, locked, locked, t);
    CallsSoFar(s, locked, s', s', t);
  }

  /** From any idle state a new call can redeem a quote the store delivers to its owner and book
      the trade, if the books accept it. */
  lemma CanBookTrade(s: State, t: nat, key: BookKey, act: Q.Act) returns (s': State)
    requires Reachable(s) && Idle(s) && t !in s.calls
    requires Q.Enabled(s.quotes, act) && Q.Delivered(s.quotes, act).Some?
    requires var op := Trade(key, Q.Delivered(s.quotes, act).value); ValidOp(op) && Accepts(s.db, op)
    ensures Reachable(s') && Idle(s') && OnlyCall(s, s', t)
    ensures var op := Trade(key, Q.Delivered(s.quotes, act).value);
            s'.db == Book(s.db, t, op) && s'.log == s.log + [Booked(t, op)]
  {
    var q := Q.Delivered(s.quotes, act).value;
    var prepared := CanRedeem(s, t, key, act);
    s' := CanBookPrepared(prepared, t, key, q);
    CallsSoFar(s, prepared, s', s', t);
  }

  lemma DoAbort(s: State, t: nat) returns (s': State)
    requires Reachable(s) && t in s.calls && InTransaction(s.calls[t]) && s.rows == map[] && s.keys == map[]
    ensures Reachable(s') && Moves(s, s', t, s.calls[t].(stage := RolledBack)) && SameLocks(s, s')
  {
    StepReaches(s, Abort(t));
    s' := Next(s, Abort(t));
  }

  lemma DoAudit(s: State, t: nat, key: BookKey, q: Quote) returns (s': State)
    requires Reachable(s) && t in s.calls && s.calls[t].stage == RolledBack && s.calls[t].op == Some(Trade(key, q))
    ensures Reachable(s') && s'.calls == s.calls[t := s.calls[t].(stage := Done(Refused))] && SameLocks(s, s')
    ensures s'.quotes == s.quotes
    ensures s'.db == s.db.(orders := s.db.orders + [RejectedOrder(t, q)]) && s'.log == s.log + [Audited(t, q)]
  {
    StepReaches(s, Audit(t));
    s' := Next(s, Audit(t));
  }

  /** It can also fail and leave its rejected order behind. */
  lemma CanAuditPrepared(s: State, t: nat, key: BookKey, q: Quote) returns (s': State)
    requires Reachable(s) && Idle(s) && t in s.calls && s.calls[t] == Prepared(key, q)
    ensures Reachable(s') && Idle(s') && OnlyCall(s, s', t) && s'.quotes == s.quotes
    ensures s'.db == s.db.(orders := s.db.orders + [RejectedOrder(t, q)]) && s'.log == s.log + [Audited(t, q)]
  {
    var begun := CanBegin(s, t, key, q);
    var aborted := DoAbort(begun, t);
    var audited := DoAudit(aborted, t, key, q);
    s' := DoRelease(audited, t);
    CallsSoFar(s, begun, aborted, aborted, t);
    CallsSoFar(s, aborted, audited, s', t);
  }

  // ---- Issuing the quotes of a history ----

  predicate NeedsQuote(e: Entry) {
    e.Audited? || e.op.Trade?
  }

  function QuoteOf(e: Entry): Quote
    requires NeedsQuote(e)
  {
    match e case Booked(_, op) => op.quote case Audited(_, q) => q
  }

  /** The key its call comes with; an audited entry's does not matter, since it books nothing. */
  function KeyOf(e: Entry): BookKey {
    match e case Booked(_, op) => op.key case Audited(_, q) => BookKey(q.user, 0)
  }

  /** Every entry has a call of its own, and every trade or rejected order a valid quote of its
      own, issued to its user. */
  ghost predicate SerialLog(log: seq<Entry>) {
    && (forall i, j :: 0 <= i < j < |log| ==> log[i].id != log[j].id)
    && (forall i :: 0 <= i < |log| && NeedsQuote(log[i]) ==> GoodQuote(log[i]))
    && (forall i, j :: 0 <= i < j < |log| && NeedsQuote(log[i]) && NeedsQuote(log[j]) ==>
          QuoteOf(log[i]).id != QuoteOf(log[j]).id)
  }

  ghost predicate GoodQuote(e: Entry)
    requires NeedsQuote(e)
  {
    ValidQuote(QuoteOf(e)) && QuoteOf(e).user == KeyOf(e).user
  }

  // The quotes of the model history live for ten seconds.
  const TTL: nat := 10

  function IssueTime(e: Entry): int
    requires NeedsQuote(e)
  {
    QuoteOf(e).expiresAt - 1000 * TTL
  }

  ghost predicate Due(log: seq<Entry>, due: set<nat>) {
    forall i :: i in due ==> i < |log| && NeedsQuote(log[i])
  }

  /** What a store holds between two issues. */
  ghost predicate Shelf(st: Q.Store) {
    st.hands == map[] && st.ttlSeconds == TTL && st.fellBack == {}
  }

  /** Waiting, issuing and writing puts a quote up to be taken. */
  lemma StockShape(st: Q.Store, q: Quote)
    requires Shelf(st) && q.id !in st.issued && ValidQuote(q) && st.now <= q.expiresAt - 1000 * TTL
    ensures var wait := Q.Tick(q.expiresAt - 1000 * TTL - st.now);
            Q.Enabled(st, wait) && Q.Delivered(st, wait) == None &&
            var st1 := Q.Next(st, wait);
            Q.Enabled(st1, Q.Issue(0, q)) && Q.Delivered(st1, Q.Issue(0, q)) == None &&
            var st2 := Q.Next(st1, Q.Issue(0, q));
            Q.Enabled(st2, Q.Write(0)) && Q.Delivered(st2, Q.Write(0)) == None &&
            var st3 := Q.Next(st2, Q.Write(0));
            Stocked(st, st3, q)
  {
  }

  ghost predicate Stocked(st: Q.Store, st': Q.Store, q: Quote) {
    && Shelf(st') && st'.now == q.expiresAt - 1000 * TTL && st'.issued == st.issued[q.id := q]
    && q.id in st'.cells && st'.cells[q.id] == Q.Cell(q, q.expiresAt)
  }

  lemma TakeShape(st: Q.Store, st': Q.Store, q: Quote)
    requires Stocked(st, st', q)
    ensures var take := Q.Take(q.id, q.user, 0);
            && Q.Enabled(st', take) && Q.Delivered(st', take) == Some(q)
            && var after := Q.Next(st', take);
               Shelf(after) && after.now == st'.now && after.issued == st'.issued
  {
  }

  lemma CanStock(s: State, q: Quote) returns (s': State)
    requires Reachable(s) && Shelf(s.quotes) && q.id !in s.quotes.issued && ValidQuote(q)
    requires s.quotes.now <= q.expiresAt - 1000 * TTL
    ensures Reachable(s') && OnlyQuotes(s, s') && Stocked(s.quotes, s'.quotes, q)
  {
    StockShape(s.quotes, q);
    var s1 := DoQuotes(s, Q.Tick(q.expiresAt - 1000 * TTL - s.quotes.now));
    var s2 := DoQuotes(s1, Q.Issue(0, q));
    s' := DoQuotes(s2, Q.Write(0));
  }

  /** A quote can be issued and at once redeemed by a call of its user. */
  lemma CanPrepare(s: State, t: nat, key: BookKey, q: Quote) returns (s': State)
    requires Reachable(s) && t !in s.calls && KeyFresh(s.db, key) && q.user == key.user
    requires Shelf(s.quotes) && q.id !in s.quotes.issued && ValidQuote(q) && s.quotes.now <= q.expiresAt - 1000 * TTL
    ensures Reachable(s') && Draws(s, s', t, Prepared(key, q))
    ensures s'.rows == s.rows && s'.keys == s.keys && s'.leases == s.leases
    ensures Shelf(s'.quotes) && s'.quotes.now == q.expiresAt - 1000 * TTL
    ensures s'.quotes.issued == s.quotes.issued[q.id := q]
  {
    var stocked := CanStock(s, q);
    TakeShape(s.quotes, stocked.quotes, q);
    s' := CanRedeem(stocked, t, key, Q.Take(q.id, q.user, 0));
  }

  ghost predicate NotAfter(log: seq<Entry>, due: set<nat>, start: int, limit: int)
    requires Due(log, due)
  {
    start <= limit && forall i :: i in due ==> IssueTime(log[i]) <= limit
  }

  /** The calls of the due entries have their quotes, there are no others, and no more time has
      passed than their issues took. */
  ghost predicate AllPrepared(log: seq<Entry>, due: set<nat>, start: int, s: State)
    requires Due(log, due)
  {
    && Idle(s) && s.db == SeedDb() && s.log == [] && Shelf(s.quotes)
    && (forall i :: i in due ==> Waiting(log, i, s))
    && (forall t :: t in s.calls ==> exists i :: i in due && log[i].id == t)
    && (forall id :: id in s.quotes.issued ==> exists i :: i in due && QuoteOf(log[i]).id == id)
    && (forall limit :: NotAfter(log, due, start, limit) ==> s.quotes.now <= limit)
  }

  ghost predicate Waiting(log: seq<Entry>, i: nat, s: State)
    requires i < |log| && NeedsQuote(log[i])
  {
    log[i].id in s.calls && s.calls[log[i].id] == Prepared(KeyOf(log[i]), QuoteOf(log[i]))
  }

  lemma {:induction false} LatestDue(log: seq<Entry>, due: set<nat>) returns (m: nat)
    requires Due(log, due) && due != {}
    ensures m in due && forall i :: i in due ==> IssueTime(log[i]) <= IssueTime(log[m])
    decreases |due|
  {
    m :| m in due;
    if due != {m} {
      var best := LatestDue(log, due - {m});
      if IssueTime(log[best]) > IssueTime(log[m]) { m := best; }
    }
  }

  /** Whatever their expiries, the quotes of a history can be issued in the order of their issue
      times and redeemed at once, before anything is booked. */
  lemma {:induction false} CanPrepareAll(log: seq<Entry>, due: set<nat>, start: int) returns (s: State)
    requires SerialLog(log) && Due(log, due) && forall i :: i in due ==> start <= IssueTime(log[i])
    ensures Reachable(s) && AllPrepared(log, due, start, s)
    decreases |due|
  {
    if due == {} {
      s := FreshStart(log, start);
    } else {
      var m := LatestDue(log, due);
      var before := CanPrepareAll(log, due - {m}, start);
      NewToAll(log, due - {m}, m, start, before);
      s := CanPrepare(before, log[m].id, KeyOf(log[m]), QuoteOf(log[m]));
      OneMorePrepared(log, due, m, start, before, s);
    }
  }

  lemma FreshStart(log: seq<Entry>, start: int) returns (s: State)
    ensures Reachable(s) && AllPrepared(log, {}, start, s)
  {
    s := Initial(TTL, 0, start);
    assert Run(Initial(TTL, 0, start), []) == Some(s);
    assert Reaches([], s);
    assert NotAfter(log, {}, start, start);
  }

  /** The latest entry is new to a state in which the others are prepared. */
  lemma NewToAll(log: seq<Entry>, due: set<nat>, m: nat, start: int, s: State)
    requires SerialLog(log) && Due(log, due) && AllPrepared(log, due, start, s)
    requires m < |log| && NeedsQuote(log[m]) && m !in due && start <= IssueTime(log[m])
    requires forall i :: i in due ==> IssueTime(log[i]) <= IssueTime(log[m])
    ensures log[m].id !in s.calls && QuoteOf(log[m]).id !in s.quotes.issued && s.quotes.now <= IssueTime(log[m])
  {
    assert NotAfter(log, due, start, IssueTime(log[m]));
  }

  lemma OneMorePrepared(log: seq<Entry>, due: set<nat>, m: nat, start: int, before: State, s: State)
    requires SerialLog(log) && Due(log, due) && m in due && AllPrepared(log, due - {m}, start, before)
    requires Draws(before, s, log[m].id, Prepared(KeyOf(log[m]), QuoteOf(log[m])))
    requires s.rows == before.rows && s.keys == before.keys && s.leases == before.leases
    requires Shelf(s.quotes) && s.quotes.now == IssueTime(log[m])
    requires s.quotes.issued == before.quotes.issued[QuoteOf(log[m]).id := QuoteOf(log[m])]
    ensures AllPrepared(log, due, start, s)
  {
    forall i | i in due ensures Waiting(log, i, s) { if i != m { assert Waiting(log, i, before); } }
    forall t | t in s.calls ensures exists i :: i in due && log[i].id == t {
      if t in before.calls { var i :| i in due - {m} && log[i].id == t; } else { assert log[m].id == t; }
    }
    forall id | id in s.quotes.issued ensures exists i :: i in due && QuoteOf(log[i]).id == id {
      if id in before.quotes.issued {
        var i :| i in due - {m} && QuoteOf(log[i]).id == id;
      } else {
        assert QuoteOf(log[m]).id == id;
      }
    }
    forall limit | NotAfter(log, due, start, limit) ensures s.quotes.now <= limit { }
  }

  // ---- Booking a history ----

  /** The first n entries are booked; the trades to come have their quotes, and no other entry to
      come has a call yet. */
  ghost predicate BookedUpTo(log: seq<Entry>, n: nat, s: State)
    requires n <= |log|
  {
    && Idle(s) && s.quotes.fellBack == {} && s.log == log[..n] && Replay(log[..n]) == Some(s.db)
    && (forall i :: n <= i < |log| ==> Pending(log, i, s))
  }

  ghost predicate Pending(log: seq<Entry>, i: nat, s: State)
    requires i < |log|
  {
    if NeedsQuote(log[i]) then Waiting(log, i, s) else log[i].id !in s.calls
  }

  lemma {:induction false} PrefixReplays(log: seq<Entry>, n: nat)
    requires Replay(log).Some? && n <= |log|
    ensures Replay(log[..n]).Some?
    decreases |log|
  {
    if n < |log| {
      var prior := log[..|log| - 1];
      PrefixReplays(prior, n);
      assert prior[..n] == log[..n];
    } else {
      assert log[..n] == log;
    }
  }

  lemma ReplayLast(log: seq<Entry>, e: Entry, db: Db)
    requires Replay(log) == Some(db)
    ensures Replay(log + [e]) == Apply(db, e)
  {
    assert (log + [e])[..|log + [e]| - 1] == log;
  }

  /** The next entry can be run to its end. */
  lemma CanRunEntry(log: seq<Entry>, n: nat, s: State) returns (s': State)
    requires Reachable(s) && n < |log| && Idle(s) && Pending(log, n, s) && Apply(s.db, log[n]).Some?
    requires NeedsQuote(log[n]) ==> GoodQuote(log[n])
    ensures Reachable(s') && Idle(s') && OnlyCall(s, s', log[n].id) && s'.quotes == s.quotes
    ensures s'.log == s.log + [log[n]] && Some(s'.db) == Apply(s.db, log[n])
  {
    match log[n]
    case Booked(id, op) =>
      if op.Trade? { s' := CanBookPrepared(s, id, op.key, op.quote); } else { s' := CanBook(s, id, op); }
    case Audited(id, q) =>
      s' := CanAuditPrepared(s, id, KeyOf(log[n]), q);
  }

  lemma OthersPending(log: seq<Entry>, n: nat, s: State, s': State)
    requires SerialLog(log) && n < |log| && OnlyCall(s, s', log[n].id)
    requires forall i :: n <= i < |log| ==> Pending(log, i, s)
    ensures forall i :: n + 1 <= i < |log| ==> Pending(log, i, s')
  {
    forall i | n + 1 <= i < |log| ensures Pending(log, i, s') { assert Pending(log, i, s) && log[i].id != log[n].id; }
  }

  lemma SplitLast(log: seq<Entry>, n: nat)
    requires n < |log|
    ensures log[..n + 1] == log[..n] + [log[n]]
  {
  }

  lemma ReplayNext(log: seq<Entry>, n: nat, db: Db)
    requires Replay(log).Some? && n < |log| && Replay(log[..n]) == Some(db)
    ensures log[..n + 1] == log[..n] + [log[n]]
    ensures Apply(db, log[n]).Some? && Replay(log[..n + 1]) == Apply(db, log[n])
  {
    SplitLast(log, n);
    PrefixReplays(log, n + 1);
    ReplayLast(log[..n], log[n], db);
  }

  lemma CanBookNext(log: seq<Entry>, n: nat, s: State) returns (s': State)
    requires SerialLog(log) && Replay(log).Some? && n < |log| && Reachable(s) && BookedUpTo(log, n, s)
    ensures Reachable(s') && BookedUpTo(log, n + 1, s')
  {
    ReplayNext(log, n, s.db);
    s' := CanRunEntry(log, n, s);
    OthersPending(log, n, s, s');
  }

  lemma {:induction false} CanBookAll(log: seq<Entry>, n: nat, start: State) returns (s: State)
    requires SerialLog(log) && Replay(log).Some? && n <= |log|
    requires Reachable(start) && BookedUpTo(log, 0, start)
    ensures Reachable(s) && BookedUpTo(log, n, s)
  {
    if n == 0 {
      s := start;
    } else {
      var before := CanBookAll(log, n - 1, start);
      s := CanBookNext(log, n - 1, before);
    }
  }

  lemma {:induction false} EarliestIssue(log: seq<Entry>, n: nat) returns (start: int)
    requires n <= |log|
    ensures forall i :: 0 <= i < n && NeedsQuote(log[i]) ==> start <= IssueTime(log[i])
  {
    if n == 0 {
      start := 0;
    } else {
      start := EarliestIssue(log, n - 1);
      if NeedsQuote(log[n - 1]) && IssueTime(log[n - 1]) < start { start := IssueTime(log[n - 1]); }
    }
  }

  lemma PreparedIsPending(log: seq<Entry>, due: set<nat>, start: int, s: State)
    requires SerialLog(log) && Due(log, due) && AllPrepared(log, due, start, s)
    requires forall i :: 0 <= i < |log| && NeedsQuote(log[i]) ==> i in due
    ensures BookedUpTo(log, 0, s)
  {
    forall i | 0 <= i < |log| ensures Pending(log, i, s) {
      if NeedsQuote(log[i]) { assert Waiting(log, i, s); }
    }
    assert log[..0] == [];
  }

  /** The converse of serializability: whatever books a history leads to in which every entry has
      a call and every trade and rejected order a quote of its own, the engine can reach. */
  lemma SerialHistoriesAreRuns(log: seq<Entry>) returns (s: State)
    requires SerialLog(log) && Replay(log).Some?
    ensures Reachable(s) && Idle(s) && s.quotes.fellBack == {} && s.log == log && Some(s.db) == Replay(log)
  {
    var due: set<nat> := set i: nat | i < |log| && NeedsQuote(log[i]);
    var start := EarliestIssue(log, |log|);
    var prepared := CanPrepareAll(log, due, start);
    PreparedIsPending(log, due, start, prepared);
    s := CanBookAll(log, |log|, prepared);
    assert log[..|log|] == log;
  }

  // ---- And no others ----

  /** The entry was written by the finished call it names, about that call's operation. */
  ghost predicate EntryOwned(s: State, e: Entry) {
    && e.id in s.calls && s.calls[e.id].stage.Done? && s.calls[e.id].op.Some?
    && match e
       case Booked(_, op) => s.calls[e.id].op.value == op
       case Audited(_, q) => s.calls[e.id].op.value.Trade? && s.calls[e.id].op.value.quote == q
  }

  ghost predicate LogOwned(s: State) {
    && (forall i :: 0 <= i < |s.log| ==> EntryOwned(s, s.log[i]))
    && (forall i, j :: 0 <= i < j < |s.log| ==> s.log[i].id != s.log[j].id)
  }

  lemma SameLogOwned(s: State, s': State)
    requires LogOwned(s) && s'.log == s.log
    requires forall t :: t in s.calls && s.calls[t].stage.Done? ==> t in s'.calls && s'.calls[t] == s.calls[t]
    ensures LogOwned(s')
  {
    forall i | 0 <= i < |s'.log| ensures EntryOwned(s', s'.log[i]) { assert EntryOwned(s, s.log[i]); }
  }

  lemma LongerLogOwned(s: State, s': State, e: Entry)
    requires LogOwned(s) && s'.log == s.log + [e] && EntryOwned(s', e)
    requires e.id in s.calls ==> !s.calls[e.id].stage.Done?
    requires forall t :: t in s.calls && s.calls[t].stage.Done? ==> t in s'.calls && s'.calls[t] == s.calls[t]
    ensures LogOwned(s')
  {
    forall i | 0 <= i < |s.log|
      ensures EntryOwned(s', s.log[i]) && s.log[i].id != e.id
    { assert EntryOwned(s, s.log[i]); }
  }

  /** A finished call stays as it is. */
  lemma DoneStays(s: State, a: Action, t: nat)
    requires Enabled(s, a) && t in s.calls && s.calls[t].stage.Done?
    ensures t in Next(s, a).calls && Next(s, a).calls[t] == s.calls[t]
  {
  }

  lemma EndsOwn(s: State, a: Action)
    requires Enabled(s, a) && (a.Commit? || a.Audit?)
    ensures !s.calls[a.t].stage.Done?
    ensures var s' := Next(s, a);
            |s'.log| == |s.log| + 1 && s'.log == s.log + [s'.log[|s.log|]]
            && s'.log[|s.log|].id == a.t && EntryOwned(s', s'.log[|s.log|])
  {
  }

  lemma NextKeepsLogOwned(s: State, a: Action)
    requires LogOwned(s) && Enabled(s, a)
    ensures LogOwned(Next(s, a))
  {
    forall t | t in s.calls && s.calls[t].stage.Done?
      ensures t in Next(s, a).calls && Next(s, a).calls[t] == s.calls[t]
    {
      DoneStays(s, a, t);
    }
    if a.Commit? || a.Audit? {
      EndsOwn(s, a);
      LongerLogOwned(s, Next(s, a), Next(s, a).log[|s.log|]);
    } else {
      BooksChange(s, a);
      SameLogOwned(s, Next(s, a));
    }
  }

  lemma {:induction false} AlwaysLogOwned(acts: seq<Action>, s: State)
    requires Reaches(acts, s)
    ensures LogOwned(s)
  {
    var ttl, latency, now :| Run(Initial(ttl, latency, now), acts) == Some(s);
    if acts != [] {
      var prior := acts[..|acts| - 1];
      var p := Run(Initial(ttl, latency, now), prior).value;
      assert Reaches(prior, p);
      AlwaysLogOwned(prior, p);
      NextKeepsLogOwned(p, acts[|acts| - 1]);
    }
  }

  /** No quote in the log was ever read by the fallback. */
  ghost predicate LogOnAtomicPath(s: State) {
    forall i :: 0 <= i < |s.log| && NeedsQuote(s.log[i]) ==> QuoteOf(s.log[i]).id !in s.quotes.fellBack
  }

  lemma OwnedIsSerial(s: State)
    requires LogOwned(s) && LogOnAtomicPath(s) && O.QuotesLinked(s)
    requires forall t :: t in s.calls ==> CallSound(s, t, s.calls[t])
    ensures SerialLog(s.log)
  {
    forall i | 0 <= i < |s.log| && NeedsQuote(s.log[i]) ensures GoodQuote(s.log[i]) {
      assert EntryOwned(s, s.log[i]) && CallSound(s, s.log[i].id, s.calls[s.log[i].id]);
    }
    forall i, j | 0 <= i < j < |s.log| && NeedsQuote(s.log[i]) && NeedsQuote(s.log[j])
      ensures QuoteOf(s.log[i]).id != QuoteOf(s.log[j]).id
    {
      assert EntryOwned(s, s.log[i]) && EntryOwned(s, s.log[j]);
      assert O.IsTrade(s.calls[s.log[i].id]) && O.IsTrade(s.calls[s.log[j].id]);
    }
  }

  /** On the atomic path the reachable histories are exactly those: serial, accepted entry by
      entry, each entry with a call and each trade with a quote of its own. */
  lemma RunsAreSerialHistories(acts: seq<Action>, s: State)
    requires Reaches(acts, s) && LogOnAtomicPath(s)
    ensures SerialLog(s.log) && Replay(s.log) == Some(s.db)
  {
    Serializable(acts, s);
    AlwaysLogOwned(acts, s);
    O.AlwaysQuotesLinked(acts, s);
    OwnedIsSerial(s);
  }
}
