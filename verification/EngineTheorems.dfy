/** What the engine guarantees over whole runs. */
module EngineTheorems {
  import opened Currencies
  import opened Doubles
  import opened Ledger
  import opened LedgerFacts
  import opened MachineMoney
  import opened Engine
  import opened EngineSafety
  import Q = QuoteStore

  ghost predicate Reaches(acts: seq<Action>, s: State) {
    exists ttl: nat, latency: nat, now: int :: Run(Initial(ttl, latency, now), acts) == Some(s)
  }

  // ---- Serializability and conservation ----

  /** Any interleaving of any number of calls, with aborts, crashes and lapsed leases
      anywhere, leaves the balances, journals, outbox and orders of running the logged
      operations one after the other. */
  lemma {:induction false} Serializable(acts: seq<Action>, s: State)
    requires Reaches(acts, s)
    ensures Inv(s)
    ensures Replay(s.log) == Some(s.db)
  {
    var ttl, latency, now :| Run(Initial(ttl, latency, now), acts) == Some(s);
    if acts == [] {
      ReplaySound([]);
    } else {
      var prior := acts[..|acts| - 1];
      var p := Run(Initial(ttl, latency, now), prior).value;
      assert Reaches(prior, p);
      Serializable(prior, p);
      NextKeepsInv(p, acts[|acts| - 1]);
    }
  }

  /** In every reachable state each currency's balances add up to the seed, so every stored
      amount is a non-negative number below 2^53. */
  lemma MoneyConserved(acts: seq<Action>, s: State, c: Currency, slot: Slot)
    requires Reaches(acts, s)
    ensures Total(s.db.balances, c) == SEED
    ensures 0 <= Amount(s.db.balances, slot) <= SEED < TWO53
  {
    Serializable(acts, s);
    BalanceBounded(s.db.balances, slot);
  }

  /** A transaction that has locked and checked all its rows computes, in doubles, exactly
      what integers would give, and the database accepts every number it writes. */
  lemma MachineNumbersExact(acts: seq<Action>, s: State, t: nat)
    requires Reaches(acts, s) && t in s.calls && InTransaction(s.calls[t])
    requires |s.calls[t].seen| == |Plan(s.calls[t].op.value)|
    ensures var op, seen := s.calls[t].op.value, s.calls[t].seen;
            && seen == Befores(s.db.balances, op)
            && MachineAfters(op, seen) == Afters(op, seen)
            && MachineLegs(op, seen) == LegsOf(op, AmountIn(op), AmountOut(op), seen, Afters(op, seen))
            && (forall i :: 0 <= i < |seen| ==> 0 <= Afters(op, seen)[i] <= SEED)
            && (forall i :: 0 <= i < |MachineLegs(op, seen)| ==> LegStorable(MachineLegs(op, seen)[i]))
  {
    Serializable(acts, s);
    var c, op := s.calls[t], s.calls[t].op.value;
    assert CallSound(s, t, c);
    forall i | 0 <= i < |c.seen| ensures c.seen[i] == Befores(s.db.balances, op)[i] && !Refuses(op, i, c.seen[i]) {
      assert RowHeld(s, t, op, c.seen, i);
    }
    assert c.seen == Befores(s.db.balances, op);
    MachineIsExact(s.db.balances, op);
    LegsStorable(s.db.balances, op);
  }

  /** The books of every reachable state: balanced journals, an unbroken chain of balances for
      every row, one outbox row per journal with the same legs, no pending order. */
  lemma BooksAlwaysSound(acts: seq<Action>, s: State, slot: Slot)
    requires Reaches(acts, s)
    ensures BooksSound(s.db)
    ensures Amount(s.db.balances, slot) == Net(AllLegs(s.db.journals), slot)
  {
    Serializable(acts, s);
    LedgerReconstructs(s.db, slot);
  }

  // ---- Replies, journals and orders ----

  ghost predicate HasJournal(db: Db, id: nat, key: BookKey) {
    exists i :: 0 <= i < |db.journals| && db.journals[i].id == id && db.journals[i].key == key
  }

  ghost predicate JournalOwned(s: State, j: Journal) {
    && j.id in s.calls && s.calls[j.id].stage == Done(Committed(j.id)) && s.calls[j.id].req.key == j.key
    && s.calls[j.id].op.Some? && Tells(j, s.calls[j.id].op.value)
  }

  /** The journal says what the operation did: a funding has two legs and no rate, a conversion four
      and its own rate, a trade four with the quote's amounts and the quote's rate to eight decimals,
      the half rounded up. */
  ghost predicate Tells(j: Journal, op: Op) {
    && j.key == op.key && j.status == Success
    && match op
       case Fund(key, c, n) =>
         && j.purpose == Funding && j.rate == None && |j.legs| == 2
         && Records(j.legs[0], User(key.user), c, Credit, n) && Records(j.legs[1], House, c, Debit, n)
       case Convert(key, src, dst, n, paid, rate, purpose) =>
         j.purpose == purpose && j.rate == Some(rate) && TellsExchange(j, key.user, src, dst, n, paid)
       case Trade(key, q) =>
         && j.purpose == Trading && j.rate.Some? && 100 * j.rate.value - 50 <= q.rate < 100 * j.rate.value + 50
         && TellsExchange(j, key.user, q.src, q.dst, q.amountIn, q.amountOut)
  }

  predicate Records(l: Leg, owner: Owner, c: Currency, side: Side, n: int) {
    l.slot == Slot(owner, c) && l.side == side && l.amount == n
    && l.after == if side == Credit then l.before + n else l.before - n
  }

  predicate TellsExchange(j: Journal, user: nat, src: Currency, dst: Currency, n: int, paid: int) {
    && |j.legs| == 4
    && Records(j.legs[0], User(user), src, Debit, n) && Records(j.legs[1], House, src, Credit, n)
    && Records(j.legs[2], House, dst, Debit, paid) && Records(j.legs[3], User(user), dst, Credit, paid)
  }

  lemma BookedJournalTells(db: Db, id: nat, op: Op)
    ensures var db' := Book(db, id, op);
            |db'.journals| == |db.journals| + 1 && Tells(db'.journals[|db.journals|], op)
  {
    var m := db.balances;
    forall i | 0 <= i < |Plan(op)|
      ensures Afters(op, Befores(m, op))[i] == Befores(m, op)[i] + Deltas(op)[i]
    { AfterAt(m, op, i); }
  }

  ghost predicate ReplyTrue(s: State, t: nat)
    requires t in s.calls
  {
    match s.calls[t].stage
    case Done(Committed(j)) => j == t && HasJournal(s.db, j, s.calls[t].req.key)
    case Done(Replayed(j)) => HasJournal(s.db, j, s.calls[t].req.key)
    case _ => true
  }

  ghost predicate OrderOwned(s: State, o: Order) {
    && o.id in s.calls && s.calls[o.id].stage.Done?
    && s.calls[o.id].op.Some? && s.calls[o.id].op.value.Trade?
    && var q := s.calls[o.id].op.value.quote;
       && o.quoteId == q.id && o.user == q.user && o.src == q.src && o.dst == q.dst
       && o.amountIn == q.amountIn && o.amountOut == q.amountOut
       && (o.status == Filled ==> o.journalId == Some(o.id))
  }

  ghost predicate Linked(s: State) {
    && (forall i :: 0 <= i < |s.db.journals| ==> JournalOwned(s, s.db.journals[i]))
    && (forall t :: t in s.calls ==> ReplyTrue(s, t))
    && (forall i :: 0 <= i < |s.db.orders| ==> OrderOwned(s, s.db.orders[i]))
    && (forall i, j :: 0 <= i < j < |s.db.orders| ==> s.db.orders[i].id != s.db.orders[j].id)
  }

  /** Nothing a finished call left behind changes when other calls move on. */
  lemma LinkedFrame(s: State, s': State, t: nat)
    requires Linked(s) && (t in s.calls ==> !s.calls[t].stage.Done?)
    requires t in s'.calls && s'.calls == s.calls[t := s'.calls[t]]
    requires s'.db == s.db && ReplyTrue(s', t)
    ensures Linked(s')
  {
    forall u | u in s'.calls ensures ReplyTrue(s', u) { if u != t { assert ReplyTrue(s, u); } }
    forall i | 0 <= i < |s'.db.journals|
      ensures JournalOwned(s', s'.db.journals[i])
    { assert JournalOwned(s, s.db.journals[i]); }
    forall i | 0 <= i < |s'.db.orders| ensures OrderOwned(s', s'.db.orders[i]) { assert OrderOwned(s, s.db.orders[i]); }
  }

  lemma LookupTells(db: Db, key: BookKey)
    requires BooksSound(db)
    ensures var r := LookupReply(db, key);
            r.Some? ==> r.value.Replayed? && HasJournal(db, r.value.journalId, key)
  {
    if !KeyFresh(db, key) {
      var i :| 0 <= i < |db.journals| && db.journals[i].key == key
        && LookupReply(db, key) == Some(if db.journals[i].status == Success
              then Replayed(db.journals[i].id) else Refused);
      assert JournalSound(db.journals[i]);
    }
  }

  /** Of any tables, a look-up answers with a journal of that key if it succeeded, and refuses if none
      with that key did. */
  lemma LookupHeedsStatus(db: Db, key: BookKey)
    requires !KeyFresh(db, key)
    ensures LookupReply(db, key).value.Replayed? ==>
              exists i :: 0 <= i < |db.journals| && db.journals[i].key == key && db.journals[i].status == Success
                          && LookupReply(db, key).value.journalId == db.journals[i].id
    ensures LookupReply(db, key).value.Refused? ==>
              exists i :: 0 <= i < |db.journals| && db.journals[i].key == key && db.journals[i].status != Success
    ensures LookupReply(db, key).value.Replayed? || LookupReply(db, key).value.Refused?
  {
    var i :| 0 <= i < |db.journals| && db.journals[i].key == key
      && LookupReply(db, key) == Some(if db.journals[i].status == Success
            then Replayed(db.journals[i].id) else Refused);
  }

  lemma CommitLinksOrders(s: State, s': State, t: nat)
    requires Linked(s) && t in s.calls && !s.calls[t].stage.Done? && s.calls[t].op.Some?
    requires t in s'.calls && s'.calls == s.calls[t := s'.calls[t]] && s'.calls[t].stage.Done?
    requires s'.calls[t].op == s.calls[t].op
    requires s'.db.orders == s.db.orders
          || (s.calls[t].op.value.Trade?
              && s'.db.orders == s.db.orders + [FilledOrder(t, s.calls[t].op.value.quote, t)])
          || (s.calls[t].op.value.Trade? && s'.db.orders == s.db.orders + [RejectedOrder(t, s.calls[t].op.value.quote)])
    ensures forall i :: 0 <= i < |s'.db.orders| ==> OrderOwned(s', s'.db.orders[i])
    ensures forall i, j :: 0 <= i < j < |s'.db.orders| ==> s'.db.orders[i].id != s'.db.orders[j].id
  {
    forall i | 0 <= i < |s'.db.orders|
      ensures OrderOwned(s', s'.db.orders[i]) && (i < |s.db.orders| ==> s'.db.orders[i].id != t)
    {
      if i < |s.db.orders| { assert OrderOwned(s, s.db.orders[i]); }
    }
  }

  lemma JournalsStayOwned(s: State, s': State, t: nat, j: Journal)
    requires Linked(s) && t in s.calls && !s.calls[t].stage.Done? && t in s'.calls
    requires s'.calls == s.calls[t := s'.calls[t]]
    requires s'.db.journals == s.db.journals + [j] && JournalOwned(s', j)
    ensures forall i :: 0 <= i < |s'.db.journals| ==> JournalOwned(s', s'.db.journals[i])
    ensures forall u :: u in s'.calls && u != t ==> ReplyTrue(s', u)
  {
    forall u | u in s'.calls && u != t ensures ReplyTrue(s', u) { ReplyStays(s, s', u); }
    forall i | 0 <= i < |s'.db.journals| ensures JournalOwned(s', s'.db.journals[i]) {
      if i < |s.db.journals| { assert JournalOwned(s, s.db.journals[i]); }
    }
  }

  lemma CommitTells(s: State, t: nat)
    requires Inv(s) && Enabled(s, Commit(t))
    ensures var db' := CommitDb(s.db, t, s.calls[t]);
            |db'.journals| == |s.db.journals| + 1 && Tells(db'.journals[|s.db.journals|], s.calls[t].op.value)
  {
    CommitIsBook(s, t);
    BookedJournalTells(s.db, t, s.calls[t].op.value);
  }

  lemma CommitOwned(s: State, t: nat)
    requires Inv(s) && Enabled(s, Commit(t))
    ensures var s' := Next(s, Commit(t)); var n := |s.db.journals|;
            && s'.db.journals == s.db.journals + [s'.db.journals[n]] && s'.db.journals[n].id == t
            && s'.db.journals[n].key == s.calls[t].req.key && JournalOwned(s', s'.db.journals[n])
  {
    assert CallSound(s, t, s.calls[t]);
    CommitTells(s, t);
  }

  /** What a commit does to calls and orders. */
  ghost predicate CommitsCall(s: State, s': State, t: nat) {
    && t in s.calls && !s.calls[t].stage.Done? && s.calls[t].op.Some?
    && t in s'.calls && s'.calls == s.calls[t := s'.calls[t]] && s'.calls[t].op == s.calls[t].op
    && s'.calls[t].req == s.calls[t].req && s'.calls[t].stage == Done(Committed(t))
    && var op := s.calls[t].op.value;
       s'.db.orders == s.db.orders + if op.Trade? then [FilledOrder(t, op.quote, t)] else []
  }

  lemma CommitStep(s: State, t: nat)
    requires Enabled(s, Commit(t))
    ensures CommitsCall(s, Next(s, Commit(t)), t)
  {
  }

  lemma CommittedLinks(s: State, s': State, t: nat, j: Journal)
    requires Linked(s) && CommitsCall(s, s', t)
    requires s'.db.journals == s.db.journals + [j] && j.id == t && j.key == s.calls[t].req.key && JournalOwned(s', j)
    ensures Linked(s')
  {
    JournalsStayOwned(s, s', t, j);
    assert s'.db.journals[|s.db.journals|] == j;
    CommitLinksOrders(s, s', t);
  }

  lemma CommitKeepsLinked(s: State, t: nat)
    requires Inv(s) && Linked(s) && Enabled(s, Commit(t))
    ensures Linked(Next(s, Commit(t)))
  {
    CommitOwned(s, t);
    CommitStep(s, t);
    var s' := Next(s, Commit(t));
    CommittedLinks(s, s', t, s'.db.journals[|s.db.journals|]);
  }

  lemma ReplyStays(s: State, s': State, u: nat)
    requires u in s.calls && u in s'.calls && s'.calls[u] == s.calls[u] && ReplyTrue(s, u)
    requires s.db.journals <= s'.db.journals
    ensures ReplyTrue(s', u)
  {
    forall j: nat | HasJournal(s.db, j, s.calls[u].req.key) ensures HasJournal(s'.db, j, s.calls[u].req.key) {
      var i :| 0 <= i < |s.db.journals| && s.db.journals[i].id == j && s.db.journals[i].key == s.calls[u].req.key;
      assert s'.db.journals[i] == s.db.journals[i];
    }
  }

  lemma AuditKeepsLinked(s: State, t: nat)
    requires Linked(s) && Enabled(s, Audit(t))
    ensures Linked(Next(s, Audit(t)))
  {
    var s' := Next(s, Audit(t));
    forall u | u in s'.calls ensures ReplyTrue(s', u) { if u != t { ReplyStays(s, s', u); } }
    forall i | 0 <= i < |s'.db.journals|
      ensures JournalOwned(s', s'.db.journals[i])
    { assert JournalOwned(s, s.db.journals[i]); }
    CommitLinksOrders(s, s', t);
  }

  predicate Quiet(a: Action) {
    !a.Commit? && !a.Audit? && !a.Release? && !a.Lapse? && !a.Quotes?
  }

  /** Every other step of a call changes that call alone, and answers only from a look-up. */
  lemma QuietStepShape(s: State, a: Action)
    requires Enabled(s, a) && Quiet(a)
    ensures var s' := Next(s, a);
            && a.t in s'.calls && s'.calls == s.calls[a.t := s'.calls[a.t]] && s'.db == s.db
            && (a.t in s.calls ==> !s.calls[a.t].stage.Done? && s'.calls[a.t].req == s.calls[a.t].req)
            && (s'.calls[a.t].stage.Done? ==>
                  s'.calls[a.t].stage == Done(Refused)
                  || LookupReply(s.db, s'.calls[a.t].req.key) == Some(s'.calls[a.t].stage.reply))
  {
  }

  lemma QuietKeepsLinked(s: State, a: Action)
    requires BooksSound(s.db) && Linked(s) && Enabled(s, a) && Quiet(a)
    ensures Linked(Next(s, a))
  {
    QuietStepShape(s, a);
    LookupTells(s.db, Next(s, a).calls[a.t].req.key);
    LinkedFrame(s, Next(s, a), a.t);
  }

  lemma LeaseStepShape(s: State, a: Action)
    requires Enabled(s, a) && (a.Release? || a.Lapse? || a.Quotes?)
    ensures Next(s, a).calls == s.calls && Next(s, a).db == s.db && Next(s, a).keys == s.keys
  {
  }

  lemma NextKeepsLinked(s: State, a: Action)
    requires Inv(s) && Linked(s) && Enabled(s, a)
    ensures Linked(Next(s, a))
  {
    if a.Commit? {
      CommitKeepsLinked(s, a.t);
    } else if a.Audit? {
      AuditKeepsLinked(s, a.t);
    } else if Quiet(a) {
      QuietKeepsLinked(s, a);
    } else {
      LeaseStepShape(s, a);
      SameCallsKeepLinked(s, Next(s, a));
    }
  }

  lemma SameCallsKeepLinked(s: State, s': State)
    requires Linked(s) && s'.calls == s.calls && s'.db == s.db
    ensures Linked(s')
  {
    forall u | u in s'.calls ensures ReplyTrue(s', u) { assert ReplyTrue(s, u); }
    forall i | 0 <= i < |s'.db.journals|
      ensures JournalOwned(s', s'.db.journals[i])
    { assert JournalOwned(s, s.db.journals[i]); }
    forall i | 0 <= i < |s'.db.orders| ensures OrderOwned(s', s'.db.orders[i]) { assert OrderOwned(s, s.db.orders[i]); }
  }

  lemma {:induction false} AlwaysLinked(acts: seq<Action>, s: State)
    requires Reaches(acts, s)
    ensures Inv(s) && Linked(s)
  {
    Serializable(acts, s);
    var ttl, latency, now :| Run(Initial(ttl, latency, now), acts) == Some(s);
    if acts != [] {
      var prior := acts[..|acts| - 1];
      var p := Run(Initial(ttl, latency, now), prior).value;
      assert Reaches(prior, p);
      AlwaysLinked(prior, p);
      NextKeepsLinked(p, acts[|acts| - 1]);
    }
  }

  /** In every reachable state each journal tells in full what its call did, and that is what the call
      was asked to do. */
  lemma JournalsTell(acts: seq<Action>, s: State, i: nat)
    requires Reaches(acts, s) && i < |s.db.journals|
    ensures var j := s.db.journals[i];
            j.id in s.calls && s.calls[j.id].op.Some? && Tells(j, s.calls[j.id].op.value)
    ensures var c := s.calls[s.db.journals[i].id];
            match c.req
            case FundReq(key, ccy, n) => c.op.value == Fund(key, ccy, n)
            case ConvertReq(key, src, dst, n, purpose) =>
              var op := c.op.value;
              op.Convert? && op.key == key && op.src == src && op.dst == dst && op.amount == n && op.purpose == purpose
            case TradeReq(key, quoteId) =>
              var op := c.op.value;
              op.Trade? && op.key == key && op.quote.id == quoteId && op.quote.user == key.user
  {
    AlwaysLinked(acts, s);
    var j := s.db.journals[i];
    assert JournalOwned(s, j) && CallSound(s, j.id, s.calls[j.id]);
  }

  /** And its outbox row says the same as the journal, field by field. */
  lemma EventsMirrorJournals(acts: seq<Action>, s: State, i: nat)
    requires Reaches(acts, s) && i < |s.db.journals|
    ensures |s.db.outbox| == |s.db.journals|
    ensures var e, j := s.db.outbox[i], s.db.journals[i];
            && e.journalId == j.id && e.key == j.key && e.purpose == j.purpose && e.status == j.status
            && e.rate == j.rate && e.legs == j.legs
  {
    AlwaysLinked(acts, s);
    assert s.db.outbox[i] == EventOf(s.db.journals[i]);
  }

  // The journal a successful reply names.
  predicate Succeeds(c: Call, journalId: nat) {
    c.stage == Done(Committed(journalId)) || c.stage == Done(Replayed(journalId))
  }

  /** Two calls with the same key that both succeed, of whatever kind, name the same journal,
      and it is the only one with that key. */
  lemma SameKeySameJournal(acts: seq<Action>, s: State, t: nat, u: nat, j: nat, k: nat)
    requires Reaches(acts, s) && t in s.calls && u in s.calls && s.calls[t].req.key == s.calls[u].req.key
    requires Succeeds(s.calls[t], j) && Succeeds(s.calls[u], k)
    ensures j == k
    ensures HasJournal(s.db, j, s.calls[t].req.key)
    ensures forall m, n :: 0 <= m < n < |s.db.journals| ==> s.db.journals[m].key != s.db.journals[n].key
  {
    AlwaysLinked(acts, s);
    assert ReplyTrue(s, t) && ReplyTrue(s, u);
    KeyNamesOne(s.db, s.calls[t].req.key, j, k);
  }

  lemma KeyNamesOne(db: Db, key: BookKey, j: nat, k: nat)
    requires HasJournal(db, j, key) && HasJournal(db, k, key)
    requires forall m, n :: 0 <= m < n < |db.journals| ==> db.journals[m].key != db.journals[n].key
    ensures j == k
  {
    var m :| 0 <= m < |db.journals| && db.journals[m].id == j && db.journals[m].key == key;
    var n :| 0 <= n < |db.journals| && db.journals[n].id == k && db.journals[n].key == key;
    assert m == n;
  }
}
