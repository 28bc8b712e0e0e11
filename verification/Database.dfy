/** The database as one connection sees it: the tables, their constraints, and a transaction
    that can be undone.  The migration's seeding and the journal writer are methods on it. */
module Database {
  import opened Currencies
  import opened Ledger
  import opened LedgerFacts
  import opened MachineMoney

  class Database {
    var balances: map<Slot, int>
    var journals: seq<Journal>
    var outbox: seq<Event>
    var orders: seq<Order>
    var saved: Option<Db>   // what a rollback goes back to, while a transaction is open

    function Contents(): Db
      reads this
    {
      Db(balances, journals, outbox, orders)
    }

    /** The house account migration: one seed row per currency, in the list's order. */
    constructor Migrated()
      ensures Contents() == SeedDb() && saved == None
      ensures forall s :: s in balances <==> s.owner == House
      ensures forall s :: s in balances ==> balances[s] == 9_000_000_000_000_000
      ensures journals == [] && outbox == [] && orders == []
    {
      balances := map[];
      journals := [];
      outbox := [];
      orders := [];
      saved := None;
      new;
      var i := 0;
      while i < |CURRENCIES|
        invariant 0 <= i <= |CURRENCIES|
        invariant forall s :: s in balances <==> s.owner == House && s.ccy in CURRENCIES[..i]
        invariant forall s :: s in balances ==> balances[s] == SEED
        invariant journals == [] && outbox == [] && orders == [] && saved == None
      {
        assert CURRENCIES[..i + 1] == CURRENCIES[..i] + [CURRENCIES[i]];
        InsertBalance(Slot(House, CURRENCIES[i]), SEED);
        i := i + 1;
      }
      assert CURRENCIES[..i] == CURRENCIES;
      forall s: Slot ensures s in balances <==> s.owner == House { EveryCurrency(s.ccy); }
      forall s: Slot ensures s in balances <==> s in SeedBalances() { SeedRow(s); }
    }

    // ---- Transactions ----

    method StartTransaction()
      requires saved == None
      modifies this`saved
      ensures saved == Some(Contents())
    {
      saved := Some(Contents());
    }

    method CommitTransaction()
      modifies this`saved
      ensures saved == None
    {
      saved := None;
    }

    method RollbackTransaction()
      requires saved.Some?
      modifies this
      ensures Contents() == old(saved).value && saved == None
    {
      balances, journals, outbox, orders := saved.value.balances, saved.value.journals,
        saved.value.outbox, saved.value.orders;
      saved := None;
    }

    // ---- Rows ----

    method LockBalance(slot: Slot) returns (amount: Option<int>)
      ensures amount == if slot in balances then Some(balances[slot]) else None
    {
      amount := if slot in balances then Some(balances[slot]) else None;
    }

    method InsertBalance(slot: Slot, amount: int)
      requires slot !in balances && Storable(amount)
      modifies this`balances
      ensures balances == old(balances)[slot := amount]
    {
      balances := balances[slot := amount];
    }

    /** Updates are called only with amounts the column's check accepts. */
    method UpdateBalance(slot: Slot, amount: int)
      requires slot in balances && Storable(amount)
      modifies this`balances
      ensures balances == old(balances)[slot := amount]
    {
      balances := balances[slot := amount];
    }

    method InsertOrder(o: Order, rate: int) returns (ok: bool)
      modifies this`orders
      ensures ok <==> OrderStorable(o, rate)
      ensures orders == if ok then old(orders) + [o] else old(orders)
    {
      ok := OrderStorable(o, rate);
      if ok { orders := orders + [o]; }
    }

    method FillOrder(at: nat, journalId: nat)
      requires at < |orders|
      modifies this`orders
      ensures orders == old(orders)[at := old(orders)[at].(status := Filled, journalId := Some(journalId))]
    {
      orders := orders[at := orders[at].(status := Filled, journalId := Some(journalId))];
    }

    /** Write a journal, its legs and its outbox row; the unique key, the checks and the column
        widths decide whether the database takes them. */
    method RecordJournalEntry(id: nat, key: BookKey, purpose: Purpose, status: Option<Status>, rate: Option<int>,
                              legs: seq<Leg>)
      returns (journal: Option<Journal>)
      modifies this`journals, this`outbox
      ensures journal.Some? <==>
                && (forall i :: 0 <= i < |old(journals)| ==> old(journals)[i].key != key)
                && (rate.Some? ==> 0 < rate.value < 1_000_000_000_000_000_000)
                && forall i :: 0 <= i < |legs| ==>
                     0 < legs[i].amount < 0x8000_0000_0000_0000 && 0 <= legs[i].before < 0x8000_0000_0000_0000
                     && 0 <= legs[i].after < 0x8000_0000_0000_0000
      ensures journal.Some? ==>
                var given := if status.Some? then status.value else Pending;
                && journal.value == Journal(id, key, purpose, given, rate, legs)
                && journals == old(journals) + [journal.value]
                && outbox == old(outbox) + [JournalCreated(id, key, purpose, given, rate, legs)]
      ensures journal == None ==> journals == old(journals) && outbox == old(outbox)
    {
      journal := None;
      if KeyFresh(Contents(), key) && JournalTakesRate(rate) && forall i :: 0 <= i < |legs| ==> LegStorable(legs[i]) {
        var saved := Journal(id, key, purpose, if status.Some? then status.value else Pending, rate, legs);
        journals := journals + [saved];
        outbox := outbox + [EventOf(saved)];
        journal := Some(saved);
      }
    }
  }

  predicate OrderStorable(o: Order, rate: int) {
    0 < o.amountIn && Storable(o.amountIn) && 0 < o.amountOut && Storable(o.amountOut) && OrderTakesRate(rate)
  }

  /** The journal stored under a key, if any. */
  function FindByIdempotencyKey(db: Db, key: BookKey): (found: Option<Journal>)
    ensures found == None <==> KeyFresh(db, key)
    ensures found.Some? ==> found.value.key == key && found.value in db.journals
  {
    FindIn(db.journals, key)
  }

  function FindIn(journals: seq<Journal>, key: BookKey): (found: Option<Journal>)
    ensures found == None <==> forall i :: 0 <= i < |journals| ==> journals[i].key != key
    ensures found.Some? ==> found.value.key == key && found.value in journals
  {
    if journals == [] then None
    else if journals[0].key == key then Some(journals[0])
    else FindIn(journals[1..], key)
  }
}
