/** What holds of the books after any serial history: conservation, the double entry, the
    chain of balances, the outbox and the order rows. */
module LedgerFacts {
  import opened Currencies
  import opened Sums
  import opened Ledger

  // ---- Conservation ----

  ghost function Only(m: map<Slot, int>, c: Currency): map<Slot, int> {
    map s | s in m && s.ccy == c :: m[s]
  }

  /** All the money in one currency, the house's and the users'. */
  ghost function Total(m: map<Slot, int>, c: Currency): int {
    Sum(Only(m, c))
  }

  ghost predicate Conserved(m: map<Slot, int>) {
    && (forall s :: s in m ==> 0 <= m[s])
    && (forall c: Currency :: Slot(House, c) in m)
    && (forall c: Currency :: Total(m, c) == SEED)
  }

  lemma TotalPut(m: map<Slot, int>, s: Slot, v: int, c: Currency)
    ensures Total(m[s := v], c) == Total(m, c) + if s.ccy == c then v - Amount(m, s) else 0
  {
    if s.ccy == c {
      assert Only(m[s := v], c) == Only(m, c)[s := v];
      SumPut(Only(m, c), s, v);
    } else {
      assert Only(m[s := v], c) == Only(m, c);
    }
  }

  /** No balance exceeds the seed, so none reaches 2^53. */
  lemma BalanceBounded(m: map<Slot, int>, s: Slot)
    requires Conserved(m)
    ensures 0 <= Amount(m, s) <= SEED
  {
    if s in m {
      SumPart(Only(m, s.ccy), s);
      assert Total(m, s.ccy) == SEED;
    }
  }

  lemma {:induction false} PutElsewhere(m: map<Slot, int>, slots: seq<Slot>, values: seq<int>, n: nat, s: Slot)
    requires n <= |slots| == |values|
    requires forall i :: 0 <= i < n ==> slots[i] != s
    ensures s in Put(m, slots, values, n) <==> s in m
    ensures Amount(Put(m, slots, values, n), s) == Amount(m, s)
  {
    if n > 0 { PutElsewhere(m, slots, values, n - 1, s); }
  }

  lemma {:induction false} PutAt(m: map<Slot, int>, slots: seq<Slot>, values: seq<int>, n: nat, i: nat)
    requires i < n <= |slots| == |values|
    requires forall j, k :: 0 <= j < k < n ==> slots[j] != slots[k]
    ensures slots[i] in Put(m, slots, values, n)
    ensures Put(m, slots, values, n)[slots[i]] == values[i]
  {
    if i < n - 1 { PutAt(m, slots, values, n - 1, i); }
  }

  lemma {:induction false} PutKeys(m: map<Slot, int>, slots: seq<Slot>, values: seq<int>, n: nat)
    requires n <= |slots| == |values|
    ensures forall s :: s in m ==> s in Put(m, slots, values, n)
    ensures forall s :: s in Put(m, slots, values, n) ==> s in m || exists i :: 0 <= i < n && slots[i] == s
  {
    if n > 0 { PutKeys(m, slots, values, n - 1); }
  }

  lemma AfterAt(m: map<Slot, int>, op: Op, i: nat)
    requires i < |Plan(op)|
    ensures Afters(op, Befores(m, op))[i] == Amount(m, Plan(op)[i]) + Deltas(op)[i]
  {
    assert Befores(m, op)[i] == Amount(m, Plan(op)[i]);
  }

  lemma PlanDistinct(op: Op)
    requires ValidOp(op)
    ensures forall i, j :: 0 <= i < j < |Plan(op)| ==> Plan(op)[i] != Plan(op)[j]
  {
  }

  /** A booking moves money between rows of the same currency and creates none. */
  lemma BookConserves(m: map<Slot, int>, op: Op)
    requires ValidOp(op) && Conserved(m)
    requires forall i :: 0 <= i < |Plan(op)| ==> 0 <= Afters(op, Befores(m, op))[i]
    ensures Conserved(Put(m, Plan(op), Afters(op, Befores(m, op)), |Plan(op)|))
  {
    var p, v := Plan(op), Afters(op, Befores(m, op));
    var n := |p|;
    PlanDistinct(op);
    PutKeys(m, p, v, n);
    assert forall i :: 0 <= i < n ==> v[i] - Amount(m, p[i]) == Deltas(op)[i];
    forall s | s in Put(m, p, v, n) ensures 0 <= Put(m, p, v, n)[s] {
      if i :| 0 <= i < n && p[i] == s {
        PutAt(m, p, v, n, i);
      } else {
        PutElsewhere(m, p, v, n, s);
      }
    }
    forall c: Currency ensures Total(Put(m, p, v, n), c) == SEED {
      PutShifts(m, p, v, 1, c);
      PutShifts(m, p, v, 2, c);
      if !op.Fund? {
        PutShifts(m, p, v, 3, c);
        PutShifts(m, p, v, 4, c);
      }
      assert Put(m, p, v, 0) == m;
    }
  }

  lemma PutShifts(m: map<Slot, int>, slots: seq<Slot>, values: seq<int>, n: nat, c: Currency)
    requires 0 < n <= |slots| == |values|
    requires forall j, k :: 0 <= j < k < n ==> slots[j] != slots[k]
    ensures Total(Put(m, slots, values, n), c)
         == Total(Put(m, slots, values, n - 1), c)
          + if slots[n - 1].ccy == c then values[n - 1] - Amount(m, slots[n - 1]) else 0
  {
    PutElsewhere(m, slots, values, n - 1, slots[n - 1]);
    TotalPut(Put(m, slots, values, n - 1), slots[n - 1], values[n - 1], c);
  }

  lemma EveryCurrency(c: Currency)
    ensures c in CURRENCIES
    ensures Slot(House, c) in SeedBalances()
  {
    var at := match c
      case NGN => 0 case USD => 1 case EUR => 2 case GBP => 3 case CAD => 4 case AUD => 5
      case CHF => 6 case JPY => 7 case CNY => 8 case ZAR => 9 case KES => 10 case GHS => 11;
    assert CURRENCIES[at] == c;
  }

  lemma SeedRow(s: Slot)
    ensures s in SeedBalances() <==> s.owner == House
    ensures s in SeedBalances() ==> SeedBalances()[s] == SEED
  {
    EveryCurrency(s.ccy);
  }

  lemma SeedTotal(c: Currency)
    ensures Total(SeedBalances(), c) == SEED
  {
    var one: map<Slot, int> := map[];
    var only := Only(SeedBalances(), c);
    forall s: Slot ensures s in only <==> s == Slot(House, c) { SeedRow(s); }
    SeedRow(Slot(House, c));
    assert only == one[Slot(House, c) := SEED];
    SumPut(one, Slot(House, c), SEED);
  }

  lemma SeedConserved()
    ensures Conserved(SeedBalances())
  {
    forall s: Slot ensures s in SeedBalances() ==> 0 <= SeedBalances()[s] { SeedRow(s); }
    forall c: Currency ensures Slot(House, c) in SeedBalances() && Total(SeedBalances(), c) == SEED {
      SeedRow(Slot(House, c));
      SeedTotal(c);
    }
  }

  // ---- Double entry ----

  ghost function SideTotal(legs: seq<Leg>, side: Side, c: Currency): int {
    if legs == [] then 0
    else
      var l := legs[|legs| - 1];
      SideTotal(legs[..|legs| - 1], side, c) + if l.side == side && l.slot.ccy == c then l.amount else 0
  }

  ghost predicate LegSound(l: Leg) {
    && 0 < l.amount && 0 <= l.before && 0 <= l.after
    && l.after == if l.side == Credit then l.before + l.amount else l.before - l.amount
  }

  ghost predicate JournalSound(j: Journal) {
    && j.status == Success
    && (forall i :: 0 <= i < |j.legs| ==> LegSound(j.legs[i]))
    && (forall c: Currency :: SideTotal(j.legs, Credit, c) == SideTotal(j.legs, Debit, c))
  }

  lemma SideTotalAppend(legs: seq<Leg>, l: Leg, side: Side, c: Currency)
    ensures SideTotal(legs + [l], side, c)
         == SideTotal(legs, side, c) + if l.side == side && l.slot.ccy == c then l.amount else 0
  {
    assert (legs + [l])[..|legs|] == legs;
  }

  lemma LegsBalance(legs: seq<Leg>, c: Currency)
    requires |legs| == 2 || |legs| == 4
    requires legs[0].side != legs[1].side && legs[0].slot.ccy == legs[1].slot.ccy && legs[0].amount == legs[1].amount
    requires |legs| == 4 ==>
      (legs[2].side != legs[3].side && legs[2].slot.ccy == legs[3].slot.ccy && legs[2].amount == legs[3].amount)
    ensures SideTotal(legs, Credit, c) == SideTotal(legs, Debit, c)
  {
    var none: seq<Leg> := [];
    forall side: Side ensures SideTotal(legs[..2], side, c) ==
      (if legs[0].side == side && legs[0].slot.ccy == c then legs[0].amount else 0)
      + if legs[1].side == side && legs[1].slot.ccy == c then legs[1].amount else 0
    {
      assert legs[..1] == none + [legs[0]] && legs[..2] == legs[..1] + [legs[1]];
      SideTotalAppend(none, legs[0], side, c);
      SideTotalAppend(legs[..1], legs[1], side, c);
    }
    if |legs| == 2 {
      assert legs == legs[..2];
    } else {
      assert legs[..3] == legs[..2] + [legs[2]] && legs == legs[..3] + [legs[3]];
      SideTotalAppend(legs[..2], legs[2], Credit, c);
      SideTotalAppend(legs[..2], legs[2], Debit, c);
      SideTotalAppend(legs[..3], legs[3], Credit, c);
      SideTotalAppend(legs[..3], legs[3], Debit, c);
    }
  }

  // ---- The chain of balances ----

  ghost function AllLegs(journals: seq<Journal>): seq<Leg> {
    if journals == [] then [] else AllLegs(journals[..|journals| - 1]) + journals[|journals| - 1].legs
  }

  function Opening(s: Slot): int {
    if s.owner == House then SEED else 0
  }

  /** The balance of a row after the legs, provided each leg on it starts where the one
      before ended. */
  ghost function Running(legs: seq<Leg>, s: Slot): Option<int> {
    if legs == [] then Some(Opening(s))
    else
      var l := legs[|legs| - 1];
      match Running(legs[..|legs| - 1], s)
      case None => None
      case Some(b) => if l.slot != s then Some(b) else if l.before != b then None else Some(l.after)
  }

  lemma RunningAppend(legs: seq<Leg>, l: Leg, s: Slot)
    requires Running(legs, s).Some? && (l.slot == s ==> l.before == Running(legs, s).value)
    ensures Running(legs + [l], s) == Some(if l.slot == s then l.after else Running(legs, s).value)
  {
    assert (legs + [l])[..|legs|] == legs;
  }

  /** The balance of a row after the first n of some legs, starting from b. */
  ghost function After(legs: seq<Leg>, n: nat, s: Slot, b: int): int
    requires n <= |legs|
  {
    if n == 0 then b else if legs[n - 1].slot == s then legs[n - 1].after else After(legs, n - 1, s, b)
  }

  lemma {:induction false} AfterUntouched(legs: seq<Leg>, n: nat, s: Slot, b: int)
    requires n <= |legs| && forall i :: 0 <= i < n ==> legs[i].slot != s
    ensures After(legs, n, s, b) == b
  {
    if n > 0 { AfterUntouched(legs, n - 1, s, b); }
  }

  lemma {:induction false} AfterTouched(legs: seq<Leg>, n: nat, i: nat, b: int)
    requires i < n <= |legs| && forall j, k :: 0 <= j < k < |legs| ==> legs[j].slot != legs[k].slot
    ensures After(legs, n, legs[i].slot, b) == legs[i].after
  {
    if i < n - 1 { AfterTouched(legs, n - 1, i, b); }
  }

  /** Legs on distinct rows, each starting from the row's balance, extend the chain. */
  lemma {:induction false} RunningExtend(legs: seq<Leg>, more: seq<Leg>, n: nat, s: Slot, b: int)
    requires n <= |more| && Running(legs, s) == Some(b)
    requires forall i :: 0 <= i < n && more[i].slot == s ==> more[i].before == b
    requires forall i, j :: 0 <= i < j < |more| ==> more[i].slot != more[j].slot
    ensures Running(legs + more[..n], s) == Some(After(more, n, s, b))
  {
    if n == 0 {
      assert legs + more[..n] == legs;
    } else {
      RunningExtend(legs, more, n - 1, s, b);
      assert legs + more[..n] == (legs + more[..n - 1]) + [more[n - 1]];
      if more[n - 1].slot == s { AfterUntouched(more, n - 1, s, b); }
      RunningAppend(legs + more[..n - 1], more[n - 1], s);
    }
  }

  /** Opening balance plus credits minus debits. */
  ghost function Net(legs: seq<Leg>, s: Slot): int {
    if legs == [] then Opening(s)
    else
      var l := legs[|legs| - 1];
      Net(legs[..|legs| - 1], s) + if l.slot != s then 0 else if l.side == Credit then l.amount else -l.amount
  }

  lemma {:induction false} RunningIsNet(legs: seq<Leg>, s: Slot)
    requires Running(legs, s).Some? && forall i :: 0 <= i < |legs| ==> LegSound(legs[i])
    ensures Running(legs, s).value == Net(legs, s)
  {
    if legs != [] {
      RunningIsNet(legs[..|legs| - 1], s);
    }
  }

  // ---- Everything together ----

  ghost predicate OrderSound(db: Db, o: Order) {
    || o.status == Rejected
    || (o.status == Filled && o.journalId.Some?
        && exists i :: 0 <= i < |db.journals| && Settles(db.journals[i], o))
  }

  /** The journal carries exactly the order's two amounts between the user and the house. */
  ghost predicate Settles(j: Journal, o: Order) {
    && Some(j.id) == o.journalId && j.key.user == o.user && j.purpose == Trading && |j.legs| == 4
    && j.legs[0].slot == Slot(User(o.user), o.src) && j.legs[0].side == Debit && j.legs[0].amount == o.amountIn
    && j.legs[1].slot == Slot(House, o.src) && j.legs[1].side == Credit && j.legs[1].amount == o.amountIn
    && j.legs[2].slot == Slot(House, o.dst) && j.legs[2].side == Debit && j.legs[2].amount == o.amountOut
    && j.legs[3].slot == Slot(User(o.user), o.dst) && j.legs[3].side == Credit && j.legs[3].amount == o.amountOut
  }

  ghost predicate BooksSound(db: Db) {
    && Conserved(db.balances)
    && (forall i, j :: 0 <= i < j < |db.journals| ==> db.journals[i].key != db.journals[j].key)
    && (forall i :: 0 <= i < |db.journals| ==> JournalSound(db.journals[i]))
    && (forall s :: Running(AllLegs(db.journals), s) == Some(Amount(db.balances, s)))
    && |db.outbox| == |db.journals|
    && (forall i :: 0 <= i < |db.outbox| ==> db.outbox[i] == EventOf(db.journals[i]))
    && (forall i :: 0 <= i < |db.orders| ==> OrderSound(db, db.orders[i]))
  }

  /** Which planned row the i-th leg of the journal is about. */
  function RowOf(op: Op, i: nat): (k: nat)
    requires i < |Plan(op)|
    ensures k < |Plan(op)|
  {
    if op.Fund? then i else if i == 0 then 0 else if i == 3 then 1 else i + 1
  }

  function LegAt(op: Op, i: nat): nat
    requires i < |Plan(op)|
    ensures LegAt(op, i) < |Plan(op)| && RowOf(op, LegAt(op, i)) == i
  {
    if op.Fund? then i else if i == 0 then 0 else if i == 1 then 3 else i - 1
  }

  lemma LegsFollowPlan(op: Op, b: seq<int>, a: seq<int>)
    requires |b| == |a| == |Plan(op)|
    ensures var legs := LegsOf(op, AmountIn(op), AmountOut(op), b, a);
            |legs| == |Plan(op)| && forall i :: 0 <= i < |legs| ==>
              && legs[i].slot == Plan(op)[RowOf(op, i)]
              && legs[i].before == b[RowOf(op, i)] && legs[i].after == a[RowOf(op, i)]
              && Deltas(op)[RowOf(op, i)] == (if legs[i].side == Credit then legs[i].amount else -legs[i].amount)
  {
  }

  lemma LegsSound(m: map<Slot, int>, op: Op, legs: seq<Leg>)
    requires ValidOp(op)
    requires legs == LegsOf(op, AmountIn(op), AmountOut(op), Befores(m, op), Afters(op, Befores(m, op)))
    requires forall i :: 0 <= i < |Plan(op)| ==> 0 <= Befores(m, op)[i] && 0 <= Afters(op, Befores(m, op))[i]
    ensures |legs| == |Plan(op)|
    ensures forall i :: 0 <= i < |legs| ==> LegSound(legs[i]) && legs[i].before == Amount(m, legs[i].slot)
    ensures forall i, j :: 0 <= i < j < |legs| ==> legs[i].slot != legs[j].slot
    ensures forall c :: SideTotal(legs, Credit, c) == SideTotal(legs, Debit, c)
  {
    LegsFollowPlan(op, Befores(m, op), Afters(op, Befores(m, op)));
    PlanDistinct(op);
    forall c: Currency ensures SideTotal(legs, Credit, c) == SideTotal(legs, Debit, c) {
      LegsBalance(legs, c);
    }
  }

  lemma BookKeepsChain(db: Db, id: nat, op: Op, legs: seq<Leg>, s: Slot)
    requires ValidOp(op) && Running(AllLegs(db.journals), s) == Some(Amount(db.balances, s))
    requires legs == LegsOf(op, AmountIn(op), AmountOut(op),
                            Befores(db.balances, op), Afters(op, Befores(db.balances, op)))
    requires forall i :: 0 <= i < |legs| ==> legs[i].before == Amount(db.balances, legs[i].slot)
    requires forall i, j :: 0 <= i < j < |legs| ==> legs[i].slot != legs[j].slot
    ensures Running(AllLegs(db.journals) + legs, s) == Some(Amount(Book(db, id, op).balances, s))
  {
    var b := Befores(db.balances, op);
    var a, p := Afters(op, b), Plan(op);
    LegsFollowPlan(op, b, a);
    assert legs[..|legs|] == legs;
    RunningExtend(AllLegs(db.journals), legs, |legs|, s, Amount(db.balances, s));
    PlanDistinct(op);
    if k :| 0 <= k < |p| && p[k] == s {
      PutAt(db.balances, p, a, |p|, k);
      AfterTouched(legs, |legs|, LegAt(op, k), Amount(db.balances, s));
    } else {
      PutElsewhere(db.balances, p, a, |p|, s);
      AfterUntouched(legs, |legs|, s, Amount(db.balances, s));
    }
  }

  lemma BookKeepsOrders(db: Db, id: nat, op: Op)
    requires forall i :: 0 <= i < |db.orders| ==> OrderSound(db, db.orders[i])
    requires ValidOp(op)
    ensures forall i :: 0 <= i < |Book(db, id, op).orders| ==> OrderSound(Book(db, id, op), Book(db, id, op).orders[i])
  {
    var db' := Book(db, id, op);
    forall i | 0 <= i < |db'.orders| ensures OrderSound(db', db'.orders[i]) {
      if i < |db.orders| {
        OrderStays(db, db', db.orders[i]);
      } else {
        assert Settles(db'.journals[|db.journals|], db'.orders[i]);
      }
    }
  }

  lemma BookKeepsSound(db: Db, id: nat, op: Op)
    requires BooksSound(db) && ValidOp(op) && Accepts(db, op)
    ensures BooksSound(Book(db, id, op))
  {
    var b := Befores(db.balances, op);
    forall i | 0 <= i < |Plan(op)| ensures 0 <= b[i] { BalanceBounded(db.balances, Plan(op)[i]); }
    BookConserves(db.balances, op);
    var db' := Book(db, id, op);
    var n := |db.journals|;
    var legs := db'.journals[n].legs;
    LegsSound(db.balances, op, legs);
    assert db'.journals[..n] == db.journals;
    assert AllLegs(db'.journals) == AllLegs(db.journals) + legs;
    forall s ensures Running(AllLegs(db'.journals), s) == Some(Amount(db'.balances, s)) {
      BookKeepsChain(db, id, op, legs, s);
    }
    BookKeepsOrders(db, id, op);
  }

  lemma OrderStays(db: Db, db': Db, o: Order)
    requires OrderSound(db, o) && db.journals <= db'.journals
    ensures OrderSound(db', o)
  {
    if o.status == Filled {
      var i :| 0 <= i < |db.journals| && Settles(db.journals[i], o);
      assert Settles(db'.journals[i], o);
    }
  }

  /** Every serial history leaves sound books. */
  lemma {:induction false} ReplaySound(log: seq<Entry>)
    requires Replay(log).Some?
    ensures BooksSound(Replay(log).value)
  {
    if log == [] {
      SeedConserved();
      forall s ensures Amount(SeedBalances(), s) == Opening(s) {
        EveryCurrency(s.ccy);
      }
    } else {
      var prior := log[..|log| - 1];
      ReplaySound(prior);
      var db := Replay(prior).value;
      match log[|log| - 1]
      case Booked(id, op) =>
        BookKeepsSound(db, id, op);
      case Audited(id, q) =>
        var db' := Replay(log).value;
        forall i | 0 <= i < |db'.orders| ensures OrderSound(db', db'.orders[i]) {
          if i < |db.orders| { OrderStays(db, db', db.orders[i]); }
        }
    }
  }

  /** The stored balance of every row is its opening balance plus credits minus debits. */
  lemma LedgerReconstructs(db: Db, s: Slot)
    requires BooksSound(db)
    ensures Amount(db.balances, s) == Net(AllLegs(db.journals), s)
  {
    AllLegsSound(db.journals);
    RunningIsNet(AllLegs(db.journals), s);
  }

  lemma {:induction false} AllLegsSound(journals: seq<Journal>)
    requires forall i :: 0 <= i < |journals| ==> JournalSound(journals[i])
    ensures forall i :: 0 <= i < |AllLegs(journals)| ==> LegSound(AllLegs(journals)[i])
  {
    if journals != [] {
      AllLegsSound(journals[..|journals| - 1]);
    }
  }

  /** When nobody is overdrawn, every number the operation touches stays within the seed. */
  lemma AcceptedBounded(m: map<Slot, int>, op: Op)
    requires Conserved(m) && ValidOp(op)
    requires forall i :: 0 <= i < |Plan(op)| ==> 0 <= Afters(op, Befores(m, op))[i]
    ensures forall i :: 0 <= i < |Plan(op)| ==>
              0 <= Befores(m, op)[i] <= SEED && 0 <= Afters(op, Befores(m, op))[i] <= SEED
    ensures AmountIn(op) <= SEED && AmountOut(op) <= SEED
  {
    var p, b := Plan(op), Befores(m, op);
    var a := Afters(op, b);
    BookConserves(m, op);
    PlanDistinct(op);
    forall i | 0 <= i < |p| ensures 0 <= b[i] <= SEED && 0 <= a[i] <= SEED {
      BalanceBounded(m, p[i]);
      BalanceBounded(Put(m, p, a, |p|), p[i]);
      PutAt(m, p, a, |p|, i);
    }
    assert a[0] == b[0] + Deltas(op)[0] && a[1] == b[1] + Deltas(op)[1];
  }
}
