/** Conversions and trades that block each other although every call follows the lock order. */
module DeadlockRuns {
  import opened Currencies
  import opened Decimal40
  import opened Doubles
  import opened Money
  import opened Ledger
  import opened LedgerFacts
  import opened Engine
  import opened EngineTheorems
  import opened EngineRuns
  import opened Deadlock
  import opened WalletService
  import H = Histories
  import L = Leases

  lemma PayerPasses(s: State, op: Op)
    requires Reachable(s) && ValidOp(op) && !op.Fund?
    requires AmountIn(op) <= Amount(s.db.balances, Slot(User(op.key.user), SourceOf(op)))
    ensures forall i :: 0 <= i < 3 ==> Passes(s.db, op, i)
  {
    ReachableInv(s);
    BalanceBounded(s.db.balances, Plan(op)[0]);
    NumberExact(Amount(s.db.balances, Plan(op)[0]));
  }

  function RowsBelow(op: Op, n: nat): set<Slot>
    requires n <= |Plan(op)|
  {
    set i | 0 <= i < n :: Plan(op)[i]
  }

  /** An exchange's first three rows: the user's two and the house's source. */
  function FirstRows(op: Op): set<Slot>
    requires !op.Fund?
  {
    RowsBelow(op, 3)
  }

  lemma RowsOneMore(op: Op, n: nat)
    requires ValidOp(op) && n < |Plan(op)|
    ensures RowsBelow(op, n + 1) == RowsBelow(op, n) + {Plan(op)[n]} && Plan(op)[n] !in RowsBelow(op, n)
  {
    PlanDistinct(op);
  }

  /** A call can lock its first rows while nobody else holds any of them. */
  lemma {:induction false} CanLockFirst(s: State, t: nat, op: Op, n: nat) returns (s': State)
    requires Reachable(s) && t in s.calls && Opened(s.calls[t], op, 0) && ValidOp(op) && n <= |Plan(op)|
    requires RowsBelow(op, n) !! s.rows.Keys && forall i :: 0 <= i < n ==> Passes(s.db, op, i)
    ensures Reachable(s') && OnlyMoved(s, s', t) && Opened(s'.calls[t], op, n)
    ensures s'.rows.Keys == s.rows.Keys + RowsBelow(op, n) && s'.leases == s.leases
  {
    if n == 0 {
      s' := s;
    } else {
      RowsOneMore(op, n - 1);
      var before := CanLockFirst(s, t, op, n - 1);
      s' := CanLockNext(before, t, op, n - 1);
      MovedTwice(s, before, s', t);
    }
  }

  // ---- Requests in a ring ----

  /** Conversions ready to be asked for in a state, and trades that have their quote and wait for
      the lock: call ts[k] is to run ops[k], no two have the same call or user, and each user can
      pay. */
  ghost predicate Requests(s: State, ts: seq<nat>, ops: seq<Op>) {
    && |ts| == |ops|
    && (forall k :: 0 <= k < |ts| ==> Ready(s, ts[k], ops[k]) && Payable(s.db, ops[k]))
    && (forall k, l :: 0 <= k < l < |ts| ==> ts[k] != ts[l] && ops[k].key.user != ops[l].key.user)
  }

  ghost predicate Ready(s: State, t: nat, op: Op) {
    match op
    case Fund(_, _, _) => false
    case Convert(_, _, _, _, _, _, _) => t !in s.calls && KeyFresh(s.db, op.key)
    case Trade(key, q) => t in s.calls && s.calls[t] == H.Prepared(key, q)
  }

  ghost predicate Payable(db: Db, op: Op) {
    ValidOp(op) && !op.Fund? && AmountIn(op) <= Amount(db.balances, Slot(User(op.key.user), SourceOf(op)))
  }

  /** Some of the exchanges, each buying what the next one sells and the last what the first
      does. */
  ghost predicate Ring(ops: seq<Op>, ring: seq<nat>) {
    && ring != [] && (forall i :: 0 <= i < |ring| ==> ring[i] < |ops| && !ops[ring[i]].Fund?)
    && forall i :: 0 <= i < |ring| ==> Linked(ops, ring, i)
  }

  /** What the i-th buys the next one sells. */
  ghost predicate Linked(ops: seq<Op>, ring: seq<nat>, i: nat)
    requires i < |ring| && forall k :: 0 <= k < |ring| ==> ring[k] < |ops|
  {
    TargetOf(ops[ring[i]]) == SourceOf(ops[Successor(ring, i)])
  }

  ghost predicate Simple(ops: seq<Op>, ring: seq<nat>)
    requires Ring(ops, ring)
  {
    forall i, j :: 0 <= i < j < |ring| ==> SourceOf(ops[ring[i]]) != SourceOf(ops[ring[j]])
  }

  /** A ring that passes a currency twice contains a shorter one. */
  lemma {:induction false} SimpleRing(ops: seq<Op>, ring: seq<nat>) returns (simple: seq<nat>)
    requires Ring(ops, ring)
    ensures Ring(ops, simple) && Simple(ops, simple)
    decreases |ring|
  {
    if i, j :| 0 <= i < j < |ring| && SourceOf(ops[ring[i]]) == SourceOf(ops[ring[j]]) {
      var part := ring[i..j];
      forall k | 0 <= k < |part| ensures Linked(ops, part, k) {
        assert part[k] == ring[i + k] && Linked(ops, ring, i + k);
      }
      simple := SimpleRing(ops, part);
    } else {
      simple := ring;
    }
  }

  function CallsOf(ts: seq<nat>, ring: seq<nat>): seq<nat>
    requires forall i :: 0 <= i < |ring| ==> ring[i] < |ts|
  {
    seq(|ring|, i requires 0 <= i < |ring| => ts[ring[i]])
  }

  // ---- A simple ring can block itself ----

  predicate Holding(s: State, t: nat, op: Op) {
    t in s.calls && Opened(s.calls[t], op, 3)
  }

  /** The first m calls of the ring hold their first three rows, and nothing else has happened. */
  ghost predicate Held(s: State, s': State, ts: seq<nat>, ops: seq<Op>, ring: seq<nat>, m: nat)
    requires Requests(s, ts, ops) && Ring(ops, ring) && m <= |ring|
  {
    && s'.db == s.db
    && (forall i :: 0 <= i < m ==> Holding(s', ts[ring[i]], ops[ring[i]]))
    && (forall t :: t in s'.calls || t in s.calls ==> Untouched(s, s', t) || exists i :: 0 <= i < m && ts[ring[i]] == t)
    && (forall x :: x in s'.rows ==> exists i :: 0 <= i < m && x in FirstRows(ops[ring[i]]))
    && (forall user :: user in s'.leases ==> exists i :: 0 <= i < m && ops[ring[i]].key.user == user)
  }

  ghost predicate Untouched(s: State, s': State, t: nat) {
    t in s.calls && t in s'.calls && s'.calls[t] == s.calls[t]
  }

  lemma RingDistinct(s: State, ts: seq<nat>, ops: seq<Op>, ring: seq<nat>, i: nat, j: nat)
    requires Requests(s, ts, ops) && Ring(ops, ring) && Simple(ops, ring) && i < j < |ring|
    ensures ring[i] != ring[j] && ts[ring[i]] != ts[ring[j]] && ops[ring[i]].key.user != ops[ring[j]].key.user
  {
    assert SourceOf(ops[ring[i]]) != SourceOf(ops[ring[j]]);
  }

  lemma RingRowsApart(s: State, ts: seq<nat>, ops: seq<Op>, ring: seq<nat>, i: nat, j: nat)
    requires Requests(s, ts, ops) && Ring(ops, ring) && Simple(ops, ring) && i < j < |ring|
    ensures FirstRows(ops[ring[i]]) !! FirstRows(ops[ring[j]])
  {
    RingDistinct(s, ts, ops, ring, i, j);
    FirstRowsApart(ops[ring[i]], ops[ring[j]]);
  }

  lemma FirstRowsAre(op: Op)
    requires !op.Fund?
    ensures FirstRows(op) == {Slot(User(op.key.user), SourceOf(op)), Slot(User(op.key.user), TargetOf(op)),
                               Slot(House, SourceOf(op))}
  {
    assert Plan(op)[0] in FirstRows(op) && Plan(op)[1] in FirstRows(op) && Plan(op)[2] in FirstRows(op);
  }

  lemma FirstRowsApart(a: Op, b: Op)
    requires !a.Fund? && !b.Fund? && a.key.user != b.key.user && SourceOf(a) != SourceOf(b)
    ensures FirstRows(a) !! FirstRows(b)
  {
    FirstRowsAre(a);
    FirstRowsAre(b);
  }

  /** The next call of the ring finds its call, its lease and its first rows free. */
  lemma NextFree(s: State, s': State, ts: seq<nat>, ops: seq<Op>, ring: seq<nat>, m: nat)
    requires Requests(s, ts, ops) && Ring(ops, ring) && Simple(ops, ring) && m < |ring| && Held(s, s', ts, ops, ring, m)
    ensures var k := ring[m];
            Ready(s', ts[k], ops[k]) && ops[k].key.user !in s'.leases && FirstRows(ops[k]) !! s'.rows.Keys
  {
    var k := ring[m];
    forall i | 0 <= i < m
      ensures ts[ring[i]] != ts[k] && ops[ring[i]].key.user != ops[k].key.user
      ensures FirstRows(ops[ring[i]]) !! FirstRows(ops[k])
    {
      RingDistinct(s, ts, ops, ring, i, m);
      RingRowsApart(s, ts, ops, ring, i, m);
    }
    assert Ready(s, ts[k], ops[k]);
    assert ts[k] in s.calls ==> Untouched(s, s', ts[k]);
  }

  /** What the next call of the ring has got by holding its first rows. */
  ghost predicate HoldsOne(before: State, s': State, t: nat, op: Op) {
    && !op.Fund? && OnlyMoved(before, s', t) && Holding(s', t, op)
    && s'.rows.Keys == before.rows.Keys + FirstRows(op) && s'.leases == before.leases[op.key.user := t]
  }

  /** No call but t has lost the rows it held. */
  ghost predicate KeepsHolding(before: State, s': State, t: nat) {
    forall u, op :: u != t && Holding(before, u, op) ==> Holding(s', u, op)
  }

  lemma MovingKeepsHolding(before: State, s': State, t: nat)
    requires OnlyMoved(before, s', t)
    ensures KeepsHolding(before, s', t)
  {
  }

  lemma CallsOneMore(s: State, before: State, s': State, ts: seq<nat>, ops: seq<Op>, ring: seq<nat>, m: nat)
    requires Requests(s, ts, ops) && Ring(ops, ring) && Simple(ops, ring) && m < |ring|
    requires Held(s, before, ts, ops, ring, m)
    requires KeepsHolding(before, s', ts[ring[m]]) && Holding(s', ts[ring[m]], ops[ring[m]])
    ensures forall i :: 0 <= i < m + 1 ==> Holding(s', ts[ring[i]], ops[ring[i]])
  {
    forall i | 0 <= i < m + 1 ensures Holding(s', ts[ring[i]], ops[ring[i]]) {
      if i < m {
        assert Holding(before, ts[ring[i]], ops[ring[i]]);
        RingDistinct(s, ts, ops, ring, i, m);
      }
    }
  }

  lemma OthersOneMore(s: State, before: State, s': State, ts: seq<nat>, ops: seq<Op>, ring: seq<nat>, m: nat)
    requires Requests(s, ts, ops) && Ring(ops, ring) && m < |ring|
    requires Held(s, before, ts, ops, ring, m) && OnlyMoved(before, s', ts[ring[m]])
    ensures forall t :: t in s'.calls || t in s.calls ==>
              Untouched(s, s', t) || exists i :: 0 <= i < m + 1 && ts[ring[i]] == t
  {
    forall t | t in s'.calls || t in s.calls
      ensures Untouched(s, s', t) || exists i :: 0 <= i < m + 1 && ts[ring[i]] == t
    {
      if t == ts[ring[m]] { assert ts[ring[m]] == t; } else { assert Untouched(s, before, t) ==> Untouched(s, s', t); }
    }
  }

  lemma LocksOneMore(s: State, before: State, s': State, ts: seq<nat>, ops: seq<Op>, ring: seq<nat>, m: nat)
    requires Requests(s, ts, ops) && Ring(ops, ring) && m < |ring|
    requires Held(s, before, ts, ops, ring, m) && HoldsOne(before, s', ts[ring[m]], ops[ring[m]])
    ensures forall x :: x in s'.rows ==> exists i :: 0 <= i < m + 1 && x in FirstRows(ops[ring[i]])
    ensures forall user :: user in s'.leases ==> exists i :: 0 <= i < m + 1 && ops[ring[i]].key.user == user
  {
    forall x | x in s'.rows ensures exists i :: 0 <= i < m + 1 && x in FirstRows(ops[ring[i]]) {
      if x !in before.rows { assert x in FirstRows(ops[ring[m]]); }
    }
    forall user | user in s'.leases ensures exists i :: 0 <= i < m + 1 && ops[ring[i]].key.user == user {
      if user !in before.leases { assert ops[ring[m]].key.user == user; }
    }
  }

  lemma CanHoldOne(s: State, t: nat, op: Op) returns (s': State)
    requires Reachable(s) && Ready(s, t, op) && op.key.user !in s.leases && Payable(s.db, op)
    requires FirstRows(op) !! s.rows.Keys
    ensures Reachable(s') && HoldsOne(s, s', t, op)
  {
    PayerPasses(s, op);
    var begun;
    if op.Convert? { begun := CanOpen(s, t, op); } else { begun := H.CanBegin(s, t, op.key, op.quote); }
    s' := CanLockFirst(begun, t, op, 3);
    MovedTwice(s, begun, s', t);
  }

  lemma {:induction false} CanHold(s: State, ts: seq<nat>, ops: seq<Op>, ring: seq<nat>, m: nat) returns (s': State)
    requires Reachable(s) && Idle(s) && Requests(s, ts, ops) && Ring(ops, ring) && Simple(ops, ring) && m <= |ring|
    ensures Reachable(s') && Held(s, s', ts, ops, ring, m)
  {
    if m == 0 {
      s' := s;
    } else {
      var before := CanHold(s, ts, ops, ring, m - 1);
      NextFree(s, before, ts, ops, ring, m - 1);
      s' := CanHoldOne(before, ts[ring[m - 1]], ops[ring[m - 1]]);
      MovingKeepsHolding(before, s', ts[ring[m - 1]]);
      CallsOneMore(s, before, s', ts, ops, ring, m - 1);
      OthersOneMore(s, before, s', ts, ops, ring, m - 1);
      LocksOneMore(s, before, s', ts, ops, ring, m - 1);
    }
  }

  lemma HeldIsCircle(s: State, s': State, ts: seq<nat>, ops: seq<Op>, ring: seq<nat>)
    requires Requests(s, ts, ops) && Ring(ops, ring) && Held(s, s', ts, ops, ring, |ring|)
    ensures CurrencyCycle(s', CallsOf(ts, ring))
  {
    var circle := CallsOf(ts, ring);
    forall i | 0 <= i < |circle| ensures Midway(s', circle[i], 3) && FollowedBy(s', circle[i], Successor(circle, i)) {
      HeldFollows(s, s', ts, ops, ring, i);
    }
  }

  function After(n: nat, i: nat): nat {
    if i + 1 < n then i + 1 else 0
  }

  lemma SuccessorIs(ts: seq<nat>, ring: seq<nat>, i: nat)
    requires i < |ring| && forall k :: 0 <= k < |ring| ==> ring[k] < |ts|
    ensures After(|ring|, i) < |ring| && Successor(ring, i) == ring[After(|ring|, i)]
    ensures CallsOf(ts, ring)[i] == ts[ring[i]]
    ensures Successor(CallsOf(ts, ring), i) == ts[ring[After(|ring|, i)]]
  {
  }

  lemma HeldFollows(s: State, s': State, ts: seq<nat>, ops: seq<Op>, ring: seq<nat>, i: nat)
    requires Requests(s, ts, ops) && Ring(ops, ring) && Held(s, s', ts, ops, ring, |ring|) && i < |ring|
    ensures var circle := CallsOf(ts, ring); Midway(s', circle[i], 3) && FollowedBy(s', circle[i], Successor(circle, i))
  {
    SuccessorIs(ts, ring, i);
    var k, l := ring[i], ring[After(|ring|, i)];
    assert Holding(s', ts[k], ops[k]) && Holding(s', ts[l], ops[l]) && Linked(ops, ring, i);
    HeldPair(s', ts[k], ops[k], ts[l], ops[l]);
  }

  lemma HeldPair(s: State, t: nat, a: Op, u: nat, b: Op)
    requires Holding(s, t, a) && Holding(s, u, b)
    requires !a.Fund? && !b.Fund? && TargetOf(a) == SourceOf(b)
    ensures Midway(s, t, 3) && FollowedBy(s, t, u)
  {
  }

  lemma CycleWaits(s: State, ts: seq<nat>)
    requires Reachable(s)
    ensures CurrencyCycle(s, ts) <==> WaitCycle(s, ts)
  {
    var acts :| Reaches(acts, s);
    DeadlockIffCurrencyCycle(acts, s, ts);
  }

  /** Conversions and trades of distinct paying users that close a simple ring of currencies can come
      to wait for each other all the way round. */
  lemma SimpleRingDeadlocks(s: State, ts: seq<nat>, ops: seq<Op>, ring: seq<nat>) returns (s': State)
    requires Reachable(s) && Idle(s) && Requests(s, ts, ops) && Ring(ops, ring) && Simple(ops, ring)
    ensures Reachable(s') && WaitCycle(s', CallsOf(ts, ring)) && s'.db == s.db
    ensures forall i :: 0 <= i < |ring| ==> ts[ring[i]] in s'.calls && s'.calls[ts[ring[i]]].op == Some(ops[ring[i]])
  {
    s' := CanHold(s, ts, ops, ring, |ring|);
    HeldIsCircle(s, s', ts, ops, ring);
    CycleWaits(s', CallsOf(ts, ring));
  }

  // ---- The condition on the requests themselves ----

  /** The call runs one of the requests. */
  ghost predicate RunsOne(s: State, t: nat, ts: seq<nat>, ops: seq<Op>) {
    |ts| == |ops| && t in s.calls && exists k :: 0 <= k < |ts| && ts[k] == t && s.calls[t].op == Some(ops[k])
  }

  /** A reachable state in which some of the requests wait for each other in a circle. */
  ghost predicate Blocks(s: State, circle: seq<nat>, ts: seq<nat>, ops: seq<Op>) {
    Reachable(s) && WaitCycle(s, circle) && forall i :: 0 <= i < |circle| ==> RunsOne(s, circle[i], ts, ops)
  }

  ghost function Which(s: State, t: nat, ts: seq<nat>, ops: seq<Op>): (k: nat)
    requires RunsOne(s, t, ts, ops)
    ensures k < |ts| && ts[k] == t && s.calls[t].op == Some(ops[k])
  {
    var k: nat :| k < |ts| && ts[k] == t && s.calls[t].op == Some(ops[k]);
    k
  }

  lemma BlockedIsRing(s: State, circle: seq<nat>, ts: seq<nat>, ops: seq<Op>) returns (ring: seq<nat>)
    requires Blocks(s, circle, ts, ops) && forall k :: 0 <= k < |ops| ==> !ops[k].Fund?
    ensures Ring(ops, ring)
  {
    CycleWaits(s, circle);
    ring := seq(|circle|, i requires 0 <= i < |circle| => Which(s, circle[i], ts, ops));
    forall i | 0 <= i < |ring| ensures Linked(ops, ring, i) {
      var next := if i + 1 < |ring| then i + 1 else 0;
      assert Successor(ring, i) == ring[next] && Successor(circle, i) == circle[next];
      assert FollowedBy(s, circle[i], circle[next]);
    }
  }

  lemma RingBlocks(s: State, ts: seq<nat>, ops: seq<Op>, ring: seq<nat>) returns (s': State, circle: seq<nat>)
    requires Reachable(s) && Idle(s) && Requests(s, ts, ops) && Ring(ops, ring)
    ensures Blocks(s', circle, ts, ops)
  {
    var simple := SimpleRing(ops, ring);
    s' := SimpleRingDeadlocks(s, ts, ops, simple);
    circle := CallsOf(ts, simple);
    forall i | 0 <= i < |circle| ensures RunsOne(s', circle[i], ts, ops) {
      assert ts[simple[i]] == circle[i] && s'.calls[circle[i]].op == Some(ops[simple[i]]);
    }
  }

  /** Conversions and trades of distinct paying users can deadlock if and only if what they sell and
      buy closes a ring of currencies. */
  lemma RequestsDeadlockIffRing(s: State, ts: seq<nat>, ops: seq<Op>)
    requires Reachable(s) && Idle(s) && Requests(s, ts, ops)
    ensures (exists s', circle :: Blocks(s', circle, ts, ops)) <==> exists ring :: Ring(ops, ring)
  {
    if ring :| Ring(ops, ring) {
      var s', circle := RingBlocks(s, ts, ops, ring);
    }
    if s', circle :| Blocks(s', circle, ts, ops) {
      forall k | 0 <= k < |ops| ensures !ops[k].Fund? { assert Payable(s.db, ops[k]); }
      var ring := BlockedIsRing(s', circle, ts, ops);
    }
  }

  lemma PairIsRing(s: State, t: nat, u: nat, a: Op, b: Op)
    requires Ready(s, t, a) && Ready(s, u, b) && t != u && Payable(s.db, a) && Payable(s.db, b)
    requires a.key.user != b.key.user && SourceOf(a) == TargetOf(b) && TargetOf(a) == SourceOf(b)
    ensures Requests(s, [t, u], [a, b]) && Ring([a, b], [0, 1]) && Simple([a, b], [0, 1])
    ensures CallsOf([t, u], [0, 1]) == [t, u]
  {
    assert Successor([0, 1], 0) == 1 && Successor([0, 1], 1) == 0;
  }

  /** Two users who can each sell what the other buys are such a ring. */
  lemma OpposedPairDeadlocks(s: State, t: nat, u: nat, a: Op, b: Op) returns (s': State)
    requires Reachable(s) && Idle(s) && Ready(s, t, a) && Ready(s, u, b) && t != u
    requires Payable(s.db, a) && Payable(s.db, b)
    requires a.key.user != b.key.user && SourceOf(a) == TargetOf(b) && TargetOf(a) == SourceOf(b)
    ensures Reachable(s') && WaitCycle(s', [t, u]) && s'.db == s.db
    ensures t in s'.calls && u in s'.calls && s'.calls[t].op == Some(a) && s'.calls[u].op == Some(b)
  {
    PairIsRing(s, t, u, a, b);
    s' := SimpleRingDeadlocks(s, [t, u], [a, b], [0, 1]);
    assert [t, u][[0, 1][0]] == t && [t, u][[0, 1][1]] == u;
  }

  // ---- One user alone ----

  lemma DoLapse(s: State, user: nat) returns (s': State)
    requires Reachable(s) && user in s.leases
    ensures Reachable(s') && s' == s.(leases := s.leases - {user}, lapsed := s.lapsed + {user})
  {
    StepReaches(s, Lapse(user));
    s' := Next(s, Lapse(user));
  }

  lemma FirstRowIs(op: Op)
    requires !op.Fund?
    ensures RowsBelow(op, 1) == {Slot(User(op.key.user), SourceOf(op))}
  {
    assert Plan(op)[0] in RowsBelow(op, 1);
  }

  /** A payer can open its transaction and lock the row it sells from. */
  lemma CanHoldSource(s: State, t: nat, op: Op) returns (s': State)
    requires Reachable(s) && op.Convert? && Ready(s, t, op) && Payable(s.db, op) && op.key.user !in s.leases
    requires Slot(User(op.key.user), op.src) !in s.rows
    ensures Reachable(s') && OnlyMoved(s, s', t) && Opened(s'.calls[t], op, 1)
    ensures s'.rows.Keys == s.rows.Keys + {Slot(User(op.key.user), op.src)} && s'.leases == s.leases[op.key.user := t]
  {
    PayerPasses(s, op);
    FirstRowIs(op);
    var begun := CanOpen(s, t, op);
    s' := CanLockFirst(begun, t, op, 1);
    MovedTwice(s, begun, s', t);
  }

  lemma OneUserIsCycle(s: State, t: nat, u: nat, a: Op, b: Op)
    requires t in s.calls && u in s.calls && Opened(s.calls[t], a, 1) && Opened(s.calls[u], b, 1)
    requires !a.Fund? && !b.Fund? && a.key.user == b.key.user
    requires SourceOf(a) == TargetOf(b) && TargetOf(a) == SourceOf(b)
    ensures CurrencyCycle(s, [t, u])
  {
    assert Successor([t, u], 0) == u && Successor([t, u], 1) == t;
  }

  /** With the lease lapsed, a single user's two opposed conversions can block each other on the
      user's own rows; while it holds they cannot, since only one is inside. */
  lemma OneUserDeadlocks(s: State, t: nat, u: nat, a: Op, b: Op) returns (s': State)
    requires Reachable(s) && Idle(s) && a.Convert? && b.Convert? && Ready(s, t, a) && Ready(s, u, b) && t != u
    requires Payable(s.db, a) && Payable(s.db, b) && a.key.user == b.key.user && a.src == b.dst && a.dst == b.src
    ensures Reachable(s') && WaitCycle(s', [t, u]) && Midway(s', t, 1) && Midway(s', u, 1) && s'.db == s.db
    ensures a.key.user in s'.lapsed
  {
    s' := BothHoldSources(s, t, u, a, b);
    OneUserIsCycle(s', t, u, a, b);
    CycleWaits(s', [t, u]);
    BothInside(s', t, u);
  }

  /** The first call holds its source row, and then its user's lease runs out. */
  lemma HoldThenLapse(s: State, t: nat, op: Op) returns (s': State)
    requires Reachable(s) && Idle(s) && op.Convert? && Ready(s, t, op) && Payable(s.db, op)
    ensures Reachable(s') && OnlyMoved(s, s', t) && Opened(s'.calls[t], op, 1)
    ensures s'.rows.Keys == {Slot(User(op.key.user), op.src)} && s'.leases == map[]
  {
    var held := CanHoldSource(s, t, op);
    s' := DoLapse(held, op.key.user);
  }

  lemma BothHoldSources(s: State, t: nat, u: nat, a: Op, b: Op) returns (s': State)
    requires Reachable(s) && Idle(s) && a.Convert? && b.Convert? && Ready(s, t, a) && Ready(s, u, b) && t != u
    requires Payable(s.db, a) && Payable(s.db, b) && a.key.user == b.key.user && a.src != b.src
    ensures Reachable(s') && s'.db == s.db && t in s'.calls && u in s'.calls
    ensures Opened(s'.calls[t], a, 1) && Opened(s'.calls[u], b, 1)
  {
    var lapsed := HoldThenLapse(s, t, a);
    s' := CanHoldSource(lapsed, u, b);
    StillOpened(lapsed, s', u, t, a);
  }

  lemma StillOpened(before: State, s': State, t: nat, u: nat, op: Op)
    requires OnlyMoved(before, s', t) && u != t && u in before.calls && Opened(before.calls[u], op, 1)
    ensures u in s'.calls && Opened(s'.calls[u], op, 1)
  {
  }

  lemma BothInside(s: State, t: nat, u: nat)
    requires Reachable(s) && t != u && t in s.calls && u in s.calls && L.Critical(s.calls[t]) && L.Critical(s.calls[u])
    requires s.calls[t].req.key.user == s.calls[u].req.key.user
    ensures s.calls[t].req.key.user in s.lapsed
  {
    var acts :| Reaches(acts, s);
    if s.calls[t].req.key.user !in s.lapsed { L.LeaseExcludes(acts, s, t, u); }
  }

  /** A call that waits in a circle between its user's own rows has outlived a lease of that user. */
  lemma OneUserCircleNeedsLapse(acts: seq<Action>, s: State, ts: seq<nat>, i: nat)
    requires Reaches(acts, s) && WaitCycle(s, ts) && i < |ts| && Midway(s, ts[i], 1)
    ensures s.calls[ts[i]].req.key.user in s.lapsed
  {
    DeadlockIffCurrencyCycle(acts, s, ts);
    var next := if i + 1 < |ts| then i + 1 else 0;
    assert WaitsFor(s, ts[i], Successor(ts, i)) && Successor(ts, i) == ts[next];
    assert Midway(s, ts[next], 1) && OneUser(s, ts);
    BothInside(s, ts[i], ts[next]);
  }

  // ---- One that happens ----

  /** A funding the house can pay is accepted, and moves just that much. */
  lemma FundBooks(db: Db, id: nat, op: Op)
    requires Conserved(db.balances) && op.Fund? && KeyFresh(db, op.key)
    requires 0 < op.amount <= Amount(db.balances, Slot(House, op.ccy))
    ensures ValidOp(op) && Accepts(db, op)
    ensures var own := Slot(User(op.key.user), op.ccy); var after := Book(db, id, op);
            && Amount(after.balances, own) == Amount(db.balances, own) + op.amount
            && (forall x :: x != own && x != Slot(House, op.ccy)
                  ==> Amount(after.balances, x) == Amount(db.balances, x))
            && (forall k :: k != op.key && KeyFresh(db, k) ==> KeyFresh(after, k))
  {
    var m, p, a := db.balances, Plan(op), Afters(op, Befores(db.balances, op));
    BalanceBounded(m, p[0]);
    AfterAt(m, op, 0);
    AfterAt(m, op, 1);
    PutAt(m, p, a, 2, 0);
    forall x | x != p[0] && x != p[1]
      ensures Amount(Put(m, p, a, 2), x) == Amount(m, x)
    { PutElsewhere(m, p, a, 2, x); }
  }

  /** From an idle state one more user can be funded. */
  lemma CanFund(s: State, t: nat, user: nat, ccy: Currency) returns (s': State)
    requires Reachable(s) && Idle(s) && t !in s.calls && KeyFresh(s.db, BookKey(user, t))
    requires 100 <= Amount(s.db.balances, Slot(House, ccy))
    ensures Reachable(s') && Idle(s') && OnlyCall(s, s', t)
    ensures var own := Slot(User(user), ccy);
            && Amount(s'.db.balances, own) == Amount(s.db.balances, own) + 100
            && (forall x :: x != own && x != Slot(House, ccy) ==> Amount(s'.db.balances, x) == Amount(s.db.balances, x))
            && (forall k :: k != BookKey(user, t) && KeyFresh(s.db, k) ==> KeyFresh(s'.db, k))
  {
    ReachableInv(s);
    FundBooks(s.db, t, Fund(BookKey(user, t), ccy, 100));
    s' := CanBook(s, t, Fund(BookKey(user, t), ccy, 100));
  }

  lemma StartReachable() returns (s: State)
    ensures Reachable(s) && Idle(s) && s.calls.Keys == {}
    ensures forall x :: Amount(s.db.balances, x) == if x.owner == House then SEED else 0
    ensures forall k :: KeyFresh(s.db, k)
  {
    s := Initial(10, 0, 0);
    assert Run(Initial(10, 0, 0), []) == Some(s);
    assert Reaches([], s);
    forall x ensures Amount(s.db.balances, x) == if x.owner == House then SEED else 0 { SeedRow(x); }
  }

  lemma OneFunded() returns (s: State)
    ensures Reachable(s) && Idle(s) && s.calls.Keys == {1}
    ensures Amount(s.db.balances, Slot(User(1), NGN)) == 100 && Amount(s.db.balances, Slot(User(2), USD)) == 0
    ensures Amount(s.db.balances, Slot(House, USD)) == SEED
    ensures forall k :: k != BookKey(1, 1) ==> KeyFresh(s.db, k)
  {
    var start := StartReachable();
    assert KeyFresh(start.db, BookKey(1, 1)) && Amount(start.db.balances, Slot(House, NGN)) == SEED;
    s := CanFund(start, 1, 1, NGN);
  }

  lemma TwoFunded() returns (s: State)
    ensures Reachable(s) && Idle(s) && s.calls.Keys == {1, 2}
    ensures Amount(s.db.balances, Slot(User(1), NGN)) == 100 && Amount(s.db.balances, Slot(User(2), USD)) == 100
    ensures KeyFresh(s.db, BookKey(1, 3)) && KeyFresh(s.db, BookKey(2, 4))
  {
    var first := OneFunded();
    assert KeyFresh(first.db, BookKey(2, 2)) && KeyFresh(first.db, BookKey(1, 3)) && KeyFresh(first.db, BookKey(2, 4));
    s := CanFund(first, 2, 2, USD);
  }

  /** A rate table in which a dollar is worth a hundred naira. */
  function HundredNaira(): map<Currency, RawRate> {
    map[NGN := Finite(1.0), USD := Finite(0.01)]
  }

  lemma RateOfHundred(rate: real)
    requires rate == 0.01 || rate == 100.0 || rate == 1.0
    ensures Digits40(rate) && Round(rate) == rate
  {
    DigitsInt(1);
    DigitsInt(100);
    DigitsScale(1.0);
    DigitsScale(0.1);
    RoundIdentity(rate);
  }

  lemma WholeConversion(amount: int, src: Currency, dst: Currency, rate: real, payout: int)
    requires Digits40(amount as real) && Digits40(payout as real)
    requires ExactConversion(amount, src, dst, rate) == payout as real
    ensures ConvertSubunits(amount, src, dst, rate) == payout
  {
    ConversionRoundsOnce(amount, src, dst, rate);
    RoundIdentity(payout as real);
  }

  lemma HundredNairaExact()
    ensures ExactConversion(100, NGN, USD, 0.01) == 1.0 && ExactConversion(100, USD, NGN, 100.0) == 10_000.0
  {
    FactorCases(100.0, NGN);
    FactorCases(100.0, USD);
    assert At(1.0, 0.01) == 0.01 && At(1.0, 100.0) == 100.0;
    FactorCases(0.01, USD);
    FactorCases(100.0, NGN);
  }

  /** Selling a naira, and selling a dollar, at that table. */
  function SellNaira(): Op {
    Convert(BookKey(1, 3), NGN, USD, 100, 1, 1_000_000, Exchange)
  }

  function SellDollar(): Op {
    Convert(BookKey(2, 4), USD, NGN, 100, 10_000, 10_000_000_000, Exchange)
  }

  lemma HundredNairaPrices(db: Db)
    requires KeyFresh(db, BookKey(1, 3)) && KeyFresh(db, BookKey(2, 4))
    ensures ConvertVerdict(db, 1, "NGN", "USD", 100.0, 3, Exchange, HundredNaira()) == Perform(SellNaira())
    ensures ConvertVerdict(db, 2, "USD", "NGN", 100.0, 4, Exchange, HundredNaira()) == Perform(SellDollar())
  {
    RateOfHundred(0.01);
    RateOfHundred(100.0);
    DigitsInt(100);
    DigitsInt(1);
    DigitsInt(10_000);
    HundredNairaExact();
    assert CrossRate(1.0, 0.01) == 0.01 && CrossRate(0.01, 1.0) == 100.0;
    WholeConversion(100, NGN, USD, 0.01, 1);
    WholeConversion(100, USD, NGN, 100.0, 10_000);
    assert EightDecimals(0.01) == 1_000_000 && EightDecimals(100.0) == 10_000_000_000;
  }

  /** The comments say the lock order avoids deadlocks between flows.  It does not: at a hundred
      naira to the dollar, one user selling a naira and another selling a dollar reach one. */
  lemma DeadlockHappens() returns (s: State)
    ensures Reachable(s) && WaitCycle(s, [3, 4])
    ensures 3 in s.calls && 4 in s.calls && s.calls[3].op.Some? && s.calls[4].op.Some?
    ensures ConvertVerdict(s.db, 1, "NGN", "USD", 100.0, 3, Exchange, HundredNaira()) == Perform(s.calls[3].op.value)
    ensures ConvertVerdict(s.db, 2, "USD", "NGN", 100.0, 4, Exchange, HundredNaira()) == Perform(s.calls[4].op.value)
  {
    var funded := TwoFunded();
    var a, b := SellNaira(), SellDollar();
    s := OpposedPairDeadlocks(funded, 3, 4, a, b);
    HundredNairaPrices(s.db);
  }
}
