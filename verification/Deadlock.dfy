/** When transactions can wait for each other in a circle. */
module Deadlock {
  import opened Currencies
  import opened Ledger
  import opened Engine
  import opened EngineSafety
  import opened EngineTheorems

  // ---- Waiting ----

  // The row or key a transaction asks for next.
  datatype Resource = Row(slot: Slot) | Key(key: BookKey)

  ghost predicate Asks(s: State, t: nat, r: Resource) {
    && t in s.calls && InTransaction(s.calls[t]) && s.calls[t].stage == Open
    && var c, op := s.calls[t], s.calls[t].op.value;
       if |c.seen| < |Plan(op)| then
         // a select waits only for a committed row; after finding none, the insert waits
         r == Row(Plan(op)[|c.seen|]) && (c.absent || Plan(op)[|c.seen|] in s.db.balances)
       else
         |c.seen| == |Plan(op)| && r == Key(op.key)
  }

  ghost predicate HeldBy(s: State, r: Resource, u: nat) {
    match r
    case Row(slot) => slot in s.rows && s.rows[slot] == u
    case Key(key) => key in s.keys && s.keys[key] == u
  }

  ghost predicate WaitsFor(s: State, t: nat, u: nat) {
    t != u && exists r :: Asks(s, t, r) && HeldBy(s, r, u)
  }

  function Successor(ts: seq<nat>, i: nat): nat
    requires i < |ts|
  {
    if i + 1 < |ts| then ts[i + 1] else ts[0]
  }

  /** Calls that wait for each other in a circle. */
  ghost predicate WaitCycle(s: State, ts: seq<nat>) {
    ts != [] && forall i :: 0 <= i < |ts| ==> WaitsFor(s, ts[i], Successor(ts, i))
  }

  /** Waiting is being stuck: the only step of its own that a call in a circle can take is to give
      up, so a circle lasts until one of its calls is aborted. */
  lemma CircleEndsByAbort(s: State, ts: seq<nat>, i: nat, a: Action)
    requires WaitCycle(s, ts) && i < |ts| && Enabled(s, a) && !a.Lapse? && !a.Quotes? && a.t == ts[i]
    ensures a.Abort?
  {
    assert WaitsFor(s, ts[i], Successor(ts, i));
    var r :| Asks(s, ts[i], r) && HeldBy(s, r, Successor(ts, i));
  }

  // ---- The condition in terms of currencies ----

  /** A conversion or trade that holds its source row of one owner and is about to lock its
      target row: of its user after one row, of the house after three. */
  ghost predicate Midway(s: State, t: nat, rows: nat) {
    && t in s.calls && InTransaction(s.calls[t]) && s.calls[t].stage == Open
    && !s.calls[t].op.value.Fund? && |s.calls[t].seen| == rows
  }

  /** The currencies sold and bought by calls stopped at the same point close a circle: among
      the house's rows, or among the rows of one user. */
  ghost predicate CurrencyCycle(s: State, ts: seq<nat>) {
    && ts != []
    && ((forall i :: 0 <= i < |ts| ==> Midway(s, ts[i], 3))
        || ((forall i :: 0 <= i < |ts| ==> Midway(s, ts[i], 1)) && OneUser(s, ts)))
    && forall i :: 0 <= i < |ts| ==> FollowedBy(s, ts[i], Successor(ts, i))
  }

  ghost predicate OneUser(s: State, ts: seq<nat>) {
    forall i, j :: 0 <= i < |ts| && 0 <= j < |ts| && ts[i] in s.calls && ts[j] in s.calls ==>
      s.calls[ts[i]].req.key.user == s.calls[ts[j]].req.key.user
  }

  ghost predicate FollowedBy(s: State, t: nat, u: nat) {
    && t in s.calls && u in s.calls && s.calls[t].op.Some? && s.calls[u].op.Some?
    && TargetOf(s.calls[t].op.value) == SourceOf(s.calls[u].op.value)
  }

  // ---- Lock order ----

  function Tier(r: Resource): nat {
    match r case Row(slot) => (if slot.owner == House then 1 else 0) case Key(_) => 2
  }

  /** The plan goes from the user's rows to the house's; two rows of one owner are its
      source and then its target. */
  lemma PlanTiers(op: Op, k: nat, n: nat)
    requires k < n < |Plan(op)|
    ensures Tier(Row(Plan(op)[k])) <= Tier(Row(Plan(op)[n]))
    ensures Tier(Row(Plan(op)[k])) == Tier(Row(Plan(op)[n])) ==>
              && !op.Fund? && n == (if Tier(Row(Plan(op)[n])) == 1 then 3 else 1)
              && var owner := if Tier(Row(Plan(op)[n])) == 1 then House else User(op.key.user);
                 Plan(op)[k] == Slot(owner, SourceOf(op)) && Plan(op)[n] == Slot(owner, TargetOf(op))
  {
  }

  /** Such a call is stopped between its source and its target row. */
  ghost predicate Between(s: State, u: nat, held: Resource, asked: Resource) {
    && Midway(s, u, if Tier(asked) == 1 then 3 else 1)
    && var op := s.calls[u].op.value;
       var owner := if Tier(asked) == 1 then House else User(op.key.user);
       held == Row(Slot(owner, SourceOf(op))) && asked == Row(Slot(owner, TargetOf(op)))
  }

  lemma KeyHolderPosts(s: State, u: nat, key: BookKey)
    requires LocksSound(s) && key in s.keys && s.keys[key] == u
    ensures u in s.calls && s.calls[u].stage == Posting
  {
    assert KeyOwned(s, key);
  }

  lemma HoldsPlanned(s: State, u: nat, held: Resource)
    requires LocksSound(s) && u in s.calls && s.calls[u].stage == Open && HeldBy(s, held, u)
    ensures held.Row? && InTransaction(s.calls[u]) && |s.calls[u].seen| <= |Plan(s.calls[u].op.value)|
    ensures PlannedBelow(s.calls[u].op.value, |s.calls[u].seen|, held.slot)
  {
    if held.Row? {
      assert RowOwned(s, held.slot);
    } else {
      KeyHolderPosts(s, u, held.key);
    }
  }

  /** What a waiting call holds lies at or below what it waits for, and two resources of the
      same tier are its source and its target row. */
  lemma HeldBelowAsked(s: State, u: nat, held: Resource, asked: Resource)
    requires LocksSound(s) && Asks(s, u, asked) && HeldBy(s, held, u)
    ensures Tier(held) <= Tier(asked)
    ensures Tier(held) == Tier(asked) ==> Between(s, u, held, asked)
  {
    HoldsPlanned(s, u, held);
    var c := s.calls[u];
    var k :| 0 <= k < |c.seen| && Plan(c.op.value)[k] == held.slot;
    if |c.seen| < |Plan(c.op.value)| {
      PlanTiers(c.op.value, k, |c.seen|);
    }
  }

  /** Numbers that never fall along a circle are all the same. */
  lemma {:induction false} ConstantAround(tiers: seq<nat>, i: nat)
    requires i < |tiers| && forall k :: 0 <= k < |tiers| ==> tiers[Before(|tiers|, k)] <= tiers[k]
    ensures tiers[0] <= tiers[i] <= tiers[|tiers| - 1] <= tiers[0]
  {
    if i > 0 {
      ConstantAround(tiers, i - 1);
      assert Before(|tiers|, i) == i - 1;
    } else {
      assert Before(|tiers|, 0) == |tiers| - 1;
    }
    ReachesEnd(tiers, i);
  }

  lemma {:induction false} ReachesEnd(tiers: seq<nat>, i: nat)
    requires i < |tiers| && forall k :: 0 <= k < |tiers| ==> tiers[Before(|tiers|, k)] <= tiers[k]
    ensures tiers[i] <= tiers[|tiers| - 1]
    decreases |tiers| - i
  {
    if i + 1 < |tiers| {
      assert Before(|tiers|, i + 1) == i;
      ReachesEnd(tiers, i + 1);
    }
  }

  lemma {:induction false} FindAwaited(s: State, ts: seq<nat>, n: nat) returns (rs: seq<Resource>)
    requires WaitCycle(s, ts) && n <= |ts|
    ensures |rs| == n && forall i :: 0 <= i < n ==> Blocked(s, ts[i], rs[i], Successor(ts, i))
  {
    if n == 0 {
      rs := [];
    } else {
      var before := FindAwaited(s, ts, n - 1);
      var r := FindBlock(s, ts[n - 1], Successor(ts, n - 1));
      rs := before + [r];
    }
  }

  ghost predicate Blocked(s: State, t: nat, r: Resource, u: nat) {
    Asks(s, t, r) && HeldBy(s, r, u)
  }

  lemma FindBlock(s: State, t: nat, u: nat) returns (r: Resource)
    requires WaitsFor(s, t, u)
    ensures Blocked(s, t, r, u)
  {
    r :| Asks(s, t, r) && HeldBy(s, r, u);
  }

  function Before(n: nat, i: nat): (p: nat)
    requires i < n
    ensures p < n
  {
    if i > 0 then i - 1 else n - 1
  }

  ghost predicate Awaited(s: State, ts: seq<nat>, rs: seq<Resource>) {
    |rs| == |ts| > 0 && forall i :: 0 <= i < |ts| ==> Blocked(s, ts[i], rs[i], Successor(ts, i))
  }

  lemma RisesAt(s: State, ts: seq<nat>, rs: seq<Resource>, i: nat)
    requires LocksSound(s) && Awaited(s, ts, rs) && i < |ts|
    ensures Tier(rs[Before(|ts|, i)]) <= Tier(rs[i])
    ensures Tier(rs[Before(|ts|, i)]) == Tier(rs[i]) ==>
              Between(s, ts[i], rs[Before(|ts|, i)], rs[i]) && ts[i] in s.calls && CallSound(s, ts[i], s.calls[ts[i]])
  {
    var p := Before(|ts|, i);
    assert Successor(ts, p) == ts[i] && Blocked(s, ts[p], rs[p], Successor(ts, p))
      && Blocked(s, ts[i], rs[i], Successor(ts, i));
    HeldBelowAsked(s, ts[i], rs[p], rs[i]);
  }

  lemma AllBetween(s: State, ts: seq<nat>, rs: seq<Resource>)
    requires |rs| == |ts| > 0
    requires forall i :: 0 <= i < |ts| ==> Tier(rs[Before(|ts|, i)]) <= Tier(rs[i])
    ensures forall i :: 0 <= i < |ts| ==> Tier(rs[i]) == Tier(rs[0])
  {
    var n := |ts|;
    var tiers := seq(n, i requires 0 <= i < n => Tier(rs[i]));
    forall i | 0 <= i < n ensures Tier(rs[i]) == Tier(rs[0]) { ConstantAround(tiers, i); }
  }

  lemma WaitCycleClosesCurrencies(s: State, ts: seq<nat>)
    requires LocksSound(s) && WaitCycle(s, ts)
    ensures CurrencyCycle(s, ts)
  {
    var rs := FindAwaited(s, ts, |ts|);
    AwaitedClosesCurrencies(s, ts, rs);
  }

  lemma AwaitedClosesCurrencies(s: State, ts: seq<nat>, rs: seq<Resource>)
    requires LocksSound(s) && Awaited(s, ts, rs)
    ensures CurrencyCycle(s, ts)
  {
    forall i | 0 <= i < |ts|
      ensures Tier(rs[Before(|ts|, i)]) <= Tier(rs[i])
      ensures Tier(rs[Before(|ts|, i)]) == Tier(rs[i]) ==>
                Between(s, ts[i], rs[Before(|ts|, i)], rs[i]) && ts[i] in s.calls && CallSound(s, ts[i], s.calls[ts[i]])
    {
      RisesAt(s, ts, rs, i);
    }
    AllBetween(s, ts, rs);
    BetweenClosesCurrencies(s, ts, rs);
  }

  lemma BetweenClosesCurrencies(s: State, ts: seq<nat>, rs: seq<Resource>)
    requires |rs| == |ts| > 0
    requires forall i :: 0 <= i < |ts| ==> Tier(rs[i]) == Tier(rs[0])
    requires forall i :: 0 <= i < |ts| ==> Between(s, ts[i], rs[Before(|ts|, i)], rs[i])
    requires forall i :: 0 <= i < |ts| ==> ts[i] in s.calls && CallSound(s, ts[i], s.calls[ts[i]])
    ensures CurrencyCycle(s, ts)
  {
    var n := |ts|;
    forall i | 0 <= i < n ensures FollowedBy(s, ts[i], Successor(ts, i)) {
      var next := if i + 1 < n then i + 1 else 0;
      assert Before(n, next) == i && Successor(ts, i) == ts[next];
      assert Between(s, ts[next], rs[i], rs[next]) && Between(s, ts[i], rs[Before(n, i)], rs[i]);
    }
    if Tier(rs[0]) != 1 {
      forall i | 0 <= i < n ensures s.calls[ts[i]].req.key.user == s.calls[ts[0]].req.key.user {
        SameUser(s, ts, rs, i);
      }
    }
  }

  lemma {:induction false} SameUser(s: State, ts: seq<nat>, rs: seq<Resource>, i: nat)
    requires |rs| == |ts| && i < |ts| && Tier(rs[0]) != 1
    requires forall k :: 0 <= k < |ts| ==> Tier(rs[k]) == Tier(rs[0])
    requires forall k :: 0 <= k < |ts| ==> Between(s, ts[k], rs[Before(|ts|, k)], rs[k])
    requires forall k :: 0 <= k < |ts| ==> ts[k] in s.calls && CallSound(s, ts[k], s.calls[ts[k]])
    ensures s.calls[ts[i]].req.key.user == s.calls[ts[0]].req.key.user
  {
    if i > 0 {
      SameUser(s, ts, rs, i - 1);
      assert Between(s, ts[i], rs[i - 1], rs[i]) && Between(s, ts[i - 1], rs[Before(|ts|, i - 1)], rs[i - 1]);
    }
  }

  /** A call stopped midway waits for whoever sells what it buys, at the same point. */
  lemma MidwayWaits(s: State, t: nat, u: nat, rows: nat)
    requires LocksSound(s) && (rows == 1 || rows == 3) && Midway(s, t, rows) && Midway(s, u, rows)
    requires FollowedBy(s, t, u)
    requires rows == 1 ==> s.calls[t].req.key.user == s.calls[u].req.key.user
    ensures WaitsFor(s, t, u)
  {
    var c, d := s.calls[t], s.calls[u];
    assert CallSound(s, t, c) && CallSound(s, u, d);
    assert RowHeld(s, u, d.op.value, d.seen, rows - 1);
    SameSlot(c.op.value, d.op.value, rows);
    AsksNext(s, t, u, rows);
  }

  /** What a conversion locks midway is what the next one of the ring has locked before. */
  lemma SameSlot(a: Op, b: Op, rows: nat)
    requires !a.Fund? && !b.Fund? && (rows == 1 || rows == 3) && TargetOf(a) == SourceOf(b)
    requires rows == 1 ==> a.key.user == b.key.user
    ensures Plan(a)[rows] == Plan(b)[rows - 1]
  {
  }

  lemma AsksNext(s: State, t: nat, u: nat, rows: nat)
    requires Midway(s, t, rows) && rows < 4 && t != u
    requires var slot := Plan(s.calls[t].op.value)[rows];
             slot in s.rows && s.rows[slot] == u && slot in s.db.balances
    ensures WaitsFor(s, t, u)
  {
    var slot := Plan(s.calls[t].op.value)[rows];
    assert Asks(s, t, Row(slot)) && HeldBy(s, Row(slot), u);
  }

  /** The exact deadlock condition.  Calls wait for each other in a circle if and only if
      they are conversions or trades stopped between their source and target rows of the
      same kind, and what each buys is what the next one sells. */
  lemma DeadlockIffCurrencyCycle(acts: seq<Action>, s: State, ts: seq<nat>)
    requires Reaches(acts, s)
    ensures WaitCycle(s, ts) <==> CurrencyCycle(s, ts)
  {
    Serializable(acts, s);
    if WaitCycle(s, ts) {
      WaitCycleClosesCurrencies(s, ts);
    }
    if CurrencyCycle(s, ts) {
      forall i | 0 <= i < |ts| ensures WaitsFor(s, ts[i], Successor(ts, i)) {
        if Midway(s, ts[i], 3) {
          MidwayWaits(s, ts[i], Successor(ts, i), 3);
        } else {
          MidwayWaits(s, ts[i], Successor(ts, i), 1);
        }
      }
    }
  }

  /** The ranking rises along the call's conversion or trade, if it runs one. */
  ghost predicate Climbs(s: State, rank: map<Currency, int>, t: nat)
    requires t in s.calls && forall c: Currency :: c in rank
  {
    InTransaction(s.calls[t]) && !s.calls[t].op.value.Fund? ==>
      rank[SourceOf(s.calls[t].op.value)] < rank[TargetOf(s.calls[t].op.value)]
  }

  /** In-flight pairs without a cycle cannot deadlock: if some ranking of the currencies rises
      along every conversion and trade in flight, no circle exists.  Fundings do not matter,
      so fundings alone never deadlock. */
  lemma AcyclicPairsNeverDeadlock(acts: seq<Action>, s: State, rank: map<Currency, int>, ts: seq<nat>)
    requires Reaches(acts, s)
    requires forall c: Currency :: c in rank
    requires forall t :: t in s.calls ==> Climbs(s, rank, t)
    ensures !WaitCycle(s, ts)
  {
    DeadlockIffCurrencyCycle(acts, s, ts);
    NoClimbingCycle(s, rank, ts);
  }

  /** A ranking cannot rise all the way round. */
  lemma NoClimbingCycle(s: State, rank: map<Currency, int>, ts: seq<nat>)
    requires forall c: Currency :: c in rank
    requires forall t :: t in s.calls ==> Climbs(s, rank, t)
    ensures !CurrencyCycle(s, ts)
  {
    if CurrencyCycle(s, ts) {
      var steps := seq(|ts|, i requires 0 <= i < |ts| => StepOf(s, ts, i));
      forall i | 0 <= i < |steps|
        ensures rank[steps[i].0] < rank[steps[i].1] && steps[i].1 == (if i + 1 < |ts| then steps[i + 1] else steps[0]).0
      {
        StepClimbs(s, rank, ts, i);
      }
      RankRises(rank, steps, |steps| - 1);
    }
  }

  /** The pair of currencies of the i-th call of a circle. */
  function StepOf(s: State, ts: seq<nat>, i: nat): (Currency, Currency)
    requires i < |ts|
  {
    if ts[i] in s.calls && s.calls[ts[i]].op.Some?
    then (SourceOf(s.calls[ts[i]].op.value), TargetOf(s.calls[ts[i]].op.value))
    else (NGN, NGN)
  }

  lemma StepClimbs(s: State, rank: map<Currency, int>, ts: seq<nat>, i: nat)
    requires CurrencyCycle(s, ts) && i < |ts| && forall c: Currency :: c in rank
    requires forall t :: t in s.calls ==> Climbs(s, rank, t)
    ensures var next := if i + 1 < |ts| then i + 1 else 0;
            rank[StepOf(s, ts, i).0] < rank[StepOf(s, ts, i).1] && StepOf(s, ts, i).1 == StepOf(s, ts, next).0
  {
    assert Midway(s, ts[i], 3) || Midway(s, ts[i], 1);
    assert FollowedBy(s, ts[i], Successor(ts, i));
    assert Climbs(s, rank, ts[i]);
  }

  lemma {:induction false} RankRises(rank: map<Currency, int>, steps: seq<(Currency, Currency)>, i: nat)
    requires i < |steps| && forall c: Currency :: c in rank
    requires forall k :: 0 <= k < |steps| ==> rank[steps[k].0] < rank[steps[k].1]
    requires forall k :: 0 <= k < |steps| - 1 ==> steps[k].1 == steps[k + 1].0
    ensures rank[steps[0].0] < rank[steps[i].1]
  {
    if i > 0 { RankRises(rank, steps, i - 1); }
  }
}
