/** Runs the engine can make: how a call gets from its request to its commit when nobody is in
    its way. */
module EngineRuns {
  import opened Currencies
  import opened Ledger
  import opened LedgerFacts
  import opened MachineMoney
  import opened Engine
  import opened EngineSafety
  import opened EngineTheorems

  ghost predicate Reachable(s: State) {
    exists acts :: Reaches(acts, s)
  }

  lemma StepReaches(s: State, a: Action)
    requires Reachable(s) && Enabled(s, a)
    ensures Reachable(Next(s, a))
  {
    var acts :| Reaches(acts, s);
    var ttl, latency, now :| Run(Initial(ttl, latency, now), acts) == Some(s);
    assert (acts + [a])[..|acts|] == acts;
    assert Run(Initial(ttl, latency, now), acts + [a]) == Some(Next(s, a));
    assert Reaches(acts + [a], Next(s, a));
  }

  lemma ReachableInv(s: State)
    requires Reachable(s)
    ensures Inv(s)
  {
    var acts :| Reaches(acts, s);
    Serializable(acts, s);
  }

  /** Only call t moved, to c, and nothing is committed. */
  ghost predicate Moves(s: State, s': State, t: nat, c: Call) {
    s'.db == s.db && s'.log == s.log && s'.quotes == s.quotes && s'.calls == s.calls[t := c]
  }

  ghost predicate SameLocks(s: State, s': State) {
    s'.rows == s.rows && s'.keys == s.keys && s'.leases == s.leases
  }

  lemma DoAsk(s: State, t: nat, req: Request) returns (s': State)
    requires Reachable(s) && t !in s.calls && ValidRequest(req)
    ensures Reachable(s') && Moves(s, s', t, Call(req, Asked, None, [], false, map[], 0)) && SameLocks(s, s')
  {
    StepReaches(s, Ask(t, req));
    s' := Next(s, Ask(t, req));
  }

  lemma DoLookup(s: State, t: nat) returns (s': State)
    requires Reachable(s) && t in s.calls && s.calls[t].stage == Asked && KeyFresh(s.db, s.calls[t].req.key)
    ensures Reachable(s') && Moves(s, s', t, s.calls[t].(stage := Checked)) && SameLocks(s, s')
  {
    StepReaches(s, Lookup(t));
    s' := Next(s, Lookup(t));
  }

  lemma DoAcquire(s: State, t: nat) returns (s': State)
    requires Reachable(s) && t in s.calls && s.calls[t].stage == Checked
    requires s.calls[t].req.key.user !in s.leases && (s.calls[t].req.TradeReq? ==> s.calls[t].op.Some?)
    ensures Reachable(s') && Moves(s, s', t, s.calls[t].(stage := Leased))
    ensures s'.rows == s.rows && s'.keys == s.keys && s'.leases == s.leases[s.calls[t].req.key.user := t]
  {
    StepReaches(s, Acquire(t));
    s' := Next(s, Acquire(t));
  }

  lemma DoSettle(s: State, t: nat, op: Op) returns (s': State)
    requires Reachable(s) && t in s.calls && s.calls[t].stage == Leased && s.calls[t].op == None
    requires KeyFresh(s.db, op.key)
    requires s.calls[t].req == RequestFor(op) && ValidOp(op) && !op.Trade?
    ensures Reachable(s') && Moves(s, s', t, s.calls[t].(op := Some(op))) && SameLocks(s, s')
  {
    var a := if op.Fund? then Recheck(t) else Price(t, op.converted, op.rate);
    StepReaches(s, a);
    s' := Next(s, a);
  }

  lemma DoBegin(s: State, t: nat) returns (s': State)
    requires Reachable(s) && t in s.calls && s.calls[t].stage == Leased && s.calls[t].op.Some?
    ensures Reachable(s') && SameLocks(s, s')
    ensures Moves(s, s', t, s.calls[t].(stage := Open, seen := [], absent := false, buffer := map[], written := 0))
  {
    StepReaches(s, Begin(t));
    s' := Next(s, Begin(t));
  }

  function RequestFor(op: Op): Request {
    match op
    case Fund(key, ccy, amount) => FundReq(key, ccy, amount)
    case Convert(key, src, dst, amount, _, _, purpose) => ConvertReq(key, src, dst, amount, purpose)
    case Trade(key, q) => TradeReq(key, q.id)
  }

  /** Only call t moved, and nothing is committed. */
  ghost predicate OnlyMoved(s: State, s': State, t: nat) {
    && t in s'.calls && s'.calls == s.calls[t := s'.calls[t]]
    && s'.db == s.db && s'.log == s.log && s'.quotes == s.quotes
  }

  lemma MovedTwice(s: State, s': State, s'': State, t: nat)
    requires OnlyMoved(s, s', t) && OnlyMoved(s', s'', t)
    ensures OnlyMoved(s, s'', t)
  {
  }

  predicate Opened(c: Call, op: Op, locked: nat) {
    c.op == Some(op) && c.stage == Open && !c.absent && |c.seen| == locked && c.written == 0 && c.req.key == op.key
  }

  /** A new call with a fresh key, for a user without a lease, can open its transaction. */
  lemma CanOpen(s: State, t: nat, op: Op) returns (s': State)
    requires Reachable(s) && t !in s.calls && op.key.user !in s.leases && KeyFresh(s.db, op.key) && ValidOp(op)
    requires !op.Trade?
    ensures Reachable(s') && OnlyMoved(s, s', t) && Opened(s'.calls[t], op, 0)
    ensures s'.rows == s.rows && s'.keys == s.keys && s'.leases == s.leases[op.key.user := t]
  {
    var leased := CanLease(s, t, op);
    var settled := DoSettle(leased, t, op);
    s' := DoBegin(settled, t);
    OpenedSoFar(s, leased, settled, s', t, op);
  }

  lemma OpenedSoFar(s: State, leased: State, settled: State, s': State, t: nat, op: Op)
    requires Moves(s, leased, t, Call(RequestFor(op), Leased, None, [], false, map[], 0))
    requires Moves(leased, settled, t, Call(RequestFor(op), Leased, Some(op), [], false, map[], 0))
    requires Moves(settled, s', t, Call(RequestFor(op), Open, Some(op), [], false, map[], 0))
    ensures OnlyMoved(s, s', t) && Opened(s'.calls[t], op, 0)
  {
  }

  lemma CanLease(s: State, t: nat, op: Op) returns (s': State)
    requires Reachable(s) && t !in s.calls && op.key.user !in s.leases && KeyFresh(s.db, op.key) && ValidOp(op)
    requires !op.Trade?
    ensures Reachable(s') && Moves(s, s', t, Call(RequestFor(op), Leased, None, [], false, map[], 0))
    ensures s'.rows == s.rows && s'.keys == s.keys && s'.leases == s.leases[op.key.user := t]
  {
    var asked := DoAsk(s, t, RequestFor(op));
    var checked := DoLookup(asked, t);
    s' := DoAcquire(checked, t);
    MovedThrice(s, asked, checked, s', t, Call(RequestFor(op), Leased, None, [], false, map[], 0));
  }

  lemma MovedThrice(s: State, s1: State, s2: State, s': State, t: nat, c: Call)
    requires Moves(s, s1, t, c.(stage := Asked)) && Moves(s1, s2, t, c.(stage := Checked)) && Moves(s2, s', t, c)
    ensures Moves(s, s', t, c)
  {
  }

  predicate Passes(db: Db, op: Op, i: nat)
    requires i < |Plan(op)|
  {
    if Plan(op)[i] in db.balances then !Refuses(op, i, db.balances[Plan(op)[i]]) else MayInsert(op, i)
  }

  /** The call has locked one row more. */
  ghost predicate LocksRow(s: State, s': State, t: nat, op: Op, i: nat)
    requires i < |Plan(op)|
  {
    && t in s'.calls && s'.calls == s.calls[t := s'.calls[t]]
    && s'.db == s.db && s'.log == s.log && s'.quotes == s.quotes
    && Opened(s'.calls[t], op, i + 1) && s'.rows == s.rows[Plan(op)[i] := t]
    && s'.keys == s.keys && s'.leases == s.leases
  }

  lemma LockShape(s: State, t: nat, op: Op, i: nat)
    requires t in s.calls && i < |Plan(op)| && Opened(s.calls[t], op, i) && Plan(op)[i] !in s.rows
    requires Passes(s.db, op, i)
    ensures Enabled(s, LockRow(t))
    ensures var s1 := Next(s, LockRow(t));
            if Plan(op)[i] in s.db.balances then LocksRow(s, s1, t, op, i)
            else s1 == s.(calls := s.calls[t := s.calls[t].(absent := true)])
  {
  }

  lemma InsertShape(s: State, s1: State, t: nat, op: Op, i: nat)
    requires t in s.calls && i < |Plan(op)| && Opened(s.calls[t], op, i) && Plan(op)[i] !in s.rows
    requires Plan(op)[i] !in s.db.balances
    requires s1 == s.(calls := s.calls[t := s.calls[t].(absent := true)])
    ensures Enabled(s1, InsertRow(t)) && LocksRow(s, Next(s1, InsertRow(t)), t, op, i)
  {
  }

  /** A call can lock a free row that passes its check, creating it if need be. */
  lemma CanLockNext(s: State, t: nat, op: Op, i: nat) returns (s': State)
    requires Reachable(s) && t in s.calls && i < |Plan(op)| && Opened(s.calls[t], op, i)
    requires Plan(op)[i] !in s.rows && Passes(s.db, op, i)
    ensures Reachable(s') && LocksRow(s, s', t, op, i)
  {
    LockShape(s, t, op, i);
    StepReaches(s, LockRow(t));
    s' := Next(s, LockRow(t));
    if Plan(op)[i] !in s.db.balances {
      InsertShape(s, s', t, op, i);
      StepReaches(s', InsertRow(t));
      s' := Next(s', InsertRow(t));
    }
  }

  ghost predicate LocksOnly(s: State, t: nat, op: Op, n: nat)
    requires n <= |Plan(op)|
  {
    s.keys == map[] && s.leases == map[op.key.user := t] && forall x :: x in s.rows ==> PlannedBelow(op, n, x)
  }

  /** Alone, a call whose operation the books accept can lock all its rows. */
  lemma {:induction false} CanLockAll(s: State, t: nat, op: Op, n: nat) returns (s': State)
    requires Reachable(s) && t in s.calls && Opened(s.calls[t], op, 0) && LocksOnly(s, t, op, 0)
    requires ValidOp(op) && Accepts(s.db, op) && n <= |Plan(op)|
    ensures Reachable(s') && OnlyMoved(s, s', t) && Opened(s'.calls[t], op, n) && LocksOnly(s', t, op, n)
  {
    if n == 0 {
      s' := s;
    } else {
      var before := CanLockAll(s, t, op, n - 1);
      AcceptedPasses(s, op, n - 1);
      s' := CanLockOneMore(before, t, op, n - 1);
      MovedTwice(s, before, s', t);
    }
  }

  lemma CanLockOneMore(s: State, t: nat, op: Op, n: nat) returns (s': State)
    requires Reachable(s) && t in s.calls && n < |Plan(op)| && Opened(s.calls[t], op, n) && LocksOnly(s, t, op, n)
    requires ValidOp(op) && Passes(s.db, op, n)
    ensures Reachable(s') && OnlyMoved(s, s', t) && Opened(s'.calls[t], op, n + 1) && LocksOnly(s', t, op, n + 1)
  {
    NextIsFree(s, t, op, n);
    s' := CanLockNext(s, t, op, n);
    LocksOneMore(s, s', t, op, n);
  }

  lemma NextIsFree(s: State, t: nat, op: Op, n: nat)
    requires ValidOp(op) && n < |Plan(op)| && LocksOnly(s, t, op, n)
    ensures Plan(op)[n] !in s.rows
  {
    PlanDistinct(op);
    forall x | x in s.rows ensures x != Plan(op)[n] { assert PlannedBelow(op, n, x); }
  }

  lemma LocksOneMore(s: State, s': State, t: nat, op: Op, n: nat)
    requires n < |Plan(op)| && LocksOnly(s, t, op, n)
    requires s'.rows == s.rows[Plan(op)[n] := t] && s'.keys == s.keys && s'.leases == s.leases
    ensures LocksOnly(s', t, op, n + 1)
  {
    forall x | x in s'.rows ensures PlannedBelow(op, n + 1, x) {
      if x in s.rows { assert PlannedBelow(op, n, x); } else { assert Plan(op)[n] == x; }
    }
  }

  lemma AcceptedPasses(s: State, op: Op, i: nat)
    requires Reachable(s) && ValidOp(op) && Accepts(s.db, op) && i < |Plan(op)|
    ensures Passes(s.db, op, i)
  {
    ReachableInv(s);
    ChecksAreExact(s.db.balances, op, i);
  }

  ghost predicate Idle(s: State) {
    s.rows == map[] && s.keys == map[] && s.leases == map[]
  }

  predicate Recorded(c: Call, op: Op, written: nat) {
    c.op == Some(op) && c.stage == Posting && |c.seen| == |Plan(op)| && c.written == written && c.req.key == op.key
  }

  lemma RecordShape(s: State, t: nat, op: Op)
    requires t in s.calls && Opened(s.calls[t], op, |Plan(op)|) && op.key !in s.keys && KeyFresh(s.db, op.key)
    requires RateStorable(op)
    requires forall i :: 0 <= i < |MachineLegs(op, s.calls[t].seen)| ==>
               LegStorable(MachineLegs(op, s.calls[t].seen)[i])
    ensures Enabled(s, Record(t))
    ensures Next(s, Record(t)) == s.(calls := s.calls[t := s.calls[t].(stage := Posting)], keys := s.keys[op.key := t])
  {
  }

  lemma LegsFit(s: State, t: nat, op: Op)
    requires Reachable(s) && t in s.calls && InTransaction(s.calls[t]) && s.calls[t].op == Some(op)
    requires |s.calls[t].seen| == |Plan(op)|
    ensures forall i :: 0 <= i < |MachineLegs(op, s.calls[t].seen)| ==> LegStorable(MachineLegs(op, s.calls[t].seen)[i])
    ensures forall i :: 0 <= i < |Plan(op)| ==> Storable(MachineAfter(op, i, s.calls[t].seen[i]))
  {
    var acts :| Reaches(acts, s);
    MachineNumbersExact(acts, s, t);
    forall i | 0 <= i < |Plan(op)| ensures Storable(MachineAfter(op, i, s.calls[t].seen[i])) {
      assert MachineAfters(op, s.calls[t].seen)[i] == MachineAfter(op, i, s.calls[t].seen[i]);
    }
  }

  lemma CanRecordNext(s: State, t: nat, op: Op) returns (s': State)
    requires Reachable(s) && t in s.calls && Opened(s.calls[t], op, |Plan(op)|)
    requires op.key !in s.keys && KeyFresh(s.db, op.key) && RateStorable(op)
    ensures Reachable(s') && s' == s.(calls := s.calls[t := s.calls[t].(stage := Posting)], keys := s.keys[op.key := t])
  {
    LegsFit(s, t, op);
    RecordShape(s, t, op);
    StepReaches(s, Record(t));
    s' := Next(s, Record(t));
  }

  lemma UpdateShape(s: State, t: nat, op: Op, n: nat)
    requires t in s.calls && Recorded(s.calls[t], op, n) && n < |Plan(op)|
    requires Storable(MachineAfter(op, n, s.calls[t].seen[n]))
    ensures Enabled(s, UpdateRow(t))
    ensures var s' := Next(s, UpdateRow(t));
            && t in s'.calls && s'.calls == s.calls[t := s'.calls[t]]
            && s'.db == s.db && s'.log == s.log && s'.quotes == s.quotes
            && Recorded(s'.calls[t], op, n + 1) && SameLocks(s, s')
  {
  }

  lemma CanUpdateNext(s: State, t: nat, op: Op, n: nat) returns (s': State)
    requires Reachable(s) && t in s.calls && Recorded(s.calls[t], op, n) && n < |Plan(op)|
    ensures Reachable(s') && OnlyMoved(s, s', t) && Recorded(s'.calls[t], op, n + 1) && SameLocks(s, s')
  {
    LegsFit(s, t, op);
    UpdateShape(s, t, op, n);
    StepReaches(s, UpdateRow(t));
    s' := Next(s, UpdateRow(t));
  }

  lemma {:induction false} CanUpdateAll(s: State, t: nat, op: Op, n: nat) returns (s': State)
    requires Reachable(s) && t in s.calls && Recorded(s.calls[t], op, 0) && n <= |Plan(op)|
    ensures Reachable(s') && OnlyMoved(s, s', t) && Recorded(s'.calls[t], op, n) && SameLocks(s, s')
  {
    if n == 0 {
      s' := s;
    } else {
      var before := CanUpdateAll(s, t, op, n - 1);
      s' := CanUpdateNext(before, t, op, n - 1);
      MovedTwice(s, before, s', t);
    }
  }

  lemma CommitShape(s: State, t: nat, op: Op)
    requires t in s.calls && Recorded(s.calls[t], op, |Plan(op)|)
    ensures Enabled(s, Commit(t))
    ensures var s' := Next(s, Commit(t));
            && s'.db == CommitDb(s.db, t, s.calls[t]) && s'.log == s.log + [Booked(t, op)]
            && s'.calls == s.calls[t := s.calls[t].(stage := Done(Committed(t)))]
            && s'.rows == Unlocked(s.rows, t) && s'.keys == Unlocked(s.keys, t) && s'.leases == s.leases
            && s'.quotes == s.quotes
  {
  }

  lemma DoCommit(s: State, t: nat, op: Op) returns (s': State)
    requires Reachable(s) && t in s.calls && Recorded(s.calls[t], op, |Plan(op)|)
    ensures Reachable(s') && s'.db == Book(s.db, t, op) && s'.log == s.log + [Booked(t, op)]
    ensures s'.calls == s.calls[t := s.calls[t].(stage := Done(Committed(t)))]
    ensures s'.rows == Unlocked(s.rows, t) && s'.keys == Unlocked(s.keys, t) && s'.leases == s.leases
    ensures s'.quotes == s.quotes
  {
    CommitShape(s, t, op);
    StepReaches(s, Commit(t));
    s' := Next(s, Commit(t));
    CommitBooks(s, t, op);
  }

  lemma CommitBooks(s: State, t: nat, op: Op)
    requires Reachable(s) && t in s.calls && Recorded(s.calls[t], op, |Plan(op)|) && Enabled(s, Commit(t))
    ensures CommitDb(s.db, t, s.calls[t]) == Book(s.db, t, op)
  {
    ReachableInv(s);
    CommitIsBook(s, t);
  }

  lemma DoRelease(s: State, t: nat) returns (s': State)
    requires Reachable(s) && t in s.calls && s.calls[t].stage.Done? && HasLease(s, t)
    ensures Reachable(s') && s' == s.(leases := s.leases - {s.calls[t].req.key.user})
  {
    StepReaches(s, Release(t));
    s' := Next(s, Release(t));
  }

  lemma NothingLeft(s: State, t: nat, op: Op, posting: State)
    requires LocksOnly(s, t, op, |Plan(op)|) && posting.rows == s.rows && posting.keys == s.keys[op.key := t]
    requires Reachable(posting) && t in posting.calls && Recorded(posting.calls[t], op, |Plan(op)|)
    ensures Unlocked(posting.rows, t) == map[] && Unlocked(posting.keys, t) == map[]
  {
    ReachableInv(posting);
    assert CallSound(posting, t, posting.calls[t]);
    forall x | x in posting.rows ensures posting.rows[x] == t {
      var i :| 0 <= i < |Plan(op)| && Plan(op)[i] == x;
      assert RowHeld(posting, t, op, posting.calls[t].seen, i);
    }
  }

  /** With all rows locked and nobody in the way, a call can write its journal, update its
      rows, commit and leave. */
  lemma CanCommitAll(s: State, t: nat, op: Op) returns (s': State)
    requires Reachable(s) && t in s.calls && Opened(s.calls[t], op, |Plan(op)|) && LocksOnly(s, t, op, |Plan(op)|)
    requires KeyFresh(s.db, op.key) && RateStorable(op)
    ensures Reachable(s') && s'.db == Book(s.db, t, op) && s'.log == s.log + [Booked(t, op)]
    ensures Idle(s') && OnlyCall(s, s', t) && s'.quotes == s.quotes
  {
    var posted := CanPost(s, t, op);
    NothingLeft(s, t, op, posted);
    var committed := DoCommit(posted, t, op);
    s' := DoRelease(committed, t);
    CallsSoFar(s, posted, committed, s', t);
  }

  /** No call but t is not what it was. */
  ghost predicate OnlyCall(s: State, s': State, t: nat) {
    t in s'.calls && s'.calls == s.calls[t := s'.calls[t]]
  }

  lemma CallsSoFar(s: State, s1: State, s2: State, s': State, t: nat)
    requires OnlyCall(s, s1, t) && OnlyCall(s1, s2, t) && s'.calls == s2.calls
    ensures OnlyCall(s, s', t)
  {
  }

  lemma CanPost(s: State, t: nat, op: Op) returns (s': State)
    requires Reachable(s) && t in s.calls && Opened(s.calls[t], op, |Plan(op)|)
    requires s.keys == map[] && KeyFresh(s.db, op.key) && RateStorable(op)
    ensures Reachable(s') && OnlyMoved(s, s', t) && Recorded(s'.calls[t], op, |Plan(op)|)
    ensures s'.rows == s.rows && s'.keys == s.keys[op.key := t] && s'.leases == s.leases
  {
    var recorded := CanRecordNext(s, t, op);
    s' := CanUpdateAll(recorded, t, op, |Plan(op)|);
    MovedTwice(s, recorded, s', t);
  }

  /** From any idle state a new call can book any operation the books accept. */
  lemma CanBook(s: State, t: nat, op: Op) returns (s': State)
    requires Reachable(s) && Idle(s) && t !in s.calls && ValidOp(op) && !op.Trade? && Accepts(s.db, op)
    ensures Reachable(s') && Idle(s') && s'.db == Book(s.db, t, op) && s'.log == s.log + [Booked(t, op)]
    ensures OnlyCall(s, s', t) && s'.quotes == s.quotes
  {
    var begun := CanOpen(s, t, op);
    var locked := CanLockAll(begun, t, op, |Plan(op)|);
    s' := CanCommitAll(locked, t, op);
    CallsSoFar(s, begun, locked, locked, t);
    CallsSoFar(s, locked, s', s', t);
  }
}
