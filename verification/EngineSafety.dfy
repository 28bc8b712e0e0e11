/** Every interleaving of the engine is as good as running the committed operations one at a
    time in commit order. */
module EngineSafety {
  import opened Currencies
  import opened Ledger
  import opened LedgerFacts
  import opened MachineMoney
  import opened Engine
  import Q = QuoteStore

  // ---- The invariant ----

  /** The operation is the one the request asked for. */
  ghost predicate Answers(req: Request, op: Op) {
    match req
    case FundReq(key, ccy, amount) => op == Fund(key, ccy, amount)
    case ConvertReq(key, src, dst, amount, purpose) =>
      op.Convert? && op.key == key && op.src == src && op.dst == dst && op.amount == amount && op.purpose == purpose
    case TradeReq(key, quoteId) => op.Trade? && op.key == key && op.quote.id == quoteId
  }

  /** The i-th planned row is locked by this call and still as it was read. */
  ghost predicate RowHeld(s: State, t: nat, op: Op, seen: seq<int>, i: nat)
    requires i < |seen| && i < |Plan(op)|
  {
    var slot := Plan(op)[i];
    && slot in s.rows && s.rows[slot] == t
    && (slot in s.db.balances || MayInsert(op, i))
    && seen[i] == Amount(s.db.balances, slot)
    && !Refuses(op, i, seen[i])
  }

  ghost predicate Buffered(op: Op, c: Call)
    requires |c.seen| <= |Plan(op)|
  {
    && c.written <= |c.seen|
    && (forall i :: 0 <= i < c.written ==>
          Plan(op)[i] in c.buffer && c.buffer[Plan(op)[i]] == MachineAfter(op, i, c.seen[i]))
    && (forall slot :: slot in c.buffer ==> PlannedBelow(op, |c.seen|, slot))
  }

  ghost predicate PlannedBelow(op: Op, n: nat, slot: Slot)
    requires n <= |Plan(op)|
  {
    exists i :: 0 <= i < n && Plan(op)[i] == slot
  }

  ghost predicate CallSound(s: State, t: nat, c: Call) {
    && ValidRequest(c.req)
    && (c.op.Some? ==> Answers(c.req, c.op.value) && ValidOp(c.op.value))
    && (c.stage == Open || c.stage == Posting ==> c.op.Some?)
    && (InTransaction(c) ==>
          && |c.seen| <= |Plan(c.op.value)|
          && (c.absent ==> |c.seen| < |Plan(c.op.value)| && MayInsert(c.op.value, |c.seen|))
          && Buffered(c.op.value, c) && (c.stage == Open ==> c.written == 0)
          && forall i :: 0 <= i < |c.seen| ==> RowHeld(s, t, c.op.value, c.seen, i))
    && (c.stage == Posting ==>
          && |c.seen| == |Plan(c.op.value)|
          && c.op.value.key in s.keys && s.keys[c.op.value.key] == t
          && KeyFresh(s.db, c.op.value.key) && RateStorable(c.op.value))
  }

  /** Only rows among those a call has locked belong to it. */
  ghost predicate RowOwned(s: State, slot: Slot)
    requires slot in s.rows
  {
    var t := s.rows[slot];
    && t in s.calls && InTransaction(s.calls[t])
    && |s.calls[t].seen| <= |Plan(s.calls[t].op.value)|
    && PlannedBelow(s.calls[t].op.value, |s.calls[t].seen|, slot)
  }

  ghost predicate KeyOwned(s: State, key: BookKey)
    requires key in s.keys
  {
    var t := s.keys[key];
    t in s.calls && s.calls[t].stage == Posting && s.calls[t].op.Some? && s.calls[t].op.value.key == key
  }

  ghost predicate LocksSound(s: State) {
    && (forall t :: t in s.calls ==> CallSound(s, t, s.calls[t]))
    && (forall slot :: slot in s.rows ==> RowOwned(s, slot))
    && (forall key :: key in s.keys ==> KeyOwned(s, key))
  }

  ghost predicate Inv(s: State) {
    && Replay(s.log) == Some(s.db)
    && BooksSound(s.db)
    && Q.CellsNamed(s.quotes)
    && LocksSound(s)
  }

  // ---- Frames ----

  /** A call is untouched when what it holds is. */
  lemma CallSoundFrame(s: State, s': State, t: nat, c: Call)
    requires CallSound(s, t, c)
    requires forall slot :: slot in s.rows && s.rows[slot] == t ==>
               slot in s'.rows && s'.rows[slot] == t
               && (slot in s'.db.balances <==> slot in s.db.balances)
               && Amount(s'.db.balances, slot) == Amount(s.db.balances, slot)
    requires forall key :: key in s.keys && s.keys[key] == t ==>
               key in s'.keys && s'.keys[key] == t && (KeyFresh(s.db, key) ==> KeyFresh(s'.db, key))
    ensures CallSound(s', t, c)
  {
    if InTransaction(c) {
      forall i | 0 <= i < |c.seen| ensures RowHeld(s', t, c.op.value, c.seen, i) {
        assert RowHeld(s, t, c.op.value, c.seen, i);
      }
    }
  }

  /** Call t moved; what every other call holds is as it was. */
  ghost predicate OthersKept(s: State, s': State, t: nat) {
    && t in s'.calls
    && (forall u :: u in s'.calls && u != t ==> u in s.calls && s'.calls[u] == s.calls[u])
    && (forall u :: u in s.calls ==> u in s'.calls)
    && (forall x :: x in s.rows && s.rows[x] != t ==>
          && x in s'.rows && s'.rows[x] == s.rows[x]
          && (x in s'.db.balances <==> x in s.db.balances) && Amount(s'.db.balances, x) == Amount(s.db.balances, x))
    && (forall x :: x in s'.rows && s'.rows[x] != t ==> x in s.rows && s.rows[x] == s'.rows[x])
    && (forall k :: k in s.keys && s.keys[k] != t ==>
          k in s'.keys && s'.keys[k] == s.keys[k] && (KeyFresh(s.db, k) ==> KeyFresh(s'.db, k)))
    && (forall k :: k in s'.keys && s'.keys[k] != t ==> k in s.keys && s.keys[k] == s'.keys[k])
  }

  /** The call that moved is sound and owns what is locked for it. */
  ghost predicate MoverSound(s: State, t: nat)
    requires t in s.calls
  {
    && CallSound(s, t, s.calls[t])
    && (forall x :: x in s.rows && s.rows[x] == t ==> RowOwned(s, x))
    && (forall k :: k in s.keys && s.keys[k] == t ==> KeyOwned(s, k))
  }

  lemma Assemble(s: State, s': State, t: nat)
    requires LocksSound(s) && OthersKept(s, s', t) && MoverSound(s', t)
    ensures LocksSound(s')
  {
    forall u | u in s'.calls ensures CallSound(s', u, s'.calls[u]) {
      if u != t { CallSoundFrame(s, s', u, s.calls[u]); }
    }
    forall x | x in s'.rows ensures RowOwned(s', x) { if s'.rows[x] != t { assert RowOwned(s, x); } }
    forall k | k in s'.keys ensures KeyOwned(s', k) { if s'.keys[k] != t { assert KeyOwned(s, k); } }
  }

  /** A call that is outside a transaction holds nothing. */
  lemma OutsideHoldsNothing(s: State, t: nat)
    requires LocksSound(s) && (t in s.calls ==> !InTransaction(s.calls[t]))
    ensures forall x :: x in s.rows ==> s.rows[x] != t
    ensures forall k :: k in s.keys ==> s.keys[k] != t
  {
    forall x | x in s.rows ensures s.rows[x] != t { assert RowOwned(s, x); }
    forall k | k in s.keys ensures s.keys[k] != t {
      assert KeyOwned(s, k);
      assert CallSound(s, s.keys[k], s.calls[s.keys[k]]);
    }
  }

  /** A step that writes nothing shared and at most takes free locks leaves the others alone. */
  lemma OwnStepKeepsOthers(s: State, s': State, t: nat)
    requires t in s'.calls && s'.calls == s.calls[t := s'.calls[t]]
    requires s'.db.balances == s.db.balances && s'.db.journals == s.db.journals
    requires s'.rows == s.rows || exists x :: x !in s.rows && s'.rows == s.rows[x := t]
    requires s'.keys == s.keys || exists k :: k !in s.keys && s'.keys == s.keys[k := t]
    ensures OthersKept(s, s', t)
  {
  }

  lemma LocalStepShape(s: State, a: Action)
    requires Enabled(s, a)
    requires a.Ask? || a.Lookup? || a.Redeem? || a.Acquire? || a.Recheck? || a.Price? || a.Begin? || a.Fail?
    ensures var s' := Next(s, a);
            a.t in s'.calls && s'.calls == s.calls[a.t := s'.calls[a.t]]
            && s'.db == s.db && s'.rows == s.rows && s'.keys == s.keys && s'.log == s.log
            && (a.t in s.calls ==> !InTransaction(s.calls[a.t]))
            && (s'.quotes == s.quotes || a.Redeem?)
  {
  }

  lemma LocalStepSound(s: State, a: Action)
    requires Enabled(s, a) && Q.CellsNamed(s.quotes)
    requires a.Ask? || a.Lookup? || a.Redeem? || a.Acquire? || a.Recheck? || a.Price? || a.Begin? || a.Fail?
    requires a.t in s.calls ==> CallSound(s, a.t, s.calls[a.t])
    ensures CallSound(Next(s, a), a.t, Next(s, a).calls[a.t])
  {
    if a.Redeem? {
      Q.NextKeepsIssued(s.quotes, a.act);
    }
  }

  lemma LocalStepKeepsLocks(s: State, a: Action)
    requires LocksSound(s) && Q.CellsNamed(s.quotes) && Enabled(s, a)
    requires a.Ask? || a.Lookup? || a.Redeem? || a.Acquire? || a.Recheck? || a.Price? || a.Begin? || a.Fail?
    ensures LocksSound(Next(s, a))
  {
    var s' := Next(s, a);
    LocalStepShape(s, a);
    LocalStepSound(s, a);
    OutsideHoldsNothing(s, a.t);
    OwnStepKeepsOthers(s, s', a.t);
    Assemble(s, s', a.t);
  }

  /** `c` is what the call becomes after locking its next row, which read `read`. */
  ghost predicate LocksNext(s: State, t: nat, c: Call, slot: Slot, read: int) {
    && t in s.calls && InTransaction(s.calls[t]) && s.calls[t].stage == Open
    && |s.calls[t].seen| < |Plan(s.calls[t].op.value)| && slot == Plan(s.calls[t].op.value)[|s.calls[t].seen|]
    && slot !in s.rows && (slot in s.db.balances || MayInsert(s.calls[t].op.value, |s.calls[t].seen|))
    && read == Amount(s.db.balances, slot) && !Refuses(s.calls[t].op.value, |s.calls[t].seen|, read)
    && (c.buffer == s.calls[t].buffer || c.buffer == s.calls[t].buffer[slot := 0])
    && c == s.calls[t].(seen := s.calls[t].seen + [read], absent := false, buffer := c.buffer)
  }

  lemma LockerSound(s: State, s': State, t: nat, c: Call, slot: Slot, read: int)
    requires LocksNext(s, t, c, slot, read) && CallSound(s, t, s.calls[t])
    requires s'.db == s.db && s'.rows == s.rows[slot := t] && s'.keys == s.keys
    ensures CallSound(s', t, c)
  {
    LockerHolds(s, s', t, c, slot, read);
    LockerBuffers(s, t, c, slot, read);
  }

  lemma LockerHolds(s: State, s': State, t: nat, c: Call, slot: Slot, read: int)
    requires LocksNext(s, t, c, slot, read) && CallSound(s, t, s.calls[t])
    requires s'.db == s.db && s'.rows == s.rows[slot := t]
    ensures forall i :: 0 <= i < |c.seen| ==> RowHeld(s', t, c.op.value, c.seen, i)
  {
    var was, op := s.calls[t], s.calls[t].op.value;
    forall i | 0 <= i < |c.seen| ensures RowHeld(s', t, op, c.seen, i) {
      if i < |was.seen| { assert RowHeld(s, t, op, was.seen, i); }
    }
  }

  lemma LockerBuffers(s: State, t: nat, c: Call, slot: Slot, read: int)
    requires LocksNext(s, t, c, slot, read) && CallSound(s, t, s.calls[t])
    ensures |c.seen| <= |Plan(c.op.value)| && Buffered(c.op.value, c)
  {
    var was, op := s.calls[t], s.calls[t].op.value;
    forall x | x in c.buffer ensures PlannedBelow(op, |c.seen|, x) {
      if x in was.buffer {
        assert PlannedBelow(op, |was.seen|, x);
      } else {
        assert Plan(op)[|was.seen|] == x;
      }
    }
  }

  lemma LockedStaysOwned(s: State, s': State, t: nat, c: Call, slot: Slot, read: int, x: Slot)
    requires LocksNext(s, t, c, slot, read) && (x in s.rows ==> RowOwned(s, x))
    requires s'.rows == s.rows[slot := t] && s'.calls == s.calls[t := c] && x in s'.rows
    ensures RowOwned(s', x)
  {
    if x == slot { assert Plan(c.op.value)[|s.calls[t].seen|] == x; }
  }

  lemma LockKeepsLocks(s: State, s': State, t: nat, c: Call, slot: Slot, read: int)
    requires LocksSound(s) && LocksNext(s, t, c, slot, read)
    requires s' == s.(calls := s.calls[t := c], rows := s.rows[slot := t])
    ensures LocksSound(s')
  {
    assert CallSound(s, t, s.calls[t]);
    LockerSound(s, s', t, c, slot, read);
    forall x | x in s'.rows ensures RowOwned(s', x) {
      if x in s.rows { assert RowOwned(s, x); }
      LockedStaysOwned(s, s', t, c, slot, read, x);
    }
    forall k | k in s.keys ensures s.keys[k] != t { assert KeyOwned(s, k); }
    OwnStepKeepsOthers(s, s', t);
    Assemble(s, s', t);
  }

  lemma SelectAbsentKeepsLocks(s: State, s': State, t: nat)
    requires LocksSound(s) && t in s.calls && InTransaction(s.calls[t]) && s.calls[t].stage == Open
    requires |s.calls[t].seen| < |Plan(s.calls[t].op.value)| && MayInsert(s.calls[t].op.value, |s.calls[t].seen|)
    requires s' == s.(calls := s.calls[t := s.calls[t].(absent := true)])
    ensures LocksSound(s')
  {
    assert CallSound(s, t, s.calls[t]);
    CallMoves(s, s', t);
    OwnStepKeepsOthers(s, s', t);
    Assemble(s, s', t);
  }

  /** A call that keeps its locks and its operation keeps what follows from them. */
  lemma CallMoves(s: State, s': State, t: nat)
    requires LocksSound(s) && t in s.calls && InTransaction(s.calls[t])
    requires t in s'.calls && s'.calls == s.calls[t := s'.calls[t]] && InTransaction(s'.calls[t])
    requires s'.calls[t].op == s.calls[t].op && s'.calls[t].seen == s.calls[t].seen
    requires s.calls[t].stage == Posting ==> s'.calls[t].stage == Posting
    requires s'.db == s.db && s'.rows == s.rows
    requires s'.keys == s.keys || (s'.calls[t].stage == Posting && s'.keys == s.keys[s.calls[t].op.value.key := t])
    ensures forall i :: 0 <= i < |s.calls[t].seen| ==> RowHeld(s', t, s.calls[t].op.value, s.calls[t].seen, i)
    ensures forall x :: x in s'.rows && s'.rows[x] == t ==> RowOwned(s', x)
    ensures forall k :: k in s'.keys && s'.keys[k] == t ==> KeyOwned(s', k)
  {
    var c := s.calls[t];
    assert CallSound(s, t, c);
    forall i | 0 <= i < |c.seen|
      ensures RowHeld(s', t, c.op.value, c.seen, i)
    { assert RowHeld(s, t, c.op.value, c.seen, i); }
    forall x | x in s'.rows && s'.rows[x] == t ensures RowOwned(s', x) { assert RowOwned(s, x); }
    forall k | k in s'.keys && s'.keys[k] == t
      ensures KeyOwned(s', k)
    { if k in s.keys && s.keys[k] == t { assert KeyOwned(s, k); } }
  }

  /** Zero passes the check of a row that may be created: only paying rows are checked. */
  lemma InsertedPasses(op: Op, i: nat)
    requires ValidOp(op) && i < |Plan(op)| && MayInsert(op, i)
    ensures !Refuses(op, i, 0)
  {
  }

  lemma LockRowKeepsLocks(s: State, a: Action)
    requires LocksSound(s) && Enabled(s, a) && (a.LockRow? || a.InsertRow?)
    ensures LocksSound(Next(s, a))
  {
    var t, s' := a.t, Next(s, a);
    var c, op := s.calls[t], s.calls[t].op.value;
    var slot := Plan(op)[|c.seen|];
    assert CallSound(s, t, c);
    if a.InsertRow? {
      InsertedPasses(op, |c.seen|);
      LockKeepsLocks(s, s', t, s'.calls[t], slot, 0);
    } else if slot in s.db.balances {
      LockKeepsLocks(s, s', t, s'.calls[t], slot, s.db.balances[slot]);
    } else {
      SelectAbsentKeepsLocks(s, s', t);
    }
  }

  /** Writing the journal locks its idempotency key. */
  lemma RecordKeepsLocks(s: State, t: nat)
    requires LocksSound(s) && Enabled(s, Record(t))
    ensures LocksSound(Next(s, Record(t)))
  {
    var s' := Next(s, Record(t));
    assert CallSound(s, t, s.calls[t]);
    CallMoves(s, s', t);
    OwnStepKeepsOthers(s, s', t);
    Assemble(s, s', t);
  }

  lemma UpdateBuffers(op: Op, c: Call, c': Call)
    requires ValidOp(op) && |c.seen| <= |Plan(op)| && Buffered(op, c) && c.written < |c.seen|
    requires c' == c.(buffer := c.buffer[Plan(op)[c.written] := MachineAfter(op, c.written, c.seen[c.written])],
                       written := c.written + 1)
    ensures Buffered(op, c')
  {
    PlanDistinct(op);
    forall x | x in c'.buffer ensures PlannedBelow(op, |c.seen|, x) {
      if x in c.buffer {
        assert PlannedBelow(op, |c.seen|, x);
      } else {
        assert Plan(op)[c.written] == x;
      }
    }
  }

  lemma UpdateRowKeepsLocks(s: State, t: nat)
    requires LocksSound(s) && Enabled(s, UpdateRow(t))
    ensures LocksSound(Next(s, UpdateRow(t)))
  {
    var s' := Next(s, UpdateRow(t));
    assert CallSound(s, t, s.calls[t]);
    UpdateBuffers(s.calls[t].op.value, s.calls[t], s'.calls[t]);
    CallMoves(s, s', t);
    OwnStepKeepsOthers(s, s', t);
    Assemble(s, s', t);
  }

  lemma AbortedSound(s: State, s': State, t: nat)
    requires t in s.calls && CallSound(s, t, s.calls[t])
    requires s' == s.(calls := s.calls[t := s.calls[t].(stage := RolledBack)],
                      rows := Unlocked(s.rows, t), keys := Unlocked(s.keys, t))
    ensures MoverSound(s', t)
  {
  }

  /** Ending a transaction gives up its locks and nobody else's. */
  lemma AbortKeepsLocks(s: State, t: nat)
    requires LocksSound(s) && Enabled(s, Abort(t))
    ensures LocksSound(Next(s, Abort(t)))
  {
    var s' := Next(s, Abort(t));
    assert CallSound(s, t, s.calls[t]);
    AbortedSound(s, s', t);
    UnlockKeepsOthers(s, s', t);
    Assemble(s, s', t);
  }

  // ---- The commit ----

  /** What a committing transaction read is what is committed, and all it wrote is what the
      operation, run alone on the committed books, would write. */
  lemma CommitIsBook(s: State, t: nat)
    requires Inv(s) && Enabled(s, Commit(t))
    ensures Accepts(s.db, s.calls[t].op.value)
    ensures CommitDb(s.db, t, s.calls[t]) == Book(s.db, t, s.calls[t].op.value)
  {
    var c, op := s.calls[t], s.calls[t].op.value;
    var m := s.db.balances;
    assert CallSound(s, t, c);
    forall i | 0 <= i < |Plan(op)|
      ensures c.seen[i] == Befores(m, op)[i] && !Refuses(op, i, c.seen[i]) && (Plan(op)[i] in m || MayInsert(op, i))
    {
      assert RowHeld(s, t, op, c.seen, i);
    }
    assert c.seen == Befores(m, op);
    MachineIsExact(m, op);
    BufferIsPut(m, op, c);
  }

  lemma BufferIsPut(m: map<Slot, int>, op: Op, c: Call)
    requires ValidOp(op) && |c.seen| == |Plan(op)| == c.written && Buffered(op, c)
    ensures m + c.buffer == Put(m, Plan(op), MachineAfters(op, c.seen), |Plan(op)|)
  {
    var p, v := Plan(op), MachineAfters(op, c.seen);
    var n := |p|;
    PlanDistinct(op);
    PutKeys(m, p, v, n);
    forall x: Slot
      ensures x in m + c.buffer <==> x in Put(m, p, v, n)
      ensures x in m + c.buffer ==> (m + c.buffer)[x] == Put(m, p, v, n)[x]
    {
      if i :| 0 <= i < n && p[i] == x {
        PutAt(m, p, v, n, i);
      } else {
        PutElsewhere(m, p, v, n, x);
        assert !PlannedBelow(op, n, x);
      }
    }
  }

  /** A commit changes only rows it has locked, so what the others read still stands. */
  lemma CommitSpares(s: State, t: nat, c: Call, slot: Slot)
    requires CallSound(s, t, c) && CanCommit(c) && (slot in s.rows ==> s.rows[slot] != t)
    ensures slot in s.db.balances + c.buffer <==> slot in s.db.balances
    ensures Amount(s.db.balances + c.buffer, slot) == Amount(s.db.balances, slot)
  {
    forall i | 0 <= i < |c.seen| ensures Plan(c.op.value)[i] != slot {
      assert RowHeld(s, t, c.op.value, c.seen, i);
    }
    assert slot !in c.buffer;
  }

  lemma CommitSparesKeys(s: State, t: nat, c: Call, key: BookKey)
    requires CallSound(s, t, c) && CanCommit(c) && key in s.keys && s.keys[key] != t && KeyFresh(s.db, key)
    ensures KeyFresh(CommitDb(s.db, t, c), key)
  {
  }

  lemma UnlockKeepsOthers(s: State, s': State, t: nat)
    requires t in s'.calls && s'.calls == s.calls[t := s'.calls[t]]
    requires s'.rows == Unlocked(s.rows, t) && s'.keys == Unlocked(s.keys, t)
    requires forall x :: x in s.rows && s.rows[x] != t ==>
               (x in s'.db.balances <==> x in s.db.balances) && Amount(s'.db.balances, x) == Amount(s.db.balances, x)
    requires forall k :: k in s.keys && s.keys[k] != t && KeyFresh(s.db, k) ==> KeyFresh(s'.db, k)
    ensures OthersKept(s, s', t)
  {
  }

  lemma CommitSparesOthers(s: State, s': State, t: nat, c: Call)
    requires t in s.calls && c == s.calls[t] && CallSound(s, t, c) && CanCommit(c)
    requires s'.db == CommitDb(s.db, t, c) && s'.rows == Unlocked(s.rows, t) && s'.keys == Unlocked(s.keys, t)
    requires t in s'.calls && s'.calls == s.calls[t := s'.calls[t]]
    ensures OthersKept(s, s', t)
  {
    forall x | x in s.rows && s.rows[x] != t
      ensures (x in s'.db.balances <==> x in s.db.balances) && Amount(s'.db.balances, x) == Amount(s.db.balances, x)
    {
      CommitSpares(s, t, c, x);
    }
    forall k | k in s.keys && s.keys[k] != t && KeyFresh(s.db, k) ensures KeyFresh(s'.db, k) {
      CommitSparesKeys(s, t, c, k);
    }
    UnlockKeepsOthers(s, s', t);
  }

  lemma CommittedSound(s: State, s': State, t: nat)
    requires t in s.calls && CallSound(s, t, s.calls[t])
    requires s'.calls == s.calls[t := s.calls[t].(stage := Done(Committed(t)))]
    requires s'.rows == Unlocked(s.rows, t) && s'.keys == Unlocked(s.keys, t)
    ensures MoverSound(s', t)
  {
  }

  lemma CommittedKeepsLocks(s: State, s': State, t: nat)
    requires LocksSound(s) && t in s.calls && CanCommit(s.calls[t])
    requires s'.db == CommitDb(s.db, t, s.calls[t])
    requires s'.calls == s.calls[t := s.calls[t].(stage := Done(Committed(t)))]
    requires s'.rows == Unlocked(s.rows, t) && s'.keys == Unlocked(s.keys, t)
    ensures LocksSound(s')
  {
    assert CallSound(s, t, s.calls[t]);
    CommitSparesOthers(s, s', t, s.calls[t]);
    CommittedSound(s, s', t);
    Assemble(s, s', t);
  }

  lemma CommitKeepsLocks(s: State, t: nat)
    requires LocksSound(s) && Enabled(s, Commit(t))
    ensures LocksSound(Next(s, Commit(t)))
  {
    CommittedKeepsLocks(s, Next(s, Commit(t)), t);
  }

  lemma AuditKeepsLocks(s: State, t: nat)
    requires LocksSound(s) && Enabled(s, Audit(t))
    ensures LocksSound(Next(s, Audit(t)))
  {
    var s' := Next(s, Audit(t));
    OutsideHoldsNothing(s, t);
    OwnStepKeepsOthers(s, s', t);
    Assemble(s, s', t);
  }

  /** Leases and quotes play no part in what is locked. */
  lemma SharedKeepsLocks(s: State, s': State)
    requires LocksSound(s) && s'.calls == s.calls && s'.db == s.db && s'.rows == s.rows && s'.keys == s.keys
    ensures LocksSound(s')
  {
    forall u | u in s'.calls ensures CallSound(s', u, s'.calls[u]) { CallSoundFrame(s, s', u, s.calls[u]); }
    forall x | x in s'.rows ensures RowOwned(s', x) { assert RowOwned(s, x); }
    forall key | key in s'.keys ensures KeyOwned(s', key) { assert KeyOwned(s, key); }
  }

  lemma LeaseStepKeepsLocks(s: State, a: Action)
    requires LocksSound(s) && Enabled(s, a) && (a.Release? || a.Lapse? || a.Quotes?)
    ensures LocksSound(Next(s, a))
  {
    SharedKeepsLocks(s, Next(s, a));
  }

  lemma NextKeepsLocks(s: State, a: Action)
    requires LocksSound(s) && Q.CellsNamed(s.quotes) && Enabled(s, a)
    ensures LocksSound(Next(s, a))
  {
    match a
    case LockRow(_) => LockRowKeepsLocks(s, a);
    case InsertRow(_) => LockRowKeepsLocks(s, a);
    case Record(t) => RecordKeepsLocks(s, t);
    case UpdateRow(t) => UpdateRowKeepsLocks(s, t);
    case Commit(t) => CommitKeepsLocks(s, t);
    case Abort(t) => AbortKeepsLocks(s, t);
    case Audit(t) => AuditKeepsLocks(s, t);
    case Release(_) => LeaseStepKeepsLocks(s, a);
    case Lapse(_) => LeaseStepKeepsLocks(s, a);
    case Quotes(_) => LeaseStepKeepsLocks(s, a);
    case _ => LocalStepKeepsLocks(s, a);
  }

  // ---- The books ----

  lemma BooksChange(s: State, a: Action)
    requires Enabled(s, a)
    ensures var s' := Next(s, a);
            if a.Commit? then
              s'.db == CommitDb(s.db, a.t, s.calls[a.t]) && s'.log == s.log + [Booked(a.t, s.calls[a.t].op.value)]
            else if a.Audit? then
              s'.db == s.db.(orders := s.db.orders + [RejectedOrder(a.t, s.calls[a.t].op.value.quote)])
              && s'.log == s.log + [Audited(a.t, s.calls[a.t].op.value.quote)]
            else s'.db == s.db && s'.log == s.log
  {
  }

  lemma ReplayExtends(log: seq<Entry>, e: Entry)
    requires Replay(log).Some? && Apply(Replay(log).value, e).Some?
    ensures Replay(log + [e]) == Apply(Replay(log).value, e)
    ensures BooksSound(Replay(log + [e]).value)
  {
    assert (log + [e])[..|log|] == log;
    ReplaySound(log + [e]);
  }

  lemma NextKeepsBooks(s: State, a: Action)
    requires Inv(s) && Enabled(s, a)
    ensures Replay(Next(s, a).log) == Some(Next(s, a).db) && BooksSound(Next(s, a).db)
  {
    BooksChange(s, a);
    if a.Commit? {
      assert CallSound(s, a.t, s.calls[a.t]);
      CommitIsBook(s, a.t);
      ReplayExtends(s.log, Booked(a.t, s.calls[a.t].op.value));
    } else if a.Audit? {
      ReplayExtends(s.log, Audited(a.t, s.calls[a.t].op.value.quote));
    }
  }

  lemma NextKeepsQuotes(s: State, a: Action)
    requires Q.CellsNamed(s.quotes) && Enabled(s, a)
    ensures Q.CellsNamed(Next(s, a).quotes)
  {
    if a.Redeem? || a.Quotes? { Q.NextKeepsNames(s.quotes, a.act); }
  }

  lemma NextKeepsInv(s: State, a: Action)
    requires Inv(s) && Enabled(s, a)
    ensures Inv(Next(s, a))
  {
    NextKeepsLocks(s, a);
    NextKeepsBooks(s, a);
    NextKeepsQuotes(s, a);
  }
}
