/** The money engine as a concurrent system: any number of fund, convert and trade calls,
    interleaved at every database or lock-service round trip, failing or crashing anywhere,
    with the per-user lease lapsing at any time.

    Row locks last to the end of the transaction.  A select-for-update waits while another
    transaction holds the row and then reads its committed value; it finds nothing when no
    committed row is there, and the insert that follows waits for, and fails on, a competing
    insert of the same row.  An idempotency key behaves like a row. */
module Engine {
  import opened Currencies
  import opened Ledger
  import opened MachineMoney
  import Q = QuoteStore

  datatype Request =
    | FundReq(key: BookKey, ccy: Currency, amount: int)
    | ConvertReq(key: BookKey, src: Currency, dst: Currency, amount: int, purpose: Purpose)
    | TradeReq(key: BookKey, quoteId: nat)

  datatype Reply = Replayed(journalId: nat) | Committed(journalId: nat) | Refused

  datatype Stage =
    | Asked            // validated, nothing looked up yet
    | Checked          // no journal for the key was found
    | Leased           // inside the per-user lock
    | Open             // transaction open: locking rows
    | Posting          // journal, legs and outbox row written: updating balances
    | RolledBack       // transaction undone, reply not sent yet
    | Done(reply: Reply)

  /** `seen` holds the amounts of the planned rows locked so far; `absent` says the next one
      was selected and not found; `buffer` and `written` are the uncommitted row updates. */
  datatype Call = Call(req: Request, stage: Stage, op: Option<Op>, seen: seq<int>, absent: bool,
                       buffer: map<Slot, int>, written: nat)

  datatype State = State(db: Db, calls: map<nat, Call>, rows: map<Slot, nat>, keys: map<BookKey, nat>,
                         leases: map<nat, nat>, lapsed: set<nat>, quotes: Q.Store, log: seq<Entry>)

  datatype Action =
    | Ask(t: nat, req: Request)
    | Lookup(t: nat)
    | Redeem(t: nat, act: Q.Act)
    | Acquire(t: nat)
    | Recheck(t: nat)
    | Price(t: nat, converted: int, rate: int)
    | Begin(t: nat)
    | LockRow(t: nat)
    | InsertRow(t: nat)
    | Record(t: nat)
    | UpdateRow(t: nat)
    | Commit(t: nat)
    | Abort(t: nat)
    | Audit(t: nat)
    | Fail(t: nat)
    | Release(t: nat)
    | Lapse(user: nat)
    | Quotes(act: Q.Act)

  function Initial(ttlSeconds: nat, latency: nat, now: int): State {
    State(SeedDb(), map[], map[], map[], map[], {}, Q.Empty(ttlSeconds, latency, now), [])
  }

  ghost predicate ValidRequest(r: Request) {
    match r
    case FundReq(_, _, amount) => 0 < amount
    case ConvertReq(_, src, dst, amount, purpose) => src != dst && 0 < amount && purpose != Funding
    case TradeReq(_, _) => true
  }

  predicate InTransaction(c: Call) {
    c.op.Some? && (c.stage == Open || c.stage == Posting)
  }

  // Select, lock and check the next planned row.
  ghost predicate CanLock(s: State, c: Call) {
    && InTransaction(c) && c.stage == Open && !c.absent && |c.seen| < |Plan(c.op.value)|
    && var slot := Plan(c.op.value)[|c.seen|];
       if slot in s.db.balances
       then slot !in s.rows && !Refuses(c.op.value, |c.seen|, s.db.balances[slot])
       else MayInsert(c.op.value, |c.seen|)
  }

  ghost predicate CanInsert(s: State, c: Call) {
    && InTransaction(c) && c.stage == Open && c.absent && |c.seen| < |Plan(c.op.value)|
    && var slot := Plan(c.op.value)[|c.seen|];
       slot !in s.rows && slot !in s.db.balances
  }

  ghost predicate CanRecord(s: State, c: Call) {
    && InTransaction(c) && c.stage == Open && |c.seen| == |Plan(c.op.value)|
    && c.op.value.key !in s.keys && KeyFresh(s.db, c.op.value.key) && RateStorable(c.op.value)
    && forall i :: 0 <= i < |MachineLegs(c.op.value, c.seen)| ==> LegStorable(MachineLegs(c.op.value, c.seen)[i])
  }

  ghost predicate CanUpdate(c: Call) {
    && InTransaction(c) && c.stage == Posting && c.written < |c.seen| == |Plan(c.op.value)|
    && Storable(MachineAfter(c.op.value, c.written, c.seen[c.written]))
  }

  ghost predicate CanCommit(c: Call) {
    InTransaction(c) && c.stage == Posting && c.written == |c.seen| == |Plan(c.op.value)|
  }

  ghost predicate Enabled(s: State, a: Action) {
    match a
    case Ask(t, req) => t !in s.calls && ValidRequest(req)
    case Lookup(t) => t in s.calls && s.calls[t].stage == Asked
    case Redeem(t, act) =>
      && t in s.calls && s.calls[t].stage == Checked && s.calls[t].req.TradeReq? && s.calls[t].op == None
      && Q.Enabled(s.quotes, act) && Delivers(s, act, s.calls[t].req)
    case Acquire(t) =>
      && t in s.calls && s.calls[t].stage == Checked && s.calls[t].req.key.user !in s.leases
      && (s.calls[t].req.TradeReq? ==> s.calls[t].op.Some?)
    case Recheck(t) => t in s.calls && s.calls[t].stage == Leased && s.calls[t].req.FundReq? && s.calls[t].op == None
    case Price(t, converted, _) =>
      t in s.calls && s.calls[t].stage == Leased && s.calls[t].req.ConvertReq? && s.calls[t].op == None && 0 < converted
    case Begin(t) => t in s.calls && s.calls[t].stage == Leased && s.calls[t].op.Some?
    case LockRow(t) => t in s.calls && CanLock(s, s.calls[t])
    case InsertRow(t) => t in s.calls && CanInsert(s, s.calls[t])
    case Record(t) => t in s.calls && CanRecord(s, s.calls[t])
    case UpdateRow(t) => t in s.calls && CanUpdate(s.calls[t])
    case Commit(t) => t in s.calls && CanCommit(s.calls[t])
    case Abort(t) => t in s.calls && InTransaction(s.calls[t])
    case Audit(t) => t in s.calls && s.calls[t].stage == RolledBack && s.calls[t].op.Some? && s.calls[t].op.value.Trade?
    case Fail(t) => t in s.calls && s.calls[t].stage in {Asked, Checked, Leased, RolledBack}
    case Release(t) => t in s.calls && s.calls[t].stage.Done? && HasLease(s, t)
    case Lapse(user) => user in s.leases
    case Quotes(act) => Q.Enabled(s.quotes, act) && Q.Delivered(s.quotes, act) == None
  }

  /** A store step that hands this call the quote it asked for. */
  predicate Delivers(s: State, act: Q.Act, req: Request)
    requires req.TradeReq? && Q.Enabled(s.quotes, act)
  {
    var q := Q.Delivered(s.quotes, act);
    q.Some? && q.value.id == req.quoteId && q.value.user == req.key.user
  }

  predicate HasLease(s: State, t: nat) {
    t in s.calls && s.calls[t].req.key.user in s.leases && s.leases[s.calls[t].req.key.user] == t
  }

  /** What a look-up by idempotency key answers. */
  ghost function LookupReply(db: Db, key: BookKey): (r: Option<Reply>)
    ensures r == None <==> KeyFresh(db, key)
  {
    if KeyFresh(db, key) then None
    else
      var i :| 0 <= i < |db.journals| && db.journals[i].key == key;
      Some(if db.journals[i].status == Success then Replayed(db.journals[i].id) else Refused)
  }

  function Unlocked<K>(locks: map<K, nat>, t: nat): map<K, nat> {
    map k | k in locks && locks[k] != t :: locks[k]
  }

  /** What a commit makes visible. */
  function CommitDb(db: Db, t: nat, c: Call): Db
    requires c.op.Some? && |c.seen| == |Plan(c.op.value)|
  {
    var op := c.op.value;
    var j := JournalOf(t, op, MachineLegs(op, c.seen));
    Db(db.balances + c.buffer,
       db.journals + [j],
       db.outbox + [EventOf(j)],
       db.orders + if op.Trade? then [FilledOrder(t, op.quote, t)] else [])
  }

  // ---- The effect of a step, component by component ----

  /** What the step's call becomes. */
  ghost function NextCall(s: State, a: Action): Call
    requires Enabled(s, a) && !a.Release? && !a.Lapse? && !a.Quotes?
  {
    match a
    case Ask(t, req) => Call(req, Asked, None, [], false, map[], 0)
    case Lookup(t) =>
      var r := LookupReply(s.db, s.calls[t].req.key);
      s.calls[t].(stage := if r == None then Checked else Done(r.value))
    case Redeem(t, act) => s.calls[t].(op := Some(Trade(s.calls[t].req.key, Q.Delivered(s.quotes, act).value)))
    case Acquire(t) => s.calls[t].(stage := Leased)
    case Recheck(t) =>
      var req := s.calls[t].req;
      var r := LookupReply(s.db, req.key);
      if r.Some? && r.value.Replayed? then s.calls[t].(stage := Done(r.value))
      else s.calls[t].(op := Some(Fund(req.key, req.ccy, req.amount)))
    case Price(t, converted, rate) =>
      var req := s.calls[t].req;
      s.calls[t].(op := Some(Convert(req.key, req.src, req.dst, req.amount, converted, rate, req.purpose)))
    case Begin(t) => s.calls[t].(stage := Open, seen := [], absent := false, buffer := map[], written := 0)
    case LockRow(t) =>
      var c := s.calls[t];
      var slot := Plan(c.op.value)[|c.seen|];
      if slot in s.db.balances then c.(seen := c.seen + [s.db.balances[slot]]) else c.(absent := true)
    case InsertRow(t) =>
      var c := s.calls[t];
      c.(seen := c.seen + [0], absent := false, buffer := c.buffer[Plan(c.op.value)[|c.seen|] := 0])
    case Record(t) => s.calls[t].(stage := Posting)
    case UpdateRow(t) =>
      var c := s.calls[t];
      var op := c.op.value;
      c.(buffer := c.buffer[Plan(op)[c.written] := MachineAfter(op, c.written, c.seen[c.written])],
         written := c.written + 1)
    case Commit(t) => s.calls[t].(stage := Done(Committed(t)))
    case Abort(t) => s.calls[t].(stage := RolledBack)
    case Audit(t) => s.calls[t].(stage := Done(Refused))
    case Fail(t) => s.calls[t].(stage := Done(Refused))
  }

  function NextDb(s: State, a: Action): Db
    requires Enabled(s, a)
  {
    match a
    case Commit(t) => CommitDb(s.db, t, s.calls[t])
    case Audit(t) => s.db.(orders := s.db.orders + [RejectedOrder(t, s.calls[t].op.value.quote)])
    case _ => s.db
  }

  /** A row stays locked until the transaction that locked or inserted it ends. */
  function NextRows(s: State, a: Action): map<Slot, nat>
    requires Enabled(s, a)
  {
    match a
    case LockRow(t) =>
      var slot := Plan(s.calls[t].op.value)[|s.calls[t].seen|];
      if slot in s.db.balances then s.rows[slot := t] else s.rows
    case InsertRow(t) => s.rows[Plan(s.calls[t].op.value)[|s.calls[t].seen|] := t]
    case Commit(t) => Unlocked(s.rows, t)
    case Abort(t) => Unlocked(s.rows, t)
    case _ => s.rows
  }

  function NextKeys(s: State, a: Action): map<BookKey, nat>
    requires Enabled(s, a)
  {
    match a
    case Record(t) => s.keys[s.calls[t].op.value.key := t]
    case Commit(t) => Unlocked(s.keys, t)
    case Abort(t) => Unlocked(s.keys, t)
    case _ => s.keys
  }

  function NextLeases(s: State, a: Action): map<nat, nat>
    requires Enabled(s, a)
  {
    match a
    case Acquire(t) => s.leases[s.calls[t].req.key.user := t]
    case Release(t) => s.leases - {s.calls[t].req.key.user}
    case Lapse(user) => s.leases - {user}
    case _ => s.leases
  }

  function NextLog(s: State, a: Action): seq<Entry>
    requires Enabled(s, a)
  {
    match a
    case Commit(t) => s.log + [Booked(t, s.calls[t].op.value)]
    case Audit(t) => s.log + [Audited(t, s.calls[t].op.value.quote)]
    case _ => s.log
  }

  ghost function Next(s: State, a: Action): State
    requires Enabled(s, a)
  {
    State(NextDb(s, a), if a.Release? || a.Lapse? || a.Quotes? then s.calls else s.calls[a.t := NextCall(s, a)],
          NextRows(s, a), NextKeys(s, a), NextLeases(s, a), if a.Lapse? then s.lapsed + {a.user} else s.lapsed,
          if a.Redeem? || a.Quotes? then Q.Next(s.quotes, a.act) else s.quotes, NextLog(s, a))
  }

  /** The state after a list of steps, if each was possible in turn. */
  ghost function Run(s: State, acts: seq<Action>): Option<State> {
    if acts == [] then Some(s)
    else
      match Run(s, acts[..|acts| - 1])
      case None => None
      case Some(t) => if Enabled(t, acts[|acts| - 1]) then Some(Next(t, acts[|acts| - 1])) else None
  }
}
