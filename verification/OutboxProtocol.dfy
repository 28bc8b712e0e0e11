/** Many outbox workers on one table, with the sweep that reverts stale claims.

    A claim first locks its rows, skipping rows other claims have locked, and then flips them;
    the worker then sends and marks its entries one at a time, keeping the retry count each
    had when claimed.  Brokers and databases may fail and workers may crash anywhere. */
module OutboxProtocol {
  import opened Currencies
  import opened Outbox

  datatype Phase = Sending | Marking | Failing

  datatype Worker =
    | Selecting(ids: set<nat>)
    | Working(batch: seq<Entry>, at: nat, phase: Phase)

  datatype Config = Config(maxRetries: nat, limit: nat, staleAfter: int)

  /** Kept for the accounts: how often each row was claimed, sent and recovered, which rows the
      broker accepted, how many steps workers took, and what set the work back. */
  datatype Accounts = Accounts(claims: map<nat, nat>, sends: map<nat, nat>, recoveries: map<nat, nat>,
                               accepted: set<nat>, steps: nat, added: nat, recovered: nat, cancelled: nat)

  /** Besides the table: the locks of claims in progress, the live workers, the rows dead
      workers left in PROCESSING, and the rows that a sweep ever took from a live worker. */
  datatype State = State(config: Config, now: int, rows: Table, locked: map<nat, nat>, workers: map<nat, Worker>,
                         abandoned: set<nat>, sweptLive: set<nat>, acc: Accounts)

  datatype Action =
    | Tick(ms: nat)
    | Add(id: nat, createdAt: int)
    | Select(w: nat, ids: set<nat>)
    | Cancel(w: nat)
    | Claim(w: nat, batch: seq<Entry>)
    | Publish(w: nat, ok: bool)
    | MarkPublished(w: nat, ok: bool)
    | MarkFailed(w: nat, ok: bool)
    | Crash(w: nat)
    | Sweep

  function Initial(config: Config, now: int): State {
    State(config, now, map[], map[], map[], {}, {}, Accounts(map[], map[], map[], {}, 0, 0, 0, 0))
  }

  predicate Busy(s: State, w: nat, phase: Phase) {
    w in s.workers && s.workers[w].Working? && s.workers[w].at < |s.workers[w].batch| && s.workers[w].phase == phase
  }

  function Current(s: State, w: nat): Entry
    requires w in s.workers && s.workers[w].Working? && s.workers[w].at < |s.workers[w].batch|
  {
    s.workers[w].batch[s.workers[w].at]
  }

  function Remaining(w: Worker): (ids: set<nat>)
  {
    if w.Working? then set i | w.at <= i < |w.batch| :: w.batch[i].id else {}
  }

  ghost predicate Enabled(s: State, a: Action) {
    match a
    case Tick(_) => true
    case Add(id, _) => id !in s.rows
    case Select(w, ids) => w !in s.workers && ids != {} && OldestFirst(s.rows, s.locked.Keys, s.config.limit, ids)
    case Cancel(w) => w in s.workers && s.workers[w].Selecting?
    case Claim(w, batch) =>
      && w in s.workers && s.workers[w].Selecting? && IdsOf(batch) == s.workers[w].ids && Distinct(batch)
      && forall i :: 0 <= i < |batch| ==> batch[i].id in s.rows && batch[i].retryCount == s.rows[batch[i].id].retryCount
    case Publish(w, _) => Busy(s, w, Sending)
    case MarkPublished(w, ok) => Busy(s, w, Marking) && (ok ==> Current(s, w).id !in s.locked)
    case MarkFailed(w, ok) => Busy(s, w, Failing) && (ok ==> Current(s, w).id !in s.locked)
    case Crash(w) => w in s.workers && s.workers[w].Working?
    case Sweep => true
  }

  function Unlock(locked: map<nat, nat>, w: nat): map<nat, nat> {
    map id | id in locked && locked[id] != w :: locked[id]
  }

  /** The workers once this one has finished its entry: it goes on with the next, or is done. */
  function Advance(workers: map<nat, Worker>, w: nat): map<nat, Worker>
    requires w in workers && workers[w].Working?
  {
    var me := workers[w];
    if me.at + 1 < |me.batch| then workers[w := Working(me.batch, me.at + 1, Sending)] else workers - {w}
  }

  function SetPhase(workers: map<nat, Worker>, w: nat, phase: Phase): map<nat, Worker>
    requires w in workers && workers[w].Working?
  {
    workers[w := workers[w].(phase := phase)]
  }

  function Bump(m: map<nat, nat>, ids: set<nat>): map<nat, nat> {
    map id | id in m :: if id in ids then m[id] + 1 else m[id]
  }

  function Swept(s: State): set<nat> {
    set id | id in s.rows && Stale(s.rows[id], s.now, s.config.staleAfter)
  }

  /** The worker still has the row to do. */
  ghost predicate Has(s: State, w: nat, id: nat) {
    w in s.workers && id in Remaining(s.workers[w])
  }

  ghost predicate Live(s: State, id: nat) {
    exists w :: Has(s, w, id)
  }

  ghost function SweptAlive(s: State): set<nat> {
    set id | id in Swept(s) && Live(s, id)
  }

  // ---- The effect of a step, component by component ----

  ghost function NextRows(s: State, a: Action): Table
    requires Enabled(s, a)
  {
    match a
    case Add(id, createdAt) => s.rows[id := Row(createdAt, Pending, 0, None)]
    case Claim(w, _) => ClaimRows(s.rows, s.workers[w].ids, s.now)
    case MarkPublished(w, ok) => if ok then PublishRow(s.rows, Current(s, w).id) else s.rows
    case MarkFailed(w, ok) =>
      if ok then FailRow(s.rows, Current(s, w).id, Current(s, w).retryCount + 1, s.config.maxRetries) else s.rows
    case Sweep => RecoverRows(s.rows, s.now, s.config.staleAfter)
    case _ => s.rows
  }

  ghost function NextLocked(s: State, a: Action): map<nat, nat>
    requires Enabled(s, a)
  {
    match a
    case Select(w, ids) => s.locked + (map id | id in ids :: w)
    case Cancel(w) => Unlock(s.locked, w)
    case Claim(w, _) => Unlock(s.locked, w)
    case _ => s.locked
  }

  ghost function NextWorkers(s: State, a: Action): map<nat, Worker>
    requires Enabled(s, a)
  {
    match a
    case Select(w, ids) => s.workers[w := Selecting(ids)]
    case Cancel(w) => s.workers - {w}
    case Claim(w, batch) => s.workers[w := Working(batch, 0, Sending)]
    case Publish(w, ok) => SetPhase(s.workers, w, if ok then Marking else Failing)
    case MarkPublished(w, ok) => if ok then Advance(s.workers, w) else SetPhase(s.workers, w, Failing)
    case MarkFailed(w, ok) => if ok then Advance(s.workers, w) else s.workers - {w}
    case Crash(w) => s.workers - {w}
    case _ => s.workers
  }

  ghost function NextAbandoned(s: State, a: Action): set<nat>
    requires Enabled(s, a)
  {
    match a
    case MarkFailed(w, ok) => if ok then s.abandoned else s.abandoned + Remaining(s.workers[w])
    case Crash(w) => s.abandoned + Remaining(s.workers[w])
    case Sweep => s.abandoned - Swept(s)
    case _ => s.abandoned
  }

  ghost function NextAccounts(s: State, a: Action): Accounts
    requires Enabled(s, a)
  {
    match a
    case Tick(_) => s.acc
    case Add(id, _) =>
      s.acc.(claims := s.acc.claims[id := 0], sends := s.acc.sends[id := 0], recoveries := s.acc.recoveries[id := 0],
             added := s.acc.added + 1)
    case Cancel(w) => s.acc.(cancelled := s.acc.cancelled + |s.workers[w].ids|)
    case Sweep => s.acc.(recoveries := Bump(s.acc.recoveries, Swept(s)), recovered := s.acc.recovered + |Swept(s)|)
    case Claim(w, _) => s.acc.(claims := Bump(s.acc.claims, s.workers[w].ids), steps := s.acc.steps + 1)
    case Publish(w, ok) =>
      s.acc.(sends := Bump(s.acc.sends, {Current(s, w).id}),
             accepted := if ok then s.acc.accepted + {Current(s, w).id} else s.acc.accepted, steps := s.acc.steps + 1)
    case _ => s.acc.(steps := s.acc.steps + 1)
  }

  ghost function Next(s: State, a: Action): State
    requires Enabled(s, a)
  {
    State(s.config, if a.Tick? then s.now + a.ms else s.now, NextRows(s, a), NextLocked(s, a), NextWorkers(s, a),
          NextAbandoned(s, a), s.sweptLive + (if a.Sweep? then SweptAlive(s) else {}), NextAccounts(s, a))
  }

  ghost function Run(s: State, acts: seq<Action>): Option<State> {
    if acts == [] then Some(s)
    else
      match Run(s, acts[..|acts| - 1])
      case None => None
      case Some(t) => if Enabled(t, acts[|acts| - 1]) then Some(Next(t, acts[|acts| - 1])) else None
  }

  ghost predicate Reaches(acts: seq<Action>, s: State) {
    exists config: Config, now: int ::
      0 < config.maxRetries && 0 < config.limit && Run(Initial(config, now), acts) == Some(s)
  }

  // ---- Safety, whatever the sweep does ----

  ghost predicate RowSafe(s: State, id: nat)
    requires id in s.rows
  {
    var r := s.rows[id];
    && (r.status == Processing <==> r.claimedAt.Some?)
    && (r.status == Pending || r.status == Processing ==> r.retryCount < s.config.maxRetries)
    && (r.status == Failed ==> r.retryCount == s.config.maxRetries)
    && (r.status == Published ==> id in s.acc.accepted)
  }

  ghost predicate WorkerSafe(s: State, w: nat)
    requires w in s.workers
  {
    match s.workers[w]
    case Selecting(ids) =>
      && ids != {}
      && forall id :: id in ids ==>
           id in s.rows && s.rows[id].status == Pending && id in s.locked && s.locked[id] == w
    case Working(batch, at, phase) =>
      && at < |batch| && Distinct(batch)
      && (forall i :: 0 <= i < |batch| ==> batch[i].id in s.rows && batch[i].retryCount < s.config.maxRetries)
      && (phase == Marking ==> batch[at].id in s.acc.accepted)
  }

  ghost predicate LockSafe(s: State, id: nat)
    requires id in s.locked
  {
    s.locked[id] in s.workers && s.workers[s.locked[id]].Selecting? && id in s.workers[s.locked[id]].ids
  }

  ghost predicate Safe(s: State) {
    && 0 < s.config.maxRetries && 0 < s.config.limit
    && s.acc.claims.Keys == s.rows.Keys == s.acc.recoveries.Keys && s.acc.sends.Keys == s.rows.Keys
    && s.abandoned <= s.rows.Keys
    && (forall id :: id in s.rows ==> RowSafe(s, id))
    && (forall w :: w in s.workers ==> WorkerSafe(s, w))
    && (forall id :: id in s.locked ==> LockSafe(s, id))
  }

  lemma NextKeepsRow(s: State, a: Action, id: nat)
    requires Safe(s) && Enabled(s, a) && id in Next(s, a).rows
    ensures RowSafe(Next(s, a), id)
  {
    if id in s.rows { assert RowSafe(s, id); }
    if (a.MarkPublished? || a.MarkFailed?) && a.ok && Current(s, a.w).id == id {
      assert WorkerSafe(s, a.w);
      MarkKeepsRow(s, a);
    } else if a.Claim? && id in s.workers[a.w].ids {
      assert WorkerSafe(s, a.w);
    }
  }

  lemma MarkKeepsRow(s: State, a: Action)
    requires Enabled(s, a) && (a.MarkPublished? || a.MarkFailed?) && a.ok
    requires WorkerSafe(s, a.w)
    ensures Current(s, a.w).id in NextRows(s, a) && RowSafe(Next(s, a), Current(s, a.w).id)
  {
  }

  lemma RowsPersist(s: State, a: Action)
    requires Enabled(s, a)
    ensures s.rows.Keys <= NextRows(s, a).Keys && s.acc.accepted <= NextAccounts(s, a).accepted
  {
  }

  lemma PendingStaysPending(s: State, a: Action, id: nat)
    requires Enabled(s, a) && id in s.rows && s.rows[id].status == Pending && id in s.locked
    requires a.Claim? ==> id !in s.workers[a.w].ids
    ensures NextRows(s, a)[id].status == Pending
  {
  }

  lemma SelectorKeepsRow(s: State, a: Action, w: nat, id: nat)
    requires Safe(s) && Enabled(s, a) && w in NextWorkers(s, a) && NextWorkers(s, a)[w].Selecting?
    requires id in NextWorkers(s, a)[w].ids
    ensures id in NextRows(s, a) && NextRows(s, a)[id].status == Pending
    ensures id in NextLocked(s, a) && NextLocked(s, a)[id] == w
  {
    if a.Select? && a.w == w {
      assert id in Claimable(s.rows, s.locked.Keys);
    } else {
      assert w in s.workers && WorkerSafe(s, w);
      if a.Claim? { assert WorkerSafe(s, a.w); }
      PendingStaysPending(s, a, id);
      if a.Select? { assert a.ids <= Claimable(s.rows, s.locked.Keys); }
    }
  }

  lemma ClaimerSafe(s: State, a: Action)
    requires Safe(s) && Enabled(s, a) && a.Claim?
    ensures WorkerSafe(Next(s, a), a.w)
  {
    assert WorkerSafe(s, a.w);
    RowsPersist(s, a);
    forall i | 0 <= i < |a.batch| ensures a.batch[i].id in s.rows && a.batch[i].retryCount < s.config.maxRetries {
      assert a.batch[i].id in IdsOf(a.batch);
      assert RowSafe(s, a.batch[i].id);
    }
  }

  predicate ByWorker(a: Action) {
    !a.Tick? && !a.Add? && !a.Sweep?
  }

  /** A worker changes by its own steps only. */
  lemma OthersStay(s: State, a: Action, w: nat)
    requires Enabled(s, a) && (ByWorker(a) ==> a.w != w)
    ensures w in NextWorkers(s, a) <==> w in s.workers
    ensures w in s.workers ==> NextWorkers(s, a)[w] == s.workers[w]
  {
  }

  /** A working worker's entries stay rows of the table, whatever it or others do. */
  lemma GoesOnSafe(s: State, a: Action, w: nat)
    requires Safe(s) && Enabled(s, a) && !(a.Claim? && a.w == w)
    requires w in NextWorkers(s, a) && NextWorkers(s, a)[w].Working?
    ensures WorkerSafe(Next(s, a), w)
  {
    RowsPersist(s, a);
    if ByWorker(a) && a.w == w { assert WorkerSafe(s, w); } else { OthersStay(s, a, w); assert WorkerSafe(s, w); }
  }

  lemma NextKeepsWorker(s: State, a: Action, w: nat)
    requires Safe(s) && Enabled(s, a) && w in Next(s, a).workers
    ensures WorkerSafe(Next(s, a), w)
  {
    var me := Next(s, a).workers[w];
    if me.Selecting? {
      forall id | id in me.ids
        ensures id in NextRows(s, a) && NextRows(s, a)[id].status == Pending && id in NextLocked(s, a)
        ensures NextLocked(s, a)[id] == w
      {
        SelectorKeepsRow(s, a, w, id);
      }
      if w in s.workers { assert WorkerSafe(s, w); }
    } else if a.Claim? && a.w == w {
      ClaimerSafe(s, a);
    } else {
      GoesOnSafe(s, a, w);
    }
  }

  lemma NextKeepsLock(s: State, a: Action, id: nat)
    requires Safe(s) && Enabled(s, a) && id in Next(s, a).locked
    ensures LockSafe(Next(s, a), id)
  {
    if id in s.locked { assert LockSafe(s, id); }
  }

  lemma NextKeepsSafe(s: State, a: Action)
    requires Safe(s) && Enabled(s, a)
    ensures Safe(Next(s, a))
  {
    var s' := Next(s, a);
    forall id | id in s'.rows ensures RowSafe(s', id) { NextKeepsRow(s, a, id); }
    forall w | w in s'.workers ensures WorkerSafe(s', w) { NextKeepsWorker(s, a, w); }
    forall id | id in s'.locked ensures LockSafe(s', id) { NextKeepsLock(s, a, id); }
    AbandonedAreRows(s, a);
  }

  lemma RemainingAreRows(s: State, w: nat, id: nat)
    requires Safe(s) && Has(s, w, id)
    ensures id in s.rows
  {
    assert WorkerSafe(s, w);
  }

  lemma AbandonedAreRows(s: State, a: Action)
    requires Safe(s) && Enabled(s, a)
    ensures NextAbandoned(s, a) <= NextRows(s, a).Keys
  {
    forall id | id in NextAbandoned(s, a) ensures id in s.rows {
      if id !in s.abandoned { RemainingAreRows(s, a.w, id); }
    }
    RowsPersist(s, a);
  }

  /** Whatever the timing of the sweep: a row is PROCESSING exactly when its claim time is
      set, rows in progress have attempts left, a FAILED row has used them all, and a
      PUBLISHED row was accepted by the broker. */
  lemma {:induction false} OutboxSafe(acts: seq<Action>, s: State)
    requires Reaches(acts, s)
    ensures Safe(s)
  {
    var config: Config, now: int :|
      0 < config.maxRetries && 0 < config.limit && Run(Initial(config, now), acts) == Some(s);
    if acts != [] {
      var prior := acts[..|acts| - 1];
      var p := Run(Initial(config, now), prior).value;
      assert Reaches(prior, p);
      OutboxSafe(prior, p);
      NextKeepsSafe(p, acts[|acts| - 1]);
    }
  }

  // ---- Who has a row ----

  lemma Entries(me: Worker, id: nat)
    requires me.Working?
    ensures id in Remaining(me) <==> exists i :: me.at <= i < |me.batch| && me.batch[i].id == id
  {
  }

  /** What is left after an entry is done is the rest without it. */
  lemma AdvanceDrops(workers: map<nat, Worker>, w: nat)
    requires w in workers && workers[w].Working? && workers[w].at < |workers[w].batch| && Distinct(workers[w].batch)
    ensures var left := Advance(workers, w);
            var id := workers[w].batch[workers[w].at].id;
            && (w in left ==> left[w].Working? && left[w].batch == workers[w].batch && left[w].at == workers[w].at + 1)
            && (if w in left then Remaining(left[w]) == Remaining(workers[w]) - {id} else Remaining(workers[w]) == {id})
            && id in Remaining(workers[w])
            && (forall v :: v != w ==> (v in left <==> v in workers) && (v in workers ==> left[v] == workers[v]))
  {
    var me := workers[w];
    forall i | me.at < i < |me.batch| ensures me.batch[i].id != me.batch[me.at].id { }
    assert me.batch[me.at].id in Remaining(me);
    if me.at + 1 < |me.batch| {
      var next := Working(me.batch, me.at + 1, Sending);
      forall id ensures id in Remaining(next) <==> id in Remaining(me) - {me.batch[me.at].id} {
        if i :| me.at <= i < |me.batch| && me.batch[i].id == id {
          if i > me.at { assert next.batch[i].id in Remaining(next); }
        }
      }
    }
  }

  /** The step ends the worker's work on the row: it marks it, or gives up what it has left. */
  predicate Ends(s: State, a: Action, w: nat, id: nat)
    requires w in s.workers && s.workers[w].Working? && s.workers[w].at < |s.workers[w].batch|
  {
    ((a.MarkPublished? || a.MarkFailed?) && a.w == w && a.ok && Current(s, w).id == id)
    || ((a.Crash? || (a.MarkFailed? && !a.ok)) && a.w == w)
  }

  lemma HasSafe(s: State, w: nat, id: nat)
    requires Safe(s) && Has(s, w, id)
    ensures s.workers[w].Working? && s.workers[w].at < |s.workers[w].batch| && Distinct(s.workers[w].batch)
    ensures id in s.rows
  {
    assert WorkerSafe(s, w);
  }

  /** Only a claim gives a worker a row. */
  lemma HadBefore(s: State, a: Action, w: nat, id: nat)
    requires Safe(s) && Enabled(s, a) && Has(Next(s, a), w, id) && !(a.Claim? && a.w == w)
    ensures Has(s, w, id) && s.workers[w].Working? && s.workers[w].at < |s.workers[w].batch| && !Ends(s, a, w, id)
    ensures NextWorkers(s, a)[w].Working? && NextWorkers(s, a)[w].batch == s.workers[w].batch
    ensures s.workers[w].at <= NextWorkers(s, a)[w].at
  {
    if ByWorker(a) && a.w == w {
      if w in s.workers { assert WorkerSafe(s, w); }
      if a.MarkPublished? || a.MarkFailed? { AdvanceDrops(s.workers, w); }
    } else {
      OthersStay(s, a, w);
      assert WorkerSafe(s, w);
    }
  }

  lemma ClaimGives(s: State, a: Action, id: nat)
    requires Enabled(s, a) && a.Claim?
    ensures Has(Next(s, a), a.w, id) <==> id in s.workers[a.w].ids
  {
    assert Remaining(Working(a.batch, 0, Sending)) == IdsOf(a.batch);
  }

  /** A worker has its rows until it ends its work on them. */
  lemma HasStill(s: State, a: Action, w: nat, id: nat)
    requires Safe(s) && Enabled(s, a) && Has(s, w, id)
    requires s.workers[w].Working? && s.workers[w].at < |s.workers[w].batch| && !Ends(s, a, w, id)
    ensures Has(Next(s, a), w, id)
  {
    if ByWorker(a) && a.w == w {
      assert WorkerSafe(s, w);
      if a.MarkPublished? || a.MarkFailed? { AdvanceDrops(s.workers, w); }
    } else {
      OthersStay(s, a, w);
    }
  }

  /** A row in progress is with a live worker or was left by a dead one. */
  ghost predicate Tended(s: State, id: nat) {
    id in s.rows && s.rows[id].status == Processing ==> id in s.abandoned || Live(s, id)
  }

  lemma NextKeepsTended(s: State, a: Action, id: nat)
    requires Safe(s) && Enabled(s, a) && Tended(s, id)
    ensures Tended(Next(s, a), id)
  {
    var s' := Next(s, a);
    if id in s'.rows && s'.rows[id].status == Processing {
      if a.Claim? && id in s.workers[a.w].ids {
        ClaimGives(s, a, id);
      } else {
        assert id in s.rows && s.rows[id].status == Processing;
        if id !in s.abandoned {
          var w :| Has(s, w, id);
          HolderOrGone(s, a, w, id);
        }
      }
    }
  }

  lemma HolderOrGone(s: State, a: Action, w: nat, id: nat)
    requires Safe(s) && Enabled(s, a) && Has(s, w, id)
    requires id in NextRows(s, a) && NextRows(s, a)[id].status == Processing
    ensures id in NextAbandoned(s, a) || Has(Next(s, a), w, id)
  {
    HasSafe(s, w, id);
    if !Ends(s, a, w, id) { HasStill(s, a, w, id); }
  }

  // ---- One owner for each row, until a live claim on it is swept ----

  ghost predicate Remembers(me: Worker, id: nat, n: nat) {
    me.Working? && forall i :: me.at <= i < |me.batch| && me.batch[i].id == id ==> me.batch[i].retryCount == n
  }

  /** A worker has a row by right: it is in progress, with the retry count the worker remembers. */
  ghost predicate HasRight(s: State, w: nat, id: nat)
    requires w in s.workers && id in s.rows
  {
    s.rows[id].status == Processing && id !in s.abandoned && Remembers(s.workers[w], id, s.rows[id].retryCount)
  }

  /** Claims add up: one per failed attempt, one per recovery, and the current or last one. */
  ghost predicate Accounted(s: State, id: nat)
    requires id in s.rows && id in s.acc.claims && id in s.acc.recoveries
  {
    var r := s.rows[id];
    && s.acc.claims[id] == r.retryCount + s.acc.recoveries[id]
                           + (if r.status == Processing || r.status == Published then 1 else 0)
    && (r.status == Published ==> r.retryCount < s.config.maxRetries)
  }

  ghost predicate RowOwned(s: State, id: nat)
    requires id in s.rows && id in s.acc.claims && id in s.acc.recoveries
  {
    && (forall w :: Has(s, w, id) ==> HasRight(s, w, id))
    && (forall w, v :: Has(s, w, id) && Has(s, v, id) ==> w == v)
    && (id in s.abandoned ==> s.rows[id].status == Processing)
    && Accounted(s, id)
  }

  ghost predicate Sound(s: State) {
    && Safe(s)
    && (forall id :: id in s.rows ==> Tended(s, id))
    && (forall id :: id in s.rows && id !in s.sweptLive ==> RowOwned(s, id))
  }

  /** Every row has one owner at most. */
  ghost predicate Owned(s: State) {
    Sound(s) && s.sweptLive == {}
  }

  /** A row changes only when it is claimed, marked or swept. */
  lemma RowStays(s: State, a: Action, id: nat)
    requires Enabled(s, a) && id in s.rows
    requires a.Claim? ==> id !in s.workers[a.w].ids
    requires a.MarkPublished? || a.MarkFailed? ==> a.ok ==> id != Current(s, a.w).id
    requires a.Sweep? ==> id !in Swept(s)
    ensures id in NextRows(s, a) && NextRows(s, a)[id] == s.rows[id]
  {
  }

  lemma CurrentHas(s: State, w: nat)
    requires Safe(s) && w in s.workers && s.workers[w].Working?
    ensures s.workers[w].at < |s.workers[w].batch| && Has(s, w, Current(s, w).id)
  {
    assert WorkerSafe(s, w);
    assert s.workers[w].batch[s.workers[w].at].id in Remaining(s.workers[w]);
  }

  lemma PendingWhenClaimed(s: State, a: Action, id: nat)
    requires Safe(s) && Enabled(s, a) && a.Claim? && id in s.workers[a.w].ids
    ensures id in s.rows && s.rows[id].status == Pending
  {
    assert WorkerSafe(s, a.w);
  }

  /** While somebody has a row by right, others leave it alone. */
  lemma HeldRowStays(s: State, a: Action, w: nat, id: nat)
    requires Safe(s) && Enabled(s, a) && id in s.rows && id !in Next(s, a).sweptLive && RowOwned(s, id)
    requires Has(s, w, id) && s.workers[w].Working? && s.workers[w].at < |s.workers[w].batch| && !Ends(s, a, w, id)
    ensures id in NextRows(s, a) && NextRows(s, a)[id] == s.rows[id] && id !in NextAbandoned(s, a)
  {
    assert HasRight(s, w, id);
    if a.Claim? && id in s.workers[a.w].ids { PendingWhenClaimed(s, a, id); }
    if a.MarkPublished? || a.MarkFailed? { CurrentHas(s, a.w); }
    if a.Sweep? { assert Live(s, id); }
    RowStays(s, a, id);
    if id in NextAbandoned(s, a) { assert Has(s, a.w, id); }
  }

  lemma NobodyHas(s: State, id: nat)
    requires id in s.rows && id in s.acc.claims && id in s.acc.recoveries && RowOwned(s, id)
    requires s.rows[id].status != Processing || id in s.abandoned
    ensures forall w :: !Has(s, w, id)
  {
  }

  lemma ClaimedHolder(s: State, a: Action, id: nat)
    requires Safe(s) && Enabled(s, a) && a.Claim? && id in s.workers[a.w].ids
    requires id in s.rows && RowOwned(s, id)
    ensures id in NextRows(s, a) && HasRight(Next(s, a), a.w, id) && forall v :: !Has(s, v, id)
  {
    PendingWhenClaimed(s, a, id);
    NobodyHas(s, id);
  }

  lemma NextKeepsHolder(s: State, a: Action, w: nat, id: nat)
    requires Safe(s) && Enabled(s, a) && id in s.rows && id !in Next(s, a).sweptLive && RowOwned(s, id)
    requires Has(Next(s, a), w, id)
    ensures id in NextRows(s, a) && HasRight(Next(s, a), w, id)
  {
    if a.Claim? && a.w == w {
      ClaimGives(s, a, id);
      ClaimedHolder(s, a, id);
    } else {
      HadBefore(s, a, w, id);
      HeldRowStays(s, a, w, id);
      assert HasRight(s, w, id);
    }
  }

  lemma NextKeepsSingle(s: State, a: Action, w: nat, v: nat, id: nat)
    requires Safe(s) && Enabled(s, a) && id in s.rows && RowOwned(s, id)
    requires Has(Next(s, a), w, id) && Has(Next(s, a), v, id)
    ensures w == v
  {
    if a.Claim? && (a.w == w || a.w == v) {
      ClaimGives(s, a, id);
      ClaimedHolder(s, a, id);
    }
    if !(a.Claim? && a.w == w) { HadBefore(s, a, w, id); }
    if !(a.Claim? && a.w == v) { HadBefore(s, a, v, id); }
  }

  lemma NextKeepsAbandoned(s: State, a: Action, id: nat)
    requires Safe(s) && Enabled(s, a) && id in s.rows && RowOwned(s, id) && id in NextAbandoned(s, a)
    ensures id in NextRows(s, a) && NextRows(s, a)[id].status == Processing
  {
    if id in s.abandoned {
      NobodyHas(s, id);
    } else {
      assert Has(s, a.w, id) && HasRight(s, a.w, id);
    }
    if a.Claim? && id in s.workers[a.w].ids { PendingWhenClaimed(s, a, id); }
    if a.MarkPublished? || a.MarkFailed? { CurrentHas(s, a.w); }
    RowStays(s, a, id);
  }

  lemma StepAccounts(s: State, a: Action, id: nat)
    requires Enabled(s, a) && id in s.rows && id in s.acc.claims && id in s.acc.recoveries && Accounted(s, id)
    requires RowSafe(s, id)
    requires a.Add? ==> a.id != id
    requires a.Claim? && id in s.workers[a.w].ids ==> s.rows[id].status == Pending
    requires (a.MarkPublished? || a.MarkFailed?) && id == Current(s, a.w).id ==>
               s.rows[id].status == Processing && s.rows[id].retryCount == Current(s, a.w).retryCount
    ensures id in NextRows(s, a) && id in NextAccounts(s, a).claims && id in NextAccounts(s, a).recoveries
    ensures Accounted(Next(s, a), id)
  {
  }

  /** The row a worker is about to mark is its own. */
  lemma CurrentOwned(s: State, w: nat)
    requires Sound(s) && w in s.workers && s.workers[w].Working?
    ensures s.workers[w].at < |s.workers[w].batch| && Has(s, w, Current(s, w).id)
    ensures var e := Current(s, w);
            e.id !in s.sweptLive ==>
              e.id in s.rows && s.rows[e.id].status == Processing && s.rows[e.id].retryCount == e.retryCount
  {
    CurrentHas(s, w);
    var e := Current(s, w);
    HasSafe(s, w, e.id);
    if e.id !in s.sweptLive {
      assert RowOwned(s, e.id) && HasRight(s, w, e.id);
    }
  }

  lemma NextKeepsAccounted(s: State, a: Action, id: nat)
    requires Sound(s) && Enabled(s, a) && id in s.rows && id !in s.sweptLive
    ensures id in NextRows(s, a) && id in NextAccounts(s, a).claims && id in NextAccounts(s, a).recoveries
    ensures Accounted(Next(s, a), id)
  {
    assert RowOwned(s, id) && RowSafe(s, id);
    if a.Claim? && id in s.workers[a.w].ids { PendingWhenClaimed(s, a, id); }
    if a.MarkPublished? || a.MarkFailed? { CurrentOwned(s, a.w); }
    StepAccounts(s, a, id);
  }

  lemma NewRowOwned(s: State, a: Action)
    requires Safe(s) && Enabled(s, a) && a.Add?
    ensures a.id in NextAccounts(s, a).claims && a.id in NextAccounts(s, a).recoveries && RowOwned(Next(s, a), a.id)
  {
    forall w ensures !Has(Next(s, a), w, a.id) {
      if Has(Next(s, a), w, a.id) { HasSafe(s, w, a.id); assert false; }
    }
  }

  lemma NextKeepsRowOwned(s: State, a: Action, id: nat)
    requires Sound(s) && Enabled(s, a) && id in NextRows(s, a) && id !in Next(s, a).sweptLive
    ensures id in NextAccounts(s, a).claims && id in NextAccounts(s, a).recoveries && RowOwned(Next(s, a), id)
  {
    if id in s.rows {
      var s' := Next(s, a);
      NextKeepsAccounted(s, a, id);
      forall w | Has(s', w, id) ensures HasRight(s', w, id) { NextKeepsHolder(s, a, w, id); }
      forall w, v | Has(s', w, id) && Has(s', v, id) ensures w == v { NextKeepsSingle(s, a, w, v, id); }
      if id in s'.abandoned { NextKeepsAbandoned(s, a, id); }
    } else {
      NewRowOwned(s, a);
    }
  }

  lemma NextKeepsSound(s: State, a: Action)
    requires Sound(s) && Enabled(s, a)
    ensures Sound(Next(s, a))
  {
    var s' := Next(s, a);
    NextKeepsSafe(s, a);
    forall id | id in s'.rows ensures Tended(s', id) { NextKeepsTended(s, a, id); }
    forall id | id in s'.rows && id !in s'.sweptLive ensures RowOwned(s', id) { NextKeepsRowOwned(s, a, id); }
  }

  lemma {:induction false} AlwaysSound(acts: seq<Action>, s: State)
    requires Reaches(acts, s)
    ensures Sound(s)
  {
    var config: Config, now: int :|
      0 < config.maxRetries && 0 < config.limit && Run(Initial(config, now), acts) == Some(s);
    if acts != [] {
      var prior := acts[..|acts| - 1];
      var p := Run(Initial(config, now), prior).value;
      assert Reaches(prior, p);
      AlwaysSound(prior, p);
      NextKeepsSound(p, acts[|acts| - 1]);
    }
  }

  /** What a worker has left is in progress and nobody else's, as long as no live claim is swept. */
  lemma RemainingRow(s: State, w: nat, id: nat)
    requires Owned(s) && Has(s, w, id)
    ensures id in s.rows && s.rows[id].status == Processing && id !in s.abandoned
    ensures forall v :: Has(s, v, id) ==> v == w
  {
    HasSafe(s, w, id);
    assert RowOwned(s, id) && HasRight(s, w, id);
  }

  // Whoever is responsible for a row in progress.
  datatype OwnerTag = Alive(w: nat) | Gone

  ghost function Owners(s: State, id: nat): set<OwnerTag> {
    (set w | w in s.workers && id in Remaining(s.workers[w]) :: Alive(w)) + (if id in s.abandoned then {Gone} else {})
  }

  lemma SingleOwner(s: State, id: nat, w: nat)
    requires Has(s, w, id) && id !in s.abandoned && forall v :: Has(s, v, id) ==> v == w
    ensures Owners(s, id) == {Alive(w)}
  {
    forall v | v in s.workers && id in Remaining(s.workers[v]) ensures v == w { assert Has(s, v, id); }
  }

  lemma NoLiveOwner(s: State, id: nat)
    requires !Live(s, id)
    ensures Owners(s, id) == if id in s.abandoned then {Gone} else {}
  {
    forall v | v in s.workers && id in Remaining(s.workers[v]) ensures false { assert Has(s, v, id); }
  }

  /** While no live claim on a row is swept, the row has exactly one owner if it is in PROCESSING, a
      live worker or a dead one's claim, and none if it is not. */
  lemma ExactlyOneOwner(acts: seq<Action>, s: State, id: nat)
    requires Reaches(acts, s) && id in s.rows && id !in s.sweptLive
    ensures |Owners(s, id)| == if s.rows[id].status == Processing then 1 else 0
  {
    AlwaysSound(acts, s);
    assert RowOwned(s, id) && Tended(s, id);
    if Live(s, id) {
      var w :| Has(s, w, id);
      assert HasRight(s, w, id);
      SingleOwner(s, id, w);
    } else {
      NoLiveOwner(s, id);
    }
  }

  /** Claims running at the same time never share a row: not while they hold their locks, nor once
      they have flipped their rows but for those swept from a live worker. */
  lemma ClaimsDisjoint(acts: seq<Action>, s: State, w: nat, v: nat)
    requires Reaches(acts, s) && w in s.workers && v in s.workers && w != v
    ensures s.workers[w].Selecting? && s.workers[v].Selecting? ==> s.workers[w].ids !! s.workers[v].ids
    ensures Remaining(s.workers[w]) * Remaining(s.workers[v]) <= s.sweptLive
  {
    AlwaysSound(acts, s);
    assert WorkerSafe(s, w) && WorkerSafe(s, v);
    forall id | id in Remaining(s.workers[w]) && id in Remaining(s.workers[v]) ensures id in s.sweptLive {
      assert Has(s, w, id) && Has(s, v, id);
      HasSafe(s, w, id);
      assert id !in s.sweptLive ==> RowOwned(s, id);
    }
  }

  /** A row is claimed at most maxRetries times plus once per recovery, while no live claim on it is
      swept. */
  lemma ClaimsBounded(acts: seq<Action>, s: State, id: nat)
    requires Reaches(acts, s) && id in s.rows && id !in s.sweptLive
    ensures id in s.acc.claims && id in s.acc.recoveries
    ensures s.acc.claims[id] <= s.config.maxRetries + s.acc.recoveries[id]
  {
    AlwaysSound(acts, s);
    assert RowOwned(s, id) && RowSafe(s, id);
  }
}
