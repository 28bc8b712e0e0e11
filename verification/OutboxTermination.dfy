/** The outbox workers finish: a bound on their steps. */
module OutboxTermination {
  import opened Currencies
  import opened Sums
  import opened Outbox
  import opened OutboxProtocol

  // ---- A rank that every step of a worker lowers ----

  /** Seven for each attempt left, less what the current attempt has already gone through. */
  function RowRank(s: State, id: nat): int
    requires id in s.rows
  {
    var left := 7 * (s.config.maxRetries - s.rows[id].retryCount);
    match s.rows[id].status
    case Pending => left - (if id in s.locked then 1 else 0)
    case Processing => left - (if id in s.abandoned then 5 else 4)
    case _ => 0
  }

  function WorkerRank(w: Worker): int {
    if w.Selecting? then 0 else match w.phase case Sending => 2 case Marking => 1 case Failing => 0
  }

  ghost function RowRanks(s: State): map<nat, int> {
    map id | id in s.rows :: RowRank(s, id)
  }

  ghost function WorkerRanks(workers: map<nat, Worker>): map<nat, int> {
    map w | w in workers :: WorkerRank(workers[w])
  }

  ghost function Rank(s: State): int {
    Sum(RowRanks(s)) + Sum(WorkerRanks(s.workers))
  }

  predicate WorkerStep(a: Action) {
    a.Select? || a.Claim? || a.Publish? || a.MarkPublished? || a.MarkFailed? || a.Crash?
  }

  lemma RankNotNegative(s: State)
    requires Safe(s)
    ensures 0 <= Rank(s)
  {
    forall id | id in s.rows ensures 0 <= RowRank(s, id) { assert RowSafe(s, id); }
    SumNonNegative(RowRanks(s));
    SumNonNegative(WorkerRanks(s.workers));
  }

  lemma WorkerPut(workers: map<nat, Worker>, w: nat, me: Worker)
    ensures Sum(WorkerRanks(workers[w := me]))
         == Sum(WorkerRanks(workers)) + WorkerRank(me) - if w in workers then WorkerRank(workers[w]) else 0
  {
    assert WorkerRanks(workers[w := me]) == WorkerRanks(workers)[w := WorkerRank(me)];
    SumPut(WorkerRanks(workers), w, WorkerRank(me));
  }

  lemma WorkerGone(workers: map<nat, Worker>, w: nat)
    requires w in workers
    ensures Sum(WorkerRanks(workers - {w})) == Sum(WorkerRanks(workers)) - WorkerRank(workers[w])
  {
    assert WorkerRanks(workers - {w}) == WorkerRanks(workers) - {w};
    SumPick(WorkerRanks(workers), w);
  }

  /** What a step does to the workers' ranks. */
  ghost function WorkerGain(s: State, a: Action): int
    requires Enabled(s, a)
  {
    match a
    case Claim(_, _) => 2
    case Publish(_, ok) => if ok then -1 else -2
    case MarkPublished(_, ok) => if ok then 1 else -1
    case MarkFailed(_, ok) => if ok then 2 else 0
    case _ => 0
  }

  lemma WorkersGain(s: State, a: Action)
    requires Enabled(s, a)
    ensures Sum(WorkerRanks(NextWorkers(s, a))) <= Sum(WorkerRanks(s.workers)) + WorkerGain(s, a)
  {
    match a
    case Tick(_) =>
    case Add(_, _) =>
    case Sweep =>
    case Select(w, ids) => WorkerPut(s.workers, w, Selecting(ids));
    case Cancel(w) => WorkerGone(s.workers, w);
    case Claim(w, batch) => WorkerPut(s.workers, w, Working(batch, 0, Sending));
    case Publish(w, ok) => WorkerPut(s.workers, w, s.workers[w].(phase := if ok then Marking else Failing));
    case MarkPublished(w, ok) =>
      if ok { AdvanceGains(s.workers, w); } else { WorkerPut(s.workers, w, s.workers[w].(phase := Failing)); }
    case MarkFailed(w, ok) => if ok { AdvanceGains(s.workers, w); } else { WorkerGone(s.workers, w); }
    case Crash(w) => WorkerGone(s.workers, w);
  }

  lemma AdvanceGains(workers: map<nat, Worker>, w: nat)
    requires w in workers && workers[w].Working?
    ensures Sum(WorkerRanks(Advance(workers, w))) <= Sum(WorkerRanks(workers)) + 2 - WorkerRank(workers[w])
  {
    var me := workers[w];
    if me.at + 1 < |me.batch| { WorkerPut(workers, w, Working(me.batch, me.at + 1, Sending)); }
    else { WorkerGone(workers, w); }
  }

  /** The rows whose rank a step moves, and by how much at most. */
  ghost function Moved(s: State, a: Action): set<nat>
    requires Enabled(s, a)
  {
    match a
    case Select(_, ids) => ids
    case Cancel(w) => s.workers[w].ids
    case Claim(w, _) => s.workers[w].ids
    case MarkPublished(w, ok) => if ok then {Current(s, w).id} else {}
    case MarkFailed(w, ok) => if ok then {Current(s, w).id} else Remaining(s.workers[w])
    case Crash(w) => Remaining(s.workers[w])
    case Sweep => Swept(s)
    case _ => {}
  }

  ghost function Shift(a: Action): int {
    match a
    case Select(_, _) => -1
    case Cancel(_) => 1
    case Claim(_, _) => -3
    case MarkPublished(_, _) => -3
    case MarkFailed(_, ok) => if ok then -3 else -1
    case Crash(_) => -1
    case Sweep => 5
    case _ => 0
  }

  /** What a step knows about a row it moves. */
  lemma MovedRows(s: State, a: Action, id: nat)
    requires Owned(s) && Enabled(s, a) && id in Moved(s, a)
    ensures id in s.rows
    ensures a.Select? ==> s.rows[id].status == Pending && id !in s.locked
    ensures a.Cancel? || a.Claim? ==> s.rows[id].status == Pending && id in s.locked && s.locked[id] == a.w
    ensures a.MarkPublished? || a.MarkFailed? || a.Crash? ==>
               s.rows[id].status == Processing && id !in s.abandoned && id !in s.locked
    ensures a.MarkFailed? && a.ok ==> s.rows[id].retryCount == Current(s, a.w).retryCount
  {
    if a.Cancel? || a.Claim? { assert WorkerSafe(s, a.w); }
    if a.Select? { assert id in Claimable(s.rows, s.locked.Keys); }
    if a.MarkPublished? || a.MarkFailed? || a.Crash? {
      assert Has(s, a.w, id) by { CurrentOwned(s, a.w); }
      CurrentOwned(s, a.w);
      RemainingRow(s, a.w, id);
      ProcessingUnlocked(s, id);
    }
  }

  lemma ProcessingUnlocked(s: State, id: nat)
    requires Safe(s) && id in s.rows && s.rows[id].status == Processing
    ensures id !in s.locked
  {
    if id in s.locked { LockedIsPending(s, id); }
  }

  lemma LockedIsPending(s: State, id: nat)
    requires Safe(s) && id in s.locked
    ensures s.locked[id] in s.workers && id in s.rows && s.rows[id].status == Pending
  {
    assert LockSafe(s, id);
    assert WorkerSafe(s, s.locked[id]);
  }

  /** A row a step is not about keeps its status, its lock and its owner. */
  lemma UnmovedRows(s: State, a: Action, id: nat)
    requires Owned(s) && Enabled(s, a) && id in s.rows && id !in Moved(s, a)
    ensures id in NextRows(s, a) && (a.Add? ==> a.id != id)
    ensures NextRows(s, a)[id].status == s.rows[id].status && NextRows(s, a)[id].retryCount == s.rows[id].retryCount
    ensures id in NextLocked(s, a) <==> id in s.locked
    ensures s.rows[id].status == Processing ==> (id in NextAbandoned(s, a) <==> id in s.abandoned)
  {
    if id in s.locked { assert LockSafe(s, id); }
  }

  lemma RowMoves(s: State, a: Action, id: nat)
    requires Owned(s) && Enabled(s, a) && Next(s, a).sweptLive == {} && id in s.rows
    ensures id in NextRows(s, a)
    ensures RowRank(Next(s, a), id) <= RowRank(s, id) + if id in Moved(s, a) then Shift(a) else 0
  {
    assert RowSafe(s, id);
    if id in Moved(s, a) {
      MovedRows(s, a, id);
      if a.Sweep? { SweptWasAbandoned(s, a, id); ProcessingUnlocked(s, id); }
      MovedRowRank(s, a, id);
    } else {
      UnmovedRows(s, a, id);
    }
  }

  lemma SweptWasAbandoned(s: State, a: Action, id: nat)
    requires Owned(s) && Enabled(s, a) && a.Sweep? && Next(s, a).sweptLive == {} && id in Swept(s)
    ensures id in s.abandoned
  {
  }

  lemma MovedRowRank(s: State, a: Action, id: nat)
    requires Enabled(s, a) && id in s.rows && id in Moved(s, a) && RowSafe(s, id)
    requires a.Select? ==> s.rows[id].status == Pending && id !in s.locked
    requires a.Cancel? || a.Claim? ==> s.rows[id].status == Pending && id in s.locked && s.locked[id] == a.w
    requires a.MarkPublished? || a.MarkFailed? || a.Crash? ==>
               s.rows[id].status == Processing && id !in s.abandoned && id !in s.locked
    requires a.MarkFailed? && a.ok ==> s.rows[id].retryCount == Current(s, a.w).retryCount
    requires a.Sweep? ==> id in s.abandoned && id !in s.locked && s.rows[id].status == Processing
    ensures id in NextRows(s, a) && RowRank(Next(s, a), id) <= RowRank(s, id) + Shift(a)
  {
  }

  lemma MovedSome(s: State, a: Action)
    requires Owned(s) && Enabled(s, a) && WorkerStep(a) && Shift(a) < 0 && !(a.MarkPublished? && !a.ok)
    ensures 1 <= |Moved(s, a)|
  {
    if a.Claim? { assert WorkerSafe(s, a.w); }
    if a.MarkFailed? || a.Crash? {
      CurrentOwned(s, a.w);
      assert Current(s, a.w).id in Moved(s, a);
    }
    assert Moved(s, a) != {};
  }

  lemma RankChange(s: State, a: Action)
    requires Owned(s) && Enabled(s, a) && Next(s, a).sweptLive == {} && !a.Add?
    ensures Rank(Next(s, a)) <= Rank(s) + Shift(a) * |Moved(s, a)| + WorkerGain(s, a)
  {
    RowsShift(s, a);
    WorkersGain(s, a);
  }

  lemma RowsShift(s: State, a: Action)
    requires Owned(s) && Enabled(s, a) && Next(s, a).sweptLive == {} && !a.Add?
    ensures Sum(RowRanks(Next(s, a))) <= Sum(RowRanks(s)) + Shift(a) * |Moved(s, a)|
  {
    var s' := Next(s, a);
    forall id | id in s.rows
      ensures id in s'.rows && RowRank(s', id) <= RowRank(s, id) + if id in Moved(s, a) then Shift(a) else 0
    {
      RowMoves(s, a, id);
    }
    forall id | id in Moved(s, a) ensures id in s.rows { MovedRows(s, a, id); }
    RowsStayThese(s, a);
    SumShift(RowRanks(s), RowRanks(s'), Moved(s, a), Shift(a));
  }

  lemma RowsStayThese(s: State, a: Action)
    requires Enabled(s, a) && !a.Add?
    ensures NextRows(s, a).Keys == s.rows.Keys
  {
  }

  /** Every step of a worker, a crash included, lowers the rank. */
  lemma WorkerStepLowers(s: State, a: Action)
    requires Owned(s) && Enabled(s, a) && Next(s, a).sweptLive == {} && WorkerStep(a)
    ensures Rank(Next(s, a)) <= Rank(s) - 1
  {
    RankChange(s, a);
    if Shift(a) < 0 && !(a.MarkPublished? && !a.ok) {
      MovedSome(s, a);
      ScaledBound(Shift(a), |Moved(s, a)|);
    }
  }

  lemma ScaledBound(c: int, n: nat)
    requires c < 0 && 1 <= n
    ensures c * n <= c
  {
  }

  lemma AddSpares(s: State, a: Action, id: nat)
    requires Enabled(s, a) && a.Add? && id in s.rows
    ensures id in NextRows(s, a) && RowRank(Next(s, a), id) == RowRank(s, id)
  {
  }

  lemma AddedRank(s: State, a: Action)
    requires Enabled(s, a) && a.Add? && a.id !in s.locked
    ensures NextRows(s, a).Keys == s.rows.Keys + {a.id} && NextWorkers(s, a) == s.workers
    ensures RowRank(Next(s, a), a.id) == 7 * s.config.maxRetries
  {
  }

  lemma AddRaises(s: State, a: Action)
    requires Owned(s) && Enabled(s, a) && a.Add?
    ensures Rank(Next(s, a)) == Rank(s) + 7 * s.config.maxRetries
  {
    var s' := Next(s, a);
    if a.id in s.locked { LockedIsPending(s, a.id); }
    forall id | id in s.rows ensures id in s'.rows && RowRank(s', id) == RowRank(s, id) { AddSpares(s, a, id); }
    AddedRank(s, a);
    assert RowRanks(s') == RowRanks(s)[a.id := 7 * s.config.maxRetries];
    SumPut(RowRanks(s), a.id, 7 * s.config.maxRetries);
  }

  // ---- The bound ----

  /** Steps taken so far plus steps at most left are paid for by added rows, recoveries and
      cancelled claims. */
  ghost predicate Paid(s: State) {
    s.acc.steps + Rank(s) <= Each(s.config.maxRetries, s.acc.added) + 5 * s.acc.recovered + s.acc.cancelled
  }

  /** Seven steps for each attempt of each row. */
  function Each(maxRetries: nat, rows: nat): int {
    7 * maxRetries * rows
  }

  lemma OneRowMore(maxRetries: nat, rows: nat)
    ensures Each(maxRetries, rows + 1) == Each(maxRetries, rows) + 7 * maxRetries
  {
  }

  /** What a step adds to the accounts. */
  lemma StepCosts(s: State, a: Action)
    requires Enabled(s, a)
    ensures var acc := NextAccounts(s, a);
            && acc.steps == s.acc.steps + (if WorkerStep(a) then 1 else 0)
            && acc.added == s.acc.added + (if a.Add? then 1 else 0)
            && acc.recovered == s.acc.recovered + (if a.Sweep? then |Swept(s)| else 0)
            && acc.cancelled == s.acc.cancelled + (if a.Cancel? then |s.workers[a.w].ids| else 0)
  {
  }

  lemma OtherStepRaises(s: State, a: Action)
    requires Owned(s) && Enabled(s, a) && Next(s, a).sweptLive == {} && !a.Add? && !WorkerStep(a)
    ensures Rank(Next(s, a)) <= Rank(s) + (if a.Sweep? then 5 * |Swept(s)| else 0)
                                + (if a.Cancel? then |s.workers[a.w].ids| else 0)
  {
    RankChange(s, a);
    match a
    case Tick(_) => assert Shift(a) == 0;
    case Cancel(w) => assert Moved(s, a) == s.workers[w].ids && Shift(a) == 1;
    case Sweep => assert Moved(s, a) == Swept(s) && Shift(a) == 5;
  }

  lemma NextKeepsPaid(s: State, a: Action)
    requires Owned(s) && Paid(s) && Enabled(s, a) && Next(s, a).sweptLive == {}
    ensures Paid(Next(s, a))
  {
    StepCosts(s, a);
    if a.Add? {
      AddRaises(s, a);
      OneRowMore(s.config.maxRetries, s.acc.added);
    } else if WorkerStep(a) {
      WorkerStepLowers(s, a);
    } else {
      OtherStepRaises(s, a);
    }
  }

  /** In any run in which the sweep takes no row from a live worker, the workers together take
      at most seven steps per row and attempt, five more per recovered row, and one more per
      row of a cancelled claim. */
  lemma {:induction false} WorkBounded(acts: seq<Action>, s: State)
    requires Reaches(acts, s) && s.sweptLive == {}
    ensures Paid(s)
    ensures s.acc.steps <= 7 * s.config.maxRetries * s.acc.added + 5 * s.acc.recovered + s.acc.cancelled
  {
    var config: Config, now: int :|
      0 < config.maxRetries && 0 < config.limit && Run(Initial(config, now), acts) == Some(s);
    if acts != [] {
      var prior := acts[..|acts| - 1];
      var p := Run(Initial(config, now), prior).value;
      assert Reaches(prior, p);
      WorkBounded(prior, p);
      AlwaysSound(prior, p);
      NextKeepsPaid(p, acts[|acts| - 1]);
    }
    AlwaysSound(acts, s);
    RankNotNegative(s);
  }

  // ---- What finished means, and a batch to claim ----

  predicate Finished(s: State, id: nat)
    requires id in s.rows
  {
    s.rows[id].status == Published || s.rows[id].status == Failed
  }

  lemma SomeBatch(rows: Table, ids: set<nat>) returns (batch: seq<Entry>)
    requires ids <= rows.Keys
    ensures IdsOf(batch) == ids && Distinct(batch)
    ensures forall i :: 0 <= i < |batch| ==> batch[i].id in rows && batch[i].retryCount == rows[batch[i].id].retryCount
    decreases |ids|
  {
    if ids == {} {
      batch := [];
    } else {
      var id :| id in ids;
      var rest := SomeBatch(rows, ids - {id});
      IdsOfAppend(rest, Entry(id, rows[id].retryCount));
      forall i | 0 <= i < |rest| ensures rest[i].id != id { assert rest[i].id in IdsOf(rest); }
      batch := rest + [Entry(id, rows[id].retryCount)];
    }
  }
}
