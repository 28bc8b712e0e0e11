/** When a finished row stays finished: as long as no worker has it left to do.  A worker that outlasts
    the sweep may have, since neither mark looks at the row it overwrites. */
module OutboxFinality {
  import opened Currencies
  import opened Outbox
  import opened OutboxProtocol
  import opened OutboxTermination
  import opened OutboxSettles

  /** Recording, for the last time the row allows, that its entry failed. */
  predicate LastFailure(s: State, w: nat, i: int)
    requires w in s.workers && s.workers[w].Working? && s.workers[w].at <= i < |s.workers[w].batch|
  {
    i == s.workers[w].at && s.workers[w].phase == Failing
    && s.workers[w].batch[i].retryCount + 1 >= s.config.maxRetries
  }

  /** The worker has the row as the i-th entry of its batch still to do, and is not just about to
      write what the row already says. */
  predicate Disturbs(s: State, w: nat, i: int, id: nat)
    requires id in s.rows
  {
    && w in s.workers && s.workers[w].Working? && s.workers[w].at <= i < |s.workers[w].batch|
    && s.workers[w].batch[i].id == id && !(s.rows[id].status == Failed && LastFailure(s, w, i))
  }

  ghost predicate Disturbed(s: State, id: nat)
    requires id in s.rows
  {
    exists w, i :: Disturbs(s, w, i, id)
  }

  /** However the run goes on, the row stays as it is. */
  ghost predicate Final(s: State, id: nat)
    requires id in s.rows
  {
    forall more, s' :: Run(s, more) == Some(s') ==> id in s'.rows && s'.rows[id] == s.rows[id]
  }

  // ---- Without such a worker the row stays ----

  lemma MarkWritesTheSame(s: State, a: Action, id: nat)
    requires Safe(s) && Enabled(s, a) && (a.MarkPublished? || a.MarkFailed?) && a.ok && Current(s, a.w).id == id
    requires id in s.rows && Finished(s, id) && !Disturbed(s, id)
    ensures id in NextRows(s, a) && NextRows(s, a)[id] == s.rows[id]
  {
    assert WorkerSafe(s, a.w) && RowSafe(s, id);
    assert !Disturbs(s, a.w, s.workers[a.w].at, id);
  }

  lemma FinishedNotClaimed(s: State, a: Action, id: nat)
    requires Safe(s) && Enabled(s, a) && a.Claim? && id in s.rows && Finished(s, id)
    ensures id !in s.workers[a.w].ids
  {
    assert WorkerSafe(s, a.w);
  }

  lemma UndisturbedStays(s: State, a: Action, id: nat)
    requires Safe(s) && Enabled(s, a) && id in s.rows && Finished(s, id) && !Disturbed(s, id)
    ensures id in NextRows(s, a) && NextRows(s, a)[id] == s.rows[id]
  {
    if (a.MarkPublished? || a.MarkFailed?) && a.ok && Current(s, a.w).id == id {
      MarkWritesTheSame(s, a, id);
    } else {
      if a.Claim? { FinishedNotClaimed(s, a, id); }
      RowStays(s, a, id);
    }
  }

  /** A worker that may disturb the row after a step could before. */
  lemma DisturbedBefore(s: State, a: Action, w: nat, i: int, id: nat)
    requires Safe(s) && Enabled(s, a) && id in s.rows && Finished(s, id)
    requires id in NextRows(s, a) && NextRows(s, a)[id] == s.rows[id] && Disturbs(Next(s, a), w, i, id)
    ensures Disturbs(s, w, i, id)
  {
    assert Has(Next(s, a), w, id) by { Entries(NextWorkers(s, a)[w], id); }
    if a.Claim? && a.w == w {
      ClaimGives(s, a, id);
      FinishedNotClaimed(s, a, id);
      assert false;
    } else {
      HadBefore(s, a, w, id);
      PhaseBefore(s, a, w, i);
    }
  }

  /** An entry that was the current one, with its last failure to record, is that or done. */
  lemma PhaseBefore(s: State, a: Action, w: nat, i: int)
    requires Enabled(s, a) && w in s.workers && s.workers[w].Working? && s.workers[w].at < |s.workers[w].batch|
    requires w in NextWorkers(s, a) && NextWorkers(s, a)[w].Working? && !(a.Claim? && a.w == w)
    requires NextWorkers(s, a)[w].batch == s.workers[w].batch && s.workers[w].at <= NextWorkers(s, a)[w].at <= i
    requires i < |s.workers[w].batch|
    ensures LastFailure(s, w, i) ==> LastFailure(Next(s, a), w, i)
  {
    if !(ByWorker(a) && a.w == w) { OthersStay(s, a, w); }
  }

  lemma UndisturbedStep(s: State, a: Action, id: nat)
    requires Safe(s) && Enabled(s, a) && id in s.rows && Finished(s, id) && !Disturbed(s, id)
    ensures id in NextRows(s, a) && NextRows(s, a)[id] == s.rows[id] && !Disturbed(Next(s, a), id)
  {
    UndisturbedStays(s, a, id);
    if w, i :| Disturbs(Next(s, a), w, i, id) { DisturbedBefore(s, a, w, i, id); }
  }

  lemma {:induction false} UndisturbedRun(s: State, more: seq<Action>, id: nat)
    requires Safe(s) && id in s.rows && Finished(s, id) && !Disturbed(s, id) && Run(s, more).Some?
    ensures var s' := Run(s, more).value;
            Safe(s') && id in s'.rows && s'.rows[id] == s.rows[id] && !Disturbed(s', id)
  {
    if more != [] {
      var n := |more| - 1;
      UndisturbedRun(s, more[..n], id);
      UndisturbedStep(Run(s, more[..n]).value, more[n], id);
      NextKeepsSafe(Run(s, more[..n]).value, more[n]);
    }
  }

  // ---- With one it can change ----

  /** The worker is at its entry for the row: two more steps at most, and the row has changed. */
  lemma DisturbNow(s: State, w: nat, id: nat) returns (more: seq<Action>, s': State)
    requires Safe(s) && AllWorking(s) && id in s.rows && Finished(s, id) && w in s.workers
    requires Disturbs(s, w, s.workers[w].at, id)
    ensures Run(s, more) == Some(s') && id in s'.rows && s'.rows[id] != s.rows[id]
  {
    NothingLocked(s);
    assert WorkerSafe(s, w) && RowSafe(s, id);
    if s.rows[id].status == Failed && s.workers[w].phase != Failing {
      var first, end := FinishEntry(s, w);
      more, s' := first, end;
    } else {
      more, s' := FailEntry(s, w);
    }
  }

  /** The worker's current entry, failing. */
  lemma FailEntry(s: State, w: nat) returns (more: seq<Action>, s': State)
    requires Safe(s) && AllWorking(s) && w in s.workers && s.locked == map[]
    ensures s.workers[w].Working? && s.workers[w].at < |s.workers[w].batch|
    ensures Run(s, more) == Some(s')
    ensures var e := Current(s, w);
            s'.rows == FailRow(s.rows, e.id, e.retryCount + 1, s.config.maxRetries)
  {
    assert WorkerSafe(s, w);
    var fail := MarkFailed(w, true);
    if s.workers[w].phase == Failing {
      GoesOnBy(s, fail);
      more, s' := [fail], Next(s, fail);
    } else {
      var a := if s.workers[w].phase == Sending then Publish(w, false) else MarkPublished(w, false);
      NowFailing(s, w, a);
      GoesOnBy(s, a);
      var failing := Next(s, a);
      GoesOnBy(failing, fail);
      GoesOnTwice(s, [a], failing, [fail], Next(failing, fail));
      more, s' := [a] + [fail], Next(failing, fail);
    }
  }

  lemma NowFailing(s: State, w: nat, a: Action)
    requires Enabled(s, a) && (a.Publish? || a.MarkPublished?) && !a.ok && a.w == w
    ensures var s' := Next(s, a);
            Busy(s', w, Failing) && Current(s', w) == Current(s, w) && s'.rows == s.rows && s'.locked == s.locked
            && s'.config == s.config
  {
  }

  /** A worker that has the row later in its batch gets there. */
  lemma {:induction false} DisturbLater(s: State, w: nat, i: int, id: nat) returns (more: seq<Action>, s': State)
    requires Safe(s) && AllWorking(s) && id in s.rows && Finished(s, id) && Disturbs(s, w, i, id)
    ensures Run(s, more) == Some(s') && id in s'.rows && s'.rows[id] != s.rows[id]
    decreases i - s.workers[w].at
  {
    if i == s.workers[w].at {
      more, s' := DisturbNow(s, w, id);
    } else {
      var first, next := FinishEntry(s, w);
      assert WorkerSafe(s, w);
      StillLater(s, w, i, id, next);
      var rest, end := DisturbLater(next, w, i, id);
      RunJoins(s, first, rest, next);
      more, s' := first + rest, end;
    }
  }

  lemma StillLater(s: State, w: nat, i: int, id: nat, next: State)
    requires id in s.rows && Finished(s, id) && Disturbs(s, w, i, id) && s.workers[w].at < i
    requires WorkerSafe(s, w) && EntryDone(s, w, next)
    ensures id in next.rows && next.rows[id] == s.rows[id]
    ensures w in next.workers && next.workers[w].at == s.workers[w].at + 1 && Disturbs(next, w, i, id)
  {
    assert Current(s, w).id != id;
  }

  lemma DisturbedChanges(s: State, id: nat)
    requires Safe(s) && id in s.rows && Finished(s, id) && Disturbed(s, id)
    ensures !Final(s, id)
  {
    var w, i :| Disturbs(s, w, i, id);
    var first, alone := CancelAll(s);
    assert Disturbs(alone, w, i, id);
    var rest, end := DisturbLater(alone, w, i, id);
    RunJoins(s, first, rest, alone);
    assert Run(s, first + rest) == Some(end);
  }

  /** A finished row stays as it is, however the run goes on, if and only if no worker still has it
      to do but for recording once more the failure that ended it. */
  lemma FinalIffUndisturbed(acts: seq<Action>, s: State, id: nat)
    requires Reaches(acts, s) && id in s.rows && Finished(s, id)
    ensures Final(s, id) <==> !Disturbed(s, id)
  {
    OutboxSafe(acts, s);
    if Disturbed(s, id) {
      DisturbedChanges(s, id);
    } else {
      forall more, s' | Run(s, more) == Some(s') ensures id in s'.rows && s'.rows[id] == s.rows[id] {
        UndisturbedRun(s, more, id);
      }
    }
  }

  /** So FAILED and PUBLISHED are final for every row the sweep never took from a live worker. */
  lemma FinalUnlessSwept(acts: seq<Action>, s: State, id: nat)
    requires Reaches(acts, s) && id in s.rows && Finished(s, id) && id !in s.sweptLive
    ensures Final(s, id)
  {
    AlwaysSound(acts, s);
    FinalIffUndisturbed(acts, s, id);
    if w, i :| Disturbs(s, w, i, id) {
      Entries(s.workers[w], id);
      HeldInProgress(s, w, id);
    }
  }

  lemma HeldInProgress(s: State, w: nat, id: nat)
    requires Sound(s) && Has(s, w, id) && id !in s.sweptLive
    ensures id in s.rows && s.rows[id].status == Processing
  {
    HasSafe(s, w, id);
    assert RowOwned(s, id) && HasRight(s, w, id);
  }

  // ---- A run in which it does change ----

  // One attempt, one row at a time, and claims are stale after ten milliseconds.
  const STRICT := Config(1, 1, 10)

  const NEW := Row(0, Pending, 0, None)

  function Batch(phase: Phase): Worker {
    Working([Entry(1, 0)], 0, phase)
  }

  /** The state but for its accounts: row 1 and who is at work on it. */
  ghost predicate Shows(s: State, row: Row, workers: map<nat, Worker>, now: int) {
    s.config == STRICT && s.rows == map[1 := row] && s.locked == map[] && s.workers == workers && s.now == now
  }

  /** A step that a run can take next. */
  ghost predicate Goes(s: State, a: Action, s': State) {
    Enabled(s, a) && Next(s, a) == s'
  }

  lemma ReachesNext(acts: seq<Action>, s: State, a: Action, s': State)
    requires Reaches(acts, s) && Goes(s, a, s')
    ensures Reaches(acts + [a], s')
  {
    var none: seq<Action> := [];
    assert [a][..0] == none && Run(s, none) == Some(s);
    ReachesMore(acts, s, [a], s');
  }

  lemma AddedFirst() returns (acts: seq<Action>, s: State)
    ensures Reaches(acts, s) && Shows(s, NEW, map[], 0)
  {
    var start := Initial(STRICT, 0);
    assert Run(start, []) == Some(start);
    assert Reaches([], start);
    s := Next(start, Add(1, 0));
    ReachesNext([], start, Add(1, 0), s);
    acts := [] + [Add(1, 0)];
  }

  /** The row is locked for a claim in progress. */
  ghost predicate Chosen(s: State, w: nat, workers: map<nat, Worker>, now: int) {
    && s.config == STRICT && s.rows == map[1 := NEW] && s.locked == map[1 := w] && s.now == now
    && s.workers == workers[w := Selecting({1})]
  }

  lemma CanSelect(s: State, w: nat, workers: map<nat, Worker>, now: int) returns (s': State)
    requires Shows(s, NEW, workers, now) && w !in workers
    ensures Goes(s, Select(w, {1}), s') && Chosen(s', w, workers, now)
  {
    assert Claimable(s.rows, {}) == {1};
    s' := Next(s, Select(w, {1}));
  }

  lemma SingleEntry(e: Entry)
    ensures IdsOf([e]) == {e.id} && Distinct([e])
  {
    assert [] + [e] == [e];
    IdsOfAppend([], e);
  }

  lemma CanClaim(s: State, w: nat, workers: map<nat, Worker>, now: int) returns (s': State)
    requires Chosen(s, w, workers, now)
    ensures Goes(s, Claim(w, [Entry(1, 0)]), s')
    ensures Shows(s', Row(0, Processing, 0, Some(now)), workers[w := Batch(Sending)], now)
  {
    SingleEntry(Entry(1, 0));
    s' := Next(s, Claim(w, [Entry(1, 0)]));
    assert workers[w := Selecting({1})][w := Batch(Sending)] == workers[w := Batch(Sending)];
  }

  lemma ClaimIt(acts: seq<Action>, s: State, w: nat, workers: map<nat, Worker>, now: int)
    returns (acts': seq<Action>, s': State)
    requires Reaches(acts, s) && Shows(s, NEW, workers, now) && w !in workers
    ensures Reaches(acts', s')
    ensures Shows(s', Row(0, Processing, 0, Some(now)), workers[w := Batch(Sending)], now)
  {
    var chosen := CanSelect(s, w, workers, now);
    ReachesNext(acts, s, Select(w, {1}), chosen);
    s' := CanClaim(chosen, w, workers, now);
    ReachesNext(acts + [Select(w, {1})], chosen, Claim(w, [Entry(1, 0)]), s');
    acts' := acts + [Select(w, {1})] + [Claim(w, [Entry(1, 0)])];
  }

  lemma CanSend(s: State, w: nat, ok: bool, row: Row, workers: map<nat, Worker>, now: int) returns (s': State)
    requires Shows(s, row, workers, now) && w in workers && workers[w] == Batch(Sending)
    ensures Goes(s, Publish(w, ok), s')
    ensures Shows(s', row, workers[w := Batch(if ok then Marking else Failing)], now)
  {
    s' := Next(s, Publish(w, ok));
  }

  lemma CanWait(s: State, ms: nat, row: Row, workers: map<nat, Worker>, now: int) returns (s': State)
    requires Shows(s, row, workers, now)
    ensures Goes(s, Tick(ms), s') && Shows(s', row, workers, now + ms)
  {
    s' := Next(s, Tick(ms));
  }

  lemma CanSweep(s: State, workers: map<nat, Worker>, since: int, now: int) returns (s': State)
    requires Shows(s, Row(0, Processing, 0, Some(since)), workers, now) && since < now - 10
    ensures Goes(s, Sweep, s') && Shows(s', NEW, workers, now)
  {
    s' := Next(s, Sweep);
  }

  lemma CanFail(s: State, w: nat, row: Row, workers: map<nat, Worker>, now: int) returns (s': State)
    requires Shows(s, row, workers, now) && w in workers && workers[w] == Batch(Failing)
    ensures Goes(s, MarkFailed(w, true), s') && Shows(s', Row(row.createdAt, Failed, 1, None), workers - {w}, now)
  {
    s' := Next(s, MarkFailed(w, true));
  }

  lemma SentAndSwept(acts: seq<Action>, s: State) returns (acts': seq<Action>, s': State)
    requires Reaches(acts, s) && Shows(s, Row(0, Processing, 0, Some(0)), map[1 := Batch(Sending)], 0)
    ensures Reaches(acts', s') && Shows(s', NEW, map[1 := Batch(Marking)], 11)
  {
    var row := Row(0, Processing, 0, Some(0));
    var sent := CanSend(s, 1, true, row, map[1 := Batch(Sending)], 0);
    ReachesNext(acts, s, Publish(1, true), sent);
    var later := CanWait(sent, 11, row, map[1 := Batch(Marking)], 0);
    ReachesNext(acts + [Publish(1, true)], sent, Tick(11), later);
    s' := CanSweep(later, map[1 := Batch(Marking)], 0, 11);
    ReachesNext(acts + [Publish(1, true)] + [Tick(11)], later, Sweep, s');
    acts' := acts + [Publish(1, true)] + [Tick(11)] + [Sweep];
  }

  /** The sweep takes a row from a worker that is slow to mark it, and a second worker claims it:
      now two have it. */
  lemma TwoOwners() returns (acts: seq<Action>, s: State)
    ensures Reaches(acts, s) && Has(s, 1, 1) && Has(s, 2, 1)
    ensures Shows(s, Row(0, Processing, 0, Some(11)), map[1 := Batch(Marking), 2 := Batch(Sending)], 11)
  {
    var acts1, s1 := AddedFirst();
    var acts2, s2 := ClaimIt(acts1, s1, 1, map[], 0);
    var acts3, s3 := SentAndSwept(acts2, s2);
    acts, s := ClaimIt(acts3, s3, 2, map[1 := Batch(Marking)], 11);
    Entries(Batch(Marking), 1);
    Entries(Batch(Sending), 1);
    assert Batch(Marking).batch[0].id == 1 && Batch(Sending).batch[0].id == 1;
  }

  lemma SecondFails(acts: seq<Action>, s: State) returns (acts': seq<Action>, s': State)
    requires Reaches(acts, s)
    requires Shows(s, Row(0, Processing, 0, Some(11)), map[1 := Batch(Marking), 2 := Batch(Sending)], 11)
    ensures Reaches(acts', s') && Shows(s', Row(0, Failed, 1, None), map[1 := Batch(Marking)], 11)
  {
    var row, both := Row(0, Processing, 0, Some(11)), map[1 := Batch(Marking), 2 := Batch(Sending)];
    var failing := CanSend(s, 2, false, row, both, 11);
    ReachesNext(acts, s, Publish(2, false), failing);
    s' := CanFail(failing, 2, row, both[2 := Batch(Failing)], 11);
    ReachesNext(acts + [Publish(2, false)], failing, MarkFailed(2, true), s');
    acts' := acts + [Publish(2, false)] + [MarkFailed(2, true)];
    assert both[2 := Batch(Failing)] - {2} == map[1 := Batch(Marking)];
  }

  /** The documentation calls FAILED terminal.  It is not: the second worker ends the row's last
      attempt, and then the first one marks it PUBLISHED. */
  lemma FailedIsNotTerminal() returns (acts: seq<Action>, s: State)
    ensures Reaches(acts, s) && 1 in s.rows && s.rows[1].status == Failed
    ensures var mark := MarkPublished(1, true);
            Enabled(s, mark) && 1 in Next(s, mark).rows && Next(s, mark).rows[1].status == Published
  {
    var before, both := TwoOwners();
    acts, s := SecondFails(before, both);
  }
}
