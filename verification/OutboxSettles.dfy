/** Every row of the outbox can be brought to its end, from anywhere the workers, their crashes
    and the sweep may have led. */
module OutboxSettles {
  import opened Currencies
  import opened Outbox
  import opened OutboxProtocol
  import opened OutboxTermination

  // ---- Runs that go on ----

  /** A run followed by a run is a run. */
  lemma {:induction false} RunJoins(s: State, first: seq<Action>, next: seq<Action>, middle: State)
    requires Run(s, first) == Some(middle) && Run(middle, next).Some?
    ensures Run(s, first + next) == Run(middle, next)
    decreases |next|
  {
    if next == [] {
      assert first + next == first;
    } else {
      var n := |next| - 1;
      RunJoins(s, first, next[..n], middle);
      assert (first + next)[..|first + next| - 1] == first + next[..n];
    }
  }

  lemma ReachesMore(acts: seq<Action>, s: State, more: seq<Action>, s': State)
    requires Reaches(acts, s) && Run(s, more) == Some(s')
    ensures Reaches(acts + more, s')
  {
    var config: Config, now: int :|
      0 < config.maxRetries && 0 < config.limit && Run(Initial(config, now), acts) == Some(s);
    RunJoins(Initial(config, now), acts, more, s);
  }

  /** The run goes on from one safe state to another, and adds no row. */
  ghost predicate GoesOn(s: State, more: seq<Action>, s': State) {
    && Run(s, more) == Some(s') && Safe(s') && s'.config == s.config && s'.rows.Keys == s.rows.Keys
    && forall i :: 0 <= i < |more| ==> !more[i].Add?
  }

  lemma GoesNowhere(s: State)
    requires Safe(s)
    ensures GoesOn(s, [], s)
  {
  }

  lemma GoesOnBy(s: State, a: Action)
    requires Safe(s) && Enabled(s, a) && !a.Add?
    ensures GoesOn(s, [a], Next(s, a))
  {
    var none: seq<Action> := [];
    assert [a][..0] == none && Run(s, none) == Some(s);
    NextKeepsSafe(s, a);
    RowsStayThese(s, a);
  }

  lemma GoesOnTwice(s: State, first: seq<Action>, middle: State, next: seq<Action>, s': State)
    requires GoesOn(s, first, middle) && GoesOn(middle, next, s')
    ensures GoesOn(s, first + next, s')
  {
    RunJoins(s, first, next, middle);
  }

  // ---- Claims in progress give up ----

  /** Nobody is in the middle of a claim. */
  ghost predicate AllWorking(s: State) {
    forall w :: w in s.workers ==> s.workers[w].Working?
  }

  lemma LockerSelects(s: State, id: nat)
    requires Safe(s) && id in s.locked
    ensures s.locked[id] in s.workers && s.workers[s.locked[id]].Selecting?
  {
    assert LockSafe(s, id);
  }

  lemma NothingLocked(s: State)
    requires Safe(s) && AllWorking(s)
    ensures s.locked == map[]
  {
    if id :| id in s.locked { LockerSelects(s, id); }
  }

  ghost predicate KeepsWorking(s: State, s': State) {
    forall w :: w in s.workers && s.workers[w].Working? ==> w in s'.workers && s'.workers[w] == s.workers[w]
  }

  lemma KeepsWorkingTwice(s: State, middle: State, s': State)
    requires KeepsWorking(s, middle) && KeepsWorking(middle, s')
    ensures KeepsWorking(s, s')
  {
  }

  lemma CancelOne(s: State, w: nat) returns (s': State)
    requires Safe(s) && w in s.workers && s.workers[w].Selecting?
    ensures GoesOn(s, [Cancel(w)], s') && s'.rows == s.rows && KeepsWorking(s, s')
    ensures s'.workers.Keys < s.workers.Keys
  {
    GoesOnBy(s, Cancel(w));
    s' := Next(s, Cancel(w));
    assert w in s.workers.Keys && w !in (s.workers - {w}).Keys;
  }

  lemma {:induction false} CancelAll(s: State) returns (more: seq<Action>, s': State)
    requires Safe(s)
    ensures GoesOn(s, more, s') && AllWorking(s') && s'.rows == s.rows && KeepsWorking(s, s')
    decreases s.workers.Keys
  {
    if w :| w in s.workers && s.workers[w].Selecting? {
      var next := CancelOne(s, w);
      var rest, end := CancelAll(next);
      GoesOnTwice(s, [Cancel(w)], next, rest, end);
      KeepsWorkingTwice(s, next, end);
      more, s' := [Cancel(w)] + rest, end;
    } else {
      GoesNowhere(s);
      more, s' := [], s;
    }
  }

  // ---- A worker at work finishes its batch ----

  /** The i-th entry is still to be done, and may still come to be published. */
  predicate MayPublish(me: Worker, i: int) {
    me.Working? && me.at <= i < |me.batch| && (me.at < i || me.phase != Failing)
  }

  /** What one entry's end does to the table. */
  ghost predicate EntryDone(s: State, w: nat, s': State)
    requires w in s.workers && s.workers[w].Working? && s.workers[w].at < |s.workers[w].batch|
  {
    && AllWorking(s') && s'.workers == Advance(s.workers, w)
    && Current(s, w).id in s'.rows
    && (s.workers[w].phase != Failing ==> s'.rows[Current(s, w).id].status == Published)
    && (forall id :: id in s.rows && id != Current(s, w).id ==> id in s'.rows && s'.rows[id] == s.rows[id])
  }

  /** The worker's current entry, done without failing again. */
  lemma FinishEntry(s: State, w: nat) returns (more: seq<Action>, s': State)
    requires Safe(s) && AllWorking(s) && w in s.workers
    ensures s.workers[w].Working? && s.workers[w].at < |s.workers[w].batch|
    ensures GoesOn(s, more, s') && EntryDone(s, w, s')
  {
    NothingLocked(s);
    assert WorkerSafe(s, w);
    match s.workers[w].phase
    case Sending =>
      SendShape(s, w);
      GoesOnBy(s, Publish(w, true));
      var sent := Next(s, Publish(w, true));
      NothingLocked(sent);
      assert WorkerSafe(sent, w);
      MarkShape(sent, w);
      GoesOnBy(sent, MarkPublished(w, true));
      s' := Next(sent, MarkPublished(w, true));
      more := [Publish(w, true)] + [MarkPublished(w, true)];
      GoesOnTwice(s, [Publish(w, true)], sent, [MarkPublished(w, true)], s');
      SameAdvance(s.workers, w, Marking);
    case Marking =>
      MarkShape(s, w);
      GoesOnBy(s, MarkPublished(w, true));
      more, s' := [MarkPublished(w, true)], Next(s, MarkPublished(w, true));
    case Failing =>
      FailShape(s, w);
      GoesOnBy(s, MarkFailed(w, true));
      more, s' := [MarkFailed(w, true)], Next(s, MarkFailed(w, true));
  }

  lemma SendShape(s: State, w: nat)
    requires AllWorking(s) && Busy(s, w, Sending)
    ensures var s' := Next(s, Publish(w, true));
            && s'.workers == SetPhase(s.workers, w, Marking) && s'.rows == s.rows && AllWorking(s')
            && Busy(s', w, Marking) && Current(s', w) == Current(s, w)
  {
  }

  lemma MarkShape(s: State, w: nat)
    requires AllWorking(s) && Busy(s, w, Marking) && s.locked == map[] && WorkerSafe(s, w)
    ensures EntryDone(s, w, Next(s, MarkPublished(w, true)))
  {
  }

  lemma FailShape(s: State, w: nat)
    requires AllWorking(s) && Busy(s, w, Failing) && s.locked == map[] && WorkerSafe(s, w)
    ensures EntryDone(s, w, Next(s, MarkFailed(w, true)))
  {
  }

  lemma SameAdvance(workers: map<nat, Worker>, w: nat, phase: Phase)
    requires w in workers && workers[w].Working?
    ensures Advance(SetPhase(workers, w, phase), w) == Advance(workers, w)
  {
  }

  /** What the end of a worker's batch leaves. */
  ghost predicate BatchDone(s: State, w: nat, s': State)
    requires w in s.workers && s.workers[w].Working?
  {
    && AllWorking(s') && s'.workers == s.workers - {w}
    && (forall id :: id in s.rows && id !in Remaining(s.workers[w]) ==> id in s'.rows && s'.rows[id] == s.rows[id])
    && (forall i :: MayPublish(s.workers[w], i) ==>
          s.workers[w].batch[i].id in s'.rows && s'.rows[s.workers[w].batch[i].id].status == Published)
  }

  lemma {:induction false} FinishBatch(s: State, w: nat) returns (more: seq<Action>, s': State)
    requires Safe(s) && AllWorking(s) && w in s.workers
    ensures GoesOn(s, more, s') && BatchDone(s, w, s')
    decreases |s.workers[w].batch| - s.workers[w].at
  {
    var first, next := FinishEntry(s, w);
    if w in next.workers {
      NextEntry(s, w, next);
      var rest, end := FinishBatch(next, w);
      GoesOnTwice(s, first, next, rest, end);
      more, s' := first + rest, end;
      BatchLater(s, w, next, s');
    } else {
      LastEntry(s, w, next);
      more, s' := first, next;
    }
  }

  lemma NextEntry(s: State, w: nat, next: State)
    requires w in s.workers && s.workers[w].Working? && s.workers[w].at < |s.workers[w].batch|
    requires EntryDone(s, w, next) && w in next.workers
    ensures next.workers[w].Working? && next.workers[w].batch == s.workers[w].batch
    ensures next.workers[w].at == s.workers[w].at + 1
  {
  }

  lemma LastEntry(s: State, w: nat, next: State)
    requires w in s.workers && WorkerSafe(s, w) && s.workers[w].Working? && EntryDone(s, w, next)
    requires w !in next.workers
    ensures BatchDone(s, w, next)
  {
    AdvanceDrops(s.workers, w);
  }

  lemma BatchLater(s: State, w: nat, next: State, s': State)
    requires w in s.workers && WorkerSafe(s, w) && s.workers[w].Working? && EntryDone(s, w, next) && w in next.workers
    requires next.rows.Keys == s.rows.Keys && BatchDone(next, w, s')
    ensures BatchDone(s, w, s')
  {
    AdvanceDrops(s.workers, w);
    var me := s.workers[w];
    forall i | MayPublish(me, i) ensures me.batch[i].id in s'.rows && s'.rows[me.batch[i].id].status == Published {
      if i > me.at {
        assert MayPublish(next.workers[w], i);
      } else {
        assert Current(s, w).id !in Remaining(next.workers[w]);
      }
    }
  }

  lemma {:induction false} FinishAll(s: State) returns (more: seq<Action>, s': State)
    requires Safe(s) && AllWorking(s)
    ensures GoesOn(s, more, s') && s'.workers == map[]
    decreases s.workers.Keys
  {
    if w :| w in s.workers {
      var first, next := FinishBatch(s, w);
      assert w in s.workers.Keys && next.workers.Keys == s.workers.Keys - {w};
      var rest, end := FinishAll(next);
      GoesOnTwice(s, first, next, rest, end);
      more, s' := first + rest, end;
    } else {
      GoesNowhere(s);
      more, s' := [], s;
    }
  }

  // ---- The claims of the dead go stale and are swept ----

  lemma {:induction false} LatestClaim(rows: Table, ids: set<nat>) returns (latest: int)
    requires ids <= rows.Keys
    ensures forall id :: id in ids && rows[id].claimedAt.Some? ==> rows[id].claimedAt.value <= latest
    decreases |ids|
  {
    latest := 0;
    if ids != {} {
      var id :| id in ids;
      latest := LatestClaim(rows, ids - {id});
      if rows[id].claimedAt.Some? && latest < rows[id].claimedAt.value { latest := rows[id].claimedAt.value; }
    }
  }

  /** Nobody is at work and no row is in progress. */
  ghost predicate AtRest(s: State) {
    s.workers == map[] && forall id :: id in s.rows ==> s.rows[id].status != Processing
  }

  lemma TickOnlyWaits(s: State, ms: nat)
    ensures Next(s, Tick(ms)) == s.(now := s.now + ms)
  {
  }

  lemma SweepFreesAll(s: State)
    requires Safe(s) && s.workers == map[]
    requires forall id :: id in s.rows && s.rows[id].claimedAt.Some? ==>
               s.rows[id].claimedAt.value < s.now - s.config.staleAfter
    ensures AtRest(Next(s, Sweep))
  {
    forall id | id in s.rows ensures NextRows(s, Sweep)[id].status != Processing { assert RowSafe(s, id); }
  }

  lemma WaitAndSweep(s: State) returns (more: seq<Action>, s': State)
    requires Safe(s) && s.workers == map[]
    ensures GoesOn(s, more, s') && AtRest(s')
  {
    var latest := LatestClaim(s.rows, s.rows.Keys);
    var wait := latest + s.config.staleAfter + 1 - s.now;
    var ms: nat := if wait > 0 then wait else 0;
    TickOnlyWaits(s, ms);
    GoesOnBy(s, Tick(ms));
    var later := Next(s, Tick(ms));
    SweepFreesAll(later);
    GoesOnBy(later, Sweep);
    GoesOnTwice(s, [Tick(ms)], later, [Sweep], Next(later, Sweep));
    more, s' := [Tick(ms)] + [Sweep], Next(later, Sweep);
  }

  // ---- What is pending is published, batch by batch ----

  ghost function PendingRows(s: State): set<nat> {
    set id | id in s.rows && s.rows[id].status == Pending
  }

  lemma SelectAlone(s: State) returns (s': State, ids: set<nat>)
    requires Safe(s) && AtRest(s) && PendingRows(s) != {}
    ensures GoesOn(s, [Select(0, ids)], s') && ids != {} && ids <= PendingRows(s)
    ensures s'.rows == s.rows && s'.workers == map[0 := Selecting(ids)]
  {
    NothingLocked(s);
    assert Claimable(s.rows, s.locked.Keys) == PendingRows(s);
    ids := BatchExists(s.rows, s.locked.Keys, s.config.limit);
    assert ids != {};
    SelectShape(s, ids);
    GoesOnBy(s, Select(0, ids));
    s' := Next(s, Select(0, ids));
  }

  /** What one claim alone leaves: its worker at the start of a batch of these rows. */
  ghost predicate Claimed(s: State, ids: set<nat>, s': State) {
    && s'.workers.Keys == {0} && s'.workers[0].Working? && s'.workers[0].at == 0 && s'.workers[0].phase == Sending
    && Remaining(s'.workers[0]) == ids == IdsOf(s'.workers[0].batch)
    && forall id :: id in s.rows && id !in ids ==> id in s'.rows && s'.rows[id] == s.rows[id]
  }

  lemma ClaimSelected(s: State, ids: set<nat>) returns (a: Action, s': State)
    requires Safe(s) && s.workers == map[0 := Selecting(ids)]
    ensures GoesOn(s, [a], s') && Claimed(s, ids, s')
  {
    assert WorkerSafe(s, 0);
    var batch := SomeBatch(s.rows, ids);
    a := Claim(0, batch);
    ClaimShape(s, batch);
    GoesOnBy(s, a);
    s' := Next(s, a);
  }

  /** A worker by itself claims the oldest batch. */
  lemma ClaimAlone(s: State) returns (more: seq<Action>, s': State, ids: set<nat>)
    requires Safe(s) && AtRest(s) && PendingRows(s) != {}
    ensures GoesOn(s, more, s') && ids != {} && ids <= PendingRows(s) && Claimed(s, ids, s')
  {
    var chosen, a;
    chosen, ids := SelectAlone(s);
    a, s' := ClaimSelected(chosen, ids);
    GoesOnTwice(s, [Select(0, ids)], chosen, [a], s');
    more := [Select(0, ids)] + [a];
  }

  lemma SelectShape(s: State, ids: set<nat>)
    requires Enabled(s, Select(0, ids)) && s.workers == map[]
    ensures var s' := Next(s, Select(0, ids)); s'.rows == s.rows && s'.workers == map[0 := Selecting(ids)]
  {
  }

  lemma ClaimShape(s: State, batch: seq<Entry>)
    requires s.workers.Keys == {0} && Enabled(s, Claim(0, batch))
    ensures var s' := Next(s, Claim(0, batch)); var ids := s.workers[0].ids;
            && s'.workers == map[0 := Working(batch, 0, Sending)] && Remaining(s'.workers[0]) == ids == IdsOf(batch)
            && forall id :: id in s.rows && id !in ids ==> id in s'.rows && s'.rows[id] == s.rows[id]
  {
    assert Remaining(Working(batch, 0, Sending)) == IdsOf(batch);
  }

  lemma PublishBatch(s: State) returns (more: seq<Action>, s': State)
    requires Safe(s) && AtRest(s) && PendingRows(s) != {}
    ensures GoesOn(s, more, s') && AtRest(s') && PendingRows(s') < PendingRows(s)
  {
    var first, claimed, ids := ClaimAlone(s);
    var rest, end := FinishBatch(claimed, 0);
    GoesOnTwice(s, first, claimed, rest, end);
    more, s' := first + rest, end;
    BatchPublished(s, ids, claimed, end);
  }

  lemma BatchPublished(s: State, ids: set<nat>, claimed: State, s': State)
    requires AtRest(s) && ids != {} && ids <= PendingRows(s) && Claimed(s, ids, claimed) && BatchDone(claimed, 0, s')
    requires s'.rows.Keys == s.rows.Keys
    ensures AtRest(s') && PendingRows(s') < PendingRows(s)
  {
    var batch := claimed.workers[0].batch;
    forall id | id in ids ensures id in s'.rows && s'.rows[id].status == Published {
      var i :| 0 <= i < |batch| && batch[i].id == id;
      assert MayPublish(claimed.workers[0], i);
    }
    assert s'.workers.Keys == {};
    var one :| one in ids;
    assert one in PendingRows(s) && one !in PendingRows(s');
  }

  lemma {:induction false} PublishAll(s: State) returns (more: seq<Action>, s': State)
    requires Safe(s) && AtRest(s)
    ensures GoesOn(s, more, s') && AtRest(s') && PendingRows(s') == {}
    decreases PendingRows(s)
  {
    if PendingRows(s) == {} {
      GoesNowhere(s);
      more, s' := [], s;
    } else {
      var first, next := PublishBatch(s);
      var rest, end := PublishAll(next);
      GoesOnTwice(s, first, next, rest, end);
      more, s' := first + rest, end;
    }
  }

  /** Whatever crashed, failed, was cancelled or was swept from under a live worker on the way, the
      run can be continued so that every row is published or out of attempts: claims in progress
      give up, the workers finish, the claims of the dead go stale and are swept, and what is
      pending is published. */
  lemma EveryRowSettles(acts: seq<Action>, s: State) returns (more: seq<Action>, s': State)
    requires Reaches(acts, s)
    ensures Reaches(acts + more, s') && GoesOn(s, more, s')
    ensures forall id :: id in s'.rows ==> Finished(s', id)
  {
    OutboxSafe(acts, s);
    var m1, s1 := CancelAll(s);
    var m2, s2 := FinishAll(s1);
    var m3, s3 := WaitAndSweep(s2);
    var m4, s4 := PublishAll(s3);
    GoesOnTwice(s, m1, s1, m2, s2);
    GoesOnTwice(s, m1 + m2, s2, m3, s3);
    GoesOnTwice(s, m1 + m2 + m3, s3, m4, s4);
    more, s' := m1 + m2 + m3 + m4, s4;
    ReachesMore(acts, s, more, s');
    forall id | id in s'.rows ensures Finished(s', id) { assert id !in PendingRows(s'); }
  }

  // ---- Where the workers stop by themselves ----

  /** Nothing is left but finished rows and what dead workers left behind. */
  ghost predicate Drained(s: State) {
    forall id :: id in s.rows ==> Finished(s, id) || id in s.abandoned
  }

  /** A worker can always take a step, if only one that fails. */
  lemma WorkersMove(s: State, w: nat) returns (a: Action)
    requires Safe(s) && w in s.workers
    ensures Enabled(s, a) && WorkerStep(a) && !a.Crash?
  {
    assert WorkerSafe(s, w);
    if s.workers[w].Selecting? {
      var batch := SomeBatch(s.rows, s.workers[w].ids);
      a := Claim(w, batch);
    } else {
      a := match s.workers[w].phase
        case Sending => Publish(w, false)
        case Marking => MarkPublished(w, false)
        case Failing => MarkFailed(w, false);
    }
  }

  /** When no worker can take a step any more but crash, all rows are finished but for those dead
      workers left behind.  While no live claim is swept the workers do get there, since each of
      their steps lowers a rank. */
  lemma StuckIsDrained(acts: seq<Action>, s: State)
    requires Reaches(acts, s)
    requires forall a :: WorkerStep(a) && !a.Crash? ==> !Enabled(s, a)
    ensures Drained(s)
  {
    AlwaysSound(acts, s);
    if w :| w in s.workers {
      var a := WorkersMove(s, w);
      assert false;
    }
    NothingLocked(s);
    forall id | id in s.rows ensures Finished(s, id) || id in s.abandoned {
      if s.rows[id].status == Pending {
        assert id in Claimable(s.rows, s.locked.Keys);
        var ids := BatchExists(s.rows, s.locked.Keys, s.config.limit);
        assert Enabled(s, Select(0, ids));
        assert false;
      }
      assert Tended(s, id);
    }
  }
}
