/** The outbox table, the statements that run on it, and one processor working through it. */
module Outbox {
  import opened Currencies
  import opened Sums

  datatype RowStatus = Pending | Processing | Published | Failed

  datatype Row = Row(createdAt: int, status: RowStatus, retryCount: nat, claimedAt: Option<int>)

  type Table = map<nat, Row>

  /** A claimed row as the processor remembers it. */
  datatype Entry = Entry(id: nat, retryCount: nat)

  // ---- The statements as functions on the table ----

  function ClaimRows(rows: Table, ids: set<nat>, now: int): Table {
    map id | id in rows :: if id in ids then rows[id].(status := Processing, claimedAt := Some(now)) else rows[id]
  }

  function PublishRow(rows: Table, id: nat): Table {
    if id in rows then rows[id := rows[id].(status := Published, claimedAt := None)] else rows
  }

  function FailRow(rows: Table, id: nat, retryCount: nat, maxRetries: nat): Table {
    if id in rows
    then rows[id := rows[id].(status := if retryCount >= maxRetries then Failed else Pending,
                              retryCount := retryCount, claimedAt := None)]
    else rows
  }

  predicate Stale(r: Row, now: int, staleAfter: int) {
    r.status == Processing && r.claimedAt.Some? && r.claimedAt.value < now - staleAfter
  }

  function RecoverRows(rows: Table, now: int, staleAfter: int): Table {
    map id | id in rows :: if Stale(rows[id], now, staleAfter)
      then rows[id].(status := Pending, claimedAt := None) else rows[id]
  }

  /** The rows a claim may take: pending and not locked by another claim. */
  function Claimable(rows: Table, locked: set<nat>): set<nat> {
    set id | id in rows && rows[id].status == Pending && id !in locked
  }

  /** A batch is full, or takes all there is; what it leaves is no older than what it takes. */
  predicate OldestFirst(rows: Table, locked: set<nat>, limit: nat, ids: set<nat>) {
    && ids <= Claimable(rows, locked) && |ids| <= limit
    && (|ids| < limit ==> ids == Claimable(rows, locked))
    && forall a, b :: a in ids && b in Claimable(rows, locked) - ids ==> rows[a].createdAt <= rows[b].createdAt
  }

  lemma OldestExists(rows: Table, s: set<nat>) returns (id: nat)
    requires s != {} && s <= rows.Keys
    ensures id in s && forall b :: b in s ==> rows[id].createdAt <= rows[b].createdAt
    decreases |s|
  {
    id :| id in s;
    if s != {id} {
      var best := OldestExists(rows, s - {id});
      if rows[best].createdAt < rows[id].createdAt { id := best; }
    }
  }

  lemma {:induction false} BatchExists(rows: Table, locked: set<nat>, limit: nat) returns (ids: set<nat>)
    ensures OldestFirst(rows, locked, limit, ids)
    decreases limit
  {
    if limit == 0 {
      ids := {};
    } else {
      ids := BatchExists(rows, locked, limit - 1);
      if ids != Claimable(rows, locked) {
        var rest := Claimable(rows, locked) - ids;
        assert rest != {};
        var next := OldestExists(rows, rest);
        ids := ids + {next};
      }
    }
  }

  // ---- One processor ----

  /** What happens to one claimed entry: it is sent and marked; it is not sent; it is sent
      but marking it fails; or recording the failure fails too, which ends the batch. */
  datatype Outcome = Sent | NotSent | SentUnmarked | Broken

  function Settle(rows: Table, e: Entry, o: Outcome, maxRetries: nat): Table {
    match o
    case Sent => PublishRow(rows, e.id)
    case NotSent => FailRow(rows, e.id, e.retryCount + 1, maxRetries)
    case SentUnmarked => FailRow(rows, e.id, e.retryCount + 1, maxRetries)
    case Broken => rows
  }

  /** The table after the first n entries of a batch, which ends early when one breaks. */
  function SettleAll(rows: Table, batch: seq<Entry>, outcomes: seq<Outcome>, maxRetries: nat, n: nat): Table
    requires n <= |batch| <= |outcomes|
  {
    if n == 0 then rows
    else if Broken in outcomes[..n - 1] then SettleAll(rows, batch, outcomes, maxRetries, n - 1)
    else Settle(SettleAll(rows, batch, outcomes, maxRetries, n - 1), batch[n - 1], outcomes[n - 1], maxRetries)
  }

  /** The entry's row was pending and unlocked, and is now claimed as of this moment; the entry has its
      retry count. */
  predicate Claimed(before: Table, after: Table, locked: set<nat>, e: Entry, now: int) {
    && e.id in before && e.id !in locked && before[e.id].status == Pending && e.retryCount == before[e.id].retryCount
    && e.id in after && after[e.id] == Row(before[e.id].createdAt, Processing, e.retryCount, Some(now))
  }

  /** A row that could have been claimed and was not. */
  predicate LeftBehind(rows: Table, locked: set<nat>, batch: seq<Entry>, id: nat) {
    id in rows && rows[id].status == Pending && id !in locked && id !in IdsOf(batch)
  }

  lemma OthersYounger(rows: Table, locked: set<nat>, limit: nat, batch: seq<Entry>, id: nat)
    requires OldestFirst(rows, locked, limit, IdsOf(batch)) && |IdsOf(batch)| == |batch|
    requires LeftBehind(rows, locked, batch, id)
    ensures |batch| == limit
    ensures forall i :: 0 <= i < |batch| ==> batch[i].id in rows && rows[batch[i].id].createdAt <= rows[id].createdAt
  {
    assert id in Claimable(rows, locked) - IdsOf(batch);
    forall i | 0 <= i < |batch| ensures batch[i].id in rows && rows[batch[i].id].createdAt <= rows[id].createdAt {
      assert batch[i].id in IdsOf(batch);
    }
  }

  lemma BatchClaimed(rows: Table, locked: set<nat>, batch: seq<Entry>, now: int)
    requires IdsOf(batch) <= Claimable(rows, locked)
    requires forall i :: 0 <= i < |batch| ==>
               batch[i].id in rows && batch[i].retryCount == rows[batch[i].id].retryCount
    ensures var after := ClaimRows(rows, IdsOf(batch), now);
            && after.Keys == rows.Keys && (forall id :: id in rows && id !in IdsOf(batch) ==> after[id] == rows[id])
            && forall i :: 0 <= i < |batch| ==> Claimed(rows, after, locked, batch[i], now)
  {
    forall i | 0 <= i < |batch| ensures batch[i].id in Claimable(rows, locked) { assert batch[i].id in IdsOf(batch); }
  }

  class OutboxService {
    var rows: Table

    constructor ()
      ensures rows == map[]
    {
      rows := map[];
    }

    method AddToOutbox(id: nat, createdAt: int)
      requires id !in rows
      modifies this
      ensures rows == old(rows)[id := Row(createdAt, Pending, 0, None)]
    {
      rows := rows[id := Row(createdAt, Pending, 0, None)];
    }

    /** The rows of a set, as entries. */
    method Returning(ids: set<nat>) returns (batch: seq<Entry>)
      requires ids <= rows.Keys
      ensures IdsOf(batch) == ids && |batch| == |ids|
      ensures forall i :: 0 <= i < |batch| ==>
          batch[i].id in rows && batch[i].retryCount == rows[batch[i].id].retryCount
    {
      batch := [];
      var rest := ids;
      while rest != {}
        invariant rest <= ids && IdsOf(batch) == ids - rest && |batch| == |ids| - |rest|
        invariant forall i :: 0 <= i < |batch| ==>
            batch[i].id in rows && batch[i].retryCount == rows[batch[i].id].retryCount
        decreases |rest|
      {
        var id :| id in rest;
        IdsOfAppend(batch, Entry(id, rows[id].retryCount));
        batch := batch + [Entry(id, rows[id].retryCount)];
        rest := rest - {id};
      }
    }

    /** Flip the oldest pending rows nobody else is claiming to PROCESSING and return them. */
    method ClaimPendingEntries(limit: nat, now: int, locked: set<nat>) returns (batch: seq<Entry>)
      modifies this
      ensures OldestFirst(old(rows), locked, limit, IdsOf(batch)) && |IdsOf(batch)| == |batch|
      ensures rows == ClaimRows(old(rows), IdsOf(batch), now)
      ensures forall i :: 0 <= i < |batch| ==> Claimed(old(rows), rows, locked, batch[i], now)
      ensures |batch| <= limit
      ensures forall id :: LeftBehind(old(rows), locked, batch, id) ==>
          |batch| == limit
          && forall i :: 0 <= i < |batch| ==>
               batch[i].id in old(rows) && old(rows)[batch[i].id].createdAt <= old(rows)[id].createdAt
      ensures rows.Keys == old(rows).Keys
      ensures forall id :: id in rows && id !in IdsOf(batch) ==> rows[id] == old(rows)[id]
    {
      ghost var some := BatchExists(rows, locked, limit);
      var ids: set<nat> :| ids <= Claimable(rows, locked) && OldestFirst(rows, locked, limit, ids);
      batch := Returning(ids);
      BatchClaimed(rows, locked, batch, now);
      forall id | LeftBehind(rows, locked, batch, id)
        ensures |batch| == limit
        ensures forall i :: 0 <= i < |batch| ==>
                  batch[i].id in rows && rows[batch[i].id].createdAt <= rows[id].createdAt
      {
        OthersYounger(rows, locked, limit, batch, id);
      }
      rows := ClaimRows(rows, ids, now);
    }

    method RecoverStuckEntries(staleAfter: int, now: int) returns (recovered: nat)
      modifies this
      ensures rows == RecoverRows(old(rows), now, staleAfter)
      ensures rows.Keys == old(rows).Keys
      ensures forall id :: id in rows ==>
          var row := old(rows)[id];
          rows[id] == if row.status == Processing && row.claimedAt.Some? && row.claimedAt.value < now - staleAfter
                      then Row(row.createdAt, Pending, row.retryCount, None) else row
      ensures recovered == |set id | id in rows && rows[id] != old(rows)[id]|
    {
      var stuck := set id | id in rows && Stale(rows[id], now, staleAfter);
      recovered := |stuck|;
      rows := RecoverRows(rows, now, staleAfter);
      assert stuck == set id | id in rows && rows[id] != old(rows)[id];
    }

    method MarkPublished(id: nat)
      modifies this
      ensures rows == PublishRow(old(rows), id)
      ensures id !in old(rows) ==> rows == old(rows)
      ensures id in old(rows) ==>
          rows == old(rows)[id := Row(old(rows)[id].createdAt, Published, old(rows)[id].retryCount, None)]
    {
      if id in rows {
        rows := rows[id := rows[id].(status := Published, claimedAt := None)];
      }
    }

    method MarkFailed(id: nat, retryCount: nat, maxRetries: nat)
      modifies this
      ensures rows == FailRow(old(rows), id, retryCount, maxRetries)
      ensures id !in old(rows) ==> rows == old(rows)
      ensures id in old(rows) ==>
          rows == old(rows)[id := Row(old(rows)[id].createdAt, if retryCount < maxRetries then Pending else Failed,
                                      retryCount, None)]
    {
      var exhausted := retryCount >= maxRetries;
      if id in rows {
        rows := rows[id := rows[id].(status := if exhausted then Failed else Pending,
                                     retryCount := retryCount, claimedAt := None)];
      }
    }
  }

  function IdsOf(batch: seq<Entry>): set<nat> {
    set i | 0 <= i < |batch| :: batch[i].id
  }

  lemma IdsOfAppend(batch: seq<Entry>, e: Entry)
    ensures IdsOf(batch + [e]) == IdsOf(batch) + {e.id}
  {
    forall x ensures x in IdsOf(batch + [e]) <==> x in IdsOf(batch) + {e.id} {
      if i :| 0 <= i < |batch| && batch[i].id == x { assert (batch + [e])[i].id == x; }
      if x == e.id { assert (batch + [e])[|batch|].id == x; }
    }
  }

  // ---- Polling until nothing is left ----

  /** No claim is open and every pending row has attempts left. */
  ghost predicate Restful(rows: Table, maxRetries: nat) {
    forall id :: id in rows ==>
      rows[id].status != Processing && (rows[id].status == Pending ==> rows[id].retryCount < maxRetries)
  }

  function AttemptsLeft(r: Row, maxRetries: nat): int {
    if r.status == Pending || r.status == Processing then maxRetries - r.retryCount else 0
  }

  ghost function AttemptMap(rows: Table, maxRetries: nat): map<nat, int> {
    map id | id in rows :: AttemptsLeft(rows[id], maxRetries)
  }

  ghost predicate Distinct(batch: seq<Entry>) {
    forall i, j :: 0 <= i < j < |batch| ==> batch[i].id != batch[j].id
  }

  lemma {:induction false} FullSizeDistinct(batch: seq<Entry>)
    requires |IdsOf(batch)| == |batch|
    ensures Distinct(batch)
  {
    if batch != [] {
      var n := |batch| - 1;
      assert batch == batch[..n] + [batch[n]];
      IdsOfAppend(batch[..n], batch[n]);
      IdsOfSize(batch[..n]);
      if batch[n].id in IdsOf(batch[..n]) { SetPlusMember(IdsOf(batch[..n]), batch[n].id); }
      FullSizeDistinct(batch[..n]);
      forall i, j | 0 <= i < j < |batch| ensures batch[i].id != batch[j].id {
        if j == n { assert batch[..n][i].id in IdsOf(batch[..n]); }
        else { assert batch[..n][i].id != batch[..n][j].id; }
      }
    }
  }

  lemma SetPlusMember(s: set<nat>, x: nat)
    requires x in s
    ensures s + {x} == s
  {
  }

  lemma {:induction false} IdsOfSize(batch: seq<Entry>)
    ensures |IdsOf(batch)| <= |batch|
  {
    if batch != [] {
      var n := |batch| - 1;
      assert batch == batch[..n] + [batch[n]];
      IdsOfAppend(batch[..n], batch[n]);
      IdsOfSize(batch[..n]);
    }
  }

  /** An unbroken batch settles each of its rows once and touches no other. */
  lemma {:induction false} SettledOnce(rows: Table, batch: seq<Entry>, outcomes: seq<Outcome>, maxRetries: nat, n: nat,
                                       id: nat)
    requires n <= |batch| <= |outcomes| && Broken !in outcomes && Distinct(batch) && id in rows
    ensures var after := SettleAll(rows, batch, outcomes, maxRetries, n);
            && after.Keys == rows.Keys
            && ((forall i :: 0 <= i < n ==> batch[i].id != id) ==> after[id] == rows[id])
            && (forall i :: 0 <= i < n && batch[i].id == id ==>
                  after[id] == (if outcomes[i] == Sent then PublishRow(rows, id)
                                else FailRow(rows, id, batch[i].retryCount + 1, maxRetries))[id])
    decreases n
  {
    if n > 0 {
      SettledOnce(rows, batch, outcomes, maxRetries, n - 1, id);
      forall x | x in rows ensures x in SettleAll(rows, batch, outcomes, maxRetries, n - 1) {
        SettledOnce(rows, batch, outcomes, maxRetries, n - 1, x);
      }
    }
  }

  lemma BatchSettles(rows: Table, after: Table, batch: seq<Entry>, outcomes: seq<Outcome>, maxRetries: nat, now: int,
                     id: nat)
    requires Restful(rows, maxRetries) && Broken !in outcomes && |batch| <= |outcomes| && Distinct(batch)
    requires forall i :: 0 <= i < |batch| ==>
      batch[i].id in rows && rows[batch[i].id].status == Pending && batch[i].retryCount == rows[batch[i].id].retryCount
    requires after == SettleAll(ClaimRows(rows, IdsOf(batch), now), batch, outcomes, maxRetries, |batch|) && id in rows
    ensures after.Keys == rows.Keys
    ensures after[id].status != Processing && (after[id].status == Pending ==> after[id].retryCount < maxRetries)
    ensures AttemptsLeft(after[id], maxRetries)
         <= AttemptsLeft(rows[id], maxRetries) + if id in IdsOf(batch) then -1 else 0
  {
    SettledOnce(ClaimRows(rows, IdsOf(batch), now), batch, outcomes, maxRetries, |batch|, id);
    if id in IdsOf(batch) {
      var i :| 0 <= i < |batch| && batch[i].id == id;
    }
  }

  /** One unbroken poll leaves no claim open and uses up an attempt of every row it took. */
  lemma PollSettles(rows: Table, after: Table, batch: seq<Entry>, outcomes: seq<Outcome>, maxRetries: nat, now: int,
                    limit: nat)
    requires Restful(rows, maxRetries) && Broken !in outcomes && |batch| <= |outcomes| && 0 < limit
    requires OldestFirst(rows, {}, limit, IdsOf(batch)) && |IdsOf(batch)| == |batch|
    requires forall i :: 0 <= i < |batch| ==> batch[i].id in rows && batch[i].retryCount == rows[batch[i].id].retryCount
    requires after == SettleAll(ClaimRows(rows, IdsOf(batch), now), batch, outcomes, maxRetries, |batch|)
    ensures Restful(after, maxRetries) && after.Keys == rows.Keys
    ensures 0 <= Sum(AttemptMap(after, maxRetries)) <= Sum(AttemptMap(rows, maxRetries)) - |batch|
    ensures batch == [] ==> forall id :: id in after ==> after[id].status != Pending
  {
    FullSizeDistinct(batch);
    forall i | 0 <= i < |batch| ensures rows[batch[i].id].status == Pending { assert batch[i].id in IdsOf(batch); }
    forall id | id in rows
      ensures after.Keys == rows.Keys
      ensures after[id].status != Processing && (after[id].status == Pending ==> after[id].retryCount < maxRetries)
      ensures AttemptsLeft(after[id], maxRetries)
           <= AttemptsLeft(rows[id], maxRetries) + if id in IdsOf(batch) then -1 else 0
    {
      BatchSettles(rows, after, batch, outcomes, maxRetries, now, id);
    }
    SettleKeys(ClaimRows(rows, IdsOf(batch), now), batch, outcomes, maxRetries, |batch|);
    SumShift(AttemptMap(rows, maxRetries), AttemptMap(after, maxRetries), IdsOf(batch), -1);
    AttemptsNotNegative(after, maxRetries);
    if batch == [] {
      assert IdsOf(batch) == {} == Claimable(rows, {});
      forall id | id in rows ensures rows[id].status != Pending { assert id !in Claimable(rows, {}); }
    }
  }

  lemma {:induction false} SettleKeys(rows: Table, batch: seq<Entry>, outcomes: seq<Outcome>, maxRetries: nat, n: nat)
    requires n <= |batch| <= |outcomes|
    ensures SettleAll(rows, batch, outcomes, maxRetries, n).Keys == rows.Keys
  {
    if n > 0 { SettleKeys(rows, batch, outcomes, maxRetries, n - 1); }
  }

  lemma AttemptsNotNegative(rows: Table, maxRetries: nat)
    requires Restful(rows, maxRetries)
    ensures 0 <= Sum(AttemptMap(rows, maxRetries))
  {
    SumNonNegative(AttemptMap(rows, maxRetries));
  }

  predicate Unbroken(outcomes: seq<Outcome>, n: nat) {
    |outcomes| == n && Broken !in outcomes
  }

  class OutboxProcessor {
    const service: OutboxService
    const maxRetries: nat
    const batchSize: nat

    constructor (service: OutboxService, maxRetries: nat, batchSize: nat)
      ensures this.service == service && this.maxRetries == maxRetries && this.batchSize == batchSize
    {
      this.service := service;
      this.maxRetries := maxRetries;
      this.batchSize := batchSize;
    }

    /** One entry: sent and marked published, or else an attempt is used up.  The broker's answer,
        and the database's to the one mark and the other, decide; when the failure cannot be
        recorded either, the error ends the batch. */
    method PublishEntry(e: Entry, accepted: bool, marked: bool, recorded: bool) returns (broken: bool)
      modifies service
      ensures accepted && marked ==> service.rows == PublishRow(old(service.rows), e.id)
      ensures !(accepted && marked) && recorded ==>
          service.rows == FailRow(old(service.rows), e.id, e.retryCount + 1, maxRetries)
      ensures broken <==> !(accepted && marked) && !recorded
      ensures broken ==> service.rows == old(service.rows)
    {
      broken := false;
      var published := false;
      if accepted {
        if marked {
          service.MarkPublished(e.id);
          published := true;
        }
      }
      if !published {
        var retryCount := e.retryCount + 1;
        if recorded {
          service.MarkFailed(e.id, retryCount, maxRetries);
        } else {
          broken := true;
        }
      }
    }

    /** One poll: claim a batch and publish its entries one after the other. */
    method ProcessOutbox(now: int, locked: set<nat>, outcomes: seq<Outcome>) returns (batch: seq<Entry>)
      requires batchSize <= |outcomes|
      modifies service
      ensures OldestFirst(old(service.rows), locked, batchSize, IdsOf(batch)) && |IdsOf(batch)| == |batch| <= |outcomes|
      ensures forall i :: 0 <= i < |batch| ==>
          batch[i].id in old(service.rows) && batch[i].retryCount == old(service.rows)[batch[i].id].retryCount
      ensures service.rows
           == SettleAll(ClaimRows(old(service.rows), IdsOf(batch), now), batch, outcomes, maxRetries, |batch|)
    {
      batch := service.ClaimPendingEntries(batchSize, now, locked);
      ghost var claimed := service.rows;
      if |batch| == 0 {
        return;
      }
      var broken := false;
      for i := 0 to |batch|
        invariant service.rows == SettleAll(claimed, batch, outcomes, maxRetries, i)
        invariant broken <==> Broken in outcomes[..i]
      {
        if !broken {
          var o := outcomes[i];
          broken := PublishEntry(batch[i], o == Sent || o == SentUnmarked, o == Sent, o != Broken);
        }
        assert outcomes[..i + 1] == outcomes[..i] + [outcomes[i]];
      }
    }

    /** Polling again and again, whatever the broker answers in each round, ends with every row
        published or out of attempts. */
    method PollUntilSettled(answers: nat -> seq<Outcome>, clock: nat -> int)
      requires Restful(service.rows, maxRetries) && 0 < batchSize
      requires forall n: nat :: Unbroken(answers(n), batchSize)
      modifies service
      ensures service.rows.Keys == old(service.rows.Keys)
      ensures forall id :: id in service.rows ==> service.rows[id].status in {Published, Failed}
    {
      var more, round: nat := true, 0;
      while more
        invariant Restful(service.rows, maxRetries) && service.rows.Keys == old(service.rows.Keys)
        invariant !more ==> forall id :: id in service.rows ==> service.rows[id].status != Pending
        decreases Sum(AttemptMap(service.rows, maxRetries)), more
      {
        ghost var before := service.rows;
        assert Unbroken(answers(round), batchSize);
        var batch := ProcessOutbox(clock(round), {}, answers(round));
        PollSettles(before, service.rows, batch, answers(round), maxRetries, clock(round), batchSize);
        more := |batch| > 0;
        round := round + 1;
      }
    }
  }
}
