/** The engine and the outbox workers on one database: a commit adds its journal's outbox row, and
    nothing else does. */
module Delivery {
  import opened Currencies
  import opened Ledger
  import E = Engine
  import S = EngineSafety
  import T = EngineTheorems
  import P = OutboxProtocol
  import opened OutboxTermination
  import opened OutboxSettles

  datatype World = World(engine: E.State, outbox: P.State)

  datatype Move = Books(a: E.Action) | Workers(b: P.Action)

  /** The row a commit adds, under its journal's identifier. */
  function RowFor(w: World, t: nat): P.Action {
    P.Add(t, w.outbox.now)
  }

  ghost predicate CanMove(w: World, m: Move) {
    match m
    case Books(a) => E.Enabled(w.engine, a) && (a.Commit? ==> P.Enabled(w.outbox, RowFor(w, a.t)))
    case Workers(b) => P.Enabled(w.outbox, b) && !b.Add?
  }

  ghost function Moved(w: World, m: Move): World
    requires CanMove(w, m)
  {
    match m
    case Books(a) =>
      World(E.Next(w.engine, a), if a.Commit? then P.Next(w.outbox, RowFor(w, a.t)) else w.outbox)
    case Workers(b) => World(w.engine, P.Next(w.outbox, b))
  }

  ghost function RunMoves(w: World, moves: seq<Move>): Option<World> {
    if moves == [] then Some(w)
    else
      match RunMoves(w, moves[..|moves| - 1])
      case None => None
      case Some(v) => if CanMove(v, moves[|moves| - 1]) then Some(Moved(v, moves[|moves| - 1])) else None
  }

  ghost predicate Starts(w: World) {
    exists ttl: nat, latency: nat, now: int, config: P.Config ::
      0 < config.maxRetries && 0 < config.limit && w == World(E.Initial(ttl, latency, now), P.Initial(config, now))
  }

  ghost predicate Reached(moves: seq<Move>, w: World) {
    exists start :: Starts(start) && RunMoves(start, moves) == Some(w)
  }

  // ---- Each component runs as it would alone ----

  ghost predicate EngineReached(s: E.State) {
    exists acts :: T.Reaches(acts, s)
  }

  ghost predicate OutboxReached(s: P.State) {
    exists acts :: P.Reaches(acts, s)
  }

  lemma EngineStep(s: E.State, a: E.Action)
    requires EngineReached(s) && E.Enabled(s, a)
    ensures EngineReached(E.Next(s, a))
  {
    var acts :| T.Reaches(acts, s);
    var ttl, latency, now :| E.Run(E.Initial(ttl, latency, now), acts) == Some(s);
    assert (acts + [a])[..|acts|] == acts;
    assert E.Run(E.Initial(ttl, latency, now), acts + [a]) == Some(E.Next(s, a));
    assert T.Reaches(acts + [a], E.Next(s, a));
  }

  lemma OutboxStep(s: P.State, a: P.Action)
    requires OutboxReached(s) && P.Enabled(s, a)
    ensures OutboxReached(P.Next(s, a))
  {
    var acts :| P.Reaches(acts, s);
    var none: seq<P.Action> := [];
    assert [a][..0] == none && P.Run(s, none) == Some(s);
    ReachesMore(acts, s, [a], P.Next(s, a));
  }

  lemma StartRuns(w: World)
    requires Starts(w)
    ensures EngineReached(w.engine) && OutboxReached(w.outbox)
  {
    var ttl: nat, latency: nat, now: int, config: P.Config :|
      0 < config.maxRetries && 0 < config.limit && w == World(E.Initial(ttl, latency, now), P.Initial(config, now));
    assert E.Run(E.Initial(ttl, latency, now), []) == Some(w.engine);
    assert T.Reaches([], w.engine);
    assert P.Run(P.Initial(config, now), []) == Some(w.outbox);
    assert P.Reaches([], w.outbox);
  }

  lemma {:induction false} BothRun(moves: seq<Move>, w: World)
    requires Reached(moves, w)
    ensures EngineReached(w.engine) && OutboxReached(w.outbox)
  {
    var start :| Starts(start) && RunMoves(start, moves) == Some(w);
    if moves == [] {
      StartRuns(w);
    } else {
      var prior, m := moves[..|moves| - 1], moves[|moves| - 1];
      var v := RunMoves(start, prior).value;
      assert Reached(prior, v);
      BothRun(prior, v);
      if m.Books? {
        EngineStep(v.engine, m.a);
        if m.a.Commit? { OutboxStep(v.outbox, RowFor(v, m.a.t)); }
      } else {
        OutboxStep(v.outbox, m.b);
      }
    }
  }

  // ---- One row per journal ----

  ghost predicate Journaled(db: Db, id: nat) {
    exists i :: 0 <= i < |db.journals| && db.journals[i].id == id
  }

  /** The outbox table has a row under every committed journal's identifier and no other. */
  ghost predicate Synced(w: World) {
    forall id :: id in w.outbox.rows <==> Journaled(w.engine.db, id)
  }

  lemma JournaledMore(db: Db, db': Db, id: nat)
    requires |db'.journals| == |db.journals| + 1 && db.journals == db'.journals[..|db.journals|]
    ensures Journaled(db', id) <==> Journaled(db, id) || db'.journals[|db.journals|].id == id
  {
    if i :| 0 <= i < |db.journals| && db.journals[i].id == id { assert db'.journals[i].id == id; }
  }

  lemma CommitKeepsSynced(w: World, t: nat)
    requires Synced(w) && CanMove(w, Books(E.Commit(t)))
    ensures Synced(Moved(w, Books(E.Commit(t))))
  {
    var w' := Moved(w, Books(E.Commit(t)));
    S.BooksChange(w.engine, E.Commit(t));
    forall id ensures id in w'.outbox.rows <==> Journaled(w'.engine.db, id) {
      JournaledMore(w.engine.db, w'.engine.db, id);
    }
  }

  lemma RowsStay(s: P.State, b: P.Action)
    requires P.Enabled(s, b) && !b.Add?
    ensures P.Next(s, b).rows.Keys == s.rows.Keys
  {
  }

  lemma MoveKeepsSynced(w: World, m: Move)
    requires Synced(w) && CanMove(w, m)
    ensures Synced(Moved(w, m))
  {
    match m
    case Books(a) => if a.Commit? { CommitKeepsSynced(w, a.t); } else { S.BooksChange(w.engine, a); }
    case Workers(b) => RowsStay(w.outbox, b);
  }

  lemma {:induction false} AlwaysSynced(moves: seq<Move>, w: World)
    requires Reached(moves, w)
    ensures Synced(w)
  {
    var start :| Starts(start) && RunMoves(start, moves) == Some(w);
    if moves != [] {
      var prior := moves[..|moves| - 1];
      var v := RunMoves(start, prior).value;
      assert Reached(prior, v);
      AlwaysSynced(prior, v);
      MoveKeepsSynced(v, moves[|moves| - 1]);
    }
  }

  /** Asking a commit for a free row costs nothing: whatever the engine can do alone, it can do
      beside the workers. */
  lemma CommitNeverCollides(moves: seq<Move>, w: World, t: nat)
    requires Reached(moves, w) && E.Enabled(w.engine, E.Commit(t))
    ensures CanMove(w, Books(E.Commit(t)))
  {
    AlwaysSynced(moves, w);
    BothRun(moves, w);
    RunningCallHasNoJournal(w.engine, t);
  }

  lemma RunningCallHasNoJournal(s: E.State, t: nat)
    requires EngineReached(s) && E.Enabled(s, E.Commit(t))
    ensures !Journaled(s.db, t)
  {
    var acts :| T.Reaches(acts, s);
    T.AlwaysLinked(acts, s);
    forall i | 0 <= i < |s.db.journals| ensures s.db.journals[i].id != t {
      assert T.JournalOwned(s, s.db.journals[i]);
    }
  }

  // ---- Delivery ----

  /** What becomes of a committed journal's event: its row waits or is in progress with attempts
      left, or the broker has accepted it, or it has used up its attempts. */
  ghost predicate EventTracked(w: World, e: Event) {
    && e.journalId in w.outbox.rows
    && var r := w.outbox.rows[e.journalId];
       match r.status
       case Pending => r.retryCount < w.outbox.config.maxRetries
       case Processing => r.retryCount < w.outbox.config.maxRetries
       case Published => e.journalId in w.outbox.acc.accepted
       case Failed => r.retryCount == w.outbox.config.maxRetries
  }

  /** The event was accepted by the broker or is among the dead letters. */
  ghost predicate EventEnded(w: World, e: Event) {
    && e.journalId in w.outbox.rows
    && (w.outbox.rows[e.journalId].status.Failed?
        || (w.outbox.rows[e.journalId].status.Published? && e.journalId in w.outbox.acc.accepted))
  }

  lemma OutboxIsSafe(s: P.State)
    requires OutboxReached(s)
    ensures P.Safe(s)
  {
    var acts :| P.Reaches(acts, s);
    P.OutboxSafe(acts, s);
  }

  lemma EventsAreJournals(s: E.State)
    requires EngineReached(s)
    ensures |s.db.outbox| == |s.db.journals|
    ensures forall i :: 0 <= i < |s.db.outbox| ==> s.db.outbox[i] == EventOf(s.db.journals[i])
  {
    var acts :| T.Reaches(acts, s);
    T.Serializable(acts, s);
  }

  /** In every run of engine and workers together, every committed journal's event is tracked by
      the row under its identifier, whatever workers and sweep do. */
  lemma EveryEventTracked(moves: seq<Move>, w: World, i: nat)
    requires Reached(moves, w) && i < |w.engine.db.outbox|
    ensures EventTracked(w, w.engine.db.outbox[i])
  {
    AlwaysSynced(moves, w);
    BothRun(moves, w);
    OutboxIsSafe(w.outbox);
    EventsAreJournals(w.engine);
    var id := w.engine.db.outbox[i].journalId;
    assert w.engine.db.journals[i].id == id && Journaled(w.engine.db, id);
    assert P.RowSafe(w.outbox, id);
  }

  lemma ReachMore(moves: seq<Move>, w: World, m: Move)
    requires Reached(moves, w) && CanMove(w, m)
    ensures Reached(moves + [m], Moved(w, m))
  {
    var start :| Starts(start) && RunMoves(start, moves) == Some(w);
    assert (moves + [m])[..|moves|] == moves;
  }

  /** The workers can go on by themselves beside a resting engine. */
  lemma {:induction false} PlayWorkers(moves: seq<Move>, w: World, more: seq<P.Action>)
    returns (moves': seq<Move>, w': World)
    requires Reached(moves, w) && P.Run(w.outbox, more).Some?
    requires forall i :: 0 <= i < |more| ==> !more[i].Add?
    ensures Reached(moves', w') && w'.engine == w.engine && P.Run(w.outbox, more) == Some(w'.outbox)
  {
    if more == [] {
      moves', w' := moves, w;
    } else {
      var n := |more| - 1;
      var moves1, w1 := PlayWorkers(moves, w, more[..n]);
      ReachMore(moves1, w1, Workers(more[n]));
      moves', w' := moves1 + [Workers(more[n])], Moved(w1, Workers(more[n]));
    }
  }

  lemma SettlingRun(s: P.State) returns (more: seq<P.Action>)
    requires OutboxReached(s)
    ensures P.Run(s, more).Some? && forall i :: 0 <= i < |more| ==> !more[i].Add?
    ensures forall id :: id in P.Run(s, more).value.rows ==> Finished(P.Run(s, more).value, id)
  {
    var acts :| P.Reaches(acts, s);
    var s';
    more, s' := EveryRowSettles(acts, s);
  }

  /** From any state of engine and workers together, however calls and workers failed before and
      whatever the sweep took, the workers can bring every committed journal's event to its end:
      accepted by the broker or out of attempts. */
  lemma EveryEventEnds(moves: seq<Move>, w: World) returns (moves': seq<Move>, w': World)
    requires Reached(moves, w)
    ensures Reached(moves', w') && w'.engine == w.engine
    ensures forall i :: 0 <= i < |w'.engine.db.outbox| ==> EventEnded(w', w'.engine.db.outbox[i])
  {
    BothRun(moves, w);
    var more := SettlingRun(w.outbox);
    moves', w' := PlayWorkers(moves, w, more);
    forall i | 0 <= i < |w'.engine.db.outbox| ensures EventEnded(w', w'.engine.db.outbox[i]) {
      EveryEventTracked(moves', w', i);
      assert Finished(w'.outbox, w'.engine.db.outbox[i].journalId);
    }
  }
}
