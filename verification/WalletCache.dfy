/** The cache of wallet views in front of the engine: filled by readers, deleted by every
    flow after its commit. */
module WalletCache {
  import opened Currencies
  import opened Ledger
  import opened LedgerFacts
  import opened Engine
  import opened EngineSafety
  import opened EngineTheorems

  // A user's balance rows, as the wallet response lists them.
  type View = map<Slot, int>

  function ViewOf(m: map<Slot, int>, user: nat): View {
    map s | s in m && s.owner == User(user) :: m[s]
  }

  /** A reader that missed the cache, or could not read it, and has read the database; `raced` says
      that a commit of its user has fallen in since. */
  datatype Reader = Reader(user: nat, view: View, raced: bool)

  /** A call that has committed and not yet deleted its user's entry. */
  datatype Deleter = Deleter(t: nat, user: nat)

  /** The engine, the cache, the readers between their read and their cache write, and the calls
      between their commit and their delete.  `spoiled` are the users whose entry a raced reader
      wrote or a failed delete left, until it is deleted, expires or is written again. */
  datatype Cached = Cached(engine: State, cache: map<nat, View>, readers: map<nat, Reader>, deleting: set<Deleter>,
                           spoiled: set<nat>)

  datatype Step =
    | Engine(a: Action)
    | Read(r: nat, user: nat)
    | Store(r: nat, ok: bool)
    | Delete(d: Deleter, ok: bool)
    | Expire(user: nat)

  ghost predicate CanStep(s: Cached, p: Step) {
    match p
    case Engine(a) => Enabled(s.engine, a)
    case Read(r, _) => r !in s.readers
    case Store(r, _) => r in s.readers
    case Delete(d, _) => d in s.deleting
    case Expire(user) => user in s.cache
  }

  function Race(readers: map<nat, Reader>, user: nat): map<nat, Reader> {
    map r | r in readers :: if readers[r].user == user then readers[r].(raced := true) else readers[r]
  }

  ghost function After(s: Cached, p: Step): Cached
    requires CanStep(s, p)
  {
    match p
    case Engine(a) =>
      if a.Commit? then
        var user := s.engine.calls[a.t].req.key.user;
        s.(engine := Next(s.engine, a), readers := Race(s.readers, user), deleting := s.deleting + {Deleter(a.t, user)})
      else s.(engine := Next(s.engine, a))
    case Read(r, user) => s.(readers := s.readers[r := Reader(user, ViewOf(s.engine.db.balances, user), false)])
    case Store(r, ok) =>
      var reader := s.readers[r];
      if ok
      then s.(readers := s.readers - {r}, cache := s.cache[reader.user := reader.view],
              spoiled := if reader.raced then s.spoiled + {reader.user} else s.spoiled - {reader.user})
      else s.(readers := s.readers - {r})
    case Delete(d, ok) =>
      if ok then s.(deleting := s.deleting - {d}, cache := s.cache - {d.user}, spoiled := s.spoiled - {d.user})
      else s.(deleting := s.deleting - {d}, spoiled := s.spoiled + {d.user})
    case Expire(user) => s.(cache := s.cache - {user}, spoiled := s.spoiled - {user})
  }

  function Start(ttlSeconds: nat, latency: nat, now: int): Cached {
    Cached(Initial(ttlSeconds, latency, now), map[], map[], {}, {})
  }

  ghost function RunSteps(s: Cached, steps: seq<Step>): Option<Cached> {
    if steps == [] then Some(s)
    else
      match RunSteps(s, steps[..|steps| - 1])
      case None => None
      case Some(t) => if CanStep(t, steps[|steps| - 1]) then Some(After(t, steps[|steps| - 1])) else None
  }

  // ---- Agreement ----

  /** No flow of this user is between its commit and its delete. */
  predicate Settled(deleting: set<Deleter>, user: nat) {
    forall d :: d in deleting ==> d.user != user
  }

  ghost predicate ReadersAgree(readers: map<nat, Reader>, m: map<Slot, int>) {
    forall r :: r in readers && !readers[r].raced ==> readers[r].view == ViewOf(m, readers[r].user)
  }

  ghost predicate CacheAgrees(cache: map<nat, View>, deleting: set<Deleter>, spoiled: set<nat>, m: map<Slot, int>) {
    forall user :: user in cache && Settled(deleting, user) && user !in spoiled ==> cache[user] == ViewOf(m, user)
  }

  ghost predicate Agrees(s: Cached) {
    && ReadersAgree(s.readers, s.engine.db.balances)
    && CacheAgrees(s.cache, s.deleting, s.spoiled, s.engine.db.balances)
  }

  ghost predicate OnlyUser(m: map<Slot, int>, m': map<Slot, int>, user: nat) {
    forall v :: v != user ==> ViewOf(m', v) == ViewOf(m, v)
  }

  /** A commit leaves every other user's view as it was. */
  lemma CommitKeepsViews(s: State, t: nat)
    requires t in s.calls && CallSound(s, t, s.calls[t]) && CanCommit(s.calls[t])
    ensures OnlyUser(s.db.balances, CommitDb(s.db, t, s.calls[t]).balances, s.calls[t].req.key.user)
  {
    var c := s.calls[t];
    forall slot | slot in c.buffer ensures slot.owner == House || slot.owner == User(c.req.key.user) {
      assert PlannedBelow(c.op.value, |c.seen|, slot);
    }
    forall v | v != c.req.key.user ensures ViewOf(s.db.balances + c.buffer, v) == ViewOf(s.db.balances, v) { }
  }

  lemma RacedReadersAgree(readers: map<nat, Reader>, m: map<Slot, int>, m': map<Slot, int>, user: nat)
    requires ReadersAgree(readers, m) && OnlyUser(m, m', user)
    ensures ReadersAgree(Race(readers, user), m')
  {
  }

  lemma PendingCacheAgrees(cache: map<nat, View>, deleting: set<Deleter>, spoiled: set<nat>, m: map<Slot, int>,
                           m': map<Slot, int>, t: nat, user: nat)
    requires CacheAgrees(cache, deleting, spoiled, m) && OnlyUser(m, m', user)
    ensures CacheAgrees(cache, deleting + {Deleter(t, user)}, spoiled, m')
  {
    forall v | v in cache && Settled(deleting + {Deleter(t, user)}, v) && v !in spoiled
      ensures cache[v] == ViewOf(m', v)
    {
      assert Deleter(t, user) in deleting + {Deleter(t, user)};
      assert Settled(deleting, v);
    }
  }

  lemma EngineKeepsAgrees(s: Cached, a: Action)
    requires Agrees(s) && Inv(s.engine) && CanStep(s, Engine(a))
    ensures Agrees(After(s, Engine(a)))
  {
    BooksChange(s.engine, a);
    if a.Commit? {
      var m, user := s.engine.db.balances, s.engine.calls[a.t].req.key.user;
      assert CallSound(s.engine, a.t, s.engine.calls[a.t]);
      CommitKeepsViews(s.engine, a.t);
      var m' := CommitDb(s.engine.db, a.t, s.engine.calls[a.t]).balances;
      RacedReadersAgree(s.readers, m, m', user);
      PendingCacheAgrees(s.cache, s.deleting, s.spoiled, m, m', a.t, user);
    }
  }

  /** A delete drops the very entry it makes accountable, or leaves it spoiled. */
  lemma DeleteKeepsAgrees(s: Cached, d: Deleter, ok: bool)
    requires Agrees(s) && d in s.deleting
    ensures Agrees(After(s, Delete(d, ok)))
  {
    var s' := After(s, Delete(d, ok));
    forall user | user in s'.cache && Settled(s'.deleting, user) && user !in s'.spoiled
      ensures s'.cache[user] == ViewOf(s.engine.db.balances, user)
    {
      forall e | e in s.deleting ensures e.user != user { assert e == d || e in s.deleting - {d}; }
      assert Settled(s.deleting, user);
    }
  }

  lemma StepKeepsAgrees(s: Cached, p: Step)
    requires Agrees(s) && Inv(s.engine) && CanStep(s, p)
    ensures Agrees(After(s, p)) && Inv(After(s, p).engine)
  {
    match p
    case Engine(a) =>
      NextKeepsInv(s.engine, a);
      EngineKeepsAgrees(s, a);
    case Delete(d, ok) => DeleteKeepsAgrees(s, d, ok);
    case Read(_, _) =>
    case Store(_, _) =>
    case Expire(_) =>
  }

  lemma {:induction false} AlwaysAgrees(ttl: nat, latency: nat, now: int, steps: seq<Step>)
    requires RunSteps(Start(ttl, latency, now), steps).Some?
    ensures var s := RunSteps(Start(ttl, latency, now), steps).value; Agrees(s) && Inv(s.engine)
  {
    if steps == [] {
      assert Run(Initial(ttl, latency, now), []) == Some(Initial(ttl, latency, now));
      assert Reaches([], Initial(ttl, latency, now));
      Serializable([], Initial(ttl, latency, now));
    } else {
      AlwaysAgrees(ttl, latency, now, steps[..|steps| - 1]);
      StepKeepsAgrees(RunSteps(Start(ttl, latency, now), steps[..|steps| - 1]).value, steps[|steps| - 1]);
    }
  }

  /** A user none of whose flows is between commit and delete finds in the cache nothing or exactly
      the committed balances, whatever the flows and readers of all users do, unless the entry was
      written by a reader that a commit of the user had overtaken, or outlived a failed delete. */
  lemma CachedViewIsCommitted(ttl: nat, latency: nat, now: int, steps: seq<Step>, user: nat)
    requires RunSteps(Start(ttl, latency, now), steps).Some?
    ensures var s := RunSteps(Start(ttl, latency, now), steps).value;
            user in s.cache && Settled(s.deleting, user) && user !in s.spoiled ==>
              s.cache[user] == ViewOf(s.engine.db.balances, user)
  {
    AlwaysAgrees(ttl, latency, now, steps);
  }

  /** A commit between a reader's read and its cache write is enough to break it: even with
      the delete done, the write puts back what the commit has just made wrong. */
  lemma RaceLeavesStale(s: Cached, t: nat, r: nat)
    requires Agrees(s) && Inv(s.engine) && r in s.readers && !s.readers[r].raced
    requires CanStep(s, Engine(Commit(t))) && s.engine.calls[t].req.key.user == s.readers[r].user
    requires Settled(s.deleting, s.readers[r].user)
    ensures var user := s.readers[r].user;
            var committed := After(s, Engine(Commit(t)));
            var d := Deleter(t, user);
            CanStep(committed, Delete(d, true)) &&
            var deleted := After(committed, Delete(d, true));
            CanStep(deleted, Store(r, true)) &&
            var stored := After(deleted, Store(r, true));
            Settled(stored.deleting, user) && user in stored.cache
            && stored.cache[user] != ViewOf(stored.engine.db.balances, user)
  {
    var user, committed := s.readers[r].user, After(s, Engine(Commit(t)));
    CommitRaces(s, t, r);
    CommitChangesView(s.engine, t);
    DeleteThenStore(committed, Deleter(t, user), r);
  }

  /** Every commit changes its user's view: all flows move the user's first row. */
  lemma CommitChangesView(s: State, t: nat)
    requires Inv(s) && Enabled(s, Commit(t))
    ensures var user := s.calls[t].req.key.user;
            ViewOf(CommitDb(s.db, t, s.calls[t]).balances, user) != ViewOf(s.db.balances, user)
  {
    var op, m := s.calls[t].op.value, s.db.balances;
    assert CallSound(s, t, s.calls[t]);
    CommitIsBook(s, t);
    PlanDistinct(op);
    PutAt(m, Plan(op), Afters(op, Befores(m, op)), |Plan(op)|, 0);
    AfterAt(m, op, 0);
    MovedRowShows(m, Book(s.db, t, op).balances, Plan(op)[0], op.key.user);
  }

  lemma MovedRowShows(m: map<Slot, int>, m': map<Slot, int>, slot: Slot, user: nat)
    requires slot.owner == User(user) && slot in m' && Amount(m', slot) != Amount(m, slot)
    ensures ViewOf(m', user) != ViewOf(m, user)
  {
    assert slot in ViewOf(m', user) && ViewOf(m', user)[slot] == m'[slot];
    if slot in m { assert slot in ViewOf(m, user) && ViewOf(m, user)[slot] == m[slot]; }
  }

  lemma CommitRaces(s: Cached, t: nat, r: nat)
    requires Agrees(s) && r in s.readers && !s.readers[r].raced
    requires CanStep(s, Engine(Commit(t))) && s.engine.calls[t].req.key.user == s.readers[r].user
    ensures var user := s.readers[r].user; var s' := After(s, Engine(Commit(t)));
            && r in s'.readers && s'.readers[r] == Reader(user, ViewOf(s.engine.db.balances, user), true)
            && s'.deleting == s.deleting + {Deleter(t, user)}
            && s'.engine.db.balances == CommitDb(s.engine.db, t, s.engine.calls[t]).balances
  {
    BooksChange(s.engine, Commit(t));
  }

  lemma DeleteThenStore(s: Cached, d: Deleter, r: nat)
    requires d in s.deleting && r in s.readers && s.readers[r].user == d.user && Settled(s.deleting - {d}, d.user)
    ensures CanStep(s, Delete(d, true)) &&
            var deleted := After(s, Delete(d, true));
            CanStep(deleted, Store(r, true)) &&
            var stored := After(deleted, Store(r, true));
            Settled(stored.deleting, d.user) && d.user in stored.cache && stored.cache[d.user] == s.readers[r].view
            && stored.engine == s.engine
  {
  }
}
