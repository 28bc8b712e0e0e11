/** The per-user lease: mutual exclusion while it lasts, and what it adds to safety. */
module Leases {
  import opened Currencies
  import opened Ledger
  import opened LedgerFacts
  import opened Engine
  import opened EngineSafety
  import opened EngineTheorems

  // Inside the locked section, from getting the lease to having an answer.
  predicate Critical(c: Call) {
    c.stage in {Leased, Open, Posting, RolledBack}
  }

  // A call inside the section whose user's lease has never lapsed.
  predicate Guarded(s: State, t: nat) {
    t in s.calls && Critical(s.calls[t]) && s.calls[t].req.key.user !in s.lapsed
  }

  predicate Funding(c: Call) {
    c.req.FundReq? && c.op.Some?
  }

  /** Whoever is in the section has the lease, and a funding call that passed its second
      look-up still has a fresh key, as long as no lease of its user has lapsed. */
  ghost predicate LeaseSound(s: State) {
    && (forall t :: Guarded(s, t) ==> HasLease(s, t))
    && (forall t :: Guarded(s, t) && Funding(s.calls[t]) ==> KeyFresh(s.db, s.calls[t].req.key))
  }

  lemma LeaseShape(s: State, a: Action)
    requires Enabled(s, a) && !a.Lapse? && !a.Release? && !a.Quotes?
    ensures var s' := Next(s, a);
            && a.t in s'.calls && s'.calls == s.calls[a.t := s'.calls[a.t]] && s'.lapsed == s.lapsed
            && (a.t in s.calls ==> s'.calls[a.t].req == s.calls[a.t].req)
            && (s'.leases == s.leases || Acquires(s, a, s'))
            && (Critical(s'.calls[a.t]) ==> a.t in s.calls && (Critical(s.calls[a.t]) || a.Acquire?))
            && (s'.db.journals == s.db.journals || a.Commit?)
  {
  }

  ghost predicate Acquires(s: State, a: Action, s': State) {
    && a.Acquire? && a.t in s'.calls
    && var user := s'.calls[a.t].req.key.user;
       user !in s.leases && s'.leases == s.leases[user := a.t]
  }

  lemma FundKeyShape(s: State, a: Action)
    requires Enabled(s, a) && !a.Lapse? && !a.Release? && !a.Quotes? && BooksSound(s.db)
    ensures var s' := Next(s, a);
            Critical(s'.calls[a.t]) && Funding(s'.calls[a.t]) ==>
              s'.db.journals == s.db.journals &&
              ((a.t in s.calls && Critical(s.calls[a.t]) && Funding(s.calls[a.t]))
               || KeyFresh(s'.db, s'.calls[a.t].req.key)
               || (a.Acquire? && s.calls[a.t].op.Some?))
  {
    if a.Recheck? { LookupTells(s.db, s.calls[a.t].req.key); }
  }

  /** A funding request has no operation before it holds the lease. */
  ghost predicate FundUnpriced(s: State) {
    forall t :: t in s.calls ==> Unpriced(s.calls[t])
  }

  predicate Unpriced(c: Call) {
    Funding(c) ==> Critical(c) || c.stage.Done?
  }

  lemma NextKeepsUnpriced(s: State, a: Action)
    requires FundUnpriced(s) && Enabled(s, a)
    ensures FundUnpriced(Next(s, a))
  {
    forall t | t in Next(s, a).calls ensures Unpriced(Next(s, a).calls[t]) {
      if t in s.calls { assert Unpriced(s.calls[t]); }
    }
  }

  lemma StepKeepsHolders(s: State, a: Action)
    requires LeaseSound(s) && Enabled(s, a) && !a.Lapse? && !a.Release? && !a.Quotes?
    ensures forall t :: Guarded(Next(s, a), t) ==> HasLease(Next(s, a), t)
  {
    var s' := Next(s, a);
    LeaseShape(s, a);
    forall t | Guarded(s', t) ensures HasLease(s', t) {
      if Guarded(s, t) { assert HasLease(s, t); }
    }
  }

  lemma OneInside(s: State, t: nat, u: nat)
    requires LeaseSound(s) && Guarded(s, t) && u in s.calls && Critical(s.calls[u])
    ensures s.calls[u].req.key.user == s.calls[t].req.key.user ==> u == t
  {
    assert HasLease(s, t);
    assert Guarded(s, u) ==> HasLease(s, u);
  }

  /** Another user's commit does not use this user's key, and this user has only one call in
      the section. */
  lemma CommitSparesFunding(s: State, a: Action, t: nat)
    requires LeaseSound(s) && Enabled(s, a) && a.Commit? && CallSound(s, a.t, s.calls[a.t])
    requires t != a.t && Guarded(s, t) && KeyFresh(s.db, s.calls[t].req.key)
    ensures KeyFresh(Next(s, a).db, s.calls[t].req.key)
  {
    var j := Next(s, a).db.journals[|s.db.journals|];
    assert j.key == s.calls[a.t].req.key;
    OneInside(s, t, a.t);
  }

  lemma StepKeepsFunding(s: State, a: Action, t: nat)
    requires BooksSound(s.db) && LeaseSound(s) && FundUnpriced(s) && Enabled(s, a)
    requires !a.Lapse? && !a.Release? && !a.Quotes?
    requires a.t in s.calls ==> CallSound(s, a.t, s.calls[a.t])
    requires Guarded(Next(s, a), t) && Funding(Next(s, a).calls[t])
    ensures KeyFresh(Next(s, a).db, Next(s, a).calls[t].req.key)
  {
    LeaseShape(s, a);
    if t == a.t {
      FundKeyShape(s, a);
      if t in s.calls && Critical(s.calls[t]) { assert Guarded(s, t); }
    } else {
      assert Guarded(s, t);
      if a.Commit? { CommitSparesFunding(s, a, t); }
    }
  }

  lemma StepKeepsLeaseSound(s: State, a: Action)
    requires Inv(s) && LeaseSound(s) && FundUnpriced(s) && Enabled(s, a) && !a.Lapse? && !a.Release? && !a.Quotes?
    ensures LeaseSound(Next(s, a))
  {
    var s' := Next(s, a);
    StepKeepsHolders(s, a);
    if a.t in s.calls { assert CallSound(s, a.t, s.calls[a.t]); }
    forall t | Guarded(s', t) && Funding(s'.calls[t]) ensures KeyFresh(s'.db, s'.calls[t].req.key) {
      StepKeepsFunding(s, a, t);
    }
  }

  /** Giving up a lease, losing one, and quotes coming and going leave the other users' calls
      as they were. */
  lemma LeaseLossKeepsLeaseSound(s: State, a: Action)
    requires LeaseSound(s) && Enabled(s, a) && (a.Lapse? || a.Release? || a.Quotes?)
    ensures LeaseSound(Next(s, a))
  {
    var s' := Next(s, a);
    LeaseStepShape(s, a);
    forall t | Guarded(s', t)
      ensures HasLease(s', t)
      ensures Funding(s'.calls[t]) ==> KeyFresh(s'.db, s'.calls[t].req.key)
    {
      assert Guarded(s, t) && HasLease(s, t);
    }
  }

  lemma {:induction false} AlwaysLeaseSound(acts: seq<Action>, s: State)
    requires Reaches(acts, s)
    ensures FundUnpriced(s) && LeaseSound(s)
  {
    var ttl, latency, now :| Run(Initial(ttl, latency, now), acts) == Some(s);
    if acts != [] {
      var prior := acts[..|acts| - 1];
      var a, p := acts[|acts| - 1], Run(Initial(ttl, latency, now), prior).value;
      assert Reaches(prior, p);
      AlwaysLeaseSound(prior, p);
      Serializable(prior, p);
      NextKeepsUnpriced(p, a);
      if a.Lapse? || a.Release? || a.Quotes? { LeaseLossKeepsLeaseSound(p, a); } else { StepKeepsLeaseSound(p, a); }
    }
  }

  /** Until a lease of theirs lapses, no two calls of a user are in the locked section together. */
  lemma LeaseExcludes(acts: seq<Action>, s: State, t: nat, u: nat)
    requires Reaches(acts, s)
    requires t in s.calls && u in s.calls && Critical(s.calls[t]) && Critical(s.calls[u])
    requires s.calls[t].req.key.user == s.calls[u].req.key.user && s.calls[t].req.key.user !in s.lapsed
    ensures t == u
  {
    AlwaysLeaseSound(acts, s);
    OneInside(s, t, u);
  }

  /** Until a lease of its user lapses, a funding call that has its rows never collides on its
      key: nothing in the database stops it from writing its journal.  So same-key funding
      calls that get through answer with the one journal instead of failing. */
  lemma FundNeverCollides(acts: seq<Action>, s: State, t: nat)
    requires Reaches(acts, s)
    requires t in s.calls && s.calls[t].req.FundReq? && s.calls[t].stage == Open && InTransaction(s.calls[t])
    requires s.calls[t].req.key.user !in s.lapsed
    requires |s.calls[t].seen| == |Plan(s.calls[t].op.value)|
    ensures Enabled(s, Record(t))
  {
    AlwaysLeaseSound(acts, s);
    MachineNumbersExact(acts, s, t);
    Serializable(acts, s);
    var key := s.calls[t].op.value.key;
    assert CallSound(s, t, s.calls[t]) && Guarded(s, t);
    if key in s.keys {
      KeyHolderIsMe(s, t, key);
    }
  }

  lemma KeyHolderIsMe(s: State, t: nat, key: BookKey)
    requires LeaseSound(s) && Guarded(s, t) && key.user == s.calls[t].req.key.user
    requires key in s.keys && KeyOwned(s, key) && CallSound(s, s.keys[key], s.calls[s.keys[key]])
    ensures s.keys[key] == t
  {
    OneInside(s, t, s.keys[key]);
  }
}
