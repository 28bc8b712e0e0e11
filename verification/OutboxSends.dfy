/** How often a row goes to the broker: never more often than it was claimed. */
module OutboxSends {
  import opened Currencies
  import opened Outbox
  import opened OutboxProtocol

  /** The i-th entry of a worker's batch is still to be sent. */
  predicate ToSend(me: Worker, i: int) {
    me.Working? && 0 <= i < |me.batch| && (me.at < i || (me.at == i && me.phase == Sending))
  }

  ghost predicate StillToSend(me: Worker, id: nat) {
    exists i :: ToSend(me, i) && me.batch[i].id == id
  }

  /** The workers that have claimed the row and not yet sent it. */
  ghost function Unsent(workers: map<nat, Worker>, id: nat): set<nat> {
    set w | w in workers && StillToSend(workers[w], id)
  }

  /** Each claim is good for one send: those made, and those still to come. */
  ghost predicate SendsPaid(s: State, id: nat)
    requires id in s.acc.claims && id in s.acc.sends
  {
    s.acc.sends[id] + |Unsent(s.workers, id)| <= s.acc.claims[id]
  }

  ghost predicate SendsSound(s: State) {
    && Safe(s)
    && (forall id :: id in s.rows ==> SendsPaid(s, id))
  }

  /** Moving on leaves no entry to be sent that was not to be sent before. */
  lemma AdvanceUnsent(workers: map<nat, Worker>, w: nat, id: nat)
    requires w in workers && workers[w].Working?
    ensures Unsent(Advance(workers, w), id) <= Unsent(workers, id)
  {
    var left := Advance(workers, w);
    forall v | v in Unsent(left, id) ensures v in Unsent(workers, id) {
      var i :| ToSend(left[v], i) && left[v].batch[i].id == id;
      assert ToSend(workers[v], i);
    }
  }

  lemma PhaseUnsent(workers: map<nat, Worker>, w: nat, phase: Phase, id: nat)
    requires w in workers && workers[w].Working? && phase != Sending
    ensures Unsent(SetPhase(workers, w, phase), id) <= Unsent(workers, id)
  {
    var after := SetPhase(workers, w, phase);
    forall v | v in Unsent(after, id) ensures v in Unsent(workers, id) {
      var i :| ToSend(after[v], i) && after[v].batch[i].id == id;
      assert ToSend(workers[v], i);
    }
  }

  /** Claiming adds the claimer for the rows of its batch. */
  lemma ClaimUnsent(workers: map<nat, Worker>, w: nat, batch: seq<Entry>, id: nat)
    ensures var after := workers[w := Working(batch, 0, Sending)];
            Unsent(after, id) <= Unsent(workers, id) + if id in IdsOf(batch) then {w} else {}
  {
    var after := workers[w := Working(batch, 0, Sending)];
    forall v | v in Unsent(after, id) ensures v in Unsent(workers, id) + if id in IdsOf(batch) then {w} else {} {
      var i :| ToSend(after[v], i) && after[v].batch[i].id == id;
    }
  }

  /** Sending an entry takes its worker off the row's list. */
  lemma PublishUnsent(workers: map<nat, Worker>, w: nat, phase: Phase, id: nat)
    requires w in workers && workers[w].Working? && workers[w].at < |workers[w].batch|
    requires workers[w].phase == Sending && phase != Sending && Distinct(workers[w].batch)
    ensures workers[w].batch[workers[w].at].id == id ==>
              w in Unsent(workers, id) && Unsent(SetPhase(workers, w, phase), id) <= Unsent(workers, id) - {w}
    ensures Unsent(SetPhase(workers, w, phase), id) <= Unsent(workers, id)
  {
    PhaseUnsent(workers, w, phase, id);
    var me := workers[w];
    if me.batch[me.at].id == id {
      assert ToSend(me, me.at);
      var after := SetPhase(workers, w, phase);
      forall v | v in Unsent(after, id) ensures v != w {
        var i :| ToSend(after[v], i) && after[v].batch[i].id == id;
      }
    }
  }

  lemma SmallerSize(a: set<nat>, b: set<nat>)
    requires a <= b
    ensures |a| <= |b|
  {
    assert b == a + (b - a);
  }

  /** Dropping workers, or a worker that only selects, adds nothing to send. */
  lemma FewerUnsent(workers: map<nat, Worker>, after: map<nat, Worker>, id: nat)
    requires forall w :: w in after ==> (w in workers && after[w] == workers[w]) || after[w].Selecting?
    ensures Unsent(after, id) <= Unsent(workers, id)
  {
  }

  /** No step but a claim adds to a row's list, and a send takes its worker off it. */
  lemma NextUnsent(s: State, a: Action, id: nat)
    requires SendsSound(s) && Enabled(s, a)
    ensures !a.Claim? && !a.Publish? ==> Unsent(NextWorkers(s, a), id) <= Unsent(s.workers, id)
  {
    match a
    case Select(_, _) => FewerUnsent(s.workers, NextWorkers(s, a), id);
    case Cancel(_) => FewerUnsent(s.workers, NextWorkers(s, a), id);
    case Crash(_) => FewerUnsent(s.workers, NextWorkers(s, a), id);
    case MarkPublished(w, ok) =>
      if ok { AdvanceUnsent(s.workers, w, id); } else { PhaseUnsent(s.workers, w, Failing, id); }
    case MarkFailed(w, ok) =>
      if ok { AdvanceUnsent(s.workers, w, id); } else { FewerUnsent(s.workers, NextWorkers(s, a), id); }
    case Claim(_, _) =>
    case Publish(_, _) =>
    case Tick(_) =>
    case Add(_, _) =>
    case Sweep =>
  }

  lemma NewRowUnsent(s: State, id: nat)
    requires Safe(s) && id !in s.rows
    ensures Unsent(s.workers, id) == {}
  {
    forall w | w in s.workers ensures !StillToSend(s.workers[w], id) { assert WorkerSafe(s, w); }
  }

  /** What a step adds to a row's claims and sends. */
  lemma NextCounts(s: State, a: Action, id: nat)
    requires Enabled(s, a) && id in s.acc.claims && id in s.acc.sends && (a.Add? ==> a.id != id)
    ensures var acc := NextAccounts(s, a);
            && id in acc.claims && id in acc.sends
            && acc.claims[id] == s.acc.claims[id] + (if a.Claim? && id in s.workers[a.w].ids then 1 else 0)
            && acc.sends[id] == s.acc.sends[id] + (if a.Publish? && Current(s, a.w).id == id then 1 else 0)
  {
  }

  lemma NextKeepsPaid(s: State, a: Action, id: nat)
    requires SendsSound(s) && Enabled(s, a) && id in NextRows(s, a)
    ensures id in NextAccounts(s, a).claims && id in NextAccounts(s, a).sends
    ensures NextAccounts(s, a).sends[id] + |Unsent(NextWorkers(s, a), id)| <= NextAccounts(s, a).claims[id]
  {
    if id in s.rows {
      assert SendsPaid(s, id);
      NextCounts(s, a, id);
      match a {
        case Claim(w, batch) =>
          ClaimUnsent(s.workers, w, batch, id);
          SmallerSize(Unsent(NextWorkers(s, a), id), Unsent(s.workers, id) + if id in IdsOf(batch) then {w} else {});
        case Publish(w, ok) =>
          PublishUnsent(s.workers, w, if ok then Marking else Failing, id);
          SmallerSize(Unsent(NextWorkers(s, a), id),
                      Unsent(s.workers, id) - if Current(s, w).id == id then {w} else {});
        case _ =>
          NextUnsent(s, a, id);
          SmallerSize(Unsent(NextWorkers(s, a), id), Unsent(s.workers, id));
      }
    } else {
      NewRowUnsent(s, id);
    }
  }

  lemma {:induction false} AlwaysSendsSound(acts: seq<Action>, s: State)
    requires Reaches(acts, s)
    ensures SendsSound(s)
  {
    var config: Config, now: int :|
      0 < config.maxRetries && 0 < config.limit && Run(Initial(config, now), acts) == Some(s);
    OutboxSafe(acts, s);
    if acts != [] {
      var prior, a := acts[..|acts| - 1], acts[|acts| - 1];
      var p := Run(Initial(config, now), prior).value;
      assert Reaches(prior, p);
      AlwaysSendsSound(prior, p);
      forall id | id in s.rows ensures SendsPaid(s, id) { NextKeepsPaid(p, a, id); }
    }
  }

  /** Whatever the sweep does, a row goes to the broker at most once per claim; and one it never took
      from a live worker at most maxRetries times plus once per recovery. */
  lemma SendsBounded(acts: seq<Action>, s: State, id: nat)
    requires Reaches(acts, s) && id in s.rows
    ensures id in s.acc.sends && id in s.acc.claims && id in s.acc.recoveries
    ensures s.acc.sends[id] <= s.acc.claims[id]
    ensures id !in s.sweptLive ==> s.acc.sends[id] <= s.config.maxRetries + s.acc.recoveries[id]
  {
    AlwaysSendsSound(acts, s);
    assert SendsPaid(s, id);
    if id !in s.sweptLive { ClaimsBounded(acts, s, id); }
  }
}
