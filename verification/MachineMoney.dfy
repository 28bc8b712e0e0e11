/** The arithmetic the services really do, in doubles or big integers as each flow has it,
    and why the books never notice the difference. */
module MachineMoney {
  import opened Doubles
  import opened Ledger
  import opened LedgerFacts

  /** Funding and conversion read a balance as a double and add in doubles; a trade adds in
      big integers and converts the result. */
  function MachineAfter(op: Op, i: nat, read: int): int
    requires i < |Plan(op)|
  {
    if op.Trade? then Number(read + Deltas(op)[i]) else Number(Number(read) + Deltas(op)[i])
  }

  function MachineAmount(op: Op, amount: int): int {
    if op.Trade? then Number(amount) else amount
  }

  /** The balance checks: the user's sold balance first, the house's paid one last. */
  predicate Refuses(op: Op, i: nat, read: int)
    requires i < |Plan(op)|
  {
    match op
    case Fund(_, _, amount) => i == 1 && Number(Number(read) - amount) < 0
    case Convert(_, _, _, amount, converted, _, _) =>
      (i == 0 && Number(read) < amount) || (i == 3 && Number(Number(read) - converted) < 0)
    case Trade(_, q) => (i == 0 && read < q.amountIn) || (i == 3 && read - q.amountOut < 0)
  }

  function MachineBefores(seen: seq<int>): (b: seq<int>)
    ensures |b| == |seen|
  {
    seq(|seen|, i requires 0 <= i < |seen| => Number(seen[i]))
  }

  function MachineAfters(op: Op, seen: seq<int>): (a: seq<int>)
    requires |seen| == |Plan(op)|
    ensures |a| == |seen|
  {
    seq(|seen|, i requires 0 <= i < |seen| => MachineAfter(op, i, seen[i]))
  }

  function MachineLegs(op: Op, seen: seq<int>): seq<Leg>
    requires |seen| == |Plan(op)|
  {
    LegsOf(op, MachineAmount(op, AmountIn(op)), MachineAmount(op, AmountOut(op)),
           MachineBefores(seen), MachineAfters(op, seen))
  }

  // A bigint column with a CHECK that it is not negative.
  predicate Storable(n: int) {
    0 <= n < 0x8000_0000_0000_0000
  }

  predicate LegStorable(l: Leg) {
    0 < l.amount && Storable(l.amount) && Storable(l.before) && Storable(l.after)
  }

  /** On conserved books the machine's checks pass exactly when nobody is overdrawn. */
  lemma ChecksAreExact(m: map<Slot, int>, op: Op, i: nat)
    requires Conserved(m) && ValidOp(op) && i < |Plan(op)|
    ensures Refuses(op, i, Befores(m, op)[i]) <==> Afters(op, Befores(m, op))[i] < 0
  {
    var b := Befores(m, op)[i];
    BalanceBounded(m, Plan(op)[i]);
    NumberExact(b);
    NumberSign(b + Deltas(op)[i]);
  }

  lemma AfterIsExact(m: map<Slot, int>, op: Op, i: nat)
    requires i < |Plan(op)|
    requires 0 <= Befores(m, op)[i] <= SEED && 0 <= Afters(op, Befores(m, op))[i] <= SEED
    ensures Number(Befores(m, op)[i]) == Befores(m, op)[i]
    ensures MachineAfter(op, i, Befores(m, op)[i]) == Afters(op, Befores(m, op))[i]
  {
    NumberExact(Befores(m, op)[i]);
    NumberExact(Afters(op, Befores(m, op))[i]);
  }

  /** Every number the machine computes for an operation it lets through is exact. */
  lemma MachineIsExact(m: map<Slot, int>, op: Op)
    requires Conserved(m) && ValidOp(op)
    requires forall i :: 0 <= i < |Plan(op)| ==> !Refuses(op, i, Befores(m, op)[i])
    ensures forall i :: 0 <= i < |Plan(op)| ==> 0 <= Afters(op, Befores(m, op))[i] <= SEED
    ensures MachineAfters(op, Befores(m, op)) == Afters(op, Befores(m, op))
    ensures MachineLegs(op, Befores(m, op))
         == LegsOf(op, AmountIn(op), AmountOut(op), Befores(m, op), Afters(op, Befores(m, op)))
  {
    var b := Befores(m, op);
    var a := Afters(op, b);
    forall i | 0 <= i < |Plan(op)| ensures 0 <= a[i] { ChecksAreExact(m, op, i); }
    AcceptedBounded(m, op);
    forall i | 0 <= i < |Plan(op)| ensures Number(b[i]) == b[i] && MachineAfter(op, i, b[i]) == a[i] {
      AfterIsExact(m, op, i);
    }
    AmountsExact(op);
    assert MachineBefores(b) == b;
    assert MachineAfters(op, b) == a;
  }

  lemma AmountsExact(op: Op)
    requires ValidOp(op) && AmountIn(op) <= SEED && AmountOut(op) <= SEED
    ensures MachineAmount(op, AmountIn(op)) == AmountIn(op) && MachineAmount(op, AmountOut(op)) == AmountOut(op)
  {
    NumberExact(AmountIn(op));
    NumberExact(AmountOut(op));
  }

  /** The database never refuses a leg of an operation that passed the checks. */
  lemma LegsStorable(m: map<Slot, int>, op: Op)
    requires Conserved(m) && ValidOp(op)
    requires forall i :: 0 <= i < |Plan(op)| ==> !Refuses(op, i, Befores(m, op)[i])
    ensures forall i :: 0 <= i < |MachineLegs(op, Befores(m, op))| ==> LegStorable(MachineLegs(op, Befores(m, op))[i])
  {
    MachineIsExact(m, op);
    AcceptedBounded(m, op);
    LegsSound(m, op, MachineLegs(op, Befores(m, op)));
    LegsFollowPlan(op, Befores(m, op), Afters(op, Befores(m, op)));
  }
}
