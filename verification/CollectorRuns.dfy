/** The collector over a whole epoch-reward phase. */
module CollectorRuns {
  import opened Common
  import opened BalanceLedger
  import opened BalanceChains
  import opened EpochRewardChain
  import opened EpochRewardPhase
  import opened StatsCollector

  // A reward as the node pays it: Begin, the payment, Complete.
  datatype Payment = Payment(balanceDest: Address, stakeDest: Address, before: State, after: State)

  ghost function Seen(state: State): World {
    (a: Address) => Observe(state, a)
  }

  // Only the two addresses change, and not their penalties.
  ghost predicate Pays(p: Payment) {
    forall a ::
      && SamePenalty(Observe(p.before, a), Observe(p.after, a))
      && (a != p.balanceDest && a != p.stakeDest ==> Observe(p.after, a) == Observe(p.before, a))
  }

  // The update the collector makes of a payment, for one of its addresses.
  ghost function UpdateOf(p: Payment, a: Address): Record {
    Record(a, EpochRewardReason, Observe(p.before, a), Observe(p.after, a), None, None)
  }

  // The step has the updates of a payment: one for each of its addresses.
  ghost predicate IsStepOf<Id>(step: Step<Id>, p: Payment) {
    && |step.pend| == (if p.balanceDest == p.stakeDest then 1 else 2)
    && step.pend[0].1 == UpdateOf(p, p.balanceDest)
    && (p.balanceDest != p.stakeDest ==> step.pend[1].1 == UpdateOf(p, p.stakeDest))
  }

  method RecordPayment(c: Collector, p: Payment) returns (ghost step: Step<BalanceUpdate>)
    requires c.Valid() && c.pending == [] && Pays(p)
    modifies c, c.balanceUpdates
    ensures c.Valid() && c.pending == []
    ensures forall x | x in c.balanceUpdates :: x in old(c.balanceUpdates) || fresh(x)
    ensures RunsOne(step, old(c.AsLedger(c.balanceUpdates)), c.AsLedger(c.balanceUpdates), Seen(p.before), Seen(p.after))
    ensures IsStepOf(step, p)
  {
    hide WF, Complete, Observe;
    ghost var l := c.AsLedger(c.balanceUpdates);
    c.BeginEpochRewardBalanceUpdate(p.balanceDest, p.stakeDest, p.before);
    assert Values(c.balanceUpdates) == l.vals;
    step := c.CompleteBalanceUpdate(p.after);
    assert forall i | 0 <= i < |step.pend| :: SeesOne(step.pend[i].1, Seen(p.before), Seen(p.after));
  }

  // The payments follow each other, and the pool is always the one whose balance changes;
  // pools are in ps and the identities rewarded through them in ds.
  ghost predicate IsPhase(payments: seq<Payment>, ds: set<Address>, ps: set<Address>) {
    && ds !! ps
    && (forall i | 0 <= i < |payments| :: Pays(payments[i]) && InRoles(payments[i], ds, ps))
    && forall i | 0 < i < |payments| :: Seen(payments[i].before) == Seen(payments[i - 1].after)
  }

  ghost predicate InRoles(p: Payment, ds: set<Address>, ps: set<Address>) {
    p.balanceDest != p.stakeDest ==>
      && p.stakeDest in ds && p.balanceDest in ps
      && Observe(p.before, p.balanceDest).balance != Observe(p.after, p.balanceDest).balance
  }

  // What the payments give to a: as rewards, handed over, received as a pool.
  ghost function Due(payments: seq<Payment>, a: Address): Tally {
    if |payments| == 0 then EMPTY
    else Plus(Due(payments[..|payments| - 1], a), DueOne(payments[|payments| - 1], a))
  }

  ghost function DueOne(p: Payment, a: Address): Tally {
    var own := Change(p, a);
    if p.balanceDest == p.stakeDest then
      if a == p.stakeDest then Tally(own, ZERO, ZERO) else EMPTY
    else if a == p.stakeDest then
      var passed := Change(p, p.balanceDest).balance;
      Tally(Amounts(passed, own.stake), Amounts(own.balance - passed, 0), ZERO)
    else if a == p.balanceDest then Tally(ZERO, ZERO, own)
    else EMPTY
  }

  ghost function Change(p: Payment, a: Address): Amounts {
    var s, t := Observe(p.before, a), Observe(p.after, a);
    Amounts(t.balance - s.balance, t.stake - s.stake)
  }

  // A payment that changes the pool's balance is taken for what it is.
  lemma StepIsDue<Id>(step: Step<Id>, p: Payment, a: Address, ds: set<Address>, ps: set<Address>)
    requires IsStepOf(step, p)
    requires InRoles(p, ds, ps)
    ensures StepTally(step, a) == DueOne(p, a) && RolesIn(step, ds, ps)
  {
    hide Observe;
  }

  // The records of a lead without a gap from start to its state after the payments, and say what it got.
  ghost predicate IsPaid<Id>(l: Ledger<Id>, a: Address, payments: seq<Payment>, start: World, w: World)
    requires WF(l)
  {
    var end := if |payments| == 0 then w else Seen(payments[|payments| - 1].after);
    && Chained(l, a, start(a), end(a))
    && Due(payments, a) == Tally(Kept(l, EpochRewardReason, a), Kept(l, DelegatorEpochRewardReason, a),
                                 Kept(l, DelegateeEpochRewardReason, a))
  }

  // After some of the payments: nothing recorded before is touched, and the phase's invariant holds for every address.
  ghost predicate AllHold<Id>(before: Ledger<Id>, l: Ledger<Id>, done: seq<Payment>, start: World, w: World,
                              ds: set<Address>, ps: set<Address>)
  {
    && WF(before) && KeepsOld(before, l)
    && forall a :: Holds(l, a, RecordsOf(before, a), start(a), w(a), Due(done, a), ds, ps)
  }

  // Whatever is paid, and in whatever order, the records of every address lead without a gap from
  // start to its state now and say what the payments were worth to it; what was recorded before stays.
  method RecordPhase(c: Collector, payments: seq<Payment>, ghost start: World, ghost w: World,
                     ghost ds: set<Address>, ghost ps: set<Address>, ghost all: set<BalanceUpdate>)
    requires c.Valid() && c.pending == [] && IsPhase(payments, ds, ps)
    requires forall x | x in c.balanceUpdates :: x in all
    requires |payments| > 0 ==> w == Seen(payments[0].before)
    requires var l := c.AsLedger(c.balanceUpdates);
             forall a :: PhaseStart(l, a) && Chained(l, a, start(a), w(a))
    modifies c, all
    ensures c.Valid() && c.pending == []
    ensures forall a :: IsPaid(c.AsLedger(c.balanceUpdates), a, payments, start, w)
    ensures old(c.balanceUpdates) <= c.balanceUpdates
    ensures forall x | x in old(c.balanceUpdates) :: x.Value() == old(x.Value())
  {
    hide Holds, PhaseStart, Chained, WF, RunsOne, Sees, Complete, Fresh, StepTally, RolesIn, DueOne, RecordsOf, Kept, KeepsOld, IsStepOf, AllHold;
    ghost var l0 := c.AsLedger(c.balanceUpdates);
    ghost var end := w;
    StartAllHold(l0, start, w, ds, ps);
    for i := 0 to |payments|
      invariant c.Valid() && c.pending == []
      invariant forall x | x in c.balanceUpdates :: x in all || fresh(x)
      invariant end == if i == 0 then w else Seen(payments[i - 1].after)
      invariant AllHold(l0, c.AsLedger(c.balanceUpdates), payments[..i], start, end, ds, ps)
    {
      ghost var l, p := c.AsLedger(c.balanceUpdates), payments[i];
      assert Pays(p) && InRoles(p, ds, ps) && end == Seen(p.before);
      ghost var step := RecordPayment(c, payments[i]);
      assert payments[..i + 1] == payments[..i] + [p];
      OneMore(step, l0, l, c.AsLedger(c.balanceUpdates), p, start, payments[..i], ds, ps);
      end := Seen(p.after);
    }
    assert payments[..|payments|] == payments;
    AllArePaid(l0, c.AsLedger(c.balanceUpdates), payments, start, w, end, ds, ps);
    forall x | x in old(c.balanceUpdates) ensures x.Value() == old(x.Value()) {
      assert x in l0.vals && l0.vals[x] == old(x.Value());
      assert c.AsLedger(c.balanceUpdates).vals[x] == x.Value();
    }
  }

  lemma StartAllHold<Id>(l: Ledger<Id>, start: World, w: World, ds: set<Address>, ps: set<Address>)
    requires WF(l) && forall a :: PhaseStart(l, a) && Chained(l, a, start(a), w(a))
    ensures AllHold(l, l, [], start, w, ds, ps)
  {
    hide Holds, PhaseStart, Chained, WF, KeepsOld, RecordsOf;
    StartKeepsOld(l);
    forall a ensures Holds(l, a, RecordsOf(l, a), start(a), w(a), EMPTY, ds, ps) {
      StartHolds(l, a, start(a), w(a), ds, ps);
    }
  }

  lemma OneMore<Id>(step: Step<Id>, before: Ledger<Id>, l: Ledger<Id>, l': Ledger<Id>, p: Payment, start: World, done: seq<Payment>,
                    ds: set<Address>, ps: set<Address>)
    requires RunsOne(step, l, l', Seen(p.before), Seen(p.after)) && IsStepOf(step, p) && InRoles(p, ds, ps) && ds !! ps
    requires AllHold(before, l, done, start, Seen(p.before), ds, ps)
    ensures AllHold(before, l', done + [p], start, Seen(p.after), ds, ps)
  {
    hide Holds, Observe, Complete, Fresh, Sees, StepTally, RolesIn, DueOne, KeepsOld, IsStepOf, InRoles;
    assert (done + [p])[..|done|] == done;
    StepKeepsOld(before, l, step, Seen(p.before), Seen(p.after));
    forall a ensures Holds(l', a, RecordsOf(before, a), start(a), Seen(p.after)(a), Due(done + [p], a), ds, ps) {
      StepIsDue(step, p, a, ds, ps);
      StepHolds(l, step, Seen(p.before), Seen(p.after), a, RecordsOf(before, a), start(a), Due(done, a), ds, ps);
    }
  }

  lemma AllArePaid<Id>(before: Ledger<Id>, l: Ledger<Id>, payments: seq<Payment>, start: World, w: World, end: World,
                       ds: set<Address>, ps: set<Address>)
    requires AllHold(before, l, payments, start, end, ds, ps)
    requires end == if |payments| == 0 then w else Seen(payments[|payments| - 1].after)
    ensures WF(l) && forall a :: IsPaid(l, a, payments, start, w)
    ensures before.list <= l.list && forall x | x in before.vals :: x in l.vals && l.vals[x] == before.vals[x]
  {
    assert KeepsOld(before, l);
    hide Holds, Chained, WF, RecordsOf, Kept, LinksNew;
    forall a ensures IsPaid(l, a, payments, start, w) {
      WhatHolds(l, a, RecordsOf(before, a), start(a), end(a), Due(payments, a), ds, ps);
    }
  }
}
