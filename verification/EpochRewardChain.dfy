/**
 The epoch-reward records of one address: exactly when an update keeps them
 free of gaps, and what they add up to.
 */
module EpochRewardChain {
  import opened Common
  import opened BalanceLedger
  import opened BalanceChains

  function AfterHandOver(h: Group<Record>, u: Record, v: Record): Group<Record> {
    RewardRecorded(h, RewardPart(u, v));
    Updated(Updated(h, RewardPart(u, v)), HandOverPart(u, v))
  }

  lemma RewardRecorded(h: Group<Record>, u: Record)
    requires u.reason == EpochRewardReason
    ensures Updated(h, u).Rewards().Some?
  {
  }

  // ---------- Chains ----------

  // The records lead from start to end, and penalties stand still on the way.
  predicate Leads(h: Group<Record>, start: Snapshot, end: Snapshot) {
    match h
    case NoGroup => start == end
    case Own(e) => Spans(start, e, end)
    case Received(g) => Spans(start, g, end)
    case OwnHanded(e, d) => Spans(start, e, d.before) && Spans(e.after, d, end)
    case OwnReceived(e, g) => Spans(start, e, g.before) && Spans(e.after, g, end)
    case ReceivedOwn(g, e) => Spans(start, g, e.before) && Spans(g.after, e, end)
    case ReceivedOwnHanded(g, e, d) => Spans(start, g, e.before) && Spans(g.after, e, d.before) && Spans(e.after, d, end)
    case OwnHandedReceived(e, d, g) => Spans(start, e, d.before) && Spans(e.after, d, g.before) && Spans(d.after, g, end)
    case OwnReceivedHanded(e, g, d) => Spans(start, e, g.before) && Spans(e.after, g, d.before) && Spans(g.after, d, end)
  }

  predicate Spans(start: Snapshot, r: Record, end: Snapshot) {
    r.before == start && r.after == end && SamePenalty(start, end)
  }

  predicate NoNet(r: Record) {
    r.before == r.after
  }

  // An address's own reward u is recorded without a gap.
  predicate OwnSafe(h: Group<Record>, u: Record) {
    match h
    case ReceivedOwnHanded(_, _, d) => NoNet(u) && NoNet(d)
    case OwnHandedReceived(_, d, _) => NoNet(u) && NoNet(d)
    case OwnReceivedHanded(_, g, _) => NoNet(u) && NoNet(g)
    case _ => true
  }

  // What a pool receives, u, is recorded without a gap.
  predicate ReceiptSafe(h: Group<Record>, u: Record) {
    match h
    case OwnHanded(_, d) => NoNet(d)
    case OwnHandedReceived(_, d, _) => NoNet(d)
    case ReceivedOwnHanded(_, _, d) => NoNet(u) && NoNet(d)
    case OwnReceivedHanded(_, _, d) => NoNet(u) && NoNet(d)
    case _ => true
  }

  // What a delegator hands over is recorded without a gap.
  predicate HandOverSafe(h: Group<Record>, u: Record, v: Record) {
    match h
    case OwnReceived(_, g) => NoNet(g)
    case OwnHandedReceived(_, _, g) => NoNet(g) && RewardPart(u, v).after == u.after
    case OwnReceivedHanded(_, g, _) => NoNet(g) && NoNet(RewardPart(u, v))
    case _ => true
  }

  lemma OwnKeepsChain(h: Group<Record>, u: Record, start: Snapshot)
    requires u.reason == EpochRewardReason && SamePenalty(u.before, u.after)
    requires Leads(h, start, u.before)
    ensures Leads(Updated(h, u), start, u.after) <==> OwnSafe(h, u)
  {
  }

  lemma ReceiptKeepsChain(h: Group<Record>, u: Record, start: Snapshot)
    requires u.reason == DelegateeEpochRewardReason && SamePenalty(u.before, u.after)
    requires Leads(h, start, u.before)
    ensures Leads(Updated(h, u), start, u.after) <==> ReceiptSafe(h, u)
  {
  }

  lemma HandOverKeepsChain(h: Group<Record>, u: Record, v: Record, start: Snapshot)
    requires SamePenalty(u.before, u.after)
    requires Leads(h, start, u.before)
    ensures Leads(AfterHandOver(h, u, v), start, u.after) <==> HandOverSafe(h, u, v)
  {
  }

  // ---------- In the ledger ----------

  // The records of a are pre and then its epoch-reward group g, which says h.
  ghost predicate EndsIn<Id>(l: Ledger<Id>, a: Address, pre: seq<Id>, g: Group<Id>, h: Group<Record>) {
    WF(l) && HasGroup(l, a, g) && Says(l.vals, g, h) && RecordsOf(l, a) == pre + g.Members()
  }

  lemma HandleEndsIn<Id>(l: Ledger<Id>, a: Address, pre: seq<Id>, g: Group<Id>, h: Group<Record>, x: Id, u: Record)
    requires EndsIn(l, a, pre, g, h) && x !in l.vals && u.address == a && IsEpochGroup(u.reason)
    requires u.reason == DelegatorEpochRewardReason ==> g.Rewards().Some?
    ensures h.Rewards().Some? == g.Rewards().Some?
    ensures EndsIn(Handle(l, x, u), a, pre, Then(g, u.reason, x), Updated(h, u))
    ensures forall y | y in pre :: y in l.vals && y in Handle(l, x, u).vals && Handle(l, x, u).vals[y] == l.vals[y]
  {
    HandleGroup(l, a, g, h, x, u);
    HandleRecords(l, x, u, a);
    assert HasMember(l, a, g, u.reason);
    AddedLast(pre, g, u.reason, x);
    forall y | y in pre
      ensures y in l.vals && y in Handle(l, x, u).vals && Handle(l, x, u).vals[y] == l.vals[y]
    {
      BeforeGroup(l, a, pre, g, h, y);
      HandleElsewhere(l, a, g, x, u, y);
    }
  }

  lemma AddedLast<Id>(pre: seq<Id>, g: Group<Id>, reason: Reason, x: Id)
    requires IsEpochGroup(reason)
    requires reason == DelegatorEpochRewardReason ==> g.Rewards().Some?
    ensures pre + Then(g, reason, x).Members() == (pre + g.Members()) + if g.Get(reason).None? then [x] else []
  {
    if g.Get(reason).None? {
      assert g.Add(reason, x).Members() == g.Members() + [x];
    }
  }

  lemma BeforeGroup<Id>(l: Ledger<Id>, a: Address, pre: seq<Id>, g: Group<Id>, h: Group<Record>, y: Id)
    requires EndsIn(l, a, pre, g, h) && y in pre
    ensures y in l.vals && y !in g.Members()
  {
    var i :| 0 <= i < |pre| && pre[i] == y;
    var ids := RecordsOf(l, a);
    assert ids[i] == y;
    forall j | 0 <= j < |g.Members()| ensures g.Members()[j] != y {
      assert ids[|pre| + j] == g.Members()[j];
    }
  }

  lemma HandleElsewhere<Id>(l: Ledger<Id>, a: Address, g: Group<Id>, x: Id, u: Record, y: Id)
    requires WF(l) && HasGroup(l, a, g) && x !in l.vals && u.address == a && IsEpochGroup(u.reason)
    requires y in l.vals && y !in g.Members()
    ensures y in Handle(l, x, u).vals && Handle(l, x, u).vals[y] == l.vals[y]
  {
    assert HasMember(l, a, g, u.reason);
    if g.Get(u.reason).None? {
      NewVals(l, x, u);
    } else {
      KnownVals(l, x, u, g.Get(u.reason).value);
      IsMember(g, u.reason);
      var next := g.NextOf(u.reason);
      if next.Some? {
        IsMember(g, next.value);
      }
    }
  }

  // Where the group starts from, given where the chain ends.
  function StartOf(h: Group<Record>, end: Snapshot): Snapshot {
    match h
    case NoGroup => end
    case Received(g) => g.before
    case ReceivedOwn(g, _) => g.before
    case ReceivedOwnHanded(g, _, _) => g.before
    case _ => h.e.before
  }

  ghost predicate StandStill(h: Group<Record>, end: Snapshot) {
    forall r | IsEpochGroup(r) && h.Get(r).Some? ::
      SamePenalty(h.Get(r).value.before, end) && SamePenalty(h.Get(r).value.after, end)
  }

  // The chain of a is the chain of what came before and the path through the group.
  lemma ChainThroughGroup<Id>(l: Ledger<Id>, a: Address, pre: seq<Id>, g: Group<Id>, h: Group<Record>, start: Snapshot, end: Snapshot)
    requires EndsIn(l, a, pre, g, h) && StandStill(h, end)
    ensures forall y | y in pre :: y in l.vals
    ensures Chained(l, a, start, end) <==>
            Chain(l.vals, pre, start, StartOf(h, end)) && Leads(h, StartOf(h, end), end)
  {
    forall y | y in pre ensures y in l.vals {
      BeforeGroup(l, a, pre, g, h, y);
    }
    if g.NoGroup? {
      assert pre + g.Members() == pre;
    } else {
      ChainEnd(l.vals, pre, g.Members(), start, end);
      PathMeaning(l.vals, g, h, end);
    }
  }

  lemma PathMeaning<Id>(vals: map<Id, Record>, g: Group<Id>, h: Group<Record>, end: Snapshot)
    requires Says(vals, g, h) && !g.NoGroup? && StandStill(h, end)
    ensures forall m | m in g.Members() :: m in vals
    ensures vals[g.Members()[0]].before == StartOf(h, end)
    ensures Leads(h, StartOf(h, end), end) <==>
            var ms := g.Members();
            && (forall i | 0 < i < |ms| :: vals[ms[i]].before == vals[ms[i - 1]].after)
            && vals[ms[|ms| - 1]].after == end
  {
    SaysAll(vals, g, h);
    assert h.Rewards().Some? ==> h.Get(EpochRewardReason).Some?;
    assert h.HandedOver().Some? ==> h.Get(DelegatorEpochRewardReason).Some?;
    assert h.Receipts().Some? ==> h.Get(DelegateeEpochRewardReason).Some?;
    var ms := g.Members();
    assert (forall i | 0 < i < |ms| :: vals[ms[i]].before == vals[ms[i - 1]].after) <==>
           && (|ms| > 1 ==> vals[ms[1]].before == vals[ms[0]].after)
           && (|ms| > 2 ==> vals[ms[2]].before == vals[ms[1]].after);
  }

  // ---------- The ledger keeps the chain of an address exactly when the update is safe ----------

  lemma GroupStepKeepsChain<Id>(l: Ledger<Id>, l': Ledger<Id>, a: Address, pre: seq<Id>,
                                g: Group<Id>, g': Group<Id>, h: Group<Record>, h': Group<Record>,
                                start: Snapshot, end: Snapshot, end': Snapshot)
    requires EndsIn(l, a, pre, g, h) && EndsIn(l', a, pre, g', h')
    requires forall y | y in pre :: y in l.vals && y in l'.vals && l'.vals[y] == l.vals[y]
    requires StandStill(h, end) && StandStill(h', end') && StartOf(h', end') == StartOf(h, end)
    requires Chained(l, a, start, end)
    ensures Leads(h, StartOf(h, end), end)
    ensures Chained(l', a, start, end') <==> Leads(h', StartOf(h, end), end')
  {
    ChainThroughGroup(l, a, pre, g, h, start, end);
    ChainThroughGroup(l', a, pre, g', h', start, end');
    ChainFrame(l.vals, l'.vals, pre, start, StartOf(h, end));
  }

  // What is known of address a before one of its epoch-reward updates.
  ghost predicate Ready<Id>(l: Ledger<Id>, a: Address, pre: seq<Id>, g: Group<Id>, h: Group<Record>,
                            start: Snapshot, end: Snapshot)
  {
    EndsIn(l, a, pre, g, h) && StandStill(h, end) && Chained(l, a, start, end)
  }

  lemma OwnRewardKeepsChain<Id>(l: Ledger<Id>, a: Address, pre: seq<Id>, g: Group<Id>, h: Group<Record>,
                                start: Snapshot, x: Id, u: Record)
    requires u.address == a && u.reason == EpochRewardReason && SamePenalty(u.before, u.after)
    requires Ready(l, a, pre, g, h, start, u.before) && x !in l.vals
    ensures var l' := Handle(l, x, u);
            && EndsIn(l', a, pre, Then(g, u.reason, x), Updated(h, u))
            && StandStill(Updated(h, u), u.after)
            && (Chained(l', a, start, u.after) <==> OwnSafe(h, u))
  {
    HandleEndsIn(l, a, pre, g, h, x, u);
    UpdatedStart(h, u);
    GroupStepKeepsChain(l, Handle(l, x, u), a, pre, g, Then(g, u.reason, x), h, Updated(h, u), start, u.before, u.after);
    OwnKeepsChain(h, u, StartOf(h, u.before));
  }

  lemma ReceiptKeepsChainOf<Id>(l: Ledger<Id>, a: Address, pre: seq<Id>, g: Group<Id>, h: Group<Record>,
                                start: Snapshot, x: Id, u: Record)
    requires u.address == a && u.reason == DelegateeEpochRewardReason && SamePenalty(u.before, u.after)
    requires Ready(l, a, pre, g, h, start, u.before) && x !in l.vals
    ensures var l' := Handle(l, x, u);
            && EndsIn(l', a, pre, Then(g, u.reason, x), Updated(h, u))
            && StandStill(Updated(h, u), u.after)
            && (Chained(l', a, start, u.after) <==> ReceiptSafe(h, u))
  {
    HandleEndsIn(l, a, pre, g, h, x, u);
    UpdatedStart(h, u);
    GroupStepKeepsChain(l, Handle(l, x, u), a, pre, g, Then(g, u.reason, x), h, Updated(h, u), start, u.before, u.after);
    ReceiptKeepsChain(h, u, StartOf(h, u.before));
  }

  lemma UpdatedStart(h: Group<Record>, u: Record)
    requires u.reason == EpochRewardReason || u.reason == DelegateeEpochRewardReason
    requires SamePenalty(u.before, u.after) && StandStill(h, u.before)
    ensures StandStill(Updated(h, u), u.after)
    ensures StartOf(Updated(h, u), u.after) == StartOf(h, u.before)
  {
    Still(h, u.before);
  }

  lemma Still(h: Group<Record>, end: Snapshot)
    requires StandStill(h, end)
    ensures h.Rewards().Some? ==> SamePenalty(h.e.before, end) && SamePenalty(h.e.after, end)
    ensures h.HandedOver().Some? ==> SamePenalty(h.d.before, end) && SamePenalty(h.d.after, end)
    ensures h.Receipts().Some? ==> SamePenalty(h.g.before, end) && SamePenalty(h.g.after, end)
  {
    assert h.Rewards().Some? ==> h.Get(EpochRewardReason).Some?;
    assert h.HandedOver().Some? ==> h.Get(DelegatorEpochRewardReason).Some?;
    assert h.Receipts().Some? ==> h.Get(DelegateeEpochRewardReason).Some?;
  }

  function ThenBoth<Id>(g: Group<Id>, x: Id, y: Id): Group<Id> {
    Then(Then(g, EpochRewardReason, x), DelegatorEpochRewardReason, y)
  }

  lemma GiveAwayEndsIn<Id>(l: Ledger<Id>, a: Address, pre: seq<Id>, g: Group<Id>, h: Group<Record>,
                           x: Id, y: Id, u: Record, v: Record)
    requires u.address == a && EndsIn(l, a, pre, g, h) && x !in l.vals && y !in l.vals && x != y
    ensures WF(l) && EndsIn(GiveAway(l, x, y, u, v), a, pre, ThenBoth(g, x, y), AfterHandOver(h, u, v))
    ensures forall m | m in pre :: m in l.vals && m in GiveAway(l, x, y, u, v).vals && GiveAway(l, x, y, u, v).vals[m] == l.vals[m]
  {
    var w := RewardPart(u, v);
    GiveAwayWF(l, x, y, u, v);
    HandleEndsIn(l, a, pre, g, h, x, w);
    var l1, g1, h1 := Handle(l, x, w), Then(g, w.reason, x), Updated(h, w);
    HandleEndsIn(l1, a, pre, g1, h1, y, HandOverPart(u, v));
  }

  lemma HandOverKeepsChainOf<Id>(l: Ledger<Id>, a: Address, pre: seq<Id>, g: Group<Id>, h: Group<Record>,
                                 start: Snapshot, x: Id, y: Id, u: Record, v: Record)
    requires u.address == a && SamePenalty(u.before, u.after)
    requires Ready(l, a, pre, g, h, start, u.before) && x !in l.vals && y !in l.vals && x != y
    ensures var l' := GiveAway(l, x, y, u, v);
            && EndsIn(l', a, pre, ThenBoth(g, x, y), AfterHandOver(h, u, v))
            && StandStill(AfterHandOver(h, u, v), u.after)
            && (Chained(l', a, start, u.after) <==> HandOverSafe(h, u, v))
  {
    hide AfterHandOver, ThenBoth, GiveAway;
    GiveAwayEndsIn(l, a, pre, g, h, x, y, u, v);
    HandedOverStart(h, u, v);
    GroupStepKeepsChain(l, GiveAway(l, x, y, u, v), a, pre, g, ThenBoth(g, x, y),
                        h, AfterHandOver(h, u, v), start, u.before, u.after);
    HandOverKeepsChain(h, u, v, StartOf(h, u.before));
  }

  lemma HandedOverStart(h: Group<Record>, u: Record, v: Record)
    requires SamePenalty(u.before, u.after) && StandStill(h, u.before)
    ensures StandStill(AfterHandOver(h, u, v), u.after)
    ensures StartOf(AfterHandOver(h, u, v), u.after) == StartOf(h, u.before)
  {
    Still(h, u.before);
  }

  // ---------- Merging in place adds up ----------

  datatype Amounts = Amounts(balance: int, stake: int) {
    function Plus(b: Amounts): Amounts {
      Amounts(balance + b.balance, stake + b.stake)
    }

    function Minus(b: Amounts): Amounts {
      Amounts(balance - b.balance, stake - b.stake)
    }
  }

  const ZERO := Amounts(0, 0)

  // What a record says was gained.
  function Gain(u: Record): Amounts {
    Amounts(u.after.balance - u.before.balance, u.after.stake - u.before.stake)
  }

  function GainOf(u: Option<Record>): Amounts {
    if u.Some? then Gain(u.value) else ZERO
  }

  // What one more own reward books as rewards beyond itself.
  function OwnAstray(h: Group<Record>): Amounts {
    match h
    case ReceivedOwnHanded(_, _, d) => Gain(d)
    case OwnHandedReceived(_, d, _) => Gain(d)
    case OwnReceivedHanded(_, g, _) => Gain(g)
    case _ => ZERO
  }

  // What one more hand-over books as handed over beyond itself; as a reward it goes astray like an own one.
  function HandOverAstray(h: Group<Record>): Amounts {
    match h
    case OwnReceived(_, g) => Gain(g)
    case ReceivedOwnHanded(_, _, d) => ZERO.Minus(Gain(d))
    case OwnHandedReceived(_, d, g) => Gain(g).Minus(Gain(d))
    case _ => ZERO
  }

  lemma OwnAddsUp(h: Group<Record>, u: Record, start: Snapshot)
    requires u.reason == EpochRewardReason && Leads(h, start, u.before)
    ensures var h' := Updated(h, u);
            && GainOf(h'.Rewards()) == GainOf(h.Rewards()).Plus(Gain(u)).Plus(OwnAstray(h))
            && GainOf(h'.HandedOver()) == GainOf(h.HandedOver())
            && GainOf(h'.Receipts()) == GainOf(h.Receipts())
  {
    hide Updated, Leads;
    OwnRewardsGain(h, u, start);
    OwnOtherGains(h, u);
  }

  lemma OwnRewardsGain(h: Group<Record>, u: Record, start: Snapshot)
    requires u.reason == EpochRewardReason && Leads(h, start, u.before)
    ensures GainOf(Updated(h, u).Rewards()) == GainOf(h.Rewards()).Plus(Gain(u)).Plus(OwnAstray(h))
  {
  }

  lemma OwnOtherGains(h: Group<Record>, u: Record)
    requires u.reason == EpochRewardReason
    ensures GainOf(Updated(h, u).HandedOver()) == GainOf(h.HandedOver())
    ensures GainOf(Updated(h, u).Receipts()) == GainOf(h.Receipts())
  {
  }

  // A receipt goes astray by what the pool itself has handed over.
  lemma ReceiptAddsUp(h: Group<Record>, u: Record, start: Snapshot)
    requires u.reason == DelegateeEpochRewardReason && Leads(h, start, u.before)
    ensures var h' := Updated(h, u);
            && GainOf(h'.Rewards()) == GainOf(h.Rewards())
            && GainOf(h'.HandedOver()) == GainOf(h.HandedOver())
            && GainOf(h'.Receipts()) == GainOf(h.Receipts()).Plus(Gain(u)).Plus(GainOf(h.HandedOver()))
  {
    match h
    case NoGroup =>
    case Own(e) =>
    case Received(g) =>
    case OwnHanded(e, d) =>
    case OwnReceived(e, g) =>
    case ReceivedOwn(g, e) =>
    case ReceivedOwnHanded(g, e, d) =>
    case OwnHandedReceived(e, d, g) =>
    case OwnReceivedHanded(e, g, d) =>
  }

  lemma HandOverAddsUp(h: Group<Record>, u: Record, v: Record, start: Snapshot)
    requires Leads(h, start, u.before)
    ensures var h' := AfterHandOver(h, u, v);
            && GainOf(h'.Rewards()) == GainOf(h.Rewards()).Plus(Gain(RewardPart(u, v))).Plus(OwnAstray(h))
            && GainOf(h'.Receipts()) == GainOf(h.Receipts())
  {
    OwnAddsUp(h, RewardPart(u, v), start);
    HandOverGain(Updated(h, RewardPart(u, v)), HandOverPart(u, v));
  }

  lemma HandOverAddsUpAsHandedOver(h: Group<Record>, u: Record, v: Record)
    ensures GainOf(AfterHandOver(h, u, v).HandedOver())
         == GainOf(h.HandedOver()).Plus(Gain(HandOverPart(u, v))).Plus(HandOverAstray(h))
  {
    hide Updated, OwnShort, HandOverAstray, GainOf, Gain;
    var w, x := RewardPart(u, v), HandOverPart(u, v);
    OwnEnd(h, w);
    HandOverGain(Updated(h, w), x);
    HandedOverShort(h);
    GainIs(x);
    var e := Updated(h, w).e;
    HandedOverRest(EndOf(x), EndOf(w), EndOf(e), OwnShort(h), GainOf(h.HandedOver()), HandOverAstray(h));
  }

  function EndOf(r: Record): Amounts {
    Amounts(r.after.balance, r.after.stake)
  }

  lemma GainIs(r: Record)
    ensures Gain(r) == EndOf(r).Minus(Amounts(r.before.balance, r.before.stake))
  {}

  lemma HandedOverRest(end: Amounts, reward: Amounts, own: Amounts, short: Amounts, handed: Amounts, astray: Amounts)
    requires own == reward.Minus(short) && handed.Plus(astray) == short
    ensures end.Minus(own) == handed.Plus(end.Minus(reward)).Plus(astray)
  {}

  // What the reward record falls short of the reward's end: the net of the record that continues it.
  function OwnShort(h: Group<Record>): Amounts {
    match h
    case OwnHanded(_, d) => Gain(d)
    case OwnReceived(_, g) => Gain(g)
    case OwnHandedReceived(_, _, g) => Gain(g)
    case OwnReceivedHanded(_, _, d) => Gain(d)
    case _ => ZERO
  }

  lemma HandedOverShort(h: Group<Record>)
    ensures GainOf(h.HandedOver()).Plus(HandOverAstray(h)) == OwnShort(h)
  {
    hide Gain;
    match h
    case NoGroup =>
    case Own(e) =>
    case Received(g) =>
    case OwnHanded(e, d) =>
    case OwnReceived(e, g) =>
    case ReceivedOwn(g, e) =>
    case ReceivedOwnHanded(g, e, d) =>
    case OwnHandedReceived(e, d, g) =>
    case OwnReceivedHanded(e, g, d) =>
  }

  // An address that has received, was then rewarded, and hands over twice: its records keep the chain, but
  // they say no more than the second hand-over.
  lemma ForgetsFirstHandOver(r: Record, u: Record, v: Record, u': Record, v': Record)
    requires r.reason == DelegateeEpochRewardReason && r.after == u.before && u.after == u'.before
    requires SamePenalty(r.before, r.after) && SamePenalty(u.before, u.after) && SamePenalty(u'.before, u'.after)
    ensures var h := AfterHandOver(Updated(NoGroup, r), u, v);
            && h.ReceivedOwnHanded? && Leads(h, r.before, u.after)
            && Leads(AfterHandOver(h, u', v'), r.before, u'.after)
            && GainOf(h.HandedOver()) == Gain(HandOverPart(u, v))
            && GainOf(AfterHandOver(h, u', v').HandedOver()) == Gain(HandOverPart(u', v'))
  {
    var h0 := Updated(NoGroup, r);
    assert h0 == Received(r) && Leads(h0, r.before, u.before);
    var h := AfterHandOver(h0, u, v);
    assert h.ReceivedOwnHanded?;
    HandOverKeepsChain(h0, u, v, r.before);
    HandOverKeepsChain(h, u', v', r.before);
    HandOverAddsUpAsHandedOver(h0, u, v);
    HandOverAddsUpAsHandedOver(h, u', v');
  }

  // Where the reward record ends after a reward.
  lemma OwnEnd(h: Group<Record>, u: Record)
    requires u.reason == EpochRewardReason
    ensures Updated(h, u).Rewards().Some?
    ensures var e := Updated(h, u).e;
            Amounts(e.after.balance, e.after.stake) == Amounts(u.after.balance, u.after.stake).Minus(OwnShort(h))
  {
  }

  // A hand-over record starts where the reward record ends.
  lemma HandOverGain(h: Group<Record>, u: Record)
    requires u.reason == DelegatorEpochRewardReason && h.Rewards().Some?
    ensures var h' := Updated(h, u);
            && GainOf(h'.Rewards()) == GainOf(h.Rewards())
            && GainOf(h'.HandedOver()) == Amounts(u.after.balance, u.after.stake).Minus(Amounts(h.e.after.balance, h.e.after.stake))
            && GainOf(h'.Receipts()) == GainOf(h.Receipts())
  {
  }
}
