/**
 The epoch-reward phase of a block: any number of rewards to any addresses, handed over to
 pools or not.  Whatever their order, the records of every address lead without a gap
 from its state before the block to its state now, and say what the rewards add up to.
 */
module EpochRewardPhase {
  import opened Common
  import opened BalanceLedger
  import opened BalanceChains
  import opened EpochRewardChain

  type World = Address -> Snapshot

  // The group the index and the links describe.
  function GroupOf<Id(==)>(l: Ledger<Id>, a: Address): Group<Id> {
    var e := Lookup(l, EpochRewardReason, a);
    var d := Lookup(l, DelegatorEpochRewardReason, a);
    var g := Lookup(l, DelegateeEpochRewardReason, a);
    if e.None? then
      if g.None? then NoGroup else Received(g.value)
    else if d.None? then
      if g.None? then Own(e.value)
      else if Prev(l, e.value) == g then ReceivedOwn(g.value, e.value)
      else OwnReceived(e.value, g.value)
    else if g.None? then OwnHanded(e.value, d.value)
    else if Prev(l, e.value) == g then ReceivedOwnHanded(g.value, e.value, d.value)
    else if Next(l, e.value) == g then OwnHandedReceived(e.value, d.value, g.value)
    else OwnReceivedHanded(e.value, g.value, d.value)
  }

  lemma GroupUnique<Id>(l: Ledger<Id>, a: Address, g: Group<Id>)
    requires WF(l) && HasGroup(l, a, g)
    ensures g == GroupOf(l, a)
  {
    MembersKept(l, a, g);
    assert HasMember(l, a, g, EpochRewardReason);
    assert HasMember(l, a, g, DelegatorEpochRewardReason);
    assert HasMember(l, a, g, DelegateeEpochRewardReason);
  }

  // ---------- One step of the phase ----------

  // The step saw the world change from w to w', by epoch rewards only; penalties stood still.
  ghost predicate Sees<Id>(s: Step<Id>, w: World, w': World) {
    && |s.pend| <= 2
    && (forall i | 0 <= i < |s.pend| :: SeesOne(s.pend[i].1, w, w'))
    && (|s.pend| == 2 ==> s.pend[0].1.address != s.pend[1].1.address)
    && forall a | forall i | 0 <= i < |s.pend| :: s.pend[i].1.address != a :: w'(a) == w(a)
  }

  ghost predicate SeesOne(u: Record, w: World, w': World) {
    && u.reason == EpochRewardReason
    && u.before == w(u.address) && u.after == w'(u.address)
    && SamePenalty(u.before, u.after)
  }

  // What a step adds to the rewards, hand-overs and receipts of a.
  datatype Tally = Tally(rewards: Amounts, handedOver: Amounts, receipts: Amounts)

  const EMPTY := Tally(ZERO, ZERO, ZERO)

  function Plus(s: Tally, t: Tally): Tally {
    Tally(s.rewards.Plus(t.rewards), s.handedOver.Plus(t.handedOver), s.receipts.Plus(t.receipts))
  }

  function StepTally<Id>(s: Step<Id>, a: Address): Tally {
    if s.IsHandOver() then
      var u, v := s.Delegator().1, s.Pool().1;
      if a == u.address then Tally(Gain(RewardPart(u, v)), Gain(HandOverPart(u, v)), ZERO)
      else if a == v.address then Tally(ZERO, ZERO, Gain(v))
      else EMPTY
    else if |s.pend| == 1 && s.pend[0].1.address == a then Tally(Gain(s.pend[0].1), ZERO, ZERO)
    else EMPTY
  }

  function RunTally<Id>(steps: seq<Step<Id>>, a: Address): Tally {
    if |steps| == 0 then EMPTY
    else Plus(RunTally(steps[..|steps| - 1], a), StepTally(steps[|steps| - 1], a))
  }

  // The records of the group say that t was gained.
  predicate Books(h: Group<Record>, t: Tally) {
    && GainOf(h.Rewards()) == t.rewards
    && GainOf(h.HandedOver()) == t.handedOver
    && GainOf(h.Receipts()) == t.receipts
  }

  // An address hands over only if it is in ds and receives only if it is in ps.
  predicate InRole(h: Group<Record>, a: Address, ds: set<Address>, ps: set<Address>) {
    (h.HandedOver().Some? ==> a in ds) && (h.Receipts().Some? ==> a in ps)
  }

  // The records of a: pre before the phase, then a gap-free group whose records say t.
  ghost predicate Holds<Id>(l: Ledger<Id>, a: Address, pre: seq<Id>, start: Snapshot, end: Snapshot, t: Tally,
                            ds: set<Address>, ps: set<Address>)
  {
    exists h: Group<Record> ::
      Ready(l, a, pre, GroupOf(l, a), h, start, end) && Books(h, t) && InRole(h, a, ds, ps)
  }

  lemma Unpack<Id>(l: Ledger<Id>, a: Address, pre: seq<Id>, start: Snapshot, end: Snapshot, t: Tally,
                   ds: set<Address>, ps: set<Address>) returns (h: Group<Record>)
    requires Holds(l, a, pre, start, end, t, ds, ps)
    ensures WF(l)
    ensures Ready(l, a, pre, GroupOf(l, a), h, start, end) && Books(h, t) && InRole(h, a, ds, ps)
  {
    h :| Ready(l, a, pre, GroupOf(l, a), h, start, end) && Books(h, t) && InRole(h, a, ds, ps);
  }

  lemma Pack<Id>(l: Ledger<Id>, a: Address, pre: seq<Id>, g: Group<Id>, h: Group<Record>, start: Snapshot, end: Snapshot, t: Tally,
                 ds: set<Address>, ps: set<Address>)
    requires Ready(l, a, pre, g, h, start, end) && InRole(h, a, ds, ps) && Books(h, t)
    ensures Holds(l, a, pre, start, end, t, ds, ps)
  {
    GroupUnique(l, a, g);
    assert Ready(l, a, pre, GroupOf(l, a), h, start, end);
  }

  lemma OthersHold<Id>(l: Ledger<Id>, x: Id, u: Record, b: Address, pre: seq<Id>, start: Snapshot, end: Snapshot, t: Tally,
                       ds: set<Address>, ps: set<Address>)
    requires Holds(l, b, pre, start, end, t, ds, ps) && x !in l.vals && b != u.address
    ensures WF(l) && Holds(Handle(l, x, u), b, pre, start, end, t, ds, ps)
  {
    hide Ready, Holds, Handle, Books;
    var h := Unpack(l, b, pre, start, end, t, ds, ps);
    OthersReady(l, x, u, b, pre, GroupOf(l, b), h, start, end);
    Pack(Handle(l, x, u), b, pre, GroupOf(l, b), h, start, end, t, ds, ps);
  }

  lemma OthersReady<Id>(l: Ledger<Id>, x: Id, u: Record, b: Address, pre: seq<Id>, g: Group<Id>, h: Group<Record>,
                        start: Snapshot, end: Snapshot)
    requires Ready(l, b, pre, g, h, start, end) && x !in l.vals && b != u.address
    ensures Ready(Handle(l, x, u), b, pre, g, h, start, end)
  {
    var l' := Handle(l, x, u);
    HandleOthers(l, x, u, b);
    HandleRecords(l, x, u, b);
    MembersKept(l, b, g);
    forall r | IsEpochGroup(r) ensures HasMember(l', b, g, r) && SaysAt(l'.vals, g.Get(r), h.Get(r)) {
      assert HasMember(l, b, g, r) && SaysAt(l.vals, g.Get(r), h.Get(r));
      if g.Get(r).Some? {
        assert Keeps(l.vals, g.Get(r).value, r, b);
      }
    }
    ChainFrame(l.vals, l'.vals, RecordsOf(l, b), start, end);
  }

  // ---------- With one role per address, every update is recorded without a gap and adds up ----------

  lemma OwnReady<Id>(l: Ledger<Id>, pre: seq<Id>, g: Group<Id>, h: Group<Record>, start: Snapshot, x: Id, u: Record)
    requires Ready(l, u.address, pre, g, h, start, u.before) && x !in l.vals
    requires u.reason == EpochRewardReason && SamePenalty(u.before, u.after)
    requires h.HandedOver().None? || h.Receipts().None?
    ensures Ready(Handle(l, x, u), u.address, pre, Then(g, u.reason, x), Updated(h, u), start, u.after)
    ensures WF(l)
    ensures Leads(h, StartOf(h, u.before), u.before)
  {
    OwnRewardKeepsChain(l, u.address, pre, g, h, start, x, u);
    ChainThroughGroup(l, u.address, pre, g, h, start, u.before);
    OneRole(h, u);
  }

  lemma OneRole(h: Group<Record>, u: Record)
    requires (h.HandedOver().None? || h.Receipts().None?) && u.reason == EpochRewardReason
    ensures OwnSafe(h, u) && OwnAstray(h) == ZERO
    ensures Updated(h, u).HandedOver().Some? == h.HandedOver().Some?
    ensures Updated(h, u).Receipts().Some? == h.Receipts().Some?
  {
  }

  lemma PlusZero(a: Amounts)
    ensures a.Plus(ZERO) == a
  {
  }

  lemma OwnBooks(h: Group<Record>, start: Snapshot, u: Record, t: Tally)
    requires Leads(h, start, u.before) && u.reason == EpochRewardReason && Books(h, t)
    requires h.HandedOver().None? || h.Receipts().None?
    ensures Books(Updated(h, u), Plus(t, Tally(Gain(u), ZERO, ZERO)))
  {
    OwnAddsUp(h, u, start);
    OneRole(h, u);
    PlusZero(t.rewards.Plus(Gain(u)));
    PlusZero(t.handedOver);
    PlusZero(t.receipts);
  }

  lemma ReceiptReady<Id>(l: Ledger<Id>, pre: seq<Id>, g: Group<Id>, h: Group<Record>, start: Snapshot, x: Id, u: Record)
    requires Ready(l, u.address, pre, g, h, start, u.before) && x !in l.vals
    requires u.reason == DelegateeEpochRewardReason && SamePenalty(u.before, u.after)
    requires h.HandedOver().None?
    ensures Ready(Handle(l, x, u), u.address, pre, Then(g, u.reason, x), Updated(h, u), start, u.after)
    ensures WF(l)
    ensures Leads(h, StartOf(h, u.before), u.before)
  {
    ReceiptKeepsChainOf(l, u.address, pre, g, h, start, x, u);
    ChainThroughGroup(l, u.address, pre, g, h, start, u.before);
    PoolOnly(h, u);
  }

  lemma PoolOnly(h: Group<Record>, u: Record)
    requires h.HandedOver().None? && u.reason == DelegateeEpochRewardReason
    ensures ReceiptSafe(h, u) && Updated(h, u).HandedOver().None?
  {
  }

  lemma ReceiptBooks(h: Group<Record>, start: Snapshot, u: Record, t: Tally)
    requires Leads(h, start, u.before) && u.reason == DelegateeEpochRewardReason && Books(h, t)
    requires h.HandedOver().None?
    ensures Books(Updated(h, u), Plus(t, Tally(ZERO, ZERO, Gain(u))))
  {
    ReceiptAddsUp(h, u, start);
    PlusZero(t.rewards);
    PlusZero(t.handedOver);
    PlusZero(t.receipts.Plus(Gain(u)));
  }

  lemma HandOverReady<Id>(l: Ledger<Id>, pre: seq<Id>, g: Group<Id>, h: Group<Record>, start: Snapshot,
                          x: Id, y: Id, u: Record, v: Record)
    requires Ready(l, u.address, pre, g, h, start, u.before) && x !in l.vals && y !in l.vals && x != y
    requires SamePenalty(u.before, u.after) && h.Receipts().None?
    ensures WF(l)
    ensures Ready(GiveAway(l, x, y, u, v), u.address, pre,
                  ThenBoth(g, x, y), AfterHandOver(h, u, v), start, u.after)
    ensures Leads(h, StartOf(h, u.before), u.before)
  {
    HandOverKeepsChainOf(l, u.address, pre, g, h, start, x, y, u, v);
    ChainThroughGroup(l, u.address, pre, g, h, start, u.before);
    DelegatorOnly(h, u, v);
  }

  lemma DelegatorOnly(h: Group<Record>, u: Record, v: Record)
    requires h.Receipts().None?
    ensures HandOverSafe(h, u, v) && OwnAstray(h) == ZERO && HandOverAstray(h) == ZERO && AfterHandOver(h, u, v).Receipts().None?
  {
  }

  lemma HandOverBooks(h: Group<Record>, start: Snapshot, u: Record, v: Record, t: Tally)
    requires Leads(h, start, u.before) && Books(h, t)
    requires h.Receipts().None?
    ensures Books(AfterHandOver(h, u, v), Plus(t, Tally(Gain(RewardPart(u, v)), Gain(HandOverPart(u, v)), ZERO)))
  {
    HandOverAddsUp(h, u, v, start);
    HandOverAddsUpAsHandedOver(h, u, v);
    DelegatorOnly(h, u, v);
    PlusZero(t.rewards.Plus(Gain(RewardPart(u, v))));
    PlusZero(t.handedOver.Plus(Gain(HandOverPart(u, v))));
    PlusZero(t.receipts);
  }

  // ---------- The same, for Holds ----------

  lemma OwnMove<Id>(l: Ledger<Id>, pre: seq<Id>, g: Group<Id>, h: Group<Record>, start: Snapshot, t: Tally, x: Id, u: Record)
      returns (g': Group<Id>, h': Group<Record>)
    requires Ready(l, u.address, pre, g, h, start, u.before) && x !in l.vals && Books(h, t)
    requires u.reason == EpochRewardReason && SamePenalty(u.before, u.after)
    requires h.HandedOver().None? || h.Receipts().None?
    ensures Ready(Handle(l, x, u), u.address, pre, g', h', start, u.after)
    ensures Books(h', Plus(t, Tally(Gain(u), ZERO, ZERO)))
    ensures h'.HandedOver().Some? == h.HandedOver().Some? && h'.Receipts().Some? == h.Receipts().Some?
  {
    hide Updated, AfterHandOver, Leads, Ready, Books, Handle, StartOf;
    g', h' := Then(g, u.reason, x), Updated(h, u);
    assert Ready(Handle(l, x, u), u.address, pre, g', h', start, u.after) && Leads(h, StartOf(h, u.before), u.before) by {
      OwnReady(l, pre, g, h, start, x, u);
    }
    assert Books(h', Plus(t, Tally(Gain(u), ZERO, ZERO))) by {
      OwnBooks(h, StartOf(h, u.before), u, t);
    }
    OneRole(h, u);
  }

  lemma OwnHolds<Id>(l: Ledger<Id>, x: Id, u: Record, pre: seq<Id>, start: Snapshot, t: Tally, ds: set<Address>, ps: set<Address>)
    requires Holds(l, u.address, pre, start, u.before, t, ds, ps) && x !in l.vals && ds !! ps
    requires u.reason == EpochRewardReason && SamePenalty(u.before, u.after)
    ensures WF(l)
    ensures Holds(Handle(l, x, u), u.address, pre, start, u.after, Plus(t, Tally(Gain(u), ZERO, ZERO)), ds, ps)
  {
    hide Ready, Holds, Handle, Books;
    var h := Unpack(l, u.address, pre, start, u.before, t, ds, ps);
    var g', h' := OwnMove(l, pre, GroupOf(l, u.address), h, start, t, x, u);
    Pack(Handle(l, x, u), u.address, pre, g', h', start, u.after, Plus(t, Tally(Gain(u), ZERO, ZERO)), ds, ps);
  }

  lemma ReceiptMove<Id>(l: Ledger<Id>, pre: seq<Id>, g: Group<Id>, h: Group<Record>, start: Snapshot, t: Tally, x: Id, u: Record)
      returns (g': Group<Id>, h': Group<Record>)
    requires Ready(l, u.address, pre, g, h, start, u.before) && x !in l.vals && Books(h, t)
    requires u.reason == DelegateeEpochRewardReason && SamePenalty(u.before, u.after)
    requires h.HandedOver().None?
    ensures Ready(Handle(l, x, u), u.address, pre, g', h', start, u.after)
    ensures Books(h', Plus(t, Tally(ZERO, ZERO, Gain(u))))
    ensures h'.HandedOver().None?
  {
    hide Updated, AfterHandOver, Leads, Ready, Books, Handle, StartOf;
    ReceiptReady(l, pre, g, h, start, x, u);
    ReceiptBooks(h, StartOf(h, u.before), u, t);
    PoolOnly(h, u);
    g', h' := Then(g, u.reason, x), Updated(h, u);
  }

  lemma ReceiptHolds<Id>(l: Ledger<Id>, x: Id, u: Record, pre: seq<Id>, start: Snapshot, t: Tally, ds: set<Address>, ps: set<Address>)
    requires Holds(l, u.address, pre, start, u.before, t, ds, ps) && x !in l.vals && ds !! ps && u.address in ps
    requires u.reason == DelegateeEpochRewardReason && SamePenalty(u.before, u.after)
    ensures WF(l)
    ensures Holds(Handle(l, x, u), u.address, pre, start, u.after, Plus(t, Tally(ZERO, ZERO, Gain(u))), ds, ps)
  {
    hide Ready, Holds, Handle, Books;
    var h := Unpack(l, u.address, pre, start, u.before, t, ds, ps);
    var g', h' := ReceiptMove(l, pre, GroupOf(l, u.address), h, start, t, x, u);
    Pack(Handle(l, x, u), u.address, pre, g', h', start, u.after, Plus(t, Tally(ZERO, ZERO, Gain(u))), ds, ps);
  }

  lemma HandOverMove<Id>(l: Ledger<Id>, pre: seq<Id>, g: Group<Id>, h: Group<Record>, start: Snapshot, t: Tally,
                         x: Id, y: Id, u: Record, v: Record)
      returns (g': Group<Id>, h': Group<Record>)
    requires Ready(l, u.address, pre, g, h, start, u.before) && x !in l.vals && y !in l.vals && x != y && Books(h, t)
    requires SamePenalty(u.before, u.after) && h.Receipts().None?
    ensures Ready(GiveAway(l, x, y, u, v), u.address, pre, g', h', start, u.after)
    ensures Books(h', Plus(t, Tally(Gain(RewardPart(u, v)), Gain(HandOverPart(u, v)), ZERO)))
    ensures h'.Receipts().None?
  {
    hide Updated, AfterHandOver, Leads, Ready, Books, Handle, StartOf;
    HandOverReady(l, pre, g, h, start, x, y, u, v);
    assert Books(AfterHandOver(h, u, v), Plus(t, Tally(Gain(RewardPart(u, v)), Gain(HandOverPart(u, v)), ZERO))) by {
      HandOverBooks(h, StartOf(h, u.before), u, v, t);
    }
    DelegatorOnly(h, u, v);
    g', h' := ThenBoth(g, x, y), AfterHandOver(h, u, v);
  }

  lemma HandOverHolds<Id>(l: Ledger<Id>, x: Id, y: Id, u: Record, v: Record, pre: seq<Id>, start: Snapshot, t: Tally,
                          ds: set<Address>, ps: set<Address>)
    requires Holds(l, u.address, pre, start, u.before, t, ds, ps) && x !in l.vals && y !in l.vals && x != y
    requires ds !! ps && u.address in ds && SamePenalty(u.before, u.after)
    ensures WF(l)
    ensures Holds(GiveAway(l, x, y, u, v), u.address, pre, start, u.after,
                  Plus(t, Tally(Gain(RewardPart(u, v)), Gain(HandOverPart(u, v)), ZERO)), ds, ps)
  {
    hide Ready, Holds, Handle, Books;
    var h := Unpack(l, u.address, pre, start, u.before, t, ds, ps);
    var g', h' := HandOverMove(l, pre, GroupOf(l, u.address), h, start, t, x, y, u, v);
    Pack(GiveAway(l, x, y, u, v), u.address, pre, g', h', start, u.after,
         Plus(t, Tally(Gain(RewardPart(u, v)), Gain(HandOverPart(u, v)), ZERO)), ds, ps);
  }

  // ---------- One step, for one address ----------

  // Steps that hand over do so from an address in ds to one in ps.
  ghost predicate RolesIn<Id>(s: Step<Id>, ds: set<Address>, ps: set<Address>) {
    s.IsHandOver() ==> s.Delegator().1.address in ds && s.Pool().1.address in ps
  }

  lemma StepHolds<Id>(l: Ledger<Id>, s: Step<Id>, w: World, w': World, a: Address, pre: seq<Id>, start: Snapshot, t: Tally,
                      ds: set<Address>, ps: set<Address>)
    requires WF(l) && Fresh(l, s) && Sees(s, w, w') && RolesIn(s, ds, ps) && ds !! ps
    requires Holds(l, a, pre, start, w(a), t, ds, ps)
    ensures Holds(Complete(l, s), a, pre, start, w'(a), Plus(t, StepTally(s, a)), ds, ps)
  {
    hide Holds, Handle, HandOver, Post;
    forall i | 0 <= i < |s.pend| ensures s.pend[i].1.reason == EpochRewardReason {
      assert SeesOne(s.pend[i].1, w, w');
    }
    if s.IsHandOver() {
      HandOverStepHolds(l, s, w, w', a, pre, start, t, ds, ps);
    } else if |s.pend| == 1 {
      var x, u := s.pend[0].0, s.pend[0].1;
      assert SeesOne(u, w, w');
      OwnStepHolds(l, x, u, w, w', a, pre, start, t, ds, ps);
      assert PostAll(l, s.pend[..0]) == l;
      assert Complete(l, s) == Post(l, x, u);
    } else {
      PlusEmpty(t);
    }
  }

  lemma PlusEmpty(t: Tally)
    ensures Plus(t, EMPTY) == t
  {
  }

  lemma OwnStepHolds<Id>(l: Ledger<Id>, x: Id, u: Record, w: World, w': World, a: Address, pre: seq<Id>, start: Snapshot, t: Tally,
                         ds: set<Address>, ps: set<Address>)
    requires WF(l) && x !in l.vals && SeesOne(u, w, w') && ds !! ps
    requires a != u.address ==> w'(a) == w(a)
    requires Holds(l, a, pre, start, w(a), t, ds, ps)
    ensures Holds(Post(l, x, u), a, pre, start, w'(a),
                  Plus(t, if a == u.address then Tally(Gain(u), ZERO, ZERO) else EMPTY), ds, ps)
  {
    hide Holds, Handle;
    PlusEmpty(t);
    if Changed(u) {
      if a == u.address {
        OwnHolds(l, x, u, pre, start, t, ds, ps);
      } else {
        OthersHold(l, x, u, a, pre, start, w(a), t, ds, ps);
      }
    } else {
      assert u.before == u.after;
      assert Gain(u) == ZERO;
    }
  }

  lemma HandOverStepHolds<Id>(l: Ledger<Id>, s: Step<Id>, w: World, w': World, a: Address, pre: seq<Id>, start: Snapshot, t: Tally,
                              ds: set<Address>, ps: set<Address>)
    requires WF(l) && Fresh(l, s) && Sees(s, w, w') && RolesIn(s, ds, ps) && ds !! ps && s.IsHandOver()
    requires Holds(l, a, pre, start, w(a), t, ds, ps)
    ensures Holds(Complete(l, s), a, pre, start, w'(a), Plus(t, StepTally(s, a)), ds, ps)
  {
    hide Holds, Handle, GiveAway, WF;
    assert s.pend[0].0 != s.pend[1].0;
    var x, y, z := s.spare[0], s.spare[1], s.Pool().0;
    assert x in s.spare && y in s.spare;
    var u, v := s.Delegator().1, s.Pool().1;
    GiveAwayWF(l, x, y, u, v);
    var l1 := GiveAway(l, x, y, u, v);
    assert z !in l1.vals;
    assert SeesOne(u, w, w') && SeesOne(v, w, w');
    PlusEmpty(t);
    if a == u.address {
      HandOverHolds(l, x, y, u, v, pre, start, t, ds, ps);
      OthersHold(l1, z, ReceiptPart(v), a, pre, start, w'(a), Plus(t, StepTally(s, a)), ds, ps);
    } else {
      GiveAwayOthersHold(l, x, y, u, v, a, pre, start, w(a), t, ds, ps);
      if a == v.address {
        assert Gain(ReceiptPart(v)) == Gain(v);
        ReceiptHolds(l1, z, ReceiptPart(v), pre, start, t, ds, ps);
      } else {
        OthersHold(l1, z, ReceiptPart(v), a, pre, start, w(a), t, ds, ps);
      }
    }
  }

  lemma GiveAwayOthersHold<Id>(l: Ledger<Id>, x: Id, y: Id, u: Record, v: Record, b: Address, pre: seq<Id>,
                               start: Snapshot, end: Snapshot, t: Tally, ds: set<Address>, ps: set<Address>)
    requires WF(l) && Holds(l, b, pre, start, end, t, ds, ps)
    requires x !in l.vals && y !in l.vals && x != y && b != u.address
    ensures Holds(GiveAway(l, x, y, u, v), b, pre, start, end, t, ds, ps)
  {
    hide Holds, Handle, WF;
    GiveAwayWF(l, x, y, u, v);
    OthersHold(l, x, RewardPart(u, v), b, pre, start, end, t, ds, ps);
    OthersHold(Handle(l, x, RewardPart(u, v)), y, HandOverPart(u, v), b, pre, start, end, t, ds, ps);
  }

  // ---------- Every run of the phase ----------

  // ls and ws are the ledgers and the world before, between and after the steps.
  ghost predicate IsRun<Id>(steps: seq<Step<Id>>, ls: seq<Ledger<Id>>, ws: seq<World>) {
    && |ls| == |ws| == |steps| + 1
    && forall i | 0 <= i < |steps| :: RunsOne(steps[i], ls[i], ls[i + 1], ws[i], ws[i + 1])
  }

  ghost predicate RunsOne<Id>(s: Step<Id>, l: Ledger<Id>, l': Ledger<Id>, w: World, w': World) {
    WF(l) && Fresh(l, s) && l' == Complete(l, s) && Sees(s, w, w')
  }

  // Nothing of the phase has been recorded yet.
  ghost predicate PhaseStart<Id>(l: Ledger<Id>, a: Address) {
    forall r | IsEpochGroup(r) :: Lookup(l, r, a).None?
  }

  // Whatever the run, the records of a lead from `start` to its state now, and what the phase
  // recorded for a says exactly what the steps gave it, provided nobody is both delegator and pool.
  lemma {:induction false} EveryRun<Id>(steps: seq<Step<Id>>, ls: seq<Ledger<Id>>, ws: seq<World>, a: Address, start: Snapshot,
                                        ds: set<Address>, ps: set<Address>)
    requires IsRun(steps, ls, ws) && ds !! ps
    requires forall i | 0 <= i < |steps| :: RolesIn(steps[i], ds, ps)
    requires WF(ls[0]) && PhaseStart(ls[0], a) && Chained(ls[0], a, start, ws[0](a))
    ensures Holds(ls[|steps|], a, RecordsOf(ls[0], a), start, ws[|steps|](a), RunTally(steps, a), ds, ps)
  {
    var n := |steps|;
    hide Holds, Complete, Sees, Fresh, RolesIn, StepTally, Chained, PhaseStart, RecordsOf;
    if n == 0 {
      StartHolds(ls[0], a, start, ws[0](a), ds, ps);
    } else {
      assert RunsOne(steps[n - 1], ls[n - 1], ls[n], ws[n - 1], ws[n]);
      assert forall i | 0 <= i < n - 1 :: RunsOne(steps[..n - 1][i], ls[..n][i], ls[..n][i + 1], ws[..n][i], ws[..n][i + 1]) by {
        forall i | 0 <= i < n - 1
          ensures RunsOne(steps[..n - 1][i], ls[..n][i], ls[..n][i + 1], ws[..n][i], ws[..n][i + 1])
        {
          assert RunsOne(steps[i], ls[i], ls[i + 1], ws[i], ws[i + 1]);
        }
      }
      EveryRun(steps[..n - 1], ls[..n], ws[..n], a, start, ds, ps);
      StepHolds(ls[n - 1], steps[n - 1], ws[n - 1], ws[n], a, RecordsOf(ls[0], a), start, RunTally(steps[..n - 1], a), ds, ps);
    }
  }

  lemma StartHolds<Id>(l: Ledger<Id>, a: Address, start: Snapshot, end: Snapshot, ds: set<Address>, ps: set<Address>)
    requires WF(l) && PhaseStart(l, a) && Chained(l, a, start, end)
    ensures Holds(l, a, RecordsOf(l, a), start, end, EMPTY, ds, ps)
  {
    assert forall r | IsEpochGroup(r) :: Lookup(l, r, a).None?;
    assert GroupOf(l, a) == NoGroup;
    assert RecordsOf(l, a) == RecordsOf(l, a) + NoGroup.Members();
    assert Ready(l, a, RecordsOf(l, a), GroupOf(l, a), NoGroup, start, end);
    assert Books(NoGroup, EMPTY) && InRole(NoGroup, a, ds, ps);
  }

  // What the record kept for a reason and an address says was gained.
  ghost function Kept<Id>(l: Ledger<Id>, reason: Reason, a: Address): Amounts
    requires WF(l)
  {
    var x := Lookup(l, reason, a);
    if x.Some? then assert Keeps(l.vals, x.value, reason, a); Gain(l.vals[x.value]) else ZERO
  }

  lemma WhatHolds<Id>(l: Ledger<Id>, a: Address, pre: seq<Id>, start: Snapshot, end: Snapshot, t: Tally,
                      ds: set<Address>, ps: set<Address>)
    requires Holds(l, a, pre, start, end, t, ds, ps)
    ensures WF(l) && Chained(l, a, start, end)
    ensures t == Tally(Kept(l, EpochRewardReason, a), Kept(l, DelegatorEpochRewardReason, a), Kept(l, DelegateeEpochRewardReason, a))
  {
    var h := Unpack(l, a, pre, start, end, t, ds, ps);
    var g := GroupOf(l, a);
    SaysAll(l.vals, g, h);
    assert HasMember(l, a, g, EpochRewardReason);
    assert HasMember(l, a, g, DelegatorEpochRewardReason);
    assert HasMember(l, a, g, DelegateeEpochRewardReason);
  }

  // ---------- Why nobody may be both ----------

  // Whoever gives a reward away and is then paid as a pool has a gap in its records,
  // unless what it gave away comes to nothing.
  lemma DelegatorThenPool<Id>(l: Ledger<Id>, pre: seq<Id>, start: Snapshot, x: Id, y: Id, z: Id, u: Record, v: Record, r: Record)
    requires Ready(l, u.address, pre, NoGroup, NoGroup, start, u.before) && SamePenalty(u.before, u.after)
    requires x !in l.vals && y !in l.vals && z !in l.vals && x != y && x != z && y != z
    requires r.address == u.address && r.reason == DelegateeEpochRewardReason
    requires r.before == u.after && SamePenalty(r.before, r.after)
    ensures WF(l) && WF(GiveAway(l, x, y, u, v)) && z !in GiveAway(l, x, y, u, v).vals
    ensures WF(Handle(GiveAway(l, x, y, u, v), z, r))
    ensures Chained(Handle(GiveAway(l, x, y, u, v), z, r), u.address, start, r.after)
            <==> v.after.balance - v.before.balance == u.after.balance - u.before.balance
  {
    hide GiveAway, Handle, Ready, EndsIn, WF, AfterHandOver, StandStill, Updated, Chained;
    HandOverReady(l, pre, NoGroup, NoGroup, start, x, y, u, v);
    GiveAwayWF(l, x, y, u, v);
    FirstHandOver(u, v);
    HandleWF(GiveAway(l, x, y, u, v), z, r);
    ReceiptKeepsChainOf(GiveAway(l, x, y, u, v), u.address, pre, ThenBoth(NoGroup, x, y), AfterHandOver(NoGroup, u, v), start, z, r);
  }

  lemma FirstHandOver(u: Record, v: Record)
    ensures AfterHandOver(NoGroup, u, v) == OwnHanded(RewardPart(u, v), HandOverPart(u, v))
  {
  }

  // A reward of 1 is handed over by `a`, which is then paid 1 as a pool.
  lemma DelegatorThenPoolExample(a: Address, b: Address)
    ensures var none, one := Snapshot(0, 0, 0, 0), Snapshot(1, 0, 0, 0);
            var u, v := Record(a, EpochRewardReason, none, none, None, None), Record(b, EpochRewardReason, none, one, None, None);
            var r := Record(a, DelegateeEpochRewardReason, none, one, None, None);
            var l: Ledger<nat> := Empty();
            && Ready(l, a, [], NoGroup, NoGroup, none, none)
            && WF(l) && WF(GiveAway(l, 0, 1, u, v)) && 2 !in GiveAway(l, 0, 1, u, v).vals
            && WF(Handle(GiveAway(l, 0, 1, u, v), 2, r))
            && !Chained(Handle(GiveAway(l, 0, 1, u, v), 2, r), a, none, one)
  {
    var none, one := Snapshot(0, 0, 0, 0), Snapshot(1, 0, 0, 0);
    var u, v := Record(a, EpochRewardReason, none, none, None, None), Record(b, EpochRewardReason, none, one, None, None);
    var r := Record(a, DelegateeEpochRewardReason, none, one, None, None);
    hide GiveAway, Handle, Chained;
    DelegatorThenPool<nat>(Empty(), [], none, 0, 1, 2, u, v, r);
  }

  // ---------- What was recorded before the phase ----------

  // All of `before` is still there, unchanged and in its place; the phase merges into records of its own only.
  ghost predicate KeepsOld<Id>(before: Ledger<Id>, l: Ledger<Id>) {
    && WF(l) && before.list <= l.list
    && (forall x | x in before.vals :: x in l.vals && l.vals[x] == before.vals[x])
    && (forall r, a | IsEpochGroup(r) && Lookup(l, r, a).Some? :: Lookup(l, r, a).value !in before.vals)
    && LinksNew(before, l.byNext) && LinksNew(before, l.byPrev)
  }

  // Links of new records lead to new records.
  ghost predicate LinksNew<Id>(before: Ledger<Id>, links: map<Id, Id>) {
    forall x | x in links && x !in before.vals :: links[x] !in before.vals
  }

  lemma StartKeepsOld<Id>(l: Ledger<Id>)
    requires WF(l) && forall a :: PhaseStart(l, a)
    ensures KeepsOld(l, l)
  {
    forall r, a | IsEpochGroup(r) ensures Lookup(l, r, a).None? {
      assert PhaseStart(l, a);
    }
    forall x | x in l.byNext ensures x in l.vals {
      assert Joins(l.vals, x, l.byNext[x]);
    }
    forall x | x in l.byPrev ensures x in l.vals {
      assert Joins(l.vals, x, l.byPrev[x]);
    }
  }

  // Relinking touches the record and the one that continues it.
  lemma RelinkKeepsOld<Id>(before: Ledger<Id>, l: Ledger<Id>, x: Id)
    requires KeepsOld(before, l) && x in l.vals && x !in before.vals
    ensures KeepsOld(before, Relink(l, x))
  {
    RelinkWF(l, x);
    assert forall r, a :: Lookup(Relink(l, x), r, a) == Lookup(l, r, a);
    assert Relink(l, x).byNext == l.byNext && Relink(l, x).byPrev == l.byPrev;
    assert forall y | y in before.vals :: Relink(l, x).vals[y] == l.vals[y];
  }

  lemma MergeKeepsOld<Id>(before: Ledger<Id>, l: Ledger<Id>, k: Id, u: Record)
    requires KeepsOld(before, l) && IsEpochGroup(u.reason) && Lookup(l, u.reason, u.address) == Some(k)
    ensures k in l.vals && k !in before.vals && KeepsOld(before, MergeAt(l, k, u))
  {
    MergeAtWF(l, k, u);
    assert forall r, a :: Lookup(MergeAt(l, k, u), r, a) == Lookup(l, r, a);
  }

  lemma BeginKeepsOld<Id>(before: Ledger<Id>, l: Ledger<Id>, x: Id, u: Record)
    requires KeepsOld(before, l) && x !in l.vals && IsEpochGroup(u.reason)
    ensures x !in before.vals && KeepsOld(before, Start(l, x, u))
  {
    StartWF(l, x, u);
    assert x !in before.vals;
    var prev := Continues(l, u.reason, u.address);
    if prev.Some? {
      assert prev.value !in before.vals;
    }
  }

  lemma HandleKeepsOld<Id>(before: Ledger<Id>, l: Ledger<Id>, x: Id, u: Record)
    requires KeepsOld(before, l) && x !in l.vals && IsEpochGroup(u.reason)
    ensures WF(l) && KeepsOld(before, Handle(l, x, u))
  {
    var known := Lookup(l, u.reason, u.address);
    assert WF(l);
    hide KeepsOld, Relink;
    if known.Some? {
      MergeKeepsOld(before, l, known.value, u);
      RelinkKeepsOld(before, MergeAt(l, known.value, u), known.value);
    } else {
      BeginKeepsOld(before, l, x, u);
      StartWF(l, x, u);
      RelinkKeepsOld(before, Start(l, x, u), x);
    }
  }

  lemma StepKeepsOld<Id>(before: Ledger<Id>, l: Ledger<Id>, s: Step<Id>, w: World, w': World)
    requires KeepsOld(before, l) && WF(l) && Fresh(l, s) && Sees(s, w, w')
    ensures KeepsOld(before, Complete(l, s))
  {
    hide KeepsOld, WF, Handle;
    forall i | 0 <= i < |s.pend| ensures s.pend[i].1.reason == EpochRewardReason {
      assert SeesOne(s.pend[i].1, w, w');
    }
    if s.IsHandOver() {
      assert s.pend[0].0 != s.pend[1].0;
      var x, y, z := s.spare[0], s.spare[1], s.Pool().0;
      var u, v := s.Delegator().1, s.Pool().1;
      GiveAwayWF(l, x, y, u, v);
      HandleKeepsOld(before, l, x, RewardPart(u, v));
      HandleKeepsOld(before, Handle(l, x, RewardPart(u, v)), y, HandOverPart(u, v));
      assert z !in GiveAway(l, x, y, u, v).vals;
      HandleKeepsOld(before, GiveAway(l, x, y, u, v), z, ReceiptPart(v));
    } else if |s.pend| == 1 {
      var x, u := s.pend[0].0, s.pend[0].1;
      assert PostAll(l, s.pend[..0]) == l;
      assert Complete(l, s) == Post(l, x, u);
      HandleKeepsOld(before, l, x, u);
    }
  }
}
