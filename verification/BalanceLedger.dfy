/**
 The balance-update ledger of one block, as a value.  Records are named by
 identities `Id` (in the program: the addresses of the record objects), so that
 merging a later reward into an earlier record, in place, is an update of `vals`.
 */
module BalanceLedger {
  import opened Common

  datatype Reason =
    | TxReason
    | VerifiedStakeTransferReason
    | ProposerRewardReason
    | CommitteeRewardReason
    | EpochRewardReason
    | FailedValidationReason
    | PenaltyReason
    | EpochPenaltyResetReason
    | DustClearingReason
    | ContractReason
    | EmbeddedContractTerminationReason
    | DelegatorEpochRewardReason
    | DelegateeEpochRewardReason
    | IdentityClearingReason

  // What a record remembers of an account at one moment; an absent penalty is zero.
  datatype Snapshot = Snapshot(balance: int, stake: int, penalty: int, penaltySeconds: nat)

  datatype Record = Record(
    address: Address,
    reason: Reason,
    before: Snapshot,
    after: Snapshot,
    payment: Option<int>,
    txHash: Option<Hash>)

  datatype Ledger<Id(==)> = Ledger(
    list: seq<Id>,                             // the collected updates, in order
    vals: map<Id, Record>,                     // what each of them says now
    index: map<Reason, map<Address, Id>>,      // the record later rewards are merged into
    byPrev: map<Id, Id>,                       // record -> the record that continues it
    byNext: map<Id, Id>)                       // record -> the record it continues

  function Empty<Id(==)>(): Ledger<Id> {
    Ledger([], map[], map[], map[], map[])
  }

  predicate Merges(reason: Reason) {
    reason == EpochRewardReason || reason == CommitteeRewardReason || reason == VerifiedStakeTransferReason
  }

  predicate IsEpochGroup(reason: Reason) {
    reason == EpochRewardReason || reason == DelegatorEpochRewardReason || reason == DelegateeEpochRewardReason
  }

  function ValueOrZero(v: Option<int>): int {
    if v.Some? then v.value else 0
  }

  predicate SamePenalty(s: Snapshot, t: Snapshot) {
    s.penalty == t.penalty && s.penaltySeconds == t.penaltySeconds
  }

  predicate BalanceChanged(u: Record) {
    u.before.balance != u.after.balance
  }

  predicate Changed(u: Record) {
    || u.before.balance != u.after.balance
    || u.before.stake != u.after.stake
    || u.before.penalty != u.after.penalty
    || u.before.penaltySeconds != u.after.penaltySeconds
    || (u.payment.Some? && u.payment.value > 0)
  }

  function Lookup<Id(==)>(l: Ledger<Id>, reason: Reason, a: Address): Option<Id> {
    Find(l.index, reason, a)
  }

  function Find<Id(==)>(index: map<Reason, map<Address, Id>>, reason: Reason, a: Address): Option<Id> {
    if reason in index && a in index[reason] then Some(index[reason][a]) else None
  }

  // ---------- Well-formedness: every call keeps it, whatever the rewards are ----------

  ghost predicate WF<Id>(l: Ledger<Id>) {
    && NoDup(l.list)
    && l.vals.Keys == (set x | x in l.list)
    && (forall r, a | Lookup(l, r, a).Some? :: Keeps(l.vals, Lookup(l, r, a).value, r, a))
    && LinksWF(l.vals, l.byNext)
    && LinksWF(l.vals, l.byPrev)
  }

  ghost predicate Keeps<Id>(vals: map<Id, Record>, x: Id, r: Reason, a: Address) {
    x in vals && vals[x].address == a && vals[x].reason == r
  }

  // Links join records of one address and of different reasons.
  ghost predicate LinksWF<Id>(vals: map<Id, Record>, links: map<Id, Id>) {
    forall x | x in links :: Joins(vals, x, links[x])
  }

  ghost predicate Joins<Id>(vals: map<Id, Record>, x: Id, y: Id) {
    && x in vals && y in vals
    && vals[x].address == vals[y].address
    && vals[x].reason != vals[y].reason
  }

  // ---------- The operations ----------

  // What merging the update u makes of the record bu.
  function Merge(bu: Record, u: Record): Record {
    if u.reason == DelegatorEpochRewardReason then
      bu.(before := u.before, after := u.after, payment := u.payment)
    else
      bu.(after := u.after,
          payment := if u.payment.Some? then Some(ValueOrZero(bu.payment) + u.payment.value) else bu.payment)
  }

  function WithAmounts(s: Snapshot, balance: int, stake: int): Snapshot {
    s.(balance := balance, stake := stake)
  }

  // u, starting where p ends.
  function From(u: Record, p: Record): Record {
    u.(before := WithAmounts(u.before, p.after.balance, p.after.stake))
  }

  // r, with the net change of its successor q taken off its end.
  function CutBack(r: Record, q: Record): Record {
    r.(after := WithAmounts(r.after,
      r.after.balance - (q.after.balance - q.before.balance),
      r.after.stake - (q.after.stake - q.before.stake)))
  }

  // q, moved to start where r now ends.
  function MovedTo(r: Record, q: Record): Record {
    q.(before := WithAmounts(q.before, r.after.balance, r.after.stake),
       after := WithAmounts(q.after,
         q.after.balance + (r.after.balance - q.before.balance),
         q.after.stake + (r.after.stake - q.before.stake)))
  }

  // Adjusts x to the record it continues or, failing that, takes the net change
  // of the record that continues x off x and moves that record behind x.
  function Relink<Id(==)>(l: Ledger<Id>, x: Id): Ledger<Id>
    requires x in l.vals && LinksWF(l.vals, l.byNext) && LinksWF(l.vals, l.byPrev)
  {
    var r := l.vals[x];
    if !IsEpochGroup(r.reason) then l
    else if x in l.byNext then
      l.(vals := l.vals[x := From(r, l.vals[l.byNext[x]])])
    else if x in l.byPrev then
      var q := l.vals[l.byPrev[x]];
      l.(vals := l.vals[x := CutBack(r, q)][l.byPrev[x] := MovedTo(CutBack(r, q), q)])
    else l
  }

  function Link<Id(==)>(l: Ledger<Id>, prev: Id, next: Id): Ledger<Id> {
    l.(byNext := l.byNext[next := prev], byPrev := l.byPrev[prev := next])
  }

  // The record of the address that a new epoch-reward record continues.
  function Continues<Id(==)>(l: Ledger<Id>, reason: Reason, a: Address): Option<Id> {
    match reason
    case EpochRewardReason =>
      var d := Lookup(l, DelegatorEpochRewardReason, a);
      if d.Some? then d else Lookup(l, DelegateeEpochRewardReason, a)
    case DelegatorEpochRewardReason => Lookup(l, EpochRewardReason, a)
    case DelegateeEpochRewardReason => Lookup(l, EpochRewardReason, a)
    case _ => None
  }

  function Append<Id(==)>(l: Ledger<Id>, x: Id, u: Record): Ledger<Id> {
    l.(list := l.list + [x], vals := l.vals[x := u])
  }

  function Register<Id(==)>(l: Ledger<Id>, x: Id, reason: Reason, a: Address): Ledger<Id> {
    l.(index := l.index[reason := (if reason in l.index then l.index[reason] else map[])[a := x]])
  }

  // A record without an earlier one to merge into: kept for its reason and address,
  // linked to the address's other epoch-reward record, and added to the list.
  function Start<Id(==)>(l: Ledger<Id>, x: Id, u: Record): Ledger<Id> {
    var l1 := Register(Append(l, x, u), x, u.reason, u.address);
    var prev := Continues(l, u.reason, u.address);
    if prev.Some? then Link(l1, prev.value, x) else l1
  }

  function MergeAt<Id(==)>(l: Ledger<Id>, k: Id, u: Record): Ledger<Id>
    requires k in l.vals
  {
    l.(vals := l.vals[k := Merge(l.vals[k], u)])
  }

  // Records u: into the record already kept for its reason and address, or as a new record x.
  function Handle<Id(==)>(l: Ledger<Id>, x: Id, u: Record): Ledger<Id>
    requires WF(l) && x !in l.vals
  {
    var known := Lookup(l, u.reason, u.address);
    if known.Some? then
      MergeAtWF(l, known.value, u);
      Relink(MergeAt(l, known.value, u), known.value)
    else
      StartWF(l, x, u);
      Relink(Start(l, x, u), x)
  }

  lemma HandleWF<Id>(l: Ledger<Id>, x: Id, u: Record)
    requires WF(l) && x !in l.vals
    ensures WF(Handle(l, x, u))
    ensures Handle(l, x, u).vals.Keys == l.vals.Keys + if Lookup(l, u.reason, u.address).Some? then {} else {x}
    ensures if Lookup(l, u.reason, u.address).Some? then
              Handle(l, x, u).list == l.list && SameOwners(l.vals, Handle(l, x, u).vals)
            else
              Handle(l, x, u).list == l.list + [x] && SameOwners(l.vals[x := u], Handle(l, x, u).vals)
  {
    var known := Lookup(l, u.reason, u.address);
    if known.Some? {
      MergeAtWF(l, known.value, u);
      RelinkWF(MergeAt(l, known.value, u), known.value);
    } else {
      StartWF(l, x, u);
      RelinkWF(Start(l, x, u), x);
    }
  }

  // One completed update that is not a hand-over to a pool.
  function Post<Id(==)>(l: Ledger<Id>, x: Id, u: Record): Ledger<Id>
    requires WF(l) && x !in l.vals
  {
    if !Changed(u) then l
    else if Merges(u.reason) then Handle(l, x, u)
    else Append(l, x, u)
  }

  // ---------- A reward handed over to a pool ----------

  // The whole reward, as if the delegator kept it; v is the pool's update.
  function RewardPart(u: Record, v: Record): Record {
    Record(u.address, EpochRewardReason, u.before,
           u.after.(balance := u.before.balance + (v.after.balance - v.before.balance)), None, None)
  }

  // ... the delegator's giving it away ...
  function HandOverPart(u: Record, v: Record): Record {
    Record(u.address, DelegatorEpochRewardReason, RewardPart(u, v).after, u.after, None, None)
  }

  // ... and the pool's receiving it.
  function ReceiptPart(v: Record): Record {
    v.(reason := DelegateeEpochRewardReason)
  }

  // The updates collected between Begin and Complete, and identities for the two new records of a hand-over.
  datatype Step<Id(==)> = Step(pend: seq<(Id, Record)>, spare: seq<Id>) {
    predicate IsHandOver() {
      && |pend| == 2
      && pend[0].1.reason == EpochRewardReason && pend[1].1.reason == EpochRewardReason
      && pend[0].1.address != pend[1].1.address
    }

    // The one whose balance stands still is taken for the delegator.
    function Delegator(): (Id, Record)
      requires IsHandOver()
    {
      if BalanceChanged(pend[0].1) then pend[1] else pend[0]
    }

    function Pool(): (Id, Record)
      requires IsHandOver()
    {
      if BalanceChanged(pend[0].1) then pend[0] else pend[1]
    }
  }

  function GiveAway<Id(==)>(l: Ledger<Id>, x: Id, y: Id, u: Record, v: Record): Ledger<Id>
    requires WF(l) && x !in l.vals && y !in l.vals && x != y
  {
    HandleWF(l, x, RewardPart(u, v));
    Handle(Handle(l, x, RewardPart(u, v)), y, HandOverPart(u, v))
  }

  lemma GiveAwayWF<Id>(l: Ledger<Id>, x: Id, y: Id, u: Record, v: Record)
    requires WF(l) && x !in l.vals && y !in l.vals && x != y
    ensures WF(Handle(l, x, RewardPart(u, v))) && y !in Handle(l, x, RewardPart(u, v)).vals
    ensures WF(GiveAway(l, x, y, u, v)) && GiveAway(l, x, y, u, v).vals.Keys <= l.vals.Keys + {x, y}
  {
    hide WF, Handle;
    HandleWF(l, x, RewardPart(u, v));
    HandleWF(Handle(l, x, RewardPart(u, v)), y, HandOverPart(u, v));
  }

  function HandOver<Id(==)>(l: Ledger<Id>, x: Id, y: Id, z: Id, u: Record, v: Record): Ledger<Id>
    requires WF(l) && x !in l.vals && y !in l.vals && z !in l.vals && x != y && x != z && y != z
  {
    GiveAwayWF(l, x, y, u, v);
    Handle(GiveAway(l, x, y, u, v), z, ReceiptPart(v))
  }

  ghost predicate Fresh<Id>(l: Ledger<Id>, s: Step<Id>) {
    && FreshAll(l, s.pend)
    && (s.IsHandOver() ==>
          && |s.spare| == 2 && s.spare[0] != s.spare[1]
          && s.spare[0] !in l.vals && s.spare[1] !in l.vals
          && forall i | 0 <= i < |s.pend| :: s.pend[i].0 !in s.spare)
  }

  ghost predicate FreshAll<Id>(l: Ledger<Id>, pend: seq<(Id, Record)>) {
    && (forall i | 0 <= i < |pend| :: pend[i].0 !in l.vals)
    && forall i, j | 0 <= i < j < |pend| :: pend[i].0 != pend[j].0
  }

  function PostAll<Id(==)>(l: Ledger<Id>, pend: seq<(Id, Record)>): Ledger<Id>
    requires WF(l) && FreshAll(l, pend)
    decreases |pend|, 0
  {
    if |pend| == 0 then l
    else
      var n := |pend| - 1;
      PostAllWF(l, pend[..n]);
      Post(PostAll(l, pend[..n]), pend[n].0, pend[n].1)
  }

  // The ledger after the updates of s are completed.
  function Complete<Id(==)>(l: Ledger<Id>, s: Step<Id>): Ledger<Id>
    requires WF(l) && Fresh(l, s)
  {
    if s.IsHandOver() then
      assert s.pend[0].0 != s.pend[1].0;
      HandOver(l, s.spare[0], s.spare[1], s.Pool().0, s.Delegator().1, s.Pool().1)
    else PostAll(l, s.pend)
  }

  lemma PostWF<Id>(l: Ledger<Id>, x: Id, u: Record)
    requires WF(l) && x !in l.vals
    ensures WF(Post(l, x, u)) && Post(l, x, u).vals.Keys <= l.vals.Keys + {x}
  {
    if Merges(u.reason) {
      HandleWF(l, x, u);
    } else {
      AppendWF(l, x, u);
    }
  }

  lemma {:induction false} PostAllWF<Id>(l: Ledger<Id>, pend: seq<(Id, Record)>)
    requires WF(l) && FreshAll(l, pend)
    ensures WF(PostAll(l, pend))
    ensures PostAll(l, pend).vals.Keys <= l.vals.Keys + set i | 0 <= i < |pend| :: pend[i].0
    decreases |pend|, 1
  {
    if |pend| > 0 {
      var n := |pend| - 1;
      PostAllWF(l, pend[..n]);
      PostWF(PostAll(l, pend[..n]), pend[n].0, pend[n].1);
    }
  }

  lemma HandOverWF<Id>(l: Ledger<Id>, x: Id, y: Id, z: Id, u: Record, v: Record)
    requires WF(l) && x !in l.vals && y !in l.vals && z !in l.vals && x != y && x != z && y != z
    ensures WF(HandOver(l, x, y, z, u, v)) && HandOver(l, x, y, z, u, v).vals.Keys <= l.vals.Keys + {x, y, z}
  {
    hide WF, Handle, GiveAway;
    GiveAwayWF(l, x, y, u, v);
    HandleWF(GiveAway(l, x, y, u, v), z, ReceiptPart(v));
  }

  lemma CompleteWF<Id>(l: Ledger<Id>, s: Step<Id>)
    requires WF(l) && Fresh(l, s)
    ensures WF(Complete(l, s))
    ensures forall x | x in Complete(l, s).list :: x in l.list || x in s.spare || exists i :: 0 <= i < |s.pend| && s.pend[i].0 == x
  {
    var l' := Complete(l, s);
    if s.IsHandOver() {
      assert s.pend[0].0 != s.pend[1].0;
      HandOverWF(l, s.spare[0], s.spare[1], s.Pool().0, s.Delegator().1, s.Pool().1);
      assert l'.vals.Keys <= l.vals.Keys + {s.spare[0], s.spare[1], s.pend[0].0, s.pend[1].0};
    } else {
      PostAllWF(l, s.pend);
    }
    forall x | x in l'.list ensures x in l.list || x in s.spare || exists i :: 0 <= i < |s.pend| && s.pend[i].0 == x {
      assert x in l'.vals;
    }
  }

  // ---------- Well-formedness is kept ----------

  // No record is added, dropped or moved to another address or reason.
  ghost predicate SameOwners<Id>(vals: map<Id, Record>, vals': map<Id, Record>) {
    && vals'.Keys == vals.Keys
    && forall x | x in vals :: vals'[x].address == vals[x].address && vals'[x].reason == vals[x].reason
  }

  lemma SameOwnersWF<Id>(l: Ledger<Id>, l': Ledger<Id>)
    requires WF(l) && l' == l.(vals := l'.vals) && SameOwners(l.vals, l'.vals)
    ensures WF(l')
  {
    forall r, a | Lookup(l', r, a).Some? ensures Keeps(l'.vals, Lookup(l', r, a).value, r, a) {
      assert Lookup(l', r, a) == Lookup(l, r, a);
    }
    assert forall x | x in l.byNext :: Joins(l.vals, x, l.byNext[x]);
    assert forall x | x in l.byPrev :: Joins(l.vals, x, l.byPrev[x]);
  }

  lemma MergeAtWF<Id>(l: Ledger<Id>, k: Id, u: Record)
    requires WF(l) && Lookup(l, u.reason, u.address) == Some(k)
    ensures k in l.vals && Keeps(l.vals, k, u.reason, u.address)
    ensures WF(MergeAt(l, k, u)) && SameOwners(l.vals, MergeAt(l, k, u).vals)
  {
    assert Keeps(l.vals, k, u.reason, u.address);
    SameOwnersWF(l, MergeAt(l, k, u));
  }

  lemma RelinkWF<Id>(l: Ledger<Id>, x: Id)
    requires WF(l) && x in l.vals
    ensures WF(Relink(l, x))
    ensures SameOwners(l.vals, Relink(l, x).vals)
    ensures Relink(l, x) == l.(vals := Relink(l, x).vals)
    ensures forall y | y in l.vals && l.vals[y].address != l.vals[x].address :: Relink(l, x).vals[y] == l.vals[y]
  {
    if x in l.byPrev {
      assert Joins(l.vals, x, l.byPrev[x]);
    }
    if x in l.byNext {
      assert Joins(l.vals, x, l.byNext[x]);
    }
    SameOwnersWF(l, Relink(l, x));
  }

  lemma StartWF<Id>(l: Ledger<Id>, x: Id, u: Record)
    requires WF(l) && x !in l.vals
    ensures WF(Start(l, x, u))
    ensures Start(l, x, u).list == l.list + [x] && Start(l, x, u).vals == l.vals[x := u]
    ensures forall r, b :: Lookup(Start(l, x, u), r, b) ==
              if r == u.reason && b == u.address then Some(x) else Lookup(l, r, b)
    ensures var prev := Continues(l, u.reason, u.address);
            if prev.Some? then
              && Keeps(l.vals, prev.value, l.vals[prev.value].reason, u.address)
              && Start(l, x, u).byNext == l.byNext[x := prev.value]
              && Start(l, x, u).byPrev == l.byPrev[prev.value := x]
            else Start(l, x, u).byNext == l.byNext && Start(l, x, u).byPrev == l.byPrev
  {
    var l0 := Append(l, x, u);
    AppendWF(l, x, u);
    var l1 := Register(l0, x, u.reason, u.address);
    RegisterWF(l0, x, u.reason, u.address);
    assert forall r, b :: Lookup(l0, r, b) == Lookup(l, r, b);
    var prev := Continues(l, u.reason, u.address);
    if prev.Some? {
      ContinuesOther(l, u.reason, u.address);
      LinkWF(l1, prev.value, x);
      assert forall r, b :: Lookup(Start(l, x, u), r, b) == Lookup(l1, r, b);
    }
  }

  lemma ContinuesOther<Id>(l: Ledger<Id>, reason: Reason, a: Address)
    requires WF(l) && Continues(l, reason, a).Some?
    ensures var x := Continues(l, reason, a).value;
            x in l.vals && l.vals[x].address == a && l.vals[x].reason != reason
  {
    var x := Continues(l, reason, a);
    assert exists r :: Lookup(l, r, a) == x && r != reason && Keeps(l.vals, x.value, r, a);
  }

  lemma AppendWF<Id>(l: Ledger<Id>, x: Id, u: Record)
    requires WF(l) && x !in l.vals
    ensures WF(Append(l, x, u))
  {
    var l' := Append(l, x, u);
    assert x !in l.list;
    forall r, a | Lookup(l', r, a).Some? ensures Keeps(l'.vals, Lookup(l', r, a).value, r, a) {
      assert Lookup(l', r, a) == Lookup(l, r, a);
    }
    assert forall y | y in l.byNext :: Joins(l.vals, y, l.byNext[y]);
    assert forall y | y in l.byPrev :: Joins(l.vals, y, l.byPrev[y]);
  }

  lemma RegisterWF<Id>(l: Ledger<Id>, x: Id, reason: Reason, a: Address)
    requires WF(l) && Keeps(l.vals, x, reason, a)
    ensures WF(Register(l, x, reason, a))
    ensures forall r, b :: Lookup(Register(l, x, reason, a), r, b) == if r == reason && b == a then Some(x) else Lookup(l, r, b)
  {
    var l' := Register(l, x, reason, a);
    forall r, b
      ensures Lookup(l', r, b) == if r == reason && b == a then Some(x) else Lookup(l, r, b)
    {
    }
    forall r, b | Lookup(l', r, b).Some? ensures Keeps(l'.vals, Lookup(l', r, b).value, r, b) {
    }
  }

  lemma LinkWF<Id>(l: Ledger<Id>, prev: Id, next: Id)
    requires WF(l) && Joins(l.vals, prev, next)
    ensures WF(Link(l, prev, next))
  {
    var l' := Link(l, prev, next);
    forall r, a | Lookup(l', r, a).Some? ensures Keeps(l'.vals, Lookup(l', r, a).value, r, a) {
      assert Lookup(l', r, a) == Lookup(l, r, a);
    }
    assert forall y | y in l.byNext :: Joins(l.vals, y, l.byNext[y]);
    assert forall y | y in l.byPrev :: Joins(l.vals, y, l.byPrev[y]);
  }
}
