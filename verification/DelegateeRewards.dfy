/**
 What pools earn through their delegators: kept per pool, delegator and reward
 type while the rewards are paid, then converted to one figure per party.
 */
module DelegateeRewards {
  import opened Common
  import opened RewardTypes

  // Rewards of one party by type.
  type Rewards = map<RewardType, int>

  function Of(r: Rewards, t: RewardType): int {
    if t in r then r[t] else 0
  }

  function Total(r: Rewards): int {
    Of(r, Validation) + Of(r, Flips) + Of(r, Invitations) + Of(r, FoundationPayouts) + Of(r, ZeroWalletFund)
    + Of(r, Invitations2) + Of(r, Invitations3) + Of(r, SavedInvite) + Of(r, SavedInviteWin) + Of(r, ReportedFlips)
    + Of(r, Staking) + Of(r, Candidate) + Of(r, ExtraFlips) + Of(r, Invitee1) + Of(r, Invitee2) + Of(r, Invitee3)
  }

  type Delegators = map<Address, Rewards>

  datatype DelegateeEpochRewards = DelegateeEpochRewards(totals: Rewards, delegators: Delegators)

  // ---------- Sums over the delegators of a pool ----------

  ghost function SumOfType(ds: Delegators, t: RewardType): int {
    if ds == map[] then 0
    else
      var d :| d in ds;
      Of(ds[d], t) + SumOfType(ds - {d}, t)
  }

  lemma {:induction false} SumOfTypeWithout(ds: Delegators, t: RewardType, d: Address)
    requires d in ds
    ensures SumOfType(ds, t) == Of(ds[d], t) + SumOfType(ds - {d}, t)
    decreases |ds|
  {
    var e :| e in ds && SumOfType(ds, t) == Of(ds[e], t) + SumOfType(ds - {e}, t);
    if e != d {
      SumOfTypeWithout(ds - {e}, t, d);
      SumOfTypeWithout(ds - {d}, t, e);
      assert ds - {e} - {d} == ds - {d} - {e};
    }
  }

  ghost function SumOfTotals(ds: Delegators): int {
    if ds == map[] then 0
    else
      var d :| d in ds;
      Total(ds[d]) + SumOfTotals(ds - {d})
  }

  lemma {:induction false} SumOfTotalsWithout(ds: Delegators, d: Address)
    requires d in ds
    ensures SumOfTotals(ds) == Total(ds[d]) + SumOfTotals(ds - {d})
    decreases |ds|
  {
    var e :| e in ds && SumOfTotals(ds) == Total(ds[e]) + SumOfTotals(ds - {e});
    if e != d {
      SumOfTotalsWithout(ds - {e}, d);
      SumOfTotalsWithout(ds - {d}, e);
      assert ds - {e} - {d} == ds - {d} - {e};
    }
  }

  // What a pool has of a type is what its delegators have of it together.
  ghost predicate Balanced(p: DelegateeEpochRewards) {
    forall t :: Of(p.totals, t) == SumOfType(p.delegators, t)
  }

  // Adding up types first or delegators first comes to the same.
  lemma {:induction false} Exchange(totals: Rewards, ds: Delegators)
    requires forall t :: Of(totals, t) == SumOfType(ds, t)
    ensures Total(totals) == SumOfTotals(ds)
    decreases |ds|
  {
    if ds == map[] {
      assert forall t :: Of(totals, t) == 0;
    } else {
      var d :| d in ds;
      SumOfTotalsWithout(ds, d);
      var rest: Rewards := map t: RewardType | true :: Of(totals, t) - Of(ds[d], t);
      forall t ensures Of(rest, t) == SumOfType(ds - {d}, t) {
        SumOfTypeWithout(ds, t, d);
      }
      Exchange(rest, ds - {d});
    }
  }

  // ---------- Collecting ----------

  function Add(r: Rewards, t: RewardType, amount: int): Rewards {
    r[t := Of(r, t) + amount]
  }

  // The rewards of a pool, with one more for one of its delegators.
  function With(pool: DelegateeEpochRewards, delegator: Address, t: RewardType, balance: int): DelegateeEpochRewards {
    DelegateeEpochRewards(Add(pool.totals, t, balance), pool.delegators[delegator := Add(Row(pool, delegator), t, balance)])
  }

  method AddToPool(pool: DelegateeEpochRewards, delegator: Address, t: RewardType, balance: int) returns (pool': DelegateeEpochRewards)
    ensures pool' == With(pool, delegator, t, balance)
  {
    var totals, ds := Add(pool.totals, t, balance), pool.delegators;
    if delegator !in ds {
      ds := ds[delegator := map[]];
    }
    ds := ds[delegator := Add(ds[delegator], t, balance)];
    pool' := DelegateeEpochRewards(totals, ds);
  }

  // The rewards of all pools, with one more for a delegator of one of them.
  function Credited(m: map<Address, DelegateeEpochRewards>, delegator: Address, delegatee: Address, balance: int, t: RewardType):
      map<Address, DelegateeEpochRewards>
  {
    if balance == 0 then m
    else
      var pool := if delegatee in m then m[delegatee] else DelegateeEpochRewards(map[], map[]);
      m[delegatee := With(pool, delegator, t, balance)]
  }

  class Collector {
    var delegatees: map<Address, DelegateeEpochRewards>

    ghost predicate Valid()
      reads this
    {
      forall a | a in delegatees :: Balanced(delegatees[a])
    }

    constructor ()
      ensures Valid() && delegatees == map[]
    {
      delegatees := map[];
    }

    method AddDelegateeReward(delegator: Address, delegatee: Address, balance: int, t: RewardType)
      requires Valid()
      modifies this
      ensures Valid() && delegatees == Credited(old(delegatees), delegator, delegatee, balance, t)
      ensures forall p, d, s :: Held(delegatees, p, d, s) == Held(old(delegatees), p, d, s) +
                PaidOnce(Payment(delegator, delegatee, balance, t), p, d, s)
      ensures delegatees.Keys == old(delegatees.Keys) + if balance == 0 then {} else {delegatee}
    {
      CreditedHolds(delegatees, Payment(delegator, delegatee, balance, t));
      CreditedKeepsBalance(delegatees, delegator, delegatee, balance, t);
      hide Balanced, Held, PaidOnce, With;
      if balance == 0 {
        return;
      }
      if delegatee !in delegatees {
        delegatees := delegatees[delegatee := DelegateeEpochRewards(map[], map[])];
      }
      var pool := AddToPool(delegatees[delegatee], delegator, t, balance);
      delegatees := delegatees[delegatee := pool];
      assert delegatees == Credited(old(delegatees), delegator, delegatee, balance, t);
    }
  }

  datatype Payment = Payment(delegator: Address, delegatee: Address, balance: int, t: RewardType)

  // What a payment brings the pool a, or its delegator d, in all or of one type.
  function PaidOnce(p: Payment, a: Address, d: Option<Address>, t: Option<RewardType>): int {
    if p.delegatee == a && (d.None? || d.value == p.delegator) && (t.None? || t.value == p.t) then p.balance else 0
  }

  // What is kept of the same.
  function Held(m: map<Address, DelegateeEpochRewards>, a: Address, d: Option<Address>, t: Option<RewardType>): int {
    Amount(if a !in m then map[] else if d.None? then m[a].totals else Row(m[a], d.value), t)
  }

  function Amount(r: Rewards, t: Option<RewardType>): int {
    if t.None? then Total(r) else Of(r, t.value)
  }

  function Row(p: DelegateeEpochRewards, d: Address): Rewards {
    if d in p.delegators then p.delegators[d] else map[]
  }

  lemma CreditedHolds(m: map<Address, DelegateeEpochRewards>, p: Payment)
    ensures forall a, d, t :: Held(Credited(m, p.delegator, p.delegatee, p.balance, p.t), a, d, t) == Held(m, a, d, t) + PaidOnce(p, a, d, t)
  {
    hide Held, Credited, PaidOnce;
    forall a, d, t
      ensures Held(Credited(m, p.delegator, p.delegatee, p.balance, p.t), a, d, t) == Held(m, a, d, t) + PaidOnce(p, a, d, t)
    {
      CreditedHoldsOne(m, p, a, d, t);
    }
  }

  lemma CreditedHoldsOne(m: map<Address, DelegateeEpochRewards>, p: Payment, a: Address, d: Option<Address>, t: Option<RewardType>)
    ensures Held(Credited(m, p.delegator, p.delegatee, p.balance, p.t), a, d, t) == Held(m, a, d, t) + PaidOnce(p, a, d, t)
  {
    AddAmount(if a !in m then map[] else if d.None? then m[a].totals else Row(m[a], d.value), p.t, p.balance, t);
    hide Add, Amount;
  }

  lemma AddAmount(r: Rewards, t: RewardType, amount: int, s: Option<RewardType>)
    ensures Amount(Add(r, t, amount), s) == Amount(r, s) + if s.None? || s.value == t then amount else 0
  {
    TotalAdd(r, t, amount);
    hide Total;
  }

  lemma TotalAdd(r: Rewards, t: RewardType, amount: int)
    ensures Total(Add(r, t, amount)) == Total(r) + amount
  {
    var r' := Add(r, t, amount);
    hide Total;
    TotalWithout(r', t);
    assert r' - {t} == r - {t};
    if t in r {
      TotalWithout(r, t);
    } else {
      assert r - {t} == r;
    }
  }

  lemma CreditedKeepsBalance(m: map<Address, DelegateeEpochRewards>, delegator: Address, delegatee: Address, balance: int, t: RewardType)
    requires forall a | a in m :: Balanced(m[a])
    ensures forall a | a in Credited(m, delegator, delegatee, balance, t) :: Balanced(Credited(m, delegator, delegatee, balance, t)[a])
  {
    NoDelegators();
    hide Balanced;
    if balance != 0 {
      AddKeepsBalance(if delegatee in m then m[delegatee] else DelegateeEpochRewards(map[], map[]), delegator, t, balance);
    }
  }

  lemma NoDelegators()
    ensures Balanced(DelegateeEpochRewards(map[], map[]))
  {
  }

  lemma AddKeepsBalance(p: DelegateeEpochRewards, d: Address, t: RewardType, amount: int)
    requires Balanced(p)
    ensures Balanced(With(p, d, t, amount))
  {
    var row := Row(p, d);
    var ds := p.delegators[d := Add(row, t, amount)];
    forall s ensures Of(Add(p.totals, t, amount), s) == SumOfType(ds, s) {
      assert Of(p.totals, s) == SumOfType(p.delegators, s);
      SumOfTypeWithout(ds, s, d);
      assert ds - {d} == p.delegators - {d};
      if d in p.delegators {
        SumOfTypeWithout(p.delegators, s, d);
      } else {
        assert p.delegators - {d} == p.delegators;
      }
    }
  }

  // ---------- Converting ----------

  datatype Item = Item(t: RewardType, balance: int)

  function ItemSum(items: seq<Item>): int {
    if |items| == 0 then 0 else ItemSum(items[..|items| - 1]) + items[|items| - 1].balance
  }

  // The figure that the last item of a type shows.
  function Figure(items: seq<Item>, t: RewardType): int {
    if |items| == 0 then 0
    else
      var last := items[|items| - 1];
      if last.t == t then last.balance else Figure(items[..|items| - 1], t)
  }

  // The items add up to the rewards and show each type's amount.
  ghost predicate Lists(items: seq<Item>, r: Rewards) {
    forall t :: Listed(items, t) == Amount(r, t)
  }

  function Listed(items: seq<Item>, t: Option<RewardType>): int {
    if t.None? then ItemSum(items) else Figure(items, t.value)
  }

  // The rewards of one party as a list, in the order a map happens to have.
  method ConvertRewards(r: Rewards) returns (items: seq<Item>)
    ensures Lists(items, r)
    ensures |items| == |r| && forall i | 0 <= i < |items| :: items[i].t in r && items[i].balance == r[items[i].t]
    ensures forall i, j | 0 <= i < j < |items| :: items[i].t != items[j].t
  {
    items := [];
    EmptyTotal();
    hide Total, Of;
    var rest := r;
    while rest != map[]
      invariant rest.Keys <= r.Keys && forall t | t in rest :: rest[t] == r[t]
      invariant ItemSum(items) + Total(rest) == Total(r) && |items| + |rest| == |r|
      invariant forall t :: Figure(items, t) == if t in r && t !in rest then r[t] else 0
      invariant forall i | 0 <= i < |items| :: items[i].t in r && items[i].t !in rest && items[i].balance == r[items[i].t]
      invariant forall i, j | 0 <= i < j < |items| :: items[i].t != items[j].t
      decreases |rest|
    {
      var t :| t in rest;
      TotalWithout(rest, t);
      var items' := items + [Item(t, rest[t])];
      assert items'[..|items|] == items;
      items := items';
      assert |rest - {t}| == |rest| - 1 by { assert (rest - {t}).Keys == rest.Keys - {t}; }
      rest := rest - {t};
    }
    AllListed(items, r);
  }

  lemma AllListed(items: seq<Item>, r: Rewards)
    requires ItemSum(items) == Total(r) && forall t :: Figure(items, t) == if t in r then r[t] else 0
    ensures Lists(items, r)
  {
    hide Total, ItemSum, Figure;
  }

  lemma EmptyTotal()
    ensures Total(map[]) == 0
  {}

  lemma TotalWithout(r: Rewards, t: RewardType)
    requires t in r
    ensures Total(r) == r[t] + Total(r - {t})
  {
    var rest := r - {t};
    assert forall s :: Of(rest, s) == if s == t then 0 else Of(r, s);
    assert Of(r, t) == r[t];
    hide Of;
    match t
    case Validation => case Flips => case Invitations => case FoundationPayouts => case ZeroWalletFund =>
    case Invitations2 => case Invitations3 => case SavedInvite => case SavedInviteWin => case ReportedFlips =>
    case Staking => case Candidate => case ExtraFlips => case Invitee1 => case Invitee2 => case Invitee3 =>
  }

  // The stored form of one party's rewards: a total and a figure for each type that is shown.
  datatype Stored = Stored(total: int, byType: Rewards)

  predicate IsShown(t: RewardType) {
    t != FoundationPayouts && t != ZeroWalletFund
  }

  // The types that a stored reward has a figure for.
  predicate HasColumn(t: RewardType) {
    t in {Validation, Flips, Invitations, Invitations2, Invitations3, SavedInvite, SavedInviteWin, ReportedFlips,
          Candidate, Staking, ExtraFlips, Invitee1, Invitee2, Invitee3}
  }

  lemma ShownHaveColumns()
    ensures forall t :: IsShown(t) <==> HasColumn(t)
  {}

  // The total and the figures of the types shown.
  ghost predicate Shows(s: Stored, items: seq<Item>) {
    s.total == ItemSum(items) && forall t | HasColumn(t) :: Of(s.byType, t) == Figure(items, t)
  }

  method ConvertDelegationEpochRewards(items: seq<Item>) returns (s: Stored)
    ensures Shows(s, items)
    ensures s.byType.Keys == set i | 0 <= i < |items| && HasColumn(items[i].t) :: items[i].t
    ensures forall i | 0 <= i < |items| && HasColumn(items[i].t) && (forall j | i < j < |items| :: items[j].t != items[i].t) ::
              s.byType[items[i].t] == items[i].balance
  {
    ShownHaveColumns();
    hide HasColumn, IsShown;
    s := Stored(0, map[]);
    for n := 0 to |items|
      invariant Shows(s, items[..n])
      invariant s.byType.Keys == set i | 0 <= i < n && IsShown(items[i].t) :: items[i].t
      invariant forall i | 0 <= i < n && IsShown(items[i].t) && (forall j | i < j < n :: items[j].t != items[i].t) ::
                  items[i].t in s.byType && s.byType[items[i].t] == items[i].balance
    {
      assert items[..n + 1][..n] == items[..n];
      var item := items[n];
      ghost var before := s;
      s := s.(total := s.total + item.balance);
      if IsShown(item.t) {
        s := s.(byType := s.byType[item.t := item.balance]);
      }
      forall i | 0 <= i < n + 1 && IsShown(items[i].t) && (forall j | i < j < n + 1 :: items[j].t != items[i].t)
        ensures items[i].t in s.byType && s.byType[items[i].t] == items[i].balance
      {
        if i < n {
          assert items[n].t != items[i].t;
          assert forall j | i < j < n :: items[j].t != items[i].t;
        }
      }
    }
    assert items[..|items|] == items;
  }

  datatype DelegatorReward = DelegatorReward(address: Address, rewards: seq<Item>)
  datatype DelegateeReward = DelegateeReward(address: Address, totals: seq<Item>, delegators: seq<DelegatorReward>, penalized: nat)

  function DelegatorSum(ds: seq<DelegatorReward>): int {
    if |ds| == 0 then 0 else DelegatorSum(ds[..|ds| - 1]) + ItemSum(ds[|ds| - 1].rewards)
  }

  // The figure stored for the pool is the sum of the figures stored for its delegators.
  predicate Consistent(p: DelegateeReward) {
    ItemSum(p.totals) == DelegatorSum(p.delegators)
  }

  class Wrapper {
    var rewards: seq<DelegateeReward>
    var indexes: map<Address, nat>

    ghost predicate Valid()
      reads this
    {
      && (forall i | 0 <= i < |rewards| :: Consistent(rewards[i]) && rewards[i].address in indexes && indexes[rewards[i].address] == i)
      && forall a | a in indexes :: indexes[a] < |rewards| && rewards[indexes[a]].address == a
    }

    constructor ()
      ensures Valid() && rewards == []
    {
      rewards, indexes := [], map[];
    }

    function Penalized(a: Address): nat
      requires Valid()
      reads this
    {
      if a in indexes then rewards[indexes[a]].penalized else 0
    }

    method Append(item: DelegateeReward)
      modifies this
      ensures rewards == old(rewards) + [item]
      ensures indexes == old(indexes)[item.address := |old(rewards)|]
      ensures old(Valid()) && item.address !in old(indexes) && Consistent(item) ==> Valid()
    {
      indexes := indexes[item.address := |rewards|];
      rewards := rewards + [item];
    }

    method IncPenalizedDelegators(delegatee: Address)
      requires Valid()
      modifies this
      ensures Valid()
      ensures forall a :: Penalized(a) == old(Penalized(a)) + if a == delegatee then 1 else 0
      ensures indexes == if delegatee in old(indexes) then old(indexes) else old(indexes)[delegatee := |old(rewards)|]
      ensures rewards ==
              if delegatee in old(indexes) then
                var i := old(indexes)[delegatee];
                old(rewards)[i := old(rewards)[i].(penalized := old(rewards)[i].penalized + 1)]
              else
                old(rewards) + [DelegateeReward(delegatee, [], [], 1)]
    {
      if delegatee in indexes {
        var i := indexes[delegatee];
        rewards := rewards[i := rewards[i].(penalized := rewards[i].penalized + 1)];
      } else {
        Append(DelegateeReward(delegatee, [], [], 1));
      }
    }
  }

  // A delegator's list says what the delegator has.
  ghost predicate IsConverted(r: DelegatorReward, ds: Delegators) {
    r.address in ds && Lists(r.rewards, ds[r.address])
  }

  function Addresses(list: seq<DelegatorReward>): set<Address> {
    set r | r in list :: r.address
  }

  lemma AddressesAppend(list: seq<DelegatorReward>, r: DelegatorReward)
    ensures Addresses(list + [r]) == Addresses(list) + {r.address}
  {
    assert r in list + [r];
  }

  lemma DelegatorSumAppend(list: seq<DelegatorReward>, r: DelegatorReward)
    ensures DelegatorSum(list + [r]) == DelegatorSum(list) + ItemSum(r.rewards)
  {
    assert (list + [r])[..|list|] == list;
  }

  // Each of these delegators once, with what it has.
  ghost predicate AreConverted(list: seq<DelegatorReward>, ds: Delegators, done: set<Address>) {
    && Addresses(list) == done
    && (forall r | r in list :: IsConverted(r, ds))
    && forall i, j | 0 <= i < j < |list| :: list[i].address != list[j].address
  }

  lemma OneMoreConverted(list: seq<DelegatorReward>, ds: Delegators, done: set<Address>, r: DelegatorReward)
    requires AreConverted(list, ds, done) && IsConverted(r, ds) && r.address !in done
    ensures AreConverted(list + [r], ds, done + {r.address})
  {
    hide IsConverted;
    AddressesAppend(list, r);
    forall i | 0 <= i < |list|
      ensures list[i].address != r.address
    {
      assert list[i].address in Addresses(list);
    }
  }

  method ConvertDelegators(ds: Delegators) returns (list: seq<DelegatorReward>)
    ensures DelegatorSum(list) == SumOfTotals(ds)
    ensures AreConverted(list, ds, ds.Keys)
  {
    hide Total, Of, ItemSum, AreConverted;
    list := [];
    var rest := ds;
    assert AreConverted(list, ds, {}) by {
      NothingConverted(ds);
    }
    assert ds.Keys - rest.Keys == {};
    while rest != map[]
      invariant rest.Keys <= ds.Keys && forall d | d in rest :: rest[d] == ds[d]
      invariant DelegatorSum(list) + SumOfTotals(rest) == SumOfTotals(ds)
      invariant AreConverted(list, ds, ds.Keys - rest.Keys)
      decreases rest.Keys
    {
      var d :| d in rest;
      var items := ConvertRewards(rest[d]);
      var r := DelegatorReward(d, items);
      assert Listed(items, None) == Amount(rest[d], None);
      DelegatorSumAppend(list, r);
      SumOfTotalsWithout(rest, d);
      hide DelegatorSum, SumOfTotals;
      OneMoreConverted(list, ds, ds.Keys - rest.Keys, r);
      assert ds.Keys - (rest - {d}).Keys == ds.Keys - rest.Keys + {d};
      list, rest := list + [r], rest - {d};
    }
    assert ds.Keys - rest.Keys == ds.Keys;
  }

  lemma NothingConverted(ds: Delegators)
    ensures AreConverted([], ds, {})
  {}

  // The pool's list says what the pool and its delegators have; nobody has been penalized yet.
  ghost predicate IsPool(p: DelegateeReward, a: Address, pool: DelegateeEpochRewards) {
    && p.address == a && p.penalized == 0
    && Lists(p.totals, pool.totals)
    && DelegatorSum(p.delegators) == SumOfTotals(pool.delegators)
    && AreConverted(p.delegators, pool.delegators, pool.delegators.Keys)
  }

  method ConvertPool(a: Address, pool: DelegateeEpochRewards) returns (p: DelegateeReward)
    requires Balanced(pool)
    ensures IsPool(p, a, pool) && Consistent(p)
  {
    var totals := ConvertRewards(pool.totals);
    var delegators := ConvertDelegators(pool.delegators);
    Exchange(pool.totals, pool.delegators);
    assert Listed(totals, None) == Amount(pool.totals, None);
    p := DelegateeReward(a, totals, delegators, 0);
  }

  // Every pool once, and the figure of each is the sum of those of its delegators.
  method ConvertDelegateesEpochRewards(delegatees: map<Address, DelegateeEpochRewards>) returns (w: Wrapper)
    requires forall a | a in delegatees :: Balanced(delegatees[a])
    ensures fresh(w) && w.Valid() && w.indexes.Keys == delegatees.Keys
    ensures forall a | a in delegatees :: IsPool(w.rewards[w.indexes[a]], a, delegatees[a])
  {
    hide Balanced, IsPool, Consistent;
    w := new Wrapper();
    var rest := delegatees.Keys;
    while rest != {}
      invariant fresh(w) && w.Valid() && rest <= delegatees.Keys && w.indexes.Keys == delegatees.Keys - rest
      invariant forall a | a in delegatees && a !in rest :: IsPool(w.rewards[w.indexes[a]], a, delegatees[a])
      decreases |rest|
    {
      var a :| a in rest;
      var p := ConvertPool(a, delegatees[a]);
      assert p.address == a by {
        PoolAddress(p, a, delegatees[a]);
      }
      w.Append(p);
      rest := rest - {a};
    }
  }

  lemma PoolAddress(p: DelegateeReward, a: Address, pool: DelegateeEpochRewards)
    requires IsPool(p, a, pool)
    ensures p.address == a && p.penalized == 0
  {}

  // ---------- Storing ----------

  datatype StoredDelegator = StoredDelegator(address: Address, reward: Stored)
  datatype StoredPool = StoredPool(address: Address, reward: Stored, delegators: seq<StoredDelegator>, penalized: nat)

  function StoredSum(ds: seq<StoredDelegator>): int {
    if |ds| == 0 then 0 else StoredSum(ds[..|ds| - 1]) + ds[|ds| - 1].reward.total
  }

  method StorePool(p: DelegateeReward) returns (s: StoredPool)
    ensures s.address == p.address && s.penalized == p.penalized && Shows(s.reward, p.totals)
    ensures |s.delegators| == |p.delegators| && forall i | 0 <= i < |p.delegators| ::
              && s.delegators[i].address == p.delegators[i].address
              && Shows(s.delegators[i].reward, p.delegators[i].rewards)
    ensures StoredSum(s.delegators) == DelegatorSum(p.delegators)
  {
    hide HasColumn, Figure, ItemSum;
    var reward := ConvertDelegationEpochRewards(p.totals);
    var delegators: seq<StoredDelegator> := [];
    for n := 0 to |p.delegators|
      invariant |delegators| == n && StoredSum(delegators) == DelegatorSum(p.delegators[..n])
      invariant forall i | 0 <= i < n ::
                  && delegators[i].address == p.delegators[i].address
                  && Shows(delegators[i].reward, p.delegators[i].rewards)
    {
      hide Shows;
      var stored := ConvertDelegationEpochRewards(p.delegators[n].rewards);
      assert p.delegators[..n + 1][..n] == p.delegators[..n];
      ghost var before := delegators;
      delegators := delegators + [StoredDelegator(p.delegators[n].address, stored)];
      assert delegators[..n] == before;
    }
    assert p.delegators[..|p.delegators|] == p.delegators;
    s := StoredPool(p.address, reward, delegators, p.penalized);
  }

  // ---------- From the payments to what is stored ----------

  // All that is paid to a pool, or through one of its delegators, in all or of one type.
  function Paid(payments: seq<Payment>, a: Address, d: Option<Address>, t: Option<RewardType>): int {
    if |payments| == 0 then 0
    else Paid(payments[..|payments| - 1], a, d, t) + PaidOnce(payments[|payments| - 1], a, d, t)
  }

  function PenalizedIn(penalized: seq<Address>, a: Address): nat {
    if |penalized| == 0 then 0
    else PenalizedIn(penalized[..|penalized| - 1], a) + if penalized[|penalized| - 1] == a then 1 else 0
  }

  method CollectRewards(payments: seq<Payment>) returns (c: Collector)
    ensures fresh(c) && c.Valid()
    ensures forall a, d, t :: Held(c.delegatees, a, d, t) == Paid(payments, a, d, t)
  {
    hide Held, PaidOnce, Credited;
    c := new Collector();
    NothingHeld();
    for n := 0 to |payments|
      invariant fresh(c) && c.Valid()
      invariant forall a, d, t :: Held(c.delegatees, a, d, t) == Paid(payments[..n], a, d, t)
    {
      assert payments[..n + 1][..n] == payments[..n];
      var p := payments[n];
      c.AddDelegateeReward(p.delegator, p.delegatee, p.balance, p.t);
    }
    assert payments[..|payments|] == payments;
  }

  lemma NothingHeld()
    ensures forall a, d, t :: Held(map[], a, d, t) == 0
  {}

  // The items show what was paid.
  ghost predicate ArePaid(items: seq<Item>, payments: seq<Payment>, a: Address, d: Option<Address>) {
    forall t :: Listed(items, t) == Paid(payments, a, d, t)
  }

  // A pool with what it was paid, and each delegator it was paid through once, with what it was paid through it.
  ghost predicate IsPaidPool(p: DelegateeReward, payments: seq<Payment>) {
    && ArePaid(p.totals, payments, p.address, None)
    && (forall r | r in p.delegators :: ArePaid(r.rewards, payments, p.address, Some(r.address)))
    && (forall i, j | 0 <= i < j < |p.delegators| :: p.delegators[i].address != p.delegators[j].address)
    && forall d, t | d !in Addresses(p.delegators) :: Paid(payments, p.address, Some(d), t) == 0
  }

  ghost predicate PaysNothing(payments: seq<Payment>, a: Address) {
    forall d, t :: Paid(payments, a, d, t) == 0
  }

  // What is known of the pools: what each was paid, and how many of its delegators were penalized.
  ghost predicate IsPaidTo(w: Wrapper, payments: seq<Payment>, penalized: seq<Address>)
    reads w
  {
    && w.Valid()
    && (forall i | 0 <= i < |w.rewards| :: IsPaidPool(w.rewards[i], payments))
    && (forall a | a !in w.indexes :: PaysNothing(payments, a))
    && forall a :: w.Penalized(a) == PenalizedIn(penalized, a)
  }

  lemma ConvertedIsPaid(p: DelegateeReward, a: Address, m: map<Address, DelegateeEpochRewards>, payments: seq<Payment>)
    requires a in m && IsPool(p, a, m[a]) && forall b, d, t :: Held(m, b, d, t) == Paid(payments, b, d, t)
    ensures IsPaidPool(p, payments)
  {
    hide Listed, Amount, Paid, DelegatorSum, SumOfTotals;
    assert ArePaid(p.totals, payments, a, None) by {
      forall t ensures Listed(p.totals, t) == Paid(payments, a, None, t) {
        assert Listed(p.totals, t) == Amount(m[a].totals, t) == Held(m, a, None, t);
      }
    }
    forall r | r in p.delegators
      ensures ArePaid(r.rewards, payments, a, Some(r.address))
    {
      forall t ensures Listed(r.rewards, t) == Paid(payments, a, Some(r.address), t) {
        assert IsConverted(r, m[a].delegators);
        assert Listed(r.rewards, t) == Amount(m[a].delegators[r.address], t) == Held(m, a, Some(r.address), t);
      }
    }
    forall d, t | d !in Addresses(p.delegators)
      ensures Paid(payments, a, Some(d), t) == 0
    {
      NothingAmounts(t);
      assert Held(m, a, Some(d), t) == Amount(map[], t);
    }
  }

  lemma NothingAmounts(t: Option<RewardType>)
    ensures Amount(map[], t) == 0
  {}

  method ConvertPaid(payments: seq<Payment>) returns (w: Wrapper)
    ensures fresh(w) && IsPaidTo(w, payments, [])
  {
    hide Held, Paid, Balanced, Consistent, IsPaidPool, IsPool;
    var c := CollectRewards(payments);
    w := ConvertDelegateesEpochRewards(c.delegatees);
    forall i | 0 <= i < |w.rewards|
      ensures IsPaidPool(w.rewards[i], payments) && w.rewards[i].penalized == 0
    {
      var a := w.rewards[i].address;
      assert a in c.delegatees && w.indexes[a] == i;
      PoolAddress(w.rewards[i], a, c.delegatees[a]);
      ConvertedIsPaid(w.rewards[i], a, c.delegatees, payments);
    }
    forall a | a !in w.indexes
      ensures PaysNothing(payments, a)
    {
      NothingHeldBy(c.delegatees, a);
    }
  }

  lemma NothingHeldBy(m: map<Address, DelegateeEpochRewards>, a: Address)
    requires a !in m
    ensures forall d, t :: Held(m, a, d, t) == 0
  {}

  method Penalize(w: Wrapper, a: Address, ghost payments: seq<Payment>, ghost penalized: seq<Address>)
    requires IsPaidTo(w, payments, penalized)
    modifies w
    ensures IsPaidTo(w, payments, penalized + [a])
  {
    hide IsPaidPool, PaysNothing, Consistent;
    assert (penalized + [a])[..|penalized|] == penalized;
    ghost var before, indexes := w.rewards, w.indexes;
    if a in indexes {
      PenaltyKeepsPaid(before[indexes[a]], payments);
    } else {
      PenaltyPaysNothing(a, payments);
    }
    w.IncPenalizedDelegators(a);
  }

  method ConvertRewardsOfPools(payments: seq<Payment>, penalized: seq<Address>) returns (w: Wrapper)
    ensures fresh(w) && IsPaidTo(w, payments, penalized)
  {
    w := ConvertPaid(payments);
    hide IsPaidTo;
    for n := 0 to |penalized|
      invariant fresh(w) && IsPaidTo(w, payments, penalized[..n])
    {
      Penalize(w, penalized[n], payments, penalized[..n]);
      assert penalized[..n + 1] == penalized[..n] + [penalized[n]];
    }
    assert penalized[..|penalized|] == penalized;
  }

  lemma PenaltyPaysNothing(a: Address, payments: seq<Payment>)
    requires PaysNothing(payments, a)
    ensures IsPaidPool(DelegateeReward(a, [], [], 1), payments)
  {
    hide Paid;
  }

  lemma PenaltyKeepsPaid(p: DelegateeReward, payments: seq<Payment>)
    requires IsPaidPool(p, payments)
    ensures IsPaidPool(p.(penalized := p.penalized + 1), payments)
  {
    hide Paid;
  }

  // The stored figures are what was paid.
  ghost predicate IsPaid(s: Stored, payments: seq<Payment>, a: Address, d: Option<Address>) {
    s.total == Paid(payments, a, d, None) && forall t | HasColumn(t) :: Of(s.byType, t) == Paid(payments, a, d, Some(t))
  }

  lemma ShownIsPaid(s: Stored, items: seq<Item>, payments: seq<Payment>, a: Address, d: Option<Address>)
    requires Shows(s, items) && ArePaid(items, payments, a, d)
    ensures IsPaid(s, payments, a, d)
  {
    hide Paid, ItemSum, Figure, Of, HasColumn;
    assert Listed(items, None) == Paid(payments, a, d, None);
    forall t | HasColumn(t)
      ensures Of(s.byType, t) == Paid(payments, a, d, Some(t))
    {
      assert Listed(items, Some(t)) == Paid(payments, a, d, Some(t));
    }
  }

  // A pool is stored with what it was paid, and with each delegator it was paid through once, with what it
  // was paid through that delegator.
  ghost predicate IsStored(s: StoredPool, payments: seq<Payment>) {
    && IsPaid(s.reward, payments, s.address, None)
    && s.reward.total == StoredSum(s.delegators)
    && (forall i | 0 <= i < |s.delegators| :: IsPaid(s.delegators[i].reward, payments, s.address, Some(s.delegators[i].address)))
    && (forall i, j | 0 <= i < j < |s.delegators| :: s.delegators[i].address != s.delegators[j].address)
    && forall d, t | Paid(payments, s.address, Some(d), t) != 0 :: exists i :: 0 <= i < |s.delegators| && s.delegators[i].address == d
  }

  method StorePaid(p: DelegateeReward, payments: seq<Payment>) returns (s: StoredPool)
    requires IsPaidPool(p, payments) && Consistent(p)
    ensures IsStored(s, payments) && s.address == p.address && s.penalized == p.penalized
  {
    hide Paid, ArePaid, StoredSum, DelegatorSum, IsPaid, ItemSum, Figure;
    s := StorePool(p);
    ShownIsPaid(s.reward, p.totals, payments, p.address, None);
    forall i | 0 <= i < |s.delegators|
      ensures IsPaid(s.delegators[i].reward, payments, s.address, Some(s.delegators[i].address))
    {
      ShownIsPaid(s.delegators[i].reward, p.delegators[i].rewards, payments, p.address, Some(p.delegators[i].address));
    }
    forall d, t | Paid(payments, s.address, Some(d), t) != 0
      ensures exists i :: 0 <= i < |s.delegators| && s.delegators[i].address == d
    {
      assert d in Addresses(p.delegators);
      var i :| 0 <= i < |p.delegators| && p.delegators[i].address == d;
      assert s.delegators[i].address == d;
    }
  }

  // Whatever is paid through pools, and whoever is penalized: every pool is stored once, with what it was
  // paid, in all and of each type shown; so is each of its delegators, and their totals add up to the pool's.
  method StorePools(payments: seq<Payment>, penalized: seq<Address>) returns (stored: seq<StoredPool>)
    ensures forall i | 0 <= i < |stored| ::
              IsStored(stored[i], payments) && stored[i].penalized == PenalizedIn(penalized, stored[i].address)
    ensures forall i, j | 0 <= i < j < |stored| :: stored[i].address != stored[j].address
    ensures forall a, d, t | Paid(payments, a, d, t) != 0 || PenalizedIn(penalized, a) > 0 ::
              exists i :: 0 <= i < |stored| && stored[i].address == a
  {
    hide Paid, PenalizedIn, IsPaidPool, IsStored, Consistent;
    var w := ConvertRewardsOfPools(payments, penalized);
    var pools := w.rewards;
    stored := [];
    for n := 0 to |pools|
      invariant |stored| == n && w.rewards == pools && IsPaidTo(w, payments, penalized)
      invariant forall i | 0 <= i < n ::
                  && IsStored(stored[i], payments)
                  && stored[i].address == pools[i].address && stored[i].penalized == pools[i].penalized
    {
      var s := StorePaid(pools[n], payments);
      stored := stored + [s];
    }
    forall i | 0 <= i < |stored|
      ensures stored[i].penalized == PenalizedIn(penalized, stored[i].address)
    {
      assert w.Penalized(pools[i].address) == pools[i].penalized;
    }
    forall a, d, t | Paid(payments, a, d, t) != 0 || PenalizedIn(penalized, a) > 0
      ensures exists i :: 0 <= i < |stored| && stored[i].address == a
    {
      assert a in w.indexes by {
        assert w.Penalized(a) == PenalizedIn(penalized, a);
      }
      assert stored[w.indexes[a]].address == a;
    }
  }
}
