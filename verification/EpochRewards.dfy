/**
 The rewards of an epoch: one list of entries, merged in place for some types of reward, running totals
 by address, and the summary by address and type that is made of the list.
 */
module EpochRewards {
  import opened Common
  import opened RewardTypes

  // The types whose rewards to one address are merged into one entry.
  predicate IsMerged(t: RewardType) {
    t in {Invitations, Invitations2, Invitations3, SavedInvite, SavedInviteWin, ReportedFlips, Flips, ExtraFlips, Validation}
  }

  // Payouts are listed, but do not count as rewards of an address.
  predicate IsPayout(t: RewardType) {
    t == FoundationPayouts || t == ZeroWalletFund
  }

  // ---------- The list as a value ----------

  datatype Entry = Entry(address: Address, kind: RewardType, balance: int, stake: int) {
    predicate IsOf(a: Address, t: RewardType) {
      address == a && kind == t
    }

    predicate IsEmpty() {
      balance == 0 && stake == 0
    }

    function Total(): int {
      balance + stake
    }

    function Plus(e: Entry): Entry {
      this.(balance := balance + e.balance, stake := stake + e.stake)
    }
  }

  function Merge(entries: seq<Entry>, e: Entry): seq<Entry> {
    if e.IsEmpty() then entries
    else if |entries| == 0 then [e]
    else if IsMerged(e.kind) && entries[0].IsOf(e.address, e.kind) then [entries[0].Plus(e)] + entries[1..]
    else [entries[0]] + Merge(entries[1..], e)
  }

  // The balances credited to an address for one type of reward, and the stakes.
  function BalanceOf(entries: seq<Entry>, a: Address, t: RewardType): int {
    if |entries| == 0 then 0
    else (if entries[0].IsOf(a, t) then entries[0].balance else 0) + BalanceOf(entries[1..], a, t)
  }

  function StakeOf(entries: seq<Entry>, a: Address, t: RewardType): int {
    if |entries| == 0 then 0
    else (if entries[0].IsOf(a, t) then entries[0].stake else 0) + StakeOf(entries[1..], a, t)
  }

  // All that was credited to an address for one type of reward.
  function SumOf(entries: seq<Entry>, a: Address, t: RewardType): int {
    BalanceOf(entries, a, t) + StakeOf(entries, a, t)
  }

  // The rewards of one type that are not empty, in order.
  function Rewards(entries: seq<Entry>, t: RewardType): seq<Entry> {
    if |entries| == 0 then []
    else (if entries[0].kind == t && (entries[0].balance != 0 || entries[0].stake != 0) then [entries[0]] else []) + Rewards(entries[1..], t)
  }

  // Validation, flips, reports, invitations and saved invites: the rewards that come in several parts.
  const IN_PARTS: set<RewardType> :=
    {Validation, Flips, ExtraFlips, ReportedFlips, Invitations, Invitations2, Invitations3, SavedInvite, SavedInviteWin}

  // All the rewards of an address, payouts excepted.
  function RewardsOf(entries: seq<Entry>, a: Address): int {
    if |entries| == 0 then 0
    else
      (if entries[0].address == a && entries[0].kind != FoundationPayouts && entries[0].kind != ZeroWalletFund
       then entries[0].balance + entries[0].stake else 0) + RewardsOf(entries[1..], a)
  }

  // At most one entry per address for each merged type.
  ghost predicate IsUnique(entries: seq<Entry>) {
    forall i, j | 0 <= i < j < |entries| && IsMerged(entries[i].kind) ::
      !entries[j].IsOf(entries[i].address, entries[i].kind)
  }

  // Merging credits exactly the new entry: its balance to the balances, its stake to the stakes.
  lemma {:induction false} MergeAdds(entries: seq<Entry>, e: Entry, a: Address, t: RewardType)
    ensures BalanceOf(Merge(entries, e), a, t) == BalanceOf(entries, a, t) + if e.IsOf(a, t) then e.balance else 0
    ensures StakeOf(Merge(entries, e), a, t) == StakeOf(entries, a, t) + if e.IsOf(a, t) then e.stake else 0
  {
    if |entries| > 0 {
      MergeAdds(entries[1..], e, a, t);
    }
  }

  lemma AllMergeAdds(entries: seq<Entry>, e: Entry)
    ensures forall a: Address, t: RewardType ::
              && BalanceOf(Merge(entries, e), a, t) == BalanceOf(entries, a, t) + (if e.IsOf(a, t) then e.balance else 0)
              && StakeOf(Merge(entries, e), a, t) == StakeOf(entries, a, t) + (if e.IsOf(a, t) then e.stake else 0)
  {
    hide Merge, BalanceOf, StakeOf;
    forall a: Address, t: RewardType
      ensures BalanceOf(Merge(entries, e), a, t) == BalanceOf(entries, a, t) + if e.IsOf(a, t) then e.balance else 0
      ensures StakeOf(Merge(entries, e), a, t) == StakeOf(entries, a, t) + if e.IsOf(a, t) then e.stake else 0
    {
      MergeAdds(entries, e, a, t);
    }
  }

  lemma {:induction false} MergeAddsToTotal(entries: seq<Entry>, e: Entry, a: Address)
    ensures RewardsOf(Merge(entries, e), a) ==
            RewardsOf(entries, a) + if e.address == a && !IsPayout(e.kind) then e.balance + e.stake else 0
  {
    if |entries| > 0 {
      MergeAddsToTotal(entries[1..], e, a);
    }
  }

  // A reward that does not come in parts is listed for itself.
  lemma {:induction false} MergeLists(entries: seq<Entry>, e: Entry, t: RewardType)
    requires t !in IN_PARTS
    ensures Rewards(Merge(entries, e), t) == Rewards(entries, t) + Rewards([e], t)
  {
    if |entries| > 0 {
      MergeLists(entries[1..], e, t);
    }
  }

  // Every reward that is not empty has an entry, and no entry is without one.
  ghost predicate Has(entries: seq<Entry>, a: Address, t: RewardType) {
    exists e :: e in entries && e.IsOf(a, t)
  }

  lemma HasFirst(entries: seq<Entry>, a: Address, t: RewardType)
    requires |entries| > 0
    ensures Has(entries, a, t) <==> entries[0].IsOf(a, t) || Has(entries[1..], a, t)
  {
    assert forall x :: x in entries <==> x == entries[0] || x in entries[1..];
  }

  lemma {:induction false} MergeHas(entries: seq<Entry>, e: Entry, a: Address, t: RewardType)
    ensures Has(Merge(entries, e), a, t) <==> Has(entries, a, t) || (!e.IsEmpty() && e.IsOf(a, t))
  {
    if e.IsEmpty() {
    } else if |entries| == 0 {
      assert e in [e];
    } else {
      hide Has;
      MergeHas(entries[1..], e, a, t);
      HasFirst(entries, a, t);
      HasFirst(Merge(entries, e), a, t);
    }
  }

  // Where the new entry goes.
  lemma {:induction false} MergeAt(entries: seq<Entry>, e: Entry)
    requires !e.IsEmpty()
    ensures (!IsMerged(e.kind) || forall x | x in entries :: !x.IsOf(e.address, e.kind)) ==> Merge(entries, e) == entries + [e]
    ensures forall i | 0 <= i < |entries| && IsMerged(e.kind) && entries[i].IsOf(e.address, e.kind) && IsUnique(entries) ::
              Merge(entries, e) == entries[i := entries[i].Plus(e)]
  {
    if |entries| > 0 {
      MergeAt(entries[1..], e);
    }
  }

  lemma MergeKeepsUnique(entries: seq<Entry>, e: Entry)
    requires IsUnique(entries)
    ensures IsUnique(Merge(entries, e))
  {
    if !e.IsEmpty() {
      MergeAt(entries, e);
      if IsMerged(e.kind) && exists i :: 0 <= i < |entries| && entries[i].IsOf(e.address, e.kind) {
        var i :| 0 <= i < |entries| && entries[i].IsOf(e.address, e.kind);
        assert Merge(entries, e) == entries[i := entries[i].Plus(e)];
      }
    }
  }

  // ---------- The summary ----------

  type Summary = map<Address, map<RewardType, int>>

  function Figure(m: Summary, a: Address, t: RewardType): Option<int> {
    if a in m && t in m[a] then Some(m[a][t]) else None
  }

  function OrZero(figure: Option<int>): int {
    if figure.Some? then figure.value else 0
  }

  // The last entry of an address and type.
  function Last(entries: seq<Entry>, a: Address, t: RewardType): Option<int> {
    if |entries| == 0 then None
    else
      var e := entries[|entries| - 1];
      if e.IsOf(a, t) then Some(e.Total()) else Last(entries[..|entries| - 1], a, t)
  }

  // An entry overwrites the figure of the entry before it.
  method Summarize(entries: seq<Entry>) returns (m: Summary)
    ensures forall a: Address, t: RewardType :: Figure(m, a, t) == Last(entries, a, t)
  {
    m := map[];
    for n := 0 to |entries|
      invariant forall a: Address, t: RewardType :: Figure(m, a, t) == Last(entries[..n], a, t)
    {
      assert entries[..n + 1][..n] == entries[..n];
      var e := entries[n];
      var byType := if e.address in m then m[e.address] else map[];
      m := m[e.address := byType[e.kind := e.Total()]];
    }
    assert entries[..|entries|] == entries;
  }

  lemma {:induction false} LastIsAnEntry(entries: seq<Entry>, a: Address, t: RewardType) returns (i: nat)
    ensures Last(entries, a, t).Some? ==> i < |entries| && entries[i].IsOf(a, t) && Last(entries, a, t) == Some(entries[i].Total())
    ensures Last(entries, a, t).None? ==> forall e | e in entries :: !e.IsOf(a, t)
  {
    i := 0;
    if |entries| > 0 {
      if entries[|entries| - 1].IsOf(a, t) {
        i := |entries| - 1;
      } else {
        i := LastIsAnEntry(entries[..|entries| - 1], a, t);
      }
    }
  }

  lemma {:induction false} SumOfOne(entries: seq<Entry>, i: nat)
    requires i < |entries| && forall j | 0 <= j < |entries| && j != i :: !entries[j].IsOf(entries[i].address, entries[i].kind)
    ensures BalanceOf(entries, entries[i].address, entries[i].kind) == entries[i].balance
    ensures StakeOf(entries, entries[i].address, entries[i].kind) == entries[i].stake
  {
    if i > 0 {
      SumOfOne(entries[1..], i - 1);
    } else {
      SumOfNone(entries[1..], entries[i].address, entries[i].kind);
    }
  }

  lemma {:induction false} SumOfNone(entries: seq<Entry>, a: Address, t: RewardType)
    requires forall e | e in entries :: !e.IsOf(a, t)
    ensures BalanceOf(entries, a, t) == 0 && StakeOf(entries, a, t) == 0
  {
    if |entries| > 0 {
      SumOfNone(entries[1..], a, t);
    }
  }

  // For a merged type the summary loses nothing: it holds all that was credited.
  lemma SummaryIsComplete(entries: seq<Entry>, a: Address, t: RewardType)
    requires IsUnique(entries) && IsMerged(t)
    ensures SumOf(entries, a, t) == OrZero(Last(entries, a, t))
  {
    var i := LastIsAnEntry(entries, a, t);
    if Last(entries, a, t).Some? {
      SumOfOne(entries, i);
    } else {
      SumOfNone(entries, a, t);
    }
  }

  // ---------- The collector ----------

  class RewardStats {
    const address: Address
    const kind: RewardType
    var balance: int
    var stake: int

    constructor (e: Entry)
      ensures Value() == e
    {
      address, kind, balance, stake := e.address, e.kind, e.balance, e.stake;
    }

    function Value(): Entry
      reads this
    {
      Entry(address, kind, balance, stake)
    }
  }

  type Index = map<RewardType, map<Address, RewardStats>>

  ghost function With(index: Index, r: RewardStats): Index {
    var byAddr: map<Address, RewardStats> := if r.kind in index then index[r.kind] else map[];
    index[r.kind := byAddr[r.address := r]]
  }

  function ValuesOf(rewards: seq<RewardStats>): (values: seq<Entry>)
    reads rewards
    ensures |values| == |rewards|
  {
    seq(|rewards|, i requires 0 <= i < |rewards| reads rewards => rewards[i].Value())
  }

  // The merged entries can be found by type and address.
  ghost predicate IsIndex(rewards: seq<RewardStats>, index: Index) {
    && NoDup(rewards)
    && (forall t, a | t in index && a in index[t] ::
          IsMerged(t) && index[t][a] in rewards && index[t][a].address == a && index[t][a].kind == t)
    && forall r | r in rewards && IsMerged(r.kind) :: r.kind in index && r.address in index[r.kind]
  }

  lemma IndexGrows(rewards: seq<RewardStats>, index: Index, r: RewardStats)
    requires IsIndex(rewards, index) && r !in rewards
    ensures IsIndex(rewards + [r], if IsMerged(r.kind) then With(index, r) else index)
  {}

  // One entry of the address and type has the balance more in its balance and the stake more in its stake.
  ghost predicate IsIncreasedBy(entries: seq<Entry>, entries': seq<Entry>, e: Entry) {
    exists i: nat :: i < |entries| && IsIncreasedAt(entries, entries', i, e)
  }

  ghost predicate IsIncreasedAt(entries: seq<Entry>, entries': seq<Entry>, i: nat, e: Entry)
    requires i < |entries|
  {
    && entries[i].address == e.address && entries[i].kind == e.kind
    && entries' == entries[i := Entry(e.address, e.kind, entries[i].balance + e.balance, entries[i].stake + e.stake)]
  }

  lemma EntryIncreased(entries: seq<Entry>, entries': seq<Entry>, i: nat, e: Entry)
    requires i < |entries| && entries[i].IsOf(e.address, e.kind) && entries' == entries[i := entries[i].Plus(e)]
    ensures IsIncreasedBy(entries, entries', e)
  {
    assert IsIncreasedAt(entries, entries', i, e);
  }

  class Collector {
    var rewards: seq<RewardStats>
    var byTypeAndAddr: Index
    var totalRewardsByAddr: map<Address, int>

    function Values(): seq<Entry>
      reads this`rewards, rewards
    {
      ValuesOf(rewards)
    }

    ghost predicate IsIndexed()
      reads this`rewards, this`byTypeAndAddr
    {
      IsIndex(rewards, byTypeAndAddr)
    }

    // The total of an address is the sum of its entries.
    ghost predicate Valid()
      reads this, rewards
    {
      && IsIndexed() && IsUnique(Values())
      && forall a: Address :: Total(a) == RewardsOf(Values(), a)
    }

    ghost function Total(a: Address): int
      reads this`totalRewardsByAddr
    {
      if a in totalRewardsByAddr then totalRewardsByAddr[a] else 0
    }

    constructor ()
      ensures Valid() && rewards == []
    {
      rewards, byTypeAndAddr, totalRewardsByAddr := [], map[], map[];
    }

    method IncreaseEpochRewardIfExists(e: Entry, reward: RewardStats) returns (isIncreased: bool)
      requires IsIndexed() && IsUnique(Values()) && !e.IsEmpty() && reward !in rewards && reward.Value() == e
      modifies this`byTypeAndAddr, rewards
      ensures rewards == old(rewards) && reward.Value() == e
      ensures isIncreased ==> IsIndexed() && Values() == Merge(old(Values()), e) && IsIncreasedBy(old(Values()), Values(), e)
      ensures !isIncreased ==>
                && Values() == old(Values()) && old(Values()) + [e] == Merge(old(Values()), e)
                && byTypeAndAddr == if IsMerged(e.kind) then With(old(byTypeAndAddr), reward) else old(byTypeAndAddr)
    {
      MergeAt(Values(), e);
      hide IsIncreasedBy;
      if !IsMerged(e.kind) {
        return false;
      }
      var rewardsByAddr: map<Address, RewardStats> := map[];
      if e.kind in byTypeAndAddr {
        rewardsByAddr := byTypeAndAddr[e.kind];
        if e.address in rewardsByAddr {
          var r := rewardsByAddr[e.address];
          ghost var i: nat :| i < |rewards| && rewards[i] == r;
          r.balance := r.balance + e.balance;
          r.stake := r.stake + e.stake;
          assert Values() == old(Values())[i := old(Values())[i].Plus(e)];
          EntryIncreased(old(Values()), Values(), i, e);
          return true;
        }
      }
      rewardsByAddr := rewardsByAddr[e.address := reward];
      byTypeAndAddr := byTypeAndAddr[e.kind := rewardsByAddr];
      isIncreased := false;
    }

    method AddReward(e: Entry)
      requires IsIndexed() && IsUnique(Values())
      modifies this`rewards, this`byTypeAndAddr, rewards
      ensures IsIndexed() && IsUnique(Values()) && Values() == Merge(old(Values()), e)
      ensures forall a: Address, t: RewardType ::
                && BalanceOf(Values(), a, t) == BalanceOf(old(Values()), a, t) + (if e.IsOf(a, t) then e.balance else 0)
                && StakeOf(Values(), a, t) == StakeOf(old(Values()), a, t) + (if e.IsOf(a, t) then e.stake else 0)
      ensures fresh(set r | r in rewards && r !in old(rewards))
    {
      if e.IsEmpty() {
        return;
      }
      ghost var before := Values();
      MergeKeepsUnique(before, e);
      AllMergeAdds(before, e);
      var reward := new RewardStats(e);
      var isIncreased := IncreaseEpochRewardIfExists(e, reward);
      hide Merge, IsUnique, IsIndex, BalanceOf, StakeOf;
      if !isIncreased {
        IndexGrows(rewards, old(byTypeAndAddr), reward);
        rewards := rewards + [reward];
        assert Values() == before + [e];
      }
      assert Values() == Merge(before, e);
    }

    method AddAddrTotalReward(a: Address, balance: int, stake: int)
      modifies this`totalRewardsByAddr
      ensures forall b: Address :: Total(b) == old(Total(b)) + if b == a then balance + stake else 0
    {
      if balance == 0 && stake == 0 {
        return;
      }
      var reward := balance + stake;
      if a in totalRewardsByAddr {
        totalRewardsByAddr := totalRewardsByAddr[a := totalRewardsByAddr[a] + reward];
      } else {
        totalRewardsByAddr := totalRewardsByAddr[a := reward];
      }
    }

    // A reward of any type is listed; all but the payouts also count for the total.
    method Add(e: Entry)
      requires Valid()
      modifies this, rewards
      ensures Valid() && Values() == Merge(old(Values()), e)
      ensures forall a: Address, t: RewardType ::
                && BalanceOf(Values(), a, t) == BalanceOf(old(Values()), a, t) + (if e.IsOf(a, t) then e.balance else 0)
                && StakeOf(Values(), a, t) == StakeOf(old(Values()), a, t) + (if e.IsOf(a, t) then e.stake else 0)
      ensures fresh(set r | r in rewards && r !in old(rewards))
    {
      ghost var before := Values();
      hide BalanceOf, StakeOf;
      AddReward(e);
      if !IsPayout(e.kind) {
        AddAddrTotalReward(e.address, e.balance, e.stake);
      }
      forall a: Address
        ensures Total(a) == RewardsOf(Values(), a)
      {
        MergeAddsToTotal(before, e, a);
      }
    }
  }

  // What the list holds, in terms of the rewards credited.
  ghost predicate IsList(values: seq<Entry>, entries: seq<Entry>) {
    && (forall a: Address :: RewardsOf(values, a) == RewardsOf(entries, a))
    && (forall a: Address, t: RewardType ::
          BalanceOf(values, a, t) == BalanceOf(entries, a, t) && StakeOf(values, a, t) == StakeOf(entries, a, t))
    && (forall t: RewardType | t !in IN_PARTS :: Rewards(values, t) == Rewards(entries, t))
    && forall a: Address, t: RewardType :: Has(values, a, t) <==> IsRewarded(entries, a, t)
  }

  ghost predicate IsRewarded(entries: seq<Entry>, a: Address, t: RewardType) {
    exists e :: e in entries && e.address == a && e.kind == t && (e.balance != 0 || e.stake != 0)
  }

  lemma ListMore(values: seq<Entry>, entries: seq<Entry>, e: Entry)
    requires IsList(values, entries)
    ensures IsList(Merge(values, e), entries + [e])
  {
    hide Merge, RewardsOf, BalanceOf, StakeOf, Rewards, Has, IsRewarded;
    forall a: Address
      ensures RewardsOf(Merge(values, e), a) == RewardsOf(entries + [e], a)
    {
      MergeAddsToTotal(values, e, a);
      SumsAppend(entries, e, a, Validation);
    }
    forall a: Address, t: RewardType
      ensures BalanceOf(Merge(values, e), a, t) == BalanceOf(entries + [e], a, t)
      ensures StakeOf(Merge(values, e), a, t) == StakeOf(entries + [e], a, t)
      ensures Has(Merge(values, e), a, t) <==> IsRewarded(entries + [e], a, t)
    {
      MergeAdds(values, e, a, t);
      SumsAppend(entries, e, a, t);
      MergeHas(values, e, a, t);
      RewardedAppend(entries, e, a, t);
    }
    forall t: RewardType | t !in IN_PARTS
      ensures Rewards(Merge(values, e), t) == Rewards(entries + [e], t)
    {
      MergeLists(values, e, t);
      RewardsAppend(entries, e, t);
    }
  }

  lemma RewardedAppend(entries: seq<Entry>, e: Entry, a: Address, t: RewardType)
    ensures IsRewarded(entries + [e], a, t) <==> IsRewarded(entries, a, t) || (!e.IsEmpty() && e.IsOf(a, t))
  {
    assert forall x :: x in entries + [e] <==> x in entries || x == e;
  }

  lemma {:induction false} RewardsAppend(entries: seq<Entry>, e: Entry, t: RewardType)
    ensures Rewards(entries + [e], t) == Rewards(entries, t) + Rewards([e], t)
  {
    if |entries| == 0 {
      assert entries + [e] == [e];
    } else {
      RewardsAppend(entries[1..], e, t);
      assert (entries + [e])[1..] == entries[1..] + [e];
    }
  }

  lemma NothingListed()
    ensures IsList([], [])
  {}

  // One entry for all parts of a reward.
  ghost predicate IsOneEntry(values: seq<Entry>, a: Address, t: RewardType) {
    forall i, j | 0 <= i < |values| && 0 <= j < |values| && values[i].IsOf(a, t) && values[j].IsOf(a, t) :: i == j
  }

  // Over any rewards of an epoch: the list has what was credited, in one entry for a reward that comes in
  // parts and one by one for the others; an address's total, and its summary figure for a reward that comes
  // in parts, are what was credited to it.
  method RecordRewards(entries: seq<Entry>) returns (collector: Collector, m: Summary)
    ensures IsList(collector.Values(), entries)
    ensures forall a: Address, t: RewardType | t in IN_PARTS :: IsOneEntry(collector.Values(), a, t)
    ensures forall a: Address :: collector.Total(a) == RewardsOf(entries, a)
    ensures forall a: Address, t: RewardType | t in IN_PARTS ::
              && OrZero(Figure(m, a, t)) == SumOf(entries, a, t)
              && (Figure(m, a, t).Some? <==> IsRewarded(entries, a, t))
  {
    hide Merge, IsList, IsRewarded, IsUnique;
    collector := new Collector();
    NothingListed();
    for n := 0 to |entries|
      invariant collector.Valid() && fresh(collector) && fresh(collector.rewards)
      invariant IsList(collector.Values(), entries[..n])
    {
      ListMore(collector.Values(), entries[..n], entries[n]);
      collector.Add(entries[n]);
      assert entries[..n + 1] == entries[..n] + [entries[n]];
    }
    assert entries[..|entries|] == entries;
    m := Summarize(collector.Values());
    forall a: Address, t: RewardType | t in IN_PARTS
      ensures OrZero(Figure(m, a, t)) == SumOf(entries, a, t) && (Figure(m, a, t).Some? <==> IsRewarded(entries, a, t))
      ensures IsOneEntry(collector.Values(), a, t)
    {
      FigureIsReward(collector.Values(), entries, a, t);
      UniqueIsOneEntry(collector.Values(), a, t);
    }
    forall a: Address ensures collector.Total(a) == RewardsOf(entries, a) {
      ListTotal(collector.Values(), entries, a);
    }
  }

  lemma ListTotal(values: seq<Entry>, entries: seq<Entry>, a: Address)
    requires IsList(values, entries)
    ensures RewardsOf(values, a) == RewardsOf(entries, a)
  {}

  lemma UniqueIsOneEntry(values: seq<Entry>, a: Address, t: RewardType)
    requires IsUnique(values) && t in IN_PARTS
    ensures IsOneEntry(values, a, t)
  {}

  lemma FigureIsReward(values: seq<Entry>, entries: seq<Entry>, a: Address, t: RewardType)
    requires IsList(values, entries) && IsUnique(values) && t in IN_PARTS
    ensures OrZero(Last(values, a, t)) == SumOf(entries, a, t) && (Last(values, a, t).Some? <==> IsRewarded(entries, a, t))
  {
    hide IsRewarded, RewardsOf, BalanceOf, StakeOf, Rewards, IsUnique, Last;
    SummaryIsComplete(values, a, t);
    var i := LastIsAnEntry(values, a, t);
    assert Has(values, a, t) <==> IsRewarded(entries, a, t);
  }

  lemma {:induction false} SumsAppend(entries: seq<Entry>, e: Entry, a: Address, t: RewardType)
    ensures BalanceOf(entries + [e], a, t) == BalanceOf(entries, a, t) + if e.IsOf(a, t) then e.balance else 0
    ensures StakeOf(entries + [e], a, t) == StakeOf(entries, a, t) + if e.IsOf(a, t) then e.stake else 0
    ensures RewardsOf(entries + [e], a) == RewardsOf(entries, a) + if e.address == a && !IsPayout(e.kind) then e.balance + e.stake else 0
  {
    if |entries| > 0 {
      SumsAppend(entries[1..], e, a, t);
      assert (entries + [e])[1..] == entries[1..] + [e];
    }
  }
}
