/**
 A whole block: updates of all reasons before and after the epoch-reward phase.
 */
module BlockRuns {
  import opened Common
  import opened BalanceLedger
  import opened BalanceChains
  import opened EpochRewardPhase

  // ---------- One update that is not an epoch reward ----------

  // If u is merged into an earlier record, that is the latest of the address, or nothing changes.
  ghost predicate MergesSafely<Id>(l: Ledger<Id>, u: Record)
    requires WF(l)
  {
    var known := Lookup(l, u.reason, u.address);
    Changed(u) && Merges(u.reason) && known.Some? ==>
      && Keeps(l.vals, known.value, u.reason, u.address)
      && var ids := RecordsOf(l, u.address);
         |ids| > 0 && (ids[|ids| - 1] == known.value || (u.after == u.before && l.vals[known.value].after == u.after))
  }

  // A first record of its reason is appended as it is.
  lemma NewRecord<Id>(l: Ledger<Id>, x: Id, u: Record)
    requires WF(l) && x !in l.vals && !IsEpochGroup(u.reason) && Lookup(l, u.reason, u.address).None?
    ensures WF(Handle(l, x, u)) && Handle(l, x, u).vals == l.vals[x := u] && Handle(l, x, u).list == l.list + [x]
  {
    HandleWF(l, x, u);
    StartWF(l, x, u);
  }

  lemma AppendedRecords<Id>(l: Ledger<Id>, l': Ledger<Id>, x: Id, u: Record, a: Address)
    requires WF(l) && WF(l') && x !in l.vals && l'.list == l.list + [x] && l'.vals == l.vals[x := u]
    ensures RecordsOf(l', a) == RecordsOf(l, a) + if a == u.address then [x] else []
  {
    assert l'.list[..|l'.list| - 1] == l.list;
    OfFrame(l.vals, l'.vals, l.list, a);
  }

  // Only the list and the records matter for a chain.
  lemma SameChain<Id>(l: Ledger<Id>, l': Ledger<Id>, a: Address, start: Snapshot, end: Snapshot)
    requires WF(l) && WF(l') && l'.list == l.list && l'.vals == l.vals
    ensures Chained(l', a, start, end) == Chained(l, a, start, end)
  {}

  lemma AppendedElsewhere<Id>(l: Ledger<Id>, x: Id, u: Record, a: Address, start: Snapshot, end: Snapshot)
    requires WF(l) && x !in l.vals && a != u.address && Chained(l, a, start, end)
    ensures WF(Append(l, x, u)) && Chained(Append(l, x, u), a, start, end)
  {
    AppendWF(l, x, u);
    AppendedRecords(l, Append(l, x, u), x, u, a);
    assert RecordsOf(l, a) + [] == RecordsOf(l, a);
    hide WF, RecordsOf, Chain;
    ChainFrame(l.vals, Append(l, x, u).vals, RecordsOf(l, a), start, end);
  }

  // The chain of the address goes on exactly if the update merges safely.
  lemma PostKeepsChain<Id>(l: Ledger<Id>, x: Id, u: Record, start: Snapshot)
    requires WF(l) && x !in l.vals && !IsEpochGroup(u.reason) && Chained(l, u.address, start, u.before)
    ensures WF(Post(l, x, u))
    ensures Chained(Post(l, x, u), u.address, start, u.after) <==> MergesSafely(l, u)
  {
    PostWF(l, x, u);
    hide Handle, WF, Chained, RecordsOf;
    if !Changed(u) {
      assert u.before == u.after;
    } else if Merges(u.reason) {
      var known := Lookup(l, u.reason, u.address);
      if known.Some? {
        MergeKeepsChain(l, x, u, known.value, start);
        KnownKept(l, u.reason, u.address);
      } else {
        NewRecord(l, x, u);
        AppendKeepsChain(l, x, u, start);
        SameChain(Append(l, x, u), Handle(l, x, u), u.address, start, u.after);
      }
    } else {
      AppendKeepsChain(l, x, u, start);
    }
  }

  lemma KnownKept<Id>(l: Ledger<Id>, reason: Reason, a: Address)
    requires WF(l) && Lookup(l, reason, a).Some?
    ensures Keeps(l.vals, Lookup(l, reason, a).value, reason, a)
  {}

  // The chains of the other addresses do not change.
  lemma PostKeepsOthers<Id>(l: Ledger<Id>, x: Id, u: Record, b: Address, start: Snapshot, end: Snapshot)
    requires WF(l) && x !in l.vals && b != u.address && Chained(l, b, start, end)
    ensures WF(Post(l, x, u)) && Chained(Post(l, x, u), b, start, end)
  {
    PostWF(l, x, u);
    hide Handle, WF, RecordsOf, Chain;
    if Changed(u) {
      if Merges(u.reason) {
        HandleRecords(l, x, u, b);
        HandleOthers(l, x, u, b);
        assert RecordsOf(l, b) + [] == RecordsOf(l, b);
        ChainFrame(l.vals, Handle(l, x, u).vals, RecordsOf(l, b), start, end);
      } else {
        AppendedElsewhere(l, x, u, b, start, end);
      }
    }
  }

  lemma PostKeepsPhaseStart<Id>(l: Ledger<Id>, x: Id, u: Record, a: Address)
    requires WF(l) && x !in l.vals && !IsEpochGroup(u.reason) && PhaseStart(l, a)
    ensures PhaseStart(Post(l, x, u), a)
  {
    if Changed(u) && Merges(u.reason) {
      var known := Lookup(l, u.reason, u.address);
      if known.Some? {
        MergeAtWF(l, known.value, u);
        RelinkWF(MergeAt(l, known.value, u), known.value);
        assert Handle(l, x, u).index == l.index;
      } else {
        StartWF(l, x, u);
        RelinkWF(Start(l, x, u), x);
        assert Handle(l, x, u).index == Start(l, x, u).index;
        assert forall r :: Lookup(Handle(l, x, u), r, a) == Lookup(Start(l, x, u), r, a);
      }
    }
  }

  // ---------- Runs of such updates ----------

  // ls and ws are the ledgers and the world before, between and after the updates.
  ghost predicate IsPosting<Id>(us: seq<(Id, Record)>, ls: seq<Ledger<Id>>, ws: seq<World>) {
    && |ls| == |ws| == |us| + 1
    && forall i | 0 <= i < |us| :: PostsOne(us[i].0, us[i].1, ls[i], ls[i + 1], ws[i], ws[i + 1])
  }

  ghost predicate PostsOne<Id>(x: Id, u: Record, l: Ledger<Id>, l': Ledger<Id>, w: World, w': World) {
    && !IsEpochGroup(u.reason) && u.before == w(u.address) && u.after == w'(u.address)
    && (forall a | a != u.address :: w'(a) == w(a))
    && WF(l) && x !in l.vals && l' == Post(l, x, u)
  }

  // Every update of `a` that is merged is merged safely.
  ghost predicate AllMergeSafely<Id>(us: seq<(Id, Record)>, ls: seq<Ledger<Id>>, ws: seq<World>, a: Address)
    requires IsPosting(us, ls, ws)
  {
    forall i | 0 <= i < |us| && us[i].1.address == a ::
      PostsOne(us[i].0, us[i].1, ls[i], ls[i + 1], ws[i], ws[i + 1]) && MergesSafely(ls[i], us[i].1)
  }

  ghost predicate HasChain<Id>(l: Ledger<Id>, w: World, a: Address, start: Snapshot) {
    WF(l) && Chained(l, a, start, w(a))
  }

  // At no moment is there a gap in the records of `a`.
  ghost predicate NeverAGap<Id>(ls: seq<Ledger<Id>>, ws: seq<World>, a: Address, start: Snapshot)
    requires |ls| == |ws|
  {
    forall n | 0 <= n < |ls| :: HasChain(ls[n], ws[n], a, start)
  }

  lemma PostedOne<Id>(x: Id, u: Record, l: Ledger<Id>, l': Ledger<Id>, w: World, w': World, a: Address, start: Snapshot)
    requires PostsOne(x, u, l, l', w, w') && HasChain(l, w, a, start)
    ensures HasChain(l', w', a, start) <==> (a == u.address ==> MergesSafely(l, u))
  {
    hide Post, Chained, WF, MergesSafely;
    if a == u.address {
      PostKeepsChain(l, x, u, start);
    } else {
      PostKeepsOthers(l, x, u, a, start, w(a));
    }
  }

  lemma {:induction false} SafePostingKeepsChain<Id>(us: seq<(Id, Record)>, ls: seq<Ledger<Id>>, ws: seq<World>, n: nat,
                                                     a: Address, start: Snapshot)
    requires IsPosting(us, ls, ws) && n <= |us| && AllMergeSafely(us, ls, ws, a) && HasChain(ls[0], ws[0], a, start)
    ensures HasChain(ls[n], ws[n], a, start)
  {
    if n > 0 {
      hide HasChain, PostsOne;
      SafePostingKeepsChain(us, ls, ws, n - 1, a, start);
      var x, u := us[n - 1].0, us[n - 1].1;
      assert PostsOne(x, u, ls[n - 1], ls[n - 1 + 1], ws[n - 1], ws[n - 1 + 1]);
      PostedOne(x, u, ls[n - 1], ls[n], ws[n - 1], ws[n], a, start);
    }
  }

  // Over any run of updates, at no moment there is a gap in the records of an address, exactly if every
  // update of the address that is merged is merged safely.
  lemma PostingKeepsChainExactly<Id>(us: seq<(Id, Record)>, ls: seq<Ledger<Id>>, ws: seq<World>, a: Address, start: Snapshot)
    requires IsPosting(us, ls, ws) && HasChain(ls[0], ws[0], a, start)
    ensures NeverAGap(ls, ws, a, start) <==> AllMergeSafely(us, ls, ws, a)
  {
    hide HasChain, Post, WF, MergesSafely;
    if AllMergeSafely(us, ls, ws, a) {
      forall n | 0 <= n < |ls| ensures HasChain(ls[n], ws[n], a, start) {
        SafePostingKeepsChain(us, ls, ws, n, a, start);
      }
    }
    if NeverAGap(ls, ws, a, start) {
      forall i | 0 <= i < |us| && us[i].1.address == a
        ensures PostsOne(us[i].0, us[i].1, ls[i], ls[i + 1], ws[i], ws[i + 1]) && MergesSafely(ls[i], us[i].1)
      {
        assert HasChain(ls[i], ws[i], a, start) && HasChain(ls[i + 1], ws[i + 1], a, start);
        PostedOne(us[i].0, us[i].1, ls[i], ls[i + 1], ws[i], ws[i + 1], a, start);
      }
    }
  }

  lemma {:induction false} PostingKeepsPhaseStart<Id>(us: seq<(Id, Record)>, ls: seq<Ledger<Id>>, ws: seq<World>, n: nat, a: Address)
    requires IsPosting(us, ls, ws) && n <= |us| && PhaseStart(ls[0], a)
    ensures PhaseStart(ls[n], a)
  {
    if n > 0 {
      hide PhaseStart, WF, Post;
      PostingKeepsPhaseStart(us, ls, ws, n - 1, a);
      var x, u := us[n - 1].0, us[n - 1].1;
      assert PostsOne(x, u, ls[n - 1], ls[n - 1 + 1], ws[n - 1], ws[n - 1 + 1]);
      PostKeepsPhaseStart(ls[n - 1], x, u, a);
    }
  }

  // A block that starts from an empty ledger: updates of other reasons, the epoch-reward phase, and updates
  // of other reasons again.
  ghost predicate IsBlock<Id>(us: seq<(Id, Record)>, ls: seq<Ledger<Id>>, ws: seq<World>,
                              steps: seq<Step<Id>>, ls': seq<Ledger<Id>>, ws': seq<World>,
                              us'': seq<(Id, Record)>, ls'': seq<Ledger<Id>>, ws'': seq<World>,
                              ds: set<Address>, ps: set<Address>)
  {
    && IsPosting(us, ls, ws) && ls[0] == Empty()
    && IsRun(steps, ls', ws') && ls'[0] == ls[|us|] && ws'[0] == ws[|us|]
    && ds !! ps && (forall i | 0 <= i < |steps| :: RolesIn(steps[i], ds, ps))
    && IsPosting(us'', ls'', ws'') && ls''[0] == ls'[|steps|] && ws''[0] == ws'[|steps|]
  }

  // The phase leaves no gap behind where it found none, and has recorded what it gave.
  ghost predicate PhaseRecorded<Id>(steps: seq<Step<Id>>, l: Ledger<Id>, w: World, a: Address, start: Snapshot) {
    && HasChain(l, w, a, start)
    && RunTally(steps, a) == Tally(Kept(l, EpochRewardReason, a), Kept(l, DelegatorEpochRewardReason, a),
                                   Kept(l, DelegateeEpochRewardReason, a))
  }

  lemma PhaseRecords<Id>(steps: seq<Step<Id>>, ls: seq<Ledger<Id>>, ws: seq<World>, a: Address, start: Snapshot,
                         ds: set<Address>, ps: set<Address>)
    requires IsRun(steps, ls, ws) && ds !! ps && forall i | 0 <= i < |steps| :: RolesIn(steps[i], ds, ps)
    requires HasChain(ls[0], ws[0], a, start) && PhaseStart(ls[0], a)
    ensures PhaseRecorded(steps, ls[|steps|], ws[|steps|], a, start)
  {
    hide Chained, PhaseStart, WF, Kept, RunTally, RunsOne, RolesIn, Holds, RecordsOf;
    EveryRun(steps, ls, ws, a, start, ds, ps);
    WhatHolds(ls[|steps|], a, RecordsOf(ls[0], a), start, ws[|steps|](a), RunTally(steps, a), ds, ps);
  }

  lemma NothingPosted<Id>(w: World, a: Address)
    ensures HasChain<Id>(Empty(), w, a, w(a)) && PhaseStart<Id>(Empty(), a)
  {}

  // Before the phase and after it, at no moment there is a gap in the records of an address, exactly if
  // every update of the address that is merged is merged safely; and the phase has recorded what it gave.
  lemma BlockKeepsChains<Id>(us: seq<(Id, Record)>, ls: seq<Ledger<Id>>, ws: seq<World>,
                             steps: seq<Step<Id>>, ls': seq<Ledger<Id>>, ws': seq<World>,
                             us'': seq<(Id, Record)>, ls'': seq<Ledger<Id>>, ws'': seq<World>,
                             a: Address, ds: set<Address>, ps: set<Address>)
    requires IsBlock(us, ls, ws, steps, ls', ws', us'', ls'', ws'', ds, ps)
    ensures NeverAGap(ls, ws, a, ws[0](a)) && NeverAGap(ls'', ws'', a, ws[0](a))
            <==> AllMergeSafely(us, ls, ws, a) && AllMergeSafely(us'', ls'', ws'', a)
    ensures AllMergeSafely(us, ls, ws, a) ==> PhaseRecorded(steps, ls'[|steps|], ws'[|steps|], a, ws[0](a))
  {
    var start := ws[0](a);
    NothingPosted<Id>(ws[0], a);
    hide HasChain, PhaseStart, Kept, RunTally, PostsOne, RunsOne, RolesIn, MergesSafely;
    PostingKeepsChainExactly(us, ls, ws, a, start);
    PostingKeepsPhaseStart(us, ls, ws, |us|, a);
    if NeverAGap(ls, ws, a, start) {
      assert HasChain(ls[|us|], ws[|us|], a, start);
      PhaseRecords(steps, ls', ws', a, start, ds, ps);
      PostingKeepsChainExactly(us'', ls'', ws'', a, start);
    }
  }

  // ---------- Where merging leaves a gap ----------

  function Move(a: Address, reason: Reason, from: int, to: int): Record {
    Record(a, reason, Snapshot(from, 0, 0, 0), Snapshot(to, 0, 0, 0), None, None)
  }

  // The one record there is.
  lemma FirstReward(u: Record)
    requires u.reason == CommitteeRewardReason && Changed(u)
    ensures var l := Post<nat>(Empty(), 0, u);
            && WF<nat>(Empty()) && WF(l) && l.vals.Keys == {0} && RecordsOf(l, u.address) == [0]
            && Lookup(l, CommitteeRewardReason, u.address) == Some(0)
            && Chained(l, u.address, u.before, u.after)
  {
    var l: Ledger<nat> := Empty();
    assert WF(l) && Chained(l, u.address, u.before, u.before) && RecordsOf(l, u.address) == [];
    NewRecord(l, 0, u);
    StartWF(l, 0, u);
    var l' := Handle(l, 0, u);
    assert l'.index == Start(l, 0, u).index;
    assert Lookup(l', CommitteeRewardReason, u.address) == Lookup(Start(l, 0, u), CommitteeRewardReason, u.address);
    assert [0] == [] + [0];
    hide Handle, Start, WF, RecordsOf;
    AppendedRecords(l, l', 0, u, u.address);
    PostKeepsChain(l, 0, u, u.before);
  }

  lemma PostedTx(l: Ledger<nat>, v: Record)
    requires WF(l) && 1 !in l.vals && v.reason == TxReason && Changed(v)
    ensures var l' := Post(l, 1, v);
            && l' == Append(l, 1, v) && l'.list == l.list + [1] && l'.vals == l.vals[1 := v]
            && Lookup(l', CommitteeRewardReason, v.address) == Lookup(l, CommitteeRewardReason, v.address)
  {
    hide WF, Changed;
  }

  lemma ThenAnother(l: Ledger<nat>, v: Record, start: Snapshot)
    requires WF(l) && l.vals.Keys == {0} && RecordsOf(l, v.address) == [0]
    requires Lookup(l, CommitteeRewardReason, v.address) == Some(0)
    requires Chained(l, v.address, start, v.before) && v.reason == TxReason && Changed(v)
    ensures var l' := Post(l, 1, v);
            && WF(l') && l'.vals.Keys == {0, 1} && RecordsOf(l', v.address) == [0, 1]
            && Lookup(l', CommitteeRewardReason, v.address) == Some(0)
            && Chained(l', v.address, start, v.after)
  {
    hide WF, RecordsOf, Post, Lookup, Chained, Changed;
    PostedTx(l, v);
    assert [0, 1] == [0] + [1];
    AppendKeepsChain(l, 1, v, start);
    AppendedRecords(l, Append(l, 1, v), 1, v, v.address);
  }

  lemma NotTheLatest(l: Ledger<nat>, w: Record)
    requires WF(l) && Lookup(l, CommitteeRewardReason, w.address) == Some(0) && RecordsOf(l, w.address) == [0, 1]
    requires w.reason == CommitteeRewardReason && w.before.balance != w.after.balance
    ensures !MergesSafely(l, w)
  {
    hide WF, RecordsOf;
    assert RecordsOf(l, w.address)[1] == 1;
  }

  // A committee reward, a transaction, and another committee reward of one address, from an empty ledger.
  ghost predicate IsMergedLate(u: Record, v: Record, w: Record) {
    && u.reason == w.reason == CommitteeRewardReason && v.reason == TxReason
    && u.address == v.address == w.address && u.after == v.before && v.after == w.before
    && u.before.balance != u.after.balance && v.before.balance != v.after.balance && w.before.balance != w.after.balance
  }

  ghost predicate ShowsGap(l: Ledger<nat>, w: Record, start: Snapshot) {
    WF(l) && 2 !in l.vals && Chained(l, w.address, start, w.before) && WF(Post(l, 2, w)) && !Chained(Post(l, 2, w), w.address, start, w.after)
  }

  lemma LateMergeShowsGap(l: Ledger<nat>, w: Record, start: Snapshot)
    requires WF(l) && 2 !in l.vals && Chained(l, w.address, start, w.before)
    requires Lookup(l, CommitteeRewardReason, w.address) == Some(0) && RecordsOf(l, w.address) == [0, 1]
    requires w.reason == CommitteeRewardReason && w.before.balance != w.after.balance
    ensures ShowsGap(l, w, start)
  {
    NotTheLatest(l, w);
    hide WF, Post, RecordsOf, Chained, MergesSafely, Lookup;
    PostKeepsChain(l, 2, w, start);
  }

  lemma MergeLeavesGap(u: Record, v: Record, w: Record)
    requires IsMergedLate(u, v, w)
    ensures var l := Post<nat>(Empty(), 0, u);
            WF(l) && 1 !in l.vals && ShowsGap(Post(l, 1, v), w, u.before)
  {
    hide WF, Post, RecordsOf, Chained, Lookup, ShowsGap;
    FirstReward(u);
    var l := Post<nat>(Empty(), 0, u);
    ThenAnother(l, v, u.before);
    LateMergeShowsGap(Post(l, 1, v), w, u.before);
  }

  // There is such a block.
  lemma MergeGapExample(a: Address)
    ensures IsMergedLate(Move(a, CommitteeRewardReason, 0, 1), Move(a, TxReason, 1, 2), Move(a, CommitteeRewardReason, 2, 3))
  {}
}
