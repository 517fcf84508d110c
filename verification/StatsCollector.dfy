/**
 The collector's bookkeeping of balance updates, on record objects that later
 calls change in place.  Each method does to the collector's ledger what
 BalanceLedger says.
 */
module StatsCollector {
  import opened Common
  import opened BalanceLedger

  datatype Account = Account(balance: int, stake: int, penalty: int, penaltySeconds: nat, killed: bool)

  const NO_ACCOUNT := Account(0, 0, 0, 0, false)

  // The chain's state as the collector sees it.
  type State = map<Address, Account>

  function Get(state: State, addr: Address): Account {
    if addr in state then state[addr] else NO_ACCOUNT
  }

  // A killed identity counts as having no stake and no penalty.
  function Observe(state: State, addr: Address): Snapshot {
    var a := Get(state, addr);
    if a.killed then Snapshot(a.balance, 0, 0, 0) else Snapshot(a.balance, a.stake, a.penalty, a.penaltySeconds)
  }

  // What is seen of an account: nothing of an unknown one, and of a killed one only the balance.
  ghost predicate IsSeen(s: Snapshot, addr: Address, state: State) {
    && s.balance == (if addr in state then state[addr].balance else 0)
    && if addr in state && !state[addr].killed then
         s.stake == state[addr].stake && s.penalty == state[addr].penalty && s.penaltySeconds == state[addr].penaltySeconds
       else
         s.stake == 0 && s.penalty == 0 && s.penaltySeconds == 0
  }

  class BalanceUpdate {
    const address: Address
    const txHash: Option<Hash>
    var reason: Reason
    var balanceOld: int
    var stakeOld: int
    var penaltyOld: int
    var penaltySecondsOld: nat
    var balanceNew: int
    var stakeNew: int
    var penaltyNew: int
    var penaltySecondsNew: nat
    var penaltyPayment: Option<int>

    ghost function Value(): Record
      reads this
    {
      Record(address, reason,
             Snapshot(balanceOld, stakeOld, penaltyOld, penaltySecondsOld),
             Snapshot(balanceNew, stakeNew, penaltyNew, penaltySecondsNew),
             penaltyPayment, txHash)
    }

    constructor (r: Record)
      ensures Value() == r
    {
      address, reason, txHash := r.address, r.reason, r.txHash;
      balanceOld, stakeOld := r.before.balance, r.before.stake;
      penaltyOld, penaltySecondsOld := r.before.penalty, r.before.penaltySeconds;
      balanceNew, stakeNew := r.after.balance, r.after.stake;
      penaltyNew, penaltySecondsNew := r.after.penalty, r.after.penaltySeconds;
      penaltyPayment := r.payment;
    }

    // Starts where prev ends.
    method StartAt(prev: BalanceUpdate)
      requires prev != this
      modifies this
      ensures Value() == From(old(Value()), prev.Value())
    {
      balanceOld := prev.balanceNew;
      stakeOld := prev.stakeNew;
    }

    // Ends earlier by what next changes, and moves next to start there.
    method MakeWayFor(next: BalanceUpdate)
      requires next != this
      modifies this, next
      ensures Value() == CutBack(old(Value()), old(next.Value()))
      ensures next.Value() == MovedTo(Value(), old(next.Value()))
    {
      balanceNew := balanceNew - (next.balanceNew - next.balanceOld);
      stakeNew := stakeNew - (next.stakeNew - next.stakeOld);
      next.balanceNew := next.balanceNew + (balanceNew - next.balanceOld);
      next.balanceOld := balanceNew;
      next.stakeNew := next.stakeNew + (stakeNew - next.stakeOld);
      next.stakeOld := stakeNew;
    }

    // Takes up a later update of the same reason and address.
    method Absorb(u: BalanceUpdate)
      requires u != this && u.reason == reason
      modifies this
      ensures Value() == Merge(old(Value()), u.Value())
      ensures reason != DelegatorEpochRewardReason ==>
                penaltyPayment == if u.penaltyPayment.None? then old(penaltyPayment)
                                  else Some(ValueOrZero(old(penaltyPayment)) + u.penaltyPayment.value)
    {
      balanceNew := u.balanceNew;
      stakeNew := u.stakeNew;
      penaltyNew := u.penaltyNew;
      penaltySecondsNew := u.penaltySecondsNew;
      if u.penaltyPayment.Some? {
        if penaltyPayment.None? {
          penaltyPayment := Some(0);
        }
        penaltyPayment := Some(penaltyPayment.value + u.penaltyPayment.value);
      }
      if u.reason == DelegatorEpochRewardReason {
        balanceOld := u.balanceOld;
        stakeOld := u.stakeOld;
        penaltyOld := u.penaltyOld;
        penaltySecondsOld := u.penaltySecondsOld;
        penaltyPayment := u.penaltyPayment;
      }
    }
  }

  class Collector {
    var balanceUpdates: seq<BalanceUpdate>
    var balanceUpdateAddrs: set<Address>
    ghost var otherAddrs: set<Address>       // marked as touched for another reason than a listed update
    var pending: seq<BalanceUpdate>
    var byReasonAndAddr: map<Reason, map<Address, BalanceUpdate>>
    var linkedByPrev: map<BalanceUpdate, BalanceUpdate>
    var linkedByNext: map<BalanceUpdate, BalanceUpdate>

    // The collector's index and links over a list of records.
    ghost function AsLedger(list: seq<BalanceUpdate>): Ledger<BalanceUpdate>
      reads this, list
    {
      Ledger(list, Values(list), byReasonAndAddr, linkedByPrev, linkedByNext)
    }

    // Exactly the addresses of listed updates are marked as touched, besides the others.
    ghost predicate IsMarked()
      reads this`balanceUpdates, this`balanceUpdateAddrs, this`otherAddrs
    {
      balanceUpdateAddrs == otherAddrs + Owners(balanceUpdates)
    }

    ghost predicate Valid()
      reads this, balanceUpdates, pending
    {
      && WF(AsLedger(balanceUpdates))
      && NoDup(pending)
      && (forall x | x in pending :: x !in balanceUpdates)
      && IsMarked()
    }

    constructor ()
      ensures Valid() && AsLedger(balanceUpdates) == Empty() && pending == [] && otherAddrs == {}
    {
      balanceUpdates, balanceUpdateAddrs, otherAddrs, pending := [], {}, {}, [];
      byReasonAndAddr, linkedByPrev, linkedByNext := map[], map[], map[];
    }

    method UpdateLinkedBalanceUpdates(bu: BalanceUpdate, ghost list: seq<BalanceUpdate>)
      requires WF(AsLedger(list)) && bu in list
      modifies list
      ensures AsLedger(list) == Relink(old(AsLedger(list)), bu)
    {
      ghost var l := AsLedger(list);
      InList(l, list);
      hide WF, LinksWF;
      if bu.reason != DelegateeEpochRewardReason && bu.reason != EpochRewardReason && bu.reason != DelegatorEpochRewardReason {
        return;
      }
      if bu in linkedByNext {
        bu.StartAt(linkedByNext[bu]);
        assert Values(list) == l.vals[bu := bu.Value()];
      } else if bu in linkedByPrev {
        var next := linkedByPrev[bu];
        bu.MakeWayFor(next);
        assert Values(list) == l.vals[bu := bu.Value()][next := next.Value()];
      }
    }

    method GetPendingBalanceUpdate(reason: Reason, addr: Address) returns (r: Option<BalanceUpdate>)
      ensures r == Find(byReasonAndAddr, reason, addr)
    {
      if reason !in byReasonAndAddr {
        return None;
      }
      if addr !in byReasonAndAddr[reason] {
        return None;
      }
      return Some(byReasonAndAddr[reason][addr]);
    }

    // Merges bu into the record kept for its reason and address, or keeps bu itself and
    // leaves it to the caller to add it to the list.
    method HandleMultipleBalanceUpdate(bu: BalanceUpdate) returns (merged: bool)
      requires WF(AsLedger(balanceUpdates)) && bu !in balanceUpdates
      modifies this`byReasonAndAddr, this`linkedByPrev, this`linkedByNext, balanceUpdates, bu
      ensures merged <==> Lookup(old(AsLedger(balanceUpdates)), old(bu.reason), bu.address).Some?
      ensures AsLedger(if merged then balanceUpdates else balanceUpdates + [bu])
           == Handle(old(AsLedger(balanceUpdates)), bu, old(bu.Value()))
      ensures merged ==> bu.Value() == old(bu.Value())
    {
      hide WF, Start, Relink;
      ghost var l := AsLedger(balanceUpdates);
      var reason, addr := bu.reason, bu.address;
      if reason !in byReasonAndAddr {
        byReasonAndAddr := byReasonAndAddr[reason := map[]];
      }
      if addr in byReasonAndAddr[reason] {
        MergeBalanceUpdate(byReasonAndAddr[reason][addr], bu);
        return true;
      }
      KeepBalanceUpdate(bu, l);
      StartWF(l, bu, bu.Value());
      UpdateLinkedBalanceUpdates(bu, balanceUpdates + [bu]);
      return false;
    }

    method MergeBalanceUpdate(known: BalanceUpdate, bu: BalanceUpdate)
      requires WF(AsLedger(balanceUpdates)) && bu !in balanceUpdates
      requires Lookup(AsLedger(balanceUpdates), bu.reason, bu.address) == Some(known)
      modifies balanceUpdates
      ensures AsLedger(balanceUpdates) == Handle(old(AsLedger(balanceUpdates)), bu, bu.Value())
    {
      ghost var l, u := AsLedger(balanceUpdates), bu.Value();
      MergeAtWF(l, known, u);
      assert l.vals[known].reason == known.reason;
      hide WF, Relink, Lookup;
      known.Absorb(bu);
      assert Values(balanceUpdates) == l.vals[known := known.Value()];
      UpdateLinkedBalanceUpdates(known, balanceUpdates);
    }

    // Puts bu into the index, linked to the record of its address that it continues.
    method KeepBalanceUpdate(bu: BalanceUpdate, ghost l: Ledger<BalanceUpdate>)
      requires bu.reason in byReasonAndAddr
      requires l == AsLedger(balanceUpdates).(index := l.index)
      requires byReasonAndAddr == if bu.reason in l.index then l.index else l.index[bu.reason := map[]]
      modifies this`byReasonAndAddr, this`linkedByPrev, this`linkedByNext
      ensures AsLedger(balanceUpdates + [bu]) == Start(l, bu, bu.Value())
    {
      hide WF, Lookup, Continues;
      var reason, addr := bu.reason, bu.address;
      byReasonAndAddr := byReasonAndAddr[reason := byReasonAndAddr[reason][addr := bu]];
      LinkNewBalanceUpdate(bu, l);
      assert Values(balanceUpdates + [bu]) == l.vals[bu := bu.Value()];
      IsStart(l, bu, bu.Value(), AsLedger(balanceUpdates + [bu]));
    }

    // Links a record just put into the index to the one of its address that it continues.
    method LinkNewBalanceUpdate(bu: BalanceUpdate, ghost l: Ledger<BalanceUpdate>)
      requires l.byPrev == linkedByPrev && l.byNext == linkedByNext
      requires byReasonAndAddr == Register(l, bu, bu.reason, bu.address).index
      modifies this`linkedByPrev, this`linkedByNext
      ensures var c := Continues(l, bu.reason, bu.address);
              if c.Some? then linkedByNext == l.byNext[bu := c.value] && linkedByPrev == l.byPrev[c.value := bu]
              else linkedByNext == l.byNext && linkedByPrev == l.byPrev
    {
      var reason, addr := bu.reason, bu.address;
      assert forall r | r != reason :: Find(byReasonAndAddr, r, addr) == Lookup(l, r, addr);
      if reason == EpochRewardReason {
        var handedOver := GetPendingBalanceUpdate(DelegatorEpochRewardReason, addr);
        if handedOver.Some? {
          linkedByNext := linkedByNext[bu := handedOver.value];
          linkedByPrev := linkedByPrev[handedOver.value := bu];
        } else {
          var received := GetPendingBalanceUpdate(DelegateeEpochRewardReason, addr);
          if received.Some? {
            linkedByNext := linkedByNext[bu := received.value];
            linkedByPrev := linkedByPrev[received.value := bu];
          }
        }
      }
      if reason == DelegatorEpochRewardReason || reason == DelegateeEpochRewardReason {
        var rewards := GetPendingBalanceUpdate(EpochRewardReason, addr);
        if rewards.Some? {
          linkedByNext := linkedByNext[bu := rewards.value];
          linkedByPrev := linkedByPrev[rewards.value := bu];
        }
      }
    }

    // Merges bu or adds it to the list.
    method Collect(bu: BalanceUpdate)
      requires WF(AsLedger(balanceUpdates)) && bu !in balanceUpdates
      requires IsMarked()
      modifies this`balanceUpdates, this`balanceUpdateAddrs, this`byReasonAndAddr, this`linkedByPrev, this`linkedByNext,
               balanceUpdates, bu
      ensures AsLedger(balanceUpdates) == Handle(old(AsLedger(balanceUpdates)), bu, old(bu.Value()))
      ensures balanceUpdates == old(balanceUpdates) || balanceUpdates == old(balanceUpdates) + [bu]
      ensures IsMarked()
    {
      hide WF, Handle;
      var merged := HandleMultipleBalanceUpdate(bu);
      if !merged {
        OwnersAppend(balanceUpdates, bu);
        balanceUpdates := balanceUpdates + [bu];
        balanceUpdateAddrs := balanceUpdateAddrs + {bu.address};
      }
    }

    method AddPendingBalanceUpdate(addr: Address, state: State, reason: Reason, txHash: Option<Hash>,
                                   potentialPenaltyPayment: Option<int>)
      requires Valid()
      modifies this`pending
      ensures Valid()
      ensures |pending| == |old(pending)| + 1 && pending[..|old(pending)|] == old(pending)
      ensures var bu, seen := pending[|old(pending)|], Observe(state, addr);
              && fresh(bu) && IsSeen(seen, addr, state)
              && bu.Value() == Record(addr, reason, seen, Snapshot(0, 0, 0, 0),
                                      if seen.penaltySeconds > 0 then potentialPenaltyPayment else None, txHash)
    {
      var seen := Observe(state, addr);
      var payment := if potentialPenaltyPayment.Some? && seen.penaltySeconds > 0 then potentialPenaltyPayment else None;
      var bu := new BalanceUpdate(Record(addr, reason, seen, Snapshot(0, 0, 0, 0), payment, txHash));
      pending := pending + [bu];
    }

    method BeginEpochRewardBalanceUpdate(balanceDest: Address, stakeDest: Address, state: State)
      requires Valid() && pending == []
      modifies this`pending
      ensures Valid() && fresh(pending)
      ensures |pending| == (if balanceDest == stakeDest then 1 else 2)
      ensures pending[0].Value() == Record(balanceDest, EpochRewardReason, Observe(state, balanceDest), Snapshot(0, 0, 0, 0), None, None)
      ensures balanceDest != stakeDest ==>
                pending[1].Value() == Record(stakeDest, EpochRewardReason, Observe(state, stakeDest), Snapshot(0, 0, 0, 0), None, None)
    {
      AddPendingBalanceUpdate(balanceDest, state, EpochRewardReason, None, None);
      if balanceDest != stakeDest {
        AddPendingBalanceUpdate(stakeDest, state, EpochRewardReason, None, None);
      }
    }

    method CompleteBalanceUpdates(state: State) returns (updates: seq<BalanceUpdate>)
      requires Valid()
      modifies this`pending, pending
      ensures Valid() && pending == [] && updates == old(pending)
      ensures AsLedger(balanceUpdates) == old(AsLedger(balanceUpdates))
      ensures forall i | 0 <= i < |updates| ::
                && updates[i].Value() == old(pending[i].Value()).(after := Observe(state, updates[i].address))
                && IsSeen(Observe(state, updates[i].address), updates[i].address, state)
    {
      hide WF, Owners;
      for i := 0 to |pending|
        invariant pending == old(pending)
        invariant forall x | x in balanceUpdates :: x.Value() == old(x.Value())
        invariant forall j | 0 <= j < i :: pending[j].Value() == old(pending[j].Value()).(after := Observe(state, pending[j].address))
        invariant forall j | i <= j < |pending| :: pending[j].Value() == old(pending[j].Value())
      {
        var bu := pending[i];
        var seen := Observe(state, bu.address);
        bu.balanceNew, bu.stakeNew, bu.penaltyNew, bu.penaltySecondsNew :=
          seen.balance, seen.stake, seen.penalty, seen.penaltySeconds;
      }
      assert Values(balanceUpdates) == old(Values(balanceUpdates));
      updates := pending;
      pending := [];
    }

    // Records what u hands over to the pool of v, and lets v's record say so.
    method CollectHandOver(u: BalanceUpdate, v: BalanceUpdate) returns (ghost spare: seq<BalanceUpdate>)
      requires WF(AsLedger(balanceUpdates)) && u != v && u !in balanceUpdates && v !in balanceUpdates
      requires IsMarked()
      modifies this`balanceUpdates, this`balanceUpdateAddrs, this`byReasonAndAddr, this`linkedByPrev, this`linkedByNext,
               balanceUpdates, v
      ensures |spare| == 2 && fresh(spare) && spare[0] != spare[1]
      ensures AsLedger(balanceUpdates)
           == HandOver(old(AsLedger(balanceUpdates)), spare[0], spare[1], v, old(u.Value()), old(v.Value()))
      ensures IsMarked()
    {
      hide WF, Handle;
      ghost var l, r, p := AsLedger(balanceUpdates), u.Value(), v.Value();
      var reward := new BalanceUpdate(Record(
        u.address, EpochRewardReason,
        Snapshot(u.balanceOld, u.stakeOld, u.penaltyOld, u.penaltySecondsOld),
        Snapshot(u.balanceOld + (v.balanceNew - v.balanceOld), u.stakeNew, u.penaltyNew, u.penaltySecondsNew),
        None, None));
      var handOver := new BalanceUpdate(Record(
        reward.address, DelegatorEpochRewardReason,
        Snapshot(reward.balanceNew, reward.stakeNew, reward.penaltyNew, reward.penaltySecondsNew),
        Snapshot(u.balanceNew, u.stakeNew, u.penaltyNew, u.penaltySecondsNew),
        None, None));
      spare := [reward, handOver];
      assert Values(balanceUpdates) == l.vals;
      v.reason := DelegateeEpochRewardReason;
      assert Values(balanceUpdates) == l.vals;
      CollectParts(reward, handOver, v, r, p);
    }

    method CollectParts(reward: BalanceUpdate, handOver: BalanceUpdate, receipt: BalanceUpdate, ghost u: Record, ghost v: Record)
      requires WF(AsLedger(balanceUpdates)) && reward != handOver && reward != receipt && handOver != receipt
      requires reward !in balanceUpdates && handOver !in balanceUpdates && receipt !in balanceUpdates
      requires reward.Value() == RewardPart(u, v) && handOver.Value() == HandOverPart(u, v) && receipt.Value() == ReceiptPart(v)
      requires IsMarked()
      modifies this`balanceUpdates, this`balanceUpdateAddrs, this`byReasonAndAddr, this`linkedByPrev, this`linkedByNext,
               balanceUpdates, reward, handOver, receipt
      ensures AsLedger(balanceUpdates) == HandOver(old(AsLedger(balanceUpdates)), reward, handOver, receipt, u, v)
      ensures IsMarked()
    {
      hide WF, Handle;
      GiveAwayWF(AsLedger(balanceUpdates), reward, handOver, u, v);
      Collect(reward);
      Collect(handOver);
      Collect(receipt);
    }

    // Ends the updates begun since the last call: each now says what the account has become, and
    // is recorded on its own, merged, or split into a reward, a hand-over and a receipt.
    method CompleteBalanceUpdate(state: State) returns (ghost step: Step<BalanceUpdate>)
      requires Valid()
      modifies this, balanceUpdates, pending
      ensures Valid() && pending == [] && otherAddrs == old(otherAddrs)
      ensures |step.pend| == |old(pending)|
      ensures forall i | 0 <= i < |step.pend| ::
                && step.pend[i].0 == old(pending)[i]
                && step.pend[i].1 == old(pending[i].Value()).(after := Observe(state, old(pending)[i].address))
                && IsSeen(step.pend[i].1.after, old(pending)[i].address, state)
      ensures Fresh(old(AsLedger(balanceUpdates)), step)
      ensures AsLedger(balanceUpdates) == Complete(old(AsLedger(balanceUpdates)), step)
      ensures forall x | x in balanceUpdates :: x in old(balanceUpdates) || x in old(pending) || fresh(x)
    {
      hide WF, Complete, Observe, Fresh;
      var updates := CompleteBalanceUpdates(state);
      ghost var pend := Pairs(updates);
      ghost var spare := CollectCompleted(updates, (set x | x in balanceUpdates) + (set x | x in updates));
      step := Step(pend, spare);
    }

    method CollectCompleted(updates: seq<BalanceUpdate>, ghost all: set<BalanceUpdate>) returns (ghost spare: seq<BalanceUpdate>)
      requires WF(AsLedger(balanceUpdates)) && NoDup(updates) && forall x | x in updates :: x !in balanceUpdates
      requires IsMarked()
      requires (forall x | x in balanceUpdates :: x in all) && forall x | x in updates :: x in all
      modifies this`balanceUpdates, this`balanceUpdateAddrs, this`byReasonAndAddr, this`linkedByPrev, this`linkedByNext, all
      ensures Fresh(old(AsLedger(balanceUpdates)), Step(old(Pairs(updates)), spare))
      ensures AsLedger(balanceUpdates) == Complete(old(AsLedger(balanceUpdates)), Step(old(Pairs(updates)), spare))
      ensures WF(AsLedger(balanceUpdates))
      ensures forall x | x in balanceUpdates :: x in old(balanceUpdates) || x in updates || fresh(x)
      ensures IsMarked()
    {
      ghost var l, step := AsLedger(balanceUpdates), Step(Pairs(updates), []);
      hide WF, Handle, HandOver, PostAll;
      FreshPairs(updates, l);
      if |updates| == 2 && updates[0].reason == updates[1].reason && updates[0].reason == EpochRewardReason
         && updates[0].address != updates[1].address {
        if updates[0].balanceOld == updates[0].balanceNew {
          spare := CollectHandOver(updates[0], updates[1]);
        } else {
          spare := CollectHandOver(updates[1], updates[0]);
        }
      } else {
        spare := [];
        assert fresh(spare);
        CollectEach(updates, all);
      }
      CompleteWF(l, step.(spare := spare));
    }

    // Records each update for itself.
    method CollectEach(updates: seq<BalanceUpdate>, ghost all: set<BalanceUpdate>)
      requires (forall x | x in balanceUpdates :: x in all) && forall x | x in updates :: x in all
      requires WF(AsLedger(balanceUpdates)) && NoDup(updates) && forall x | x in updates :: x !in balanceUpdates
      requires IsMarked()
      modifies this`balanceUpdates, this`balanceUpdateAddrs, this`byReasonAndAddr, this`linkedByPrev, this`linkedByNext,
               all
      ensures FreshAll(old(AsLedger(balanceUpdates)), old(Pairs(updates)))
      ensures AsLedger(balanceUpdates) == PostAll(old(AsLedger(balanceUpdates)), old(Pairs(updates)))
      ensures IsMarked()
    {
      hide WF, Handle, Post;
      ghost var l, pend := AsLedger(balanceUpdates), Pairs(updates);
      for i := 0 to |updates|
        invariant forall j | i <= j < |updates| :: updates[j] !in balanceUpdates && updates[j].Value() == pend[j].1
        invariant AsLedger(balanceUpdates) == PostAll(l, pend[..i])
        invariant IsMarked()
        invariant forall x | x in balanceUpdates :: x in all
      {
        PostAllWF(l, pend[..i]);
        assert pend[..i + 1][..i] == pend[..i];
        var bu := updates[i];
        CollectOne(bu);
      }
      assert pend[..|updates|] == pend;
    }

    // Records one update, if anything changed.
    method CollectOne(bu: BalanceUpdate)
      requires WF(AsLedger(balanceUpdates)) && bu !in balanceUpdates
      requires IsMarked()
      modifies this`balanceUpdates, this`balanceUpdateAddrs, this`byReasonAndAddr, this`linkedByPrev, this`linkedByNext,
               balanceUpdates, bu
      ensures AsLedger(balanceUpdates) == Post(old(AsLedger(balanceUpdates)), bu, old(bu.Value()))
      ensures balanceUpdates == old(balanceUpdates) || balanceUpdates == old(balanceUpdates) + [bu]
      ensures IsMarked()
    {
      hide WF, Handle;
      if bu.balanceOld == bu.balanceNew && bu.stakeOld == bu.stakeNew && bu.penaltyOld == bu.penaltyNew
         && bu.penaltySecondsOld == bu.penaltySecondsNew
         && (bu.penaltyPayment.None? || bu.penaltyPayment.value <= 0) {
        return;
      }
      if bu.reason == EpochRewardReason || bu.reason == CommitteeRewardReason || bu.reason == VerifiedStakeTransferReason {
        Collect(bu);
        return;
      }
      ghost var l := AsLedger(balanceUpdates);
      OwnersAppend(balanceUpdates, bu);
      balanceUpdates := balanceUpdates + [bu];
      balanceUpdateAddrs := balanceUpdateAddrs + {bu.address};
      assert Values(balanceUpdates) == l.vals[bu := bu.Value()];
    }
  }

  ghost function Owners(list: seq<BalanceUpdate>): set<Address> {
    set x | x in list :: x.address
  }

  lemma OwnersAppend(list: seq<BalanceUpdate>, bu: BalanceUpdate)
    ensures Owners(list + [bu]) == Owners(list) + {bu.address}
  {
    assert bu in list + [bu];
  }

  lemma IsStart<Id>(l: Ledger<Id>, x: Id, u: Record, l': Ledger<Id>)
    requires l'.list == l.list + [x] && l'.vals == l.vals[x := u] && l'.index == Register(l, x, u.reason, u.address).index
    requires var c := Continues(l, u.reason, u.address);
             if c.Some? then l'.byNext == l.byNext[x := c.value] && l'.byPrev == l.byPrev[c.value := x]
             else l'.byNext == l.byNext && l'.byPrev == l.byPrev
    ensures l' == Start(l, x, u)
  {
  }

  // The links of a list's records lead to other records of the list.
  lemma InList(l: Ledger<BalanceUpdate>, list: seq<BalanceUpdate>)
    requires WF(l) && l.list == list
    ensures LinksWF(l.vals, l.byNext) && LinksWF(l.vals, l.byPrev)
    ensures forall x | x in l.byNext :: x in list && l.byNext[x] in list && l.byNext[x] != x
    ensures forall x | x in l.byPrev :: x in list && l.byPrev[x] in list && l.byPrev[x] != x
  {
    assert forall x | x in l.byNext :: Joins(l.vals, x, l.byNext[x]);
    assert forall x | x in l.byPrev :: Joins(l.vals, x, l.byPrev[x]);
  }

  ghost function Pairs(list: seq<BalanceUpdate>): seq<(BalanceUpdate, Record)>
    reads list
  {
    seq(|list|, i requires 0 <= i < |list| reads list => (list[i], list[i].Value()))
  }

  lemma FreshPairs(updates: seq<BalanceUpdate>, l: Ledger<BalanceUpdate>)
    requires NoDup(updates) && forall x | x in updates :: x !in l.vals
    ensures FreshAll(l, Pairs(updates))
  {
  }

  ghost function Values(list: seq<BalanceUpdate>): map<BalanceUpdate, Record>
    reads list
  {
    map x | x in list :: x.Value()
  }
}
