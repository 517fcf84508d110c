/**
 Delegation changes of a block, and the pools whose sizes they may change.
 */
module Delegation {
  import opened Common

  // The state of the identities: whom each delegates to, since when and whether it is validated, and
  // the sizes of the pools, as the node's validators cache holds them.
  datatype State = State(delegatees: map<Address, Address>, birthdays: map<Address, nat>,
                         validated: set<Address>, pools: map<Address, nat>)
  {
    function Delegatee(a: Address): Option<Address> {
      if a in delegatees then Some(delegatees[a]) else None
    }

    predicate IsPool(a: Address) {
      a in pools
    }

    function PoolSize(a: Address): nat {
      if a in pools then pools[a] else 0
    }
  }

  datatype Switch = Switch(delegator: Address, delegatee: Option<Address>, birthEpoch: Option<nat>)

  datatype KilledReason = InactiveIdentity | Termination(tx: Hash) | ValidationFailure

  datatype Change = Delegated | Undelegated | Killed(reason: KilledReason) | ApplyingFailure

  datatype HistoryUpdate = HistoryUpdate(delegator: Address, change: Change)

  datatype Tx = Tx(sender: Address, isDelegate: bool)

  // The two delegatees are compared as pointers, so equal addresses may count as different.
  type PointerEquality = Address -> bool

  function BirthEpoch(next: State, a: Address): Option<nat> {
    if a in next.birthdays && next.birthdays[a] > 0 then Some(next.birthdays[a]) else None
  }

  function DetectSwitch(a: Address, prev: State, next: State, same: PointerEquality): Option<Switch> {
    var before, after := prev.Delegatee(a), next.Delegatee(a);
    if before.None? && after.None? then None
    else if before.None? then Some(Switch(a, after, BirthEpoch(next, a)))
    else if after.None? then Some(Switch(a, None, None))
    else if same(a) then None
    else Some(Switch(a, after, BirthEpoch(next, a)))
  }

  // The delegatee changes, or stays but is held by another pointer.
  predicate LooksSwitched(a: Address, prev: State, next: State, same: PointerEquality) {
    prev.Delegatee(a) != next.Delegatee(a) || (prev.Delegatee(a).Some? && !same(a))
  }

  // A switch is reported exactly if the delegatee changes, or if it stays but is held by another pointer.
  lemma SwitchReported(a: Address, prev: State, next: State, same: PointerEquality)
    requires same(a) ==> prev.Delegatee(a) == next.Delegatee(a)
    ensures DetectSwitch(a, prev, next, same).Some? <==> LooksSwitched(a, prev, next, same)
  {}

  function HistoryOf(s: Switch): HistoryUpdate {
    HistoryUpdate(s.delegator, if s.delegatee.Some? then Delegated else Undelegated)
  }

  // ---------- Replaying ----------

  // The delegatee of `a` after a list of switches, when it was d before.
  function Replay(d: Option<Address>, switches: seq<Switch>, a: Address): Option<Address> {
    if |switches| == 0 then d
    else
      var s := switches[|switches| - 1];
      if s.delegator == a then s.delegatee else Replay(d, switches[..|switches| - 1], a)
  }

  // Who starts (true) or stops (false) delegating, according to the switches.
  function Told(switches: seq<Switch>): seq<(Address, bool)> {
    if |switches| == 0 then []
    else
      var s := switches[|switches| - 1];
      Told(switches[..|switches| - 1]) + [(s.delegator, s.delegatee.Some?)]
  }

  // Who starts or stops delegating, according to the history; a failed delegation does neither.
  function Changes(history: seq<HistoryUpdate>): seq<(Address, bool)> {
    if |history| == 0 then []
    else
      var u := history[|history| - 1];
      Changes(history[..|history| - 1]) + if u.change.ApplyingFailure? then [] else [(u.delegator, u.change.Delegated?)]
  }

  // The delegatee that a block leaves to an address it names.
  function Outcome(next: State, killed: map<Address, KilledReason>, a: Address): Option<Address> {
    if a in killed then None else next.Delegatee(a)
  }

  ghost predicate IsExplained(u: HistoryUpdate, prev: State, next: State, killed: map<Address, KilledReason>) {
    match u.change
    case Killed(reason) => u.delegator in killed && killed[u.delegator] == reason
    case ApplyingFailure => u.delegator !in killed && prev.Delegatee(u.delegator) == next.Delegatee(u.delegator)
    case _ => u.delegator !in killed
  }

  // A switch to a delegatee tells the delegator's birthday in the new state, if it has one; others tell none.
  ghost predicate TellsBirthday(s: Switch, next: State) {
    forall e: nat :: s.birthEpoch == Some(e) <==>
      s.delegatee.Some? && s.delegator in next.birthdays && next.birthdays[s.delegator] == e && e > 0
  }

  // What is known when the addresses of `done` have been looked at: replaying the switches leads from
  // the old delegations to the outcome for exactly these, and the history tells the same story.
  ghost predicate IsReplayed(switches: seq<Switch>, history: seq<HistoryUpdate>, prev: State, next: State,
                             killed: map<Address, KilledReason>, done: set<Address>)
  {
    && (forall a: Address :: Replay(prev.Delegatee(a), switches, a) ==
          if a in done then Outcome(next, killed, a) else prev.Delegatee(a))
    && (forall s | s in switches ::
          && s.delegatee == Outcome(next, killed, s.delegator)
          && TellsBirthday(s, next))
    && Changes(history) == Told(switches)
    && forall u | u in history :: IsExplained(u, prev, next, killed)
  }

  method Record(res: seq<Switch>, history: seq<HistoryUpdate>, s: Switch, u: HistoryUpdate, ghost prev: State,
                ghost next: State, ghost killed: map<Address, KilledReason>, ghost done: set<Address>)
      returns (res': seq<Switch>, history': seq<HistoryUpdate>)
    requires IsReplayed(res, history, prev, next, killed, done)
    requires s.delegatee == Outcome(next, killed, s.delegator)
    requires TellsBirthday(s, next)
    requires IsExplained(u, prev, next, killed) && !u.change.ApplyingFailure?
    requires u.delegator == s.delegator && u.change.Delegated? == s.delegatee.Some?
    ensures res' == res + [s] && history' == history + [u]
    ensures IsReplayed(res', history', prev, next, killed, done + {s.delegator})
  {
    res', history' := res + [s], history + [u];
    assert res'[..|res|] == res;
    assert history'[..|history|] == history;
  }

  method Fail(ghost res: seq<Switch>, history: seq<HistoryUpdate>, a: Address, ghost prev: State,
              ghost next: State, ghost killed: map<Address, KilledReason>, ghost done: set<Address>)
      returns (history': seq<HistoryUpdate>)
    requires IsReplayed(res, history, prev, next, killed, done)
    requires a !in killed && prev.Delegatee(a) == next.Delegatee(a)
    ensures history' == history + [HistoryUpdate(a, ApplyingFailure)]
    ensures IsReplayed(res, history', prev, next, killed, done + {a})
  {
    history' := history + [HistoryUpdate(a, ApplyingFailure)];
    assert history'[..|history|] == history;
  }

  ghost function Elements(s: seq<Address>): set<Address> {
    set a | a in s
  }

  ghost function Senders(txs: seq<Tx>): set<Address> {
    set t | t in txs :: t.sender
  }

  ghost function Delegating(txs: seq<Tx>): set<Address> {
    set t | t in txs && t.isDelegate :: t.sender
  }

  ghost function Mentioned(history: seq<HistoryUpdate>): set<Address> {
    set u | u in history :: u.delegator
  }

  ghost function Failed(history: seq<HistoryUpdate>): set<Address> {
    set u | u in history && u.change.ApplyingFailure? :: u.delegator
  }

  // Whoever asked to delegate is in the history, and nobody else is said to have failed.
  ghost predicate IsReported(history: seq<HistoryUpdate>, asked: set<Address>, killed: map<Address, KilledReason>) {
    asked - killed.Keys <= Mentioned(history) && Failed(history) <= asked
  }

  lemma ReportedMore(history: seq<HistoryUpdate>, u: HistoryUpdate, asked: set<Address>, killed: map<Address, KilledReason>)
    requires IsReported(history, asked, killed)
    ensures IsReported(history + [u], asked + {u.delegator}, killed)
    ensures !u.change.ApplyingFailure? ==> IsReported(history + [u], asked, killed)
  {
    assert Mentioned(history + [u]) == Mentioned(history) + {u.delegator} by {
      assert (history + [u])[|history|] == u;
    }
  }

  lemma ReportedAlready(history: seq<HistoryUpdate>, asked: set<Address>, a: Address, killed: map<Address, KilledReason>)
    requires IsReported(history, asked, killed) && (a in killed || a in asked)
    ensures IsReported(history, asked + {a}, killed)
  {}

  lemma NothingReplayed(prev: State, next: State, killed: map<Address, KilledReason>)
    ensures IsReplayed([], [], prev, next, killed, {}) && IsReported([], {}, killed)
  {}

  // Looking at an address without a pool before and after, or with the same one, changes nothing.
  lemma ReplayedAlready(switches: seq<Switch>, history: seq<HistoryUpdate>, prev: State, next: State,
                        killed: map<Address, KilledReason>, done: set<Address>, a: Address)
    requires IsReplayed(switches, history, prev, next, killed, done)
    requires prev.Delegatee(a) == Outcome(next, killed, a)
    ensures IsReplayed(switches, history, prev, next, killed, done + {a})
  {}

  // ---------- How often something is reported ----------

  function SwitchesOf(switches: seq<Switch>, a: Address): nat {
    if |switches| == 0 then 0
    else SwitchesOf(switches[..|switches| - 1], a) + if switches[|switches| - 1].delegator == a then 1 else 0
  }

  function FailuresOf(history: seq<HistoryUpdate>, a: Address): nat {
    if |history| == 0 then 0
    else
      var u := history[|history| - 1];
      FailuresOf(history[..|history| - 1], a) + if u.delegator == a && u.change.ApplyingFailure? then 1 else 0
  }

  function TimesIn(addresses: seq<Address>, a: Address): nat {
    if |addresses| == 0 then 0
    else TimesIn(addresses[..|addresses| - 1], a) + if addresses[|addresses| - 1] == a then 1 else 0
  }

  // The transactions of a, or only those that ask to delegate.
  function TxsOf(txs: seq<Tx>, a: Address, onlyDelegate: bool): nat {
    if |txs| == 0 then 0
    else
      var tx := txs[|txs| - 1];
      TxsOf(txs[..|txs| - 1], a, onlyDelegate) + if tx.sender == a && (onlyDelegate ==> tx.isDelegate) then 1 else 0
  }

  // The killed are reported once if they had a pool; a pending delegation as often as it is pending; and the
  // transactions count only for those whose delegation was not pending.
  ghost predicate IsCounted(switches: seq<Switch>, history: seq<HistoryUpdate>, prev: State, next: State, same: PointerEquality,
                            killed: map<Address, KilledReason>, dead: set<Address>, delegations: seq<Address>, txs: seq<Tx>)
  {
    forall a: Address ::
      if a in killed then
        && SwitchesOf(switches, a) == (if a in dead && prev.Delegatee(a).Some? then 1 else 0)
        && FailuresOf(history, a) == 0
      else if LooksSwitched(a, prev, next, same) then
        && SwitchesOf(switches, a) == (if TimesIn(delegations, a) > 0 then TimesIn(delegations, a) else TxsOf(txs, a, false))
        && FailuresOf(history, a) == 0
      else
        && SwitchesOf(switches, a) == 0
        && FailuresOf(history, a) == (if TimesIn(delegations, a) > 0 then TimesIn(delegations, a) else TxsOf(txs, a, true))
  }

  lemma OneMoreSwitch(switches: seq<Switch>, history: seq<HistoryUpdate>, s: Switch, u: HistoryUpdate)
    requires !u.change.ApplyingFailure?
    ensures forall a :: SwitchesOf(switches + [s], a) == SwitchesOf(switches, a) + if s.delegator == a then 1 else 0
    ensures forall a :: FailuresOf(history + [u], a) == FailuresOf(history, a)
  {
    assert (switches + [s])[..|switches|] == switches && (history + [u])[..|history|] == history;
  }

  lemma OneMoreFailure(history: seq<HistoryUpdate>, b: Address)
    ensures forall a :: FailuresOf(history + [HistoryUpdate(b, ApplyingFailure)], a) == FailuresOf(history, a) + if a == b then 1 else 0
  {
    assert (history + [HistoryUpdate(b, ApplyingFailure)])[..|history|] == history;
  }

  lemma OneMoreDelegation(delegations: seq<Address>, i: nat)
    requires i < |delegations|
    ensures forall a :: TimesIn(delegations[..i + 1], a) == TimesIn(delegations[..i], a) + if a == delegations[i] then 1 else 0
  {
    assert delegations[..i + 1][..i] == delegations[..i];
  }

  lemma OneMoreTx(txs: seq<Tx>, i: nat)
    requires i < |txs|
    ensures forall a, d :: TxsOf(txs[..i + 1], a, d) ==
              TxsOf(txs[..i], a, d) + if txs[i].sender == a && (d ==> txs[i].isDelegate) then 1 else 0
  {
    assert txs[..i + 1][..i] == txs[..i];
  }

  lemma {:induction false} TimesInElements(delegations: seq<Address>, a: Address)
    ensures TimesIn(delegations, a) > 0 <==> a in Elements(delegations)
  {
    if |delegations| > 0 {
      TimesInElements(delegations[..|delegations| - 1], a);
      assert delegations == delegations[..|delegations| - 1] + [delegations[|delegations| - 1]];
    }
  }

  lemma NothingCounted(prev: State, next: State, same: PointerEquality, killed: map<Address, KilledReason>)
    ensures IsCounted([], [], prev, next, same, killed, {}, [], [])
  {}

  lemma CountKilled(res: seq<Switch>, history: seq<HistoryUpdate>, prev: State, next: State, same: PointerEquality,
                    killed: map<Address, KilledReason>, dead: set<Address>, a: Address)
    requires IsCounted(res, history, prev, next, same, killed, dead, [], []) && a in killed && a !in dead
    ensures if prev.Delegatee(a).Some? then
              IsCounted(res + [Switch(a, None, None)], history + [HistoryUpdate(a, Killed(killed[a]))], prev, next, same, killed, dead + {a}, [], [])
            else IsCounted(res, history, prev, next, same, killed, dead + {a}, [], [])
  {
    OneMoreSwitch(res, history, Switch(a, None, None), HistoryUpdate(a, Killed(killed[a])));
    hide SwitchesOf, FailuresOf, TimesIn, TxsOf, LooksSwitched;
  }

  lemma CountPending(res: seq<Switch>, history: seq<HistoryUpdate>, prev: State, next: State, same: PointerEquality,
                     killed: map<Address, KilledReason>, dead: set<Address>, delegations: seq<Address>, i: nat)
    requires i < |delegations| && IsCounted(res, history, prev, next, same, killed, dead, delegations[..i], [])
    ensures var a := delegations[i];
            if a in killed then IsCounted(res, history, prev, next, same, killed, dead, delegations[..i + 1], [])
            else if LooksSwitched(a, prev, next, same) then
              forall s: Switch, u: HistoryUpdate | s.delegator == a && !u.change.ApplyingFailure? ::
                IsCounted(res + [s], history + [u], prev, next, same, killed, dead, delegations[..i + 1], [])
            else
              IsCounted(res, history + [HistoryUpdate(a, ApplyingFailure)], prev, next, same, killed, dead, delegations[..i + 1], [])
  {
    var a := delegations[i];
    OneMoreDelegation(delegations, i);
    OneMoreFailure(history, a);
    assert forall b, d :: TxsOf([], b, d) == 0;
    hide SwitchesOf, FailuresOf, TimesIn, TxsOf, LooksSwitched;
    forall s: Switch, u: HistoryUpdate | a !in killed && LooksSwitched(a, prev, next, same) && s.delegator == a && !u.change.ApplyingFailure?
      ensures IsCounted(res + [s], history + [u], prev, next, same, killed, dead, delegations[..i + 1], [])
    {
      OneMoreSwitch(res, history, s, u);
    }
  }

  lemma CountTx(res: seq<Switch>, history: seq<HistoryUpdate>, prev: State, next: State, same: PointerEquality,
                killed: map<Address, KilledReason>, dead: set<Address>, delegations: seq<Address>, txs: seq<Tx>, i: nat)
    requires i < |txs| && IsCounted(res, history, prev, next, same, killed, dead, delegations, txs[..i])
    ensures var a := txs[i].sender;
            if a in killed || a in Elements(delegations) then
              IsCounted(res, history, prev, next, same, killed, dead, delegations, txs[..i + 1])
            else if LooksSwitched(a, prev, next, same) then
              forall s: Switch, u: HistoryUpdate | s.delegator == a && !u.change.ApplyingFailure? ::
                IsCounted(res + [s], history + [u], prev, next, same, killed, dead, delegations, txs[..i + 1])
            else if txs[i].isDelegate then
              IsCounted(res, history + [HistoryUpdate(a, ApplyingFailure)], prev, next, same, killed, dead, delegations, txs[..i + 1])
            else IsCounted(res, history, prev, next, same, killed, dead, delegations, txs[..i + 1])
  {
    var a := txs[i].sender;
    OneMoreTx(txs, i);
    OneMoreFailure(history, a);
    TimesInElements(delegations, a);
    hide SwitchesOf, FailuresOf, TimesIn, TxsOf, LooksSwitched, Elements;
    forall s: Switch, u: HistoryUpdate | a !in killed && a !in Elements(delegations) && LooksSwitched(a, prev, next, same)
                                         && s.delegator == a && !u.change.ApplyingFailure?
      ensures IsCounted(res + [s], history + [u], prev, next, same, killed, dead, delegations, txs[..i + 1])
    {
      OneMoreSwitch(res, history, s, u);
    }
  }

  // Everyone whose delegation a block may change.
  ghost function Named(killed: map<Address, KilledReason>, delegations: seq<Address>, txs: seq<Tx>): set<Address> {
    killed.Keys + Elements(delegations) + Senders(txs)
  }

  // Replaying the switches leads from the old delegations to the new ones for everyone the block
  // names, ends the delegations of the killed, and leaves everyone else alone.
  method DetectDelegationSwitches(isIdentityUpdate: bool, prev: State, next: State, same: PointerEquality,
                                  killed: map<Address, KilledReason>, delegations: seq<Address>, txs: seq<Tx>)
      returns (res: seq<Switch>, history: seq<HistoryUpdate>)
    requires forall a: Address | same(a) :: prev.Delegatee(a) == next.Delegatee(a)
    ensures !isIdentityUpdate ==> res == [] && history == []
    ensures isIdentityUpdate ==> IsReplayed(res, history, prev, next, killed, Named(killed, delegations, txs))
    ensures isIdentityUpdate ==> IsReported(history, Elements(delegations) + Delegating(txs), killed)
    ensures isIdentityUpdate ==> IsCounted(res, history, prev, next, same, killed, killed.Keys, delegations, txs)
  {
    hide Replay, Told, Changes, IsReplayed, IsReported, IsCounted, LooksSwitched;
    res, history := [], [];
    if !isIdentityUpdate {
      return;
    }
    res, history := SwitchOfKilled(prev, next, same, killed);
    var handled: set<Address>;
    res, history, handled := SwitchDelegations(res, history, prev, next, same, killed, delegations);
    ghost var done := killed.Keys + Elements(delegations);
    ghost var senders: set<Address> := {};
    assert done + senders == done && Elements(delegations) + Delegating([]) == Elements(delegations);
    for i := 0 to |txs|
      invariant senders == Senders(txs[..i])
      invariant IsReplayed(res, history, prev, next, killed, done + senders)
      invariant IsReported(history, Elements(delegations) + Delegating(txs[..i]), killed)
      invariant IsCounted(res, history, prev, next, same, killed, killed.Keys, delegations, txs[..i])
    {
      var tx := txs[i];
      CountTx(res, history, prev, next, same, killed, killed.Keys, delegations, txs, i);
      assert txs[..i + 1] == txs[..i] + [tx];
      ghost var asked := Elements(delegations) + Delegating(txs[..i]);
      assert Elements(delegations) + Delegating(txs[..i + 1]) == if tx.isDelegate then asked + {tx.sender} else asked;
      ghost var before := done + senders;
      senders := senders + {tx.sender};
      assert done + senders == before + {tx.sender};
      if tx.sender in killed || tx.sender in handled {
        ReportedAlready(history, asked, tx.sender, killed);
        assert done + senders == before;
        continue;
      }
      var s := DetectSwitch(tx.sender, prev, next, same);
      SwitchReported(tx.sender, prev, next, same);
      if s.Some? {
        ReportedMore(history, HistoryOf(s.value), asked, killed);
        res, history := Record(res, history, s.value, HistoryOf(s.value), prev, next, killed, before);
      } else if tx.isDelegate {
        ReportedMore(history, HistoryUpdate(tx.sender, ApplyingFailure), asked, killed);
        history := Fail(res, history, tx.sender, prev, next, killed, before);
      } else {
        ReplayedAlready(res, history, prev, next, killed, before, tx.sender);
      }
    }
    assert txs[..|txs|] == txs;
  }

  method SwitchOfKilled(prev: State, next: State, ghost same: PointerEquality, killed: map<Address, KilledReason>)
      returns (res: seq<Switch>, history: seq<HistoryUpdate>)
    ensures IsReplayed(res, history, prev, next, killed, killed.Keys) && IsReported(history, {}, killed)
    ensures IsCounted(res, history, prev, next, same, killed, killed.Keys, [], [])
  {
    hide Replay, Told, Changes, IsReplayed, IsReported, IsCounted;
    NothingReplayed(prev, next, killed);
    NothingCounted(prev, next, same, killed);
    res, history := [], [];
    var rest := killed.Keys;
    assert killed.Keys - rest == {} && killed.Keys - {} == killed.Keys;
    while rest != {}
      invariant rest <= killed.Keys && IsReplayed(res, history, prev, next, killed, killed.Keys - rest)
      invariant IsReported(history, {}, killed)
      invariant IsCounted(res, history, prev, next, same, killed, killed.Keys - rest, [], [])
      decreases rest
    {
      var a :| a in rest;
      ghost var done := killed.Keys - rest;
      CountKilled(res, history, prev, next, same, killed, done, a);
      if prev.Delegatee(a).Some? {
        ReportedMore(history, HistoryUpdate(a, Killed(killed[a])), {}, killed);
        res, history := Record(res, history, Switch(a, None, None), HistoryUpdate(a, Killed(killed[a])), prev, next, killed, done);
      } else {
        ReplayedAlready(res, history, prev, next, killed, done, a);
      }
      rest := rest - {a};
      assert killed.Keys - rest == done + {a};
    }
  }

  method SwitchDelegations(res0: seq<Switch>, history0: seq<HistoryUpdate>, prev: State, next: State,
                           same: PointerEquality, killed: map<Address, KilledReason>, delegations: seq<Address>)
      returns (res: seq<Switch>, history: seq<HistoryUpdate>, handled: set<Address>)
    requires IsReplayed(res0, history0, prev, next, killed, killed.Keys) && IsReported(history0, {}, killed)
    requires IsCounted(res0, history0, prev, next, same, killed, killed.Keys, [], [])
    requires forall a: Address | same(a) :: prev.Delegatee(a) == next.Delegatee(a)
    ensures handled == Elements(delegations) - killed.Keys
    ensures IsReplayed(res, history, prev, next, killed, killed.Keys + Elements(delegations))
    ensures IsReported(history, Elements(delegations), killed)
    ensures IsCounted(res, history, prev, next, same, killed, killed.Keys, delegations, [])
  {
    hide Replay, Told, Changes, IsReplayed, IsReported, IsCounted, LooksSwitched;
    res, history, handled := res0, history0, {};
    assert killed.Keys + Elements([]) == killed.Keys && Elements([]) == {};
    for i := 0 to |delegations|
      invariant handled == Elements(delegations[..i]) - killed.Keys
      invariant IsReplayed(res, history, prev, next, killed, killed.Keys + Elements(delegations[..i]))
      invariant IsReported(history, Elements(delegations[..i]), killed)
      invariant IsCounted(res, history, prev, next, same, killed, killed.Keys, delegations[..i], [])
    {
      var a := delegations[i];
      CountPending(res, history, prev, next, same, killed, killed.Keys, delegations, i);
      assert delegations[..i + 1] == delegations[..i] + [a];
      ghost var done := killed.Keys + Elements(delegations[..i]);
      assert Elements(delegations[..i + 1]) == Elements(delegations[..i]) + {a};
      assert killed.Keys + Elements(delegations[..i + 1]) == done + {a};
      if a in killed {
        ReportedAlready(history, Elements(delegations[..i]), a, killed);
        assert done + {a} == done;
        continue;
      }
      var s := DetectSwitch(a, prev, next, same);
      SwitchReported(a, prev, next, same);
      if s.Some? {
        ReportedMore(history, HistoryOf(s.value), Elements(delegations[..i]), killed);
        res, history := Record(res, history, s.value, HistoryOf(s.value), prev, next, killed, done);
      } else {
        ReportedMore(history, HistoryUpdate(a, ApplyingFailure), Elements(delegations[..i]), killed);
        history := Fail(res, history, a, prev, next, killed, done);
      }
      handled := handled + {a};
    }
    assert delegations[..|delegations|] == delegations;
  }

  // ---------- Pool sizes ----------

  datatype AddressRecord = AddressRecord(address: Address, hasStateChanges: bool)

  datatype PoolSize = PoolSize(address: Address, size: nat)

  ghost predicate IsLinked(a: Address, p: Address, prev: State, next: State) {
    prev.Delegatee(a) == Some(p) || next.Delegatee(a) == Some(p)
  }

  ghost predicate ChangesStatus(a: Address, prev: State, next: State) {
    (a in prev.validated) != (a in next.validated)
  }

  ghost predicate ChangesDelegatee(a: Address, prev: State, next: State) {
    prev.Delegatee(a) != next.Delegatee(a)
  }

  // The pools that the delegators and the identities of a block make worth looking at.
  ghost predicate IsTouched(p: Address, delegators: set<Address>, identities: set<Address>, prev: State, next: State) {
    || (p in identities && (prev.IsPool(p) || next.IsPool(p)))
    || exists a :: a in delegators + identities && IsLinked(a, p, prev, next)
  }

  ghost function Delegators(switches: seq<Switch>): set<Address> {
    set s | s in switches :: s.delegator
  }

  ghost function Identities(addresses: seq<AddressRecord>, epochIdentities: seq<Address>): set<Address> {
    (set a | a in addresses && a.hasStateChanges :: a.address) + Elements(epochIdentities)
  }

  // The sizes found so far: the new size of each touched pool.
  ghost predicate IsRefreshed(sizes: map<Address, nat>, delegators: set<Address>, identities: set<Address>,
                              prev: State, next: State)
  {
    && (forall p: Address :: p in sizes <==> IsTouched(p, delegators, identities, prev, next))
    && forall p | p in sizes :: sizes[p] == next.PoolSize(p)
  }

  ghost function Listed(res: seq<PoolSize>): set<Address> {
    set s | s in res :: s.address
  }

  method HandleDelegator(sizes: map<Address, nat>, a: Address, prev: State, next: State)
      returns (sizes': map<Address, nat>)
    requires forall p | p in sizes :: sizes[p] == next.PoolSize(p)
    ensures forall p: Address :: p in sizes' <==> p in sizes || IsLinked(a, p, prev, next)
    ensures forall p | p in sizes' :: sizes'[p] == next.PoolSize(p)
  {
    sizes' := sizes;
    var delegatee := prev.Delegatee(a);
    if delegatee.Some? && delegatee.value !in sizes' {
      sizes' := sizes'[delegatee.value := next.PoolSize(delegatee.value)];
    }
    delegatee := next.Delegatee(a);
    if delegatee.Some? && delegatee.value !in sizes' {
      sizes' := sizes'[delegatee.value := next.PoolSize(delegatee.value)];
    }
  }

  method HandlePool(sizes: map<Address, nat>, a: Address, prev: State, next: State)
      returns (sizes': map<Address, nat>)
    requires forall p | p in sizes :: sizes[p] == next.PoolSize(p)
    ensures forall p: Address :: p in sizes' <==> p in sizes || (p == a && (prev.IsPool(a) || next.IsPool(a)))
    ensures forall p | p in sizes' :: sizes'[p] == next.PoolSize(p)
  {
    sizes' := sizes;
    if (prev.IsPool(a) || next.IsPool(a)) && a !in sizes' {
      sizes' := sizes'[a := next.PoolSize(a)];
    }
  }

  method HandleSwitch(sizes: map<Address, nat>, a: Address, prev: State, next: State, ghost delegators: set<Address>)
      returns (sizes': map<Address, nat>)
    requires IsRefreshed(sizes, delegators, {}, prev, next)
    ensures IsRefreshed(sizes', delegators + {a}, {}, prev, next)
  {
    sizes' := HandleDelegator(sizes, a, prev, next);
    forall p: Address
      ensures p in sizes' <==> IsTouched(p, delegators + {a}, {}, prev, next)
    {
      if p in sizes {
        var b :| b in delegators && IsLinked(b, p, prev, next);
        assert b in delegators + {a} + {};
      } else if IsLinked(a, p, prev, next) {
        assert a in delegators + {a} + {};
      }
    }
  }

  method HandleIdentity(sizes: map<Address, nat>, a: Address, prev: State, next: State,
                        ghost delegators: set<Address>, ghost identities: set<Address>)
      returns (sizes': map<Address, nat>)
    requires IsRefreshed(sizes, delegators, identities, prev, next)
    ensures IsRefreshed(sizes', delegators, identities + {a}, prev, next)
  {
    sizes' := HandlePool(sizes, a, prev, next);
    sizes' := HandleDelegator(sizes', a, prev, next);
    forall p: Address
      ensures p in sizes' <==> IsTouched(p, delegators, identities + {a}, prev, next)
    {
      if IsTouched(p, delegators, identities, prev, next) {
        if !(p in identities && (prev.IsPool(p) || next.IsPool(p))) {
          var b :| b in delegators + identities && IsLinked(b, p, prev, next);
          assert b in delegators + (identities + {a});
        }
      } else if IsLinked(a, p, prev, next) {
        assert a in delegators + (identities + {a});
      }
    }
  }

  lemma NothingTouched(prev: State, next: State)
    ensures IsRefreshed(map[], {}, {}, prev, next)
  {}

  // The result lists each touched pool once, with its new size.
  method DetectPoolSizeUpdates(switches: seq<Switch>, addresses: seq<AddressRecord>, epochIdentities: seq<Address>,
                               prev: State, next: State) returns (res: seq<PoolSize>)
    ensures forall i, j | 0 <= i < j < |res| :: res[i].address != res[j].address
    ensures forall p: Address :: p in Listed(res) <==>
              IsTouched(p, Delegators(switches), Identities(addresses, epochIdentities), prev, next)
    ensures forall s | s in res :: s.size == next.PoolSize(s.address)
  {
    hide IsTouched;
    res := [];
    NothingTouched(prev, next);
    assert Delegators([]) == {} && Identities([], []) == {} && Listed([]) == {};
    assert switches[..0] == [] && addresses[..0] == [];
    if |addresses| == 0 && |switches| == 0 && |epochIdentities| == 0 {
      return;
    }
    var sizes := map[];
    for i := 0 to |switches|
      invariant Identities(addresses[..0], []) == {}
      invariant IsRefreshed(sizes, Delegators(switches[..i]), {}, prev, next)
    {
      ghost var delegators := Delegators(switches[..i]);
      assert switches[..i + 1] == switches[..i] + [switches[i]];
      assert Delegators(switches[..i + 1]) == delegators + {switches[i].delegator};
      sizes := HandleSwitch(sizes, switches[i].delegator, prev, next, delegators);
    }
    assert switches[..|switches|] == switches;
    ghost var delegators := Delegators(switches);
    for i := 0 to |addresses|
      invariant IsRefreshed(sizes, delegators, Identities(addresses[..i], []), prev, next)
    {
      assert addresses[..i + 1] == addresses[..i] + [addresses[i]];
      ghost var before := Identities(addresses[..i], []);
      if !addresses[i].hasStateChanges {
        assert Identities(addresses[..i + 1], []) == before;
        continue;
      }
      sizes := HandleIdentity(sizes, addresses[i].address, prev, next, delegators, before);
      assert Identities(addresses[..i + 1], []) == before + {addresses[i].address};
    }
    assert addresses[..|addresses|] == addresses;
    for i := 0 to |epochIdentities|
      invariant IsRefreshed(sizes, delegators, Identities(addresses, epochIdentities[..i]), prev, next)
    {
      assert epochIdentities[..i + 1] == epochIdentities[..i] + [epochIdentities[i]];
      ghost var before := Identities(addresses, epochIdentities[..i]);
      sizes := HandleIdentity(sizes, epochIdentities[i], prev, next, delegators, before);
      assert Identities(addresses, epochIdentities[..i + 1]) == before + {epochIdentities[i]};
    }
    assert epochIdentities[..|epochIdentities|] == epochIdentities;
    res := ListSizes(sizes);
  }

  method ListSizes(sizes: map<Address, nat>) returns (res: seq<PoolSize>)
    ensures forall i, j | 0 <= i < j < |res| :: res[i].address != res[j].address
    ensures Listed(res) == sizes.Keys
    ensures forall s | s in res :: s.address in sizes && s.size == sizes[s.address]
  {
    res := [];
    var rest := sizes.Keys;
    while rest != {}
      invariant rest <= sizes.Keys
      invariant forall i, j | 0 <= i < j < |res| :: res[i].address != res[j].address
      invariant Listed(res) == sizes.Keys - rest
      invariant forall s | s in res :: s.address in sizes && s.size == sizes[s.address]
      decreases rest
    {
      var p :| p in rest;
      assert p !in Listed(res);
      ghost var before := res;
      res := res + [PoolSize(p, sizes[p])];
      assert Listed(res) == Listed(before) + {p} by {
        assert res[|before|] in res;
      }
      rest := rest - {p};
    }
  }

  // ---------- Nothing is missed ----------

  // The validated identities that delegate to p.
  ghost function Members(st: State, p: Address): set<Address> {
    set a | a in st.delegatees && st.delegatees[a] == p && a in st.validated
  }

  // A pool is an address with validated delegators; its size counts them, and the owner if validated.
  ghost predicate CountsMembers(st: State) {
    forall p: Address ::
      && (p in st.pools <==> Members(st, p) != {})
      && (p in st.pools ==> st.pools[p] == |Members(st, p)| + if p in st.validated then 1 else 0)
  }

  // A pool's size changes only when its owner's status changes, or when a delegator of it before or
  // after changes status or delegatee.
  lemma SizeChangesForAReason(prev: State, next: State, p: Address) returns (a: Address)
    requires CountsMembers(prev) && CountsMembers(next) && prev.PoolSize(p) != next.PoolSize(p)
    ensures prev.IsPool(p) || next.IsPool(p)
    ensures
      || (a == p && ChangesStatus(p, prev, next))
      || (IsLinked(a, p, prev, next) && (ChangesStatus(a, prev, next) || ChangesDelegatee(a, prev, next)))
  {
    var m, n := Members(prev, p), Members(next, p);
    if m == n {
      a := p;
    } else if !(m <= n) {
      a :| a in m && a !in n;
    } else {
      a :| a in n && a !in m;
    }
  }

  // The size of p after the listed sizes have been written over the old ones.
  function Written(size: nat, res: seq<PoolSize>, p: Address): nat {
    if |res| == 0 then size
    else
      var s := res[|res| - 1];
      if s.address == p then s.size else Written(size, res[..|res| - 1], p)
  }

  lemma {:induction false} WrittenIs(size: nat, res: seq<PoolSize>, p: Address, n: nat)
    requires forall s | s in res && s.address == p :: s.size == n
    ensures Written(size, res, p) == if p in Listed(res) then n else size
  {
    if |res| > 0 && res[|res| - 1].address != p {
      var init := res[..|res| - 1];
      WrittenIs(size, init, p, n);
      assert p in Listed(res) <==> p in Listed(init) by {
        assert res == init + [res[|res| - 1]];
      }
    }
  }

  // Writing the listed sizes over the old ones gives the new size of every address, if every change of
  // status is among the identities and every change of delegatee among them or the switches.
  lemma NoPoolIsMissed(prev: State, next: State, delegators: set<Address>, identities: set<Address>,
                       res: seq<PoolSize>, p: Address)
    requires CountsMembers(prev) && CountsMembers(next)
    requires forall a: Address | ChangesStatus(a, prev, next) :: a in identities
    requires forall a: Address | ChangesDelegatee(a, prev, next) :: a in delegators + identities
    requires IsTouched(p, delegators, identities, prev, next) ==> p in Listed(res)
    requires forall s | s in res :: s.size == next.PoolSize(s.address)
    ensures Written(prev.PoolSize(p), res, p) == next.PoolSize(p)
  {
    WrittenIs(prev.PoolSize(p), res, p, next.PoolSize(p));
    if prev.PoolSize(p) != next.PoolSize(p) {
      var a := SizeChangesForAReason(prev, next, p);
      assert IsTouched(p, delegators, identities, prev, next);
    }
  }
}
