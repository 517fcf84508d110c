/**
 What the ledger holds after any completed updates: which of them it lists, which it merges, and what
 penalty payments the merged records carry.
 */
module KeptRecords {
  import opened Common
  import opened BalanceLedger

  // ---------- What was begun and completed ----------

  // A null update, one without a payment that changes nothing, leaves no record.
  predicate Matters(u: Record) {
    u.before != u.after || (u.payment.Some? && u.payment.value > 0)
  }

  // The updates of a reason and an address that leave a record.
  function Updates(us: seq<Record>, r: Reason, a: Address): seq<Record> {
    if |us| == 0 then []
    else
      var u := us[|us| - 1];
      Updates(us[..|us| - 1], r, a) + if u.reason == r && u.address == a && Matters(u) then [u] else []
  }

  function Paid(us: seq<Record>): int {
    if |us| == 0 then 0
    else
      var u := us[|us| - 1];
      Paid(us[..|us| - 1]) + if u.payment.Some? then u.payment.value else 0
  }

  // The payments add up; there is none if none of the updates had one.
  ghost function Payment(us: seq<Record>): Option<int> {
    if exists u :: u in us && u.payment.Some? then Some(Paid(us)) else None
  }

  // One record for several updates: from the first to the last, with all that was paid.
  ghost predicate IsCombined(v: Record, us: seq<Record>) {
    && |us| > 0
    && v.address == us[0].address && v.reason == us[0].reason && v.txHash == us[0].txHash
    && v.before == us[0].before && v.after == us[|us| - 1].after
    && v.payment == Payment(us)
  }

  lemma {:induction false} NothingPaid(us: seq<Record>)
    requires forall u | u in us :: u.payment.None?
    ensures Paid(us) == 0
  {
    if |us| > 0 {
      NothingPaid(us[..|us| - 1]);
    }
  }

  lemma PaymentNext(us: seq<Record>, u: Record)
    ensures Payment(us + [u]) ==
            if u.payment.Some? then Some(ValueOrZero(Payment(us)) + u.payment.value) else Payment(us)
  {
    var us' := us + [u];
    assert us'[..|us|] == us;
    assert forall v :: v in us' <==> v in us || v == u;
    if Payment(us).None? {
      NothingPaid(us);
    }
  }

  lemma CombinedOne(u: Record)
    ensures IsCombined(u, [u])
  {
    assert [u] == [] + [u];
    PaymentNext([], u);
  }

  lemma CombinedNext(v: Record, us: seq<Record>, u: Record)
    requires IsCombined(v, us) && u.reason != DelegatorEpochRewardReason
    ensures IsCombined(Merge(v, u), us + [u])
  {
    PaymentNext(us, u);
  }

  lemma UpdatesNext(us: seq<Record>, u: Record, r: Reason, a: Address)
    ensures Updates(us + [u], r, a) == Updates(us, r, a) + if u.reason == r && u.address == a && Matters(u) then [u] else []
  {
    assert (us + [u])[..|us|] == us;
  }

  // ---------- The ledger ----------

  // Updates of these reasons are merged: there is one record of each for an address.
  predicate IsKeptOnce(r: Reason) {
    r in {EpochRewardReason, DelegatorEpochRewardReason, DelegateeEpochRewardReason, CommitteeRewardReason, VerifiedStakeTransferReason}
  }

  // A record of such a reason is the one kept for its address, and only epoch rewards are linked.
  ghost predicate Tidy<Id>(l: Ledger<Id>) {
    && WF(l)
    && (forall x | x in l.vals && IsKeptOnce(l.vals[x].reason) :: Lookup(l, l.vals[x].reason, l.vals[x].address) == Some(x))
    && LinksRewards(l.vals, l.byNext) && LinksRewards(l.vals, l.byPrev)
  }

  ghost predicate LinksRewards<Id>(vals: map<Id, Record>, links: map<Id, Id>) {
    forall x | x in links :: links[x] in vals && IsEpochGroup(vals[links[x]].reason)
  }

  // From vals to vals', records but k keep their payment, and those of other reasons all they say.
  ghost predicate OthersStay<Id>(vals: map<Id, Record>, vals': map<Id, Record>, k: Id) {
    forall y | y in vals && y != k ::
      && y in vals' && vals'[y].payment == vals[y].payment
      && vals'[y].reason == vals[y].reason && vals'[y].address == vals[y].address
      && (!IsEpochGroup(vals[y].reason) ==> vals'[y] == vals[y])
  }

  lemma SameOwnersTidy<Id>(l: Ledger<Id>, l': Ledger<Id>)
    requires Tidy(l) && WF(l') && l' == l.(vals := l'.vals) && SameOwners(l.vals, l'.vals)
    ensures Tidy(l')
  {
    hide WF;
    SameLookup(l, l');
    hide Lookup;
  }

  lemma RelinkStays<Id>(l: Ledger<Id>, x: Id)
    requires Tidy(l) && x in l.vals
    ensures Tidy(Relink(l, x)) && Relink(l, x) == l.(vals := Relink(l, x).vals) && Relink(l, x).vals.Keys == l.vals.Keys
    ensures OthersStay(l.vals, Relink(l, x).vals, x) && Relink(l, x).vals[x].payment == l.vals[x].payment
    ensures !IsEpochGroup(l.vals[x].reason) ==> Relink(l, x) == l
    ensures Relink(l, x).vals[x].reason == l.vals[x].reason && Relink(l, x).vals[x].address == l.vals[x].address
  {
    RelinkWF(l, x);
    SameOwnersTidy(l, Relink(l, x));
    hide WF, Lookup;
  }

  lemma MergeStays<Id>(l: Ledger<Id>, k: Id, u: Record)
    requires Tidy(l) && Lookup(l, u.reason, u.address) == Some(k)
    ensures k in l.vals && Keeps(l.vals, k, u.reason, u.address)
    ensures Tidy(MergeAt(l, k, u)) && OthersStay(l.vals, MergeAt(l, k, u).vals, k)
  {
    MergeAtWF(l, k, u);
    SameOwnersTidy(l, MergeAt(l, k, u));
  }

  lemma StartLinksRewards<Id>(l: Ledger<Id>, x: Id, u: Record)
    requires Tidy(l) && x !in l.vals
    ensures LinksRewards(Start(l, x, u).vals, Start(l, x, u).byNext) && LinksRewards(Start(l, x, u).vals, Start(l, x, u).byPrev)
  {
    var prev := Continues(l, u.reason, u.address);
    if prev.Some? {
      assert exists r :: Lookup(l, r, u.address) == prev && IsEpochGroup(r) && Keeps(l.vals, prev.value, r, u.address);
      assert IsEpochGroup(u.reason);
    }
  }

  lemma StartStays<Id>(l: Ledger<Id>, x: Id, u: Record)
    requires Tidy(l) && x !in l.vals && Lookup(l, u.reason, u.address).None?
    ensures Tidy(Start(l, x, u)) && OthersStay(l.vals, Start(l, x, u).vals, x)
  {
    StartedIs(l, x, u);
    StartLinksRewards(l, x, u);
    var l' := Start(l, x, u);
    hide WF, Lookup, Start, LinksRewards;
    forall y | y in l'.vals && IsKeptOnce(l'.vals[y].reason)
      ensures Lookup(l', l'.vals[y].reason, l'.vals[y].address) == Some(y)
    {
      if y != x {
        assert Lookup(l, l.vals[y].reason, l.vals[y].address) == Some(y);
      }
    }
  }

  // What handling an update does: to the record kept, if any, and to the others.
  ghost predicate IsHandled<Id>(l: Ledger<Id>, x: Id, u: Record, l': Ledger<Id>) {
    var known := Lookup(l, u.reason, u.address);
    if known.Some? then IsMerged(l, known.value, u, l') else IsAdded(l, x, u, l')
  }

  ghost predicate IsMerged<Id>(l: Ledger<Id>, k: Id, u: Record, l': Ledger<Id>) {
    && Tidy(l') && l'.list == l.list && l'.vals.Keys == l.vals.Keys
    && (forall r, a :: Lookup(l', r, a) == Lookup(l, r, a))
    && OthersStay(l.vals, l'.vals, k)
    && k in l.vals && BecomesLike(l'.vals[k], Merge(l.vals[k], u))
  }

  ghost predicate IsAdded<Id>(l: Ledger<Id>, x: Id, u: Record, l': Ledger<Id>) {
    && Tidy(l') && l'.list == l.list + [x] && l'.vals.Keys == l.vals.Keys + {x}
    && (forall r, a :: Lookup(l', r, a) == if r == u.reason && a == u.address then Some(x) else Lookup(l, r, a))
    && OthersStay(l.vals, l'.vals, x)
    && BecomesLike(l'.vals[x], u)
  }

  ghost predicate BecomesLike(v: Record, w: Record) {
    && v.payment == w.payment && v.reason == w.reason && v.address == w.address
    && (!IsEpochGroup(w.reason) ==> v == w)
  }

  lemma MergeIsHandled<Id>(l: Ledger<Id>, k: Id, u: Record)
    requires Tidy(l) && Lookup(l, u.reason, u.address) == Some(k)
    ensures k in l.vals && Tidy(MergeAt(l, k, u)) && IsMerged(l, k, u, Relink(MergeAt(l, k, u), k))
  {
    MergeStays(l, k, u);
    var m := MergeAt(l, k, u);
    MergedVals(l, k, u);
    assert Merge(l.vals[k], u).reason == u.reason;
    hide Tidy, Relink, MergeAt, Merge;
    RelinkStays(m, k);
    assert forall r, a :: Lookup(Relink(m, k), r, a) == Lookup(l, r, a);
    assert OthersStay(l.vals, Relink(m, k).vals, k);
  }

  lemma StartIsHandled<Id>(l: Ledger<Id>, x: Id, u: Record)
    requires Tidy(l) && x !in l.vals && Lookup(l, u.reason, u.address).None?
    ensures Tidy(Start(l, x, u)) && x in Start(l, x, u).vals && IsAdded(l, x, u, Relink(Start(l, x, u), x))
  {
    StartStays(l, x, u);
    StartedIs(l, x, u);
    hide Tidy, Start, Lookup, OthersStay, WF, Relink, IsAdded;
    RelinkedIsAdded(l, x, u, Start(l, x, u));
  }

  lemma RelinkedIsAdded<Id>(l: Ledger<Id>, x: Id, u: Record, m: Ledger<Id>)
    requires Tidy(m) && WF(m) && x !in l.vals && m.list == l.list + [x] && m.vals == l.vals[x := u]
    requires forall r, a :: Lookup(m, r, a) == if r == u.reason && a == u.address then Some(x) else Lookup(l, r, a)
    ensures IsAdded(l, x, u, Relink(m, x))
  {
    hide Tidy, Relink, Lookup, OthersStay;
    RelinkStays(m, x);
    SameLookup(m, Relink(m, x));
    OthersStayStarted(l.vals, x, u, Relink(m, x).vals);
  }

  lemma OthersStayStarted<Id>(vals: map<Id, Record>, x: Id, u: Record, vals': map<Id, Record>)
    requires x !in vals && OthersStay(vals[x := u], vals', x)
    ensures OthersStay(vals, vals', x)
  {
    assert forall y | y in vals :: y in vals[x := u] && vals[x := u][y] == vals[y];
  }

  lemma StartedIs<Id>(l: Ledger<Id>, x: Id, u: Record)
    requires WF(l) && x !in l.vals
    ensures var m := Start(l, x, u);
            && WF(m) && m.list == l.list + [x] && m.vals == l.vals[x := u]
            && forall r, a :: Lookup(m, r, a) == if r == u.reason && a == u.address then Some(x) else Lookup(l, r, a)
  {
    StartWF(l, x, u);
  }

  lemma SameLookup<Id>(l: Ledger<Id>, l': Ledger<Id>)
    requires l'.index == l.index
    ensures forall r, a :: Lookup(l', r, a) == Lookup(l, r, a)
  {}

  lemma HandleIsHandled<Id>(l: Ledger<Id>, x: Id, u: Record)
    requires Tidy(l) && x !in l.vals
    ensures WF(l) && IsHandled(l, x, u, Handle(l, x, u))
  {
    TidyWF(l);
    hide Tidy, Relink, Start, MergeAt, IsMerged, IsAdded, WF;
    if Lookup(l, u.reason, u.address).Some? {
      MergeIsHandled(l, Lookup(l, u.reason, u.address).value, u);
    } else {
      StartIsHandled(l, x, u);
    }
  }

  lemma TidyWF<Id>(l: Ledger<Id>)
    requires Tidy(l)
    ensures WF(l)
  {}

  lemma MergedVals<Id>(l: Ledger<Id>, k: Id, u: Record)
    requires k in l.vals
    ensures MergeAt(l, k, u) == l.(vals := l.vals[k := Merge(l.vals[k], u)])
  {}

  // ---------- What is recorded ----------

  // The records of a reason and an address, in order.
  ghost function Listing<Id>(list: seq<Id>, vals: map<Id, Record>, r: Reason, a: Address): seq<Record>
    requires forall x | x in list :: x in vals
  {
    if |list| == 0 then []
    else
      var v := vals[list[|list| - 1]];
      Listing(list[..|list| - 1], vals, r, a) + if v.reason == r && v.address == a then [v] else []
  }

  // One record for all the updates, or none if there are none.
  ghost predicate IsMergedRecord<Id>(l: Ledger<Id>, r: Reason, a: Address, us: seq<Record>) {
    var k := Lookup(l, r, a);
    if |us| == 0 then k.None? else k.Some? && k.value in l.vals && IsCombined(l.vals[k.value], us)
  }

  // The payment of the record kept for a reason and an address.
  ghost function KeptPayment<Id>(l: Ledger<Id>, r: Reason, a: Address): Option<int> {
    var k := Lookup(l, r, a);
    if k.Some? && k.value in l.vals then l.vals[k.value].payment else None
  }

  function OfAddress(us: seq<Record>, a: Address): seq<Record> {
    if |us| == 0 then []
    else
      var u := us[|us| - 1];
      OfAddress(us[..|us| - 1], a) + if u.address == a then [u] else []
  }

  // us have been recorded each for itself; received are the receipts of pools to which a reward was handed over.
  // Committee rewards and stake transfers are merged, one record for each address; updates of the reasons
  // that are not merged are listed one by one; and the records of epoch rewards carry what was paid.
  ghost predicate Recorded<Id>(l: Ledger<Id>, us: seq<Record>, received: seq<Record>) {
    && Tidy(l)
    && (forall r: Reason, a: Address | !IsKeptOnce(r) :: IsListed(l, r, a, Updates(us, r, a)))
    && forall a: Address :: RecordedFor(l, us, received, a)
  }

  ghost predicate RecordedFor<Id>(l: Ledger<Id>, us: seq<Record>, received: seq<Record>, a: Address) {
    && IsMergedRecord(l, CommitteeRewardReason, a, Updates(us, CommitteeRewardReason, a))
    && IsMergedRecord(l, VerifiedStakeTransferReason, a, Updates(us, VerifiedStakeTransferReason, a))
    && KeptPayment(l, EpochRewardReason, a) == Payment(Updates(us, EpochRewardReason, a))
    && KeptPayment(l, DelegateeEpochRewardReason, a) == Payment(OfAddress(received, a))
    && KeptPayment(l, DelegatorEpochRewardReason, a) == None
  }

  ghost predicate IsListed<Id>(l: Ledger<Id>, r: Reason, a: Address, us: seq<Record>) {
    (forall x | x in l.list :: x in l.vals) && Listing(l.list, l.vals, r, a) == us
  }

  lemma NothingRecorded<Id>()
    ensures Recorded<Id>(Empty(), [], [])
  {
    forall r, a ensures Lookup<Id>(Empty(), r, a).None? {}
  }

  function One(u: Record, r: Reason, a: Address): seq<Record> {
    if u.reason == r && u.address == a then [u] else []
  }

  // What handling u does to the record kept for a reason and an address.
  ghost predicate IsNext<Id>(l: Ledger<Id>, x: Id, u: Record, l': Ledger<Id>, r: Reason, a: Address) {
    var k, k' := Lookup(l, r, a), Lookup(l', r, a);
    && (k.Some? ==> k.value in l.vals && l.vals[k.value].reason == r && k'.Some?)
    && (k'.Some? ==> k'.value in l'.vals)
    && if u.reason == r && u.address == a then
         k'.Some? && BecomesLike(l'.vals[k'.value], if k.Some? then Merge(l.vals[k.value], u) else u)
       else
         && k' == k
         && (k.Some? ==> l'.vals[k.value].payment == l.vals[k.value].payment)
         && (k.Some? && !IsEpochGroup(r) ==> l'.vals[k.value] == l.vals[k.value])
  }

  lemma HandledIsNext<Id>(l: Ledger<Id>, x: Id, u: Record, l': Ledger<Id>, r: Reason, a: Address)
    requires WF(l) && IsHandled(l, x, u, l') && x !in l.vals
    ensures IsNext(l, x, u, l', r, a)
  {
    var k, known := Lookup(l, r, a), Lookup(l, u.reason, u.address);
    assert k.Some? ==> Keeps(l.vals, k.value, r, a);
    assert known.Some? ==> Keeps(l.vals, known.value, u.reason, u.address);
    hide WF, Tidy, Lookup, Merge;
    if known.Some? {
      assert IsMerged(l, known.value, u, l') && Lookup(l', r, a) == Lookup(l, r, a);
    } else {
      assert IsAdded(l, x, u, l');
      assert Lookup(l', r, a) == if r == u.reason && a == u.address then Some(x) else Lookup(l, r, a);
    }
  }

  lemma MergedNext<Id>(l: Ledger<Id>, x: Id, u: Record, l': Ledger<Id>, r: Reason, a: Address, us: seq<Record>)
    requires IsNext(l, x, u, l', r, a) && !IsEpochGroup(r) && IsMergedRecord(l, r, a, us)
    ensures IsMergedRecord(l', r, a, us + One(u, r, a))
  {
    hide Lookup, IsCombined;
    if u.reason == r && u.address == a {
      if |us| == 0 {
        CombinedOne(u);
        assert us + One(u, r, a) == [u];
      } else {
        CombinedNext(l.vals[Lookup(l, r, a).value], us, u);
      }
    } else {
      assert us + One(u, r, a) == us;
    }
  }

  lemma PaidNext<Id>(l: Ledger<Id>, x: Id, u: Record, l': Ledger<Id>, r: Reason, a: Address, us: seq<Record>)
    requires IsNext(l, x, u, l', r, a)
    requires r != DelegatorEpochRewardReason && KeptPayment(l, r, a) == Payment(us)
    ensures KeptPayment(l', r, a) == Payment(us + One(u, r, a))
  {
    hide Lookup, Payment;
    if u.reason == r && u.address == a {
      PaymentNext(us, u);
      assert One(u, r, a) == [u];
    } else {
      assert us + One(u, r, a) == us;
    }
  }

  lemma NoPaymentNext<Id>(l: Ledger<Id>, x: Id, u: Record, l': Ledger<Id>, a: Address)
    requires IsNext(l, x, u, l', DelegatorEpochRewardReason, a) && (u.reason == DelegatorEpochRewardReason ==> u.payment.None?)
    requires KeptPayment(l, DelegatorEpochRewardReason, a) == None
    ensures KeptPayment(l', DelegatorEpochRewardReason, a) == None
  {
    hide Lookup;
  }

  lemma {:induction false} ListingFrame<Id>(list: seq<Id>, vals: map<Id, Record>, vals': map<Id, Record>, r: Reason, a: Address)
    requires forall x | x in list :: x in vals && x in vals' && vals'[x].reason == vals[x].reason && vals'[x].address == vals[x].address
    requires forall x | x in list && vals[x].reason == r :: vals'[x] == vals[x]
    ensures Listing(list, vals', r, a) == Listing(list, vals, r, a)
  {
    if |list| > 0 {
      ListingFrame(list[..|list| - 1], vals, vals', r, a);
    }
  }

  lemma ListingAppend<Id>(list: seq<Id>, vals: map<Id, Record>, x: Id, r: Reason, a: Address)
    requires forall y | y in list + [x] :: y in vals
    ensures (forall y | y in list :: y in vals)
    ensures Listing(list + [x], vals, r, a) ==
            Listing(list, vals, r, a) + if vals[x].reason == r && vals[x].address == a then [vals[x]] else []
  {
    assert forall y | y in list :: y in list + [x];
    assert (list + [x])[..|list|] == list;
  }

  // No record is lost or taken for another one, and those that are not merged stay as they are.
  ghost predicate KeepsListed<Id>(l: Ledger<Id>, l': Ledger<Id>) {
    forall y | y in l.list ::
      && y in l.vals && y in l'.vals
      && l'.vals[y].reason == l.vals[y].reason && l'.vals[y].address == l.vals[y].address
      && (!IsKeptOnce(l.vals[y].reason) ==> l'.vals[y] == l.vals[y])
  }

  lemma HandledKeepsListed<Id>(l: Ledger<Id>, x: Id, u: Record, l': Ledger<Id>)
    requires WF(l) && IsHandled(l, x, u, l') && x !in l.vals && IsKeptOnce(u.reason)
    ensures KeepsListed(l, l')
    ensures l'.list == l.list || (l'.list == l.list + [x] && x in l'.vals && l'.vals[x].reason == u.reason)
  {
    var known := Lookup(l, u.reason, u.address);
    assert known.Some? ==> Keeps(l.vals, known.value, u.reason, u.address);
    assert forall y | y in l.list :: y in l.vals;
    hide WF, Tidy, Lookup;
    if known.Some? {
      assert IsMerged(l, known.value, u, l');
    } else {
      assert IsAdded(l, x, u, l');
    }
  }

  // Handling an update of a reason that is kept once leaves the listings of the other reasons.
  lemma ListedStays<Id>(l: Ledger<Id>, x: Id, l': Ledger<Id>, r: Reason, a: Address, us: seq<Record>)
    requires KeepsListed(l, l') && !IsKeptOnce(r) && IsListed(l, r, a, us)
    requires l'.list == l.list || (l'.list == l.list + [x] && x in l'.vals && IsKeptOnce(l'.vals[x].reason))
    ensures IsListed(l', r, a, us)
  {
    ListingFrame(l.list, l.vals, l'.vals, r, a);
    if l'.list != l.list {
      ListingAppend(l.list, l'.vals, x, r, a);
    }
  }

  // ---------- Every update ----------

  lemma NextIsRecordedFor<Id>(l: Ledger<Id>, x: Id, u: Record, l': Ledger<Id>, us: seq<Record>, us': seq<Record>,
                              received: seq<Record>, received': seq<Record>, a: Address)
    requires RecordedFor(l, us, received, a) && forall r :: IsNext(l, x, u, l', r, a)
    requires forall r | r == CommitteeRewardReason || r == VerifiedStakeTransferReason ::
               Updates(us', r, a) == Updates(us, r, a) + One(u, r, a)
    requires Payment(Updates(us', EpochRewardReason, a)) == Payment(Updates(us, EpochRewardReason, a) + One(u, EpochRewardReason, a))
    requires Payment(OfAddress(received', a)) == Payment(OfAddress(received, a) + One(u, DelegateeEpochRewardReason, a))
    requires u.reason == DelegatorEpochRewardReason ==> u.payment.None?
    ensures RecordedFor(l', us', received', a)
  {
    hide IsNext, IsMergedRecord, KeptPayment, Updates, Payment, OfAddress, One;
    MergedNext(l, x, u, l', CommitteeRewardReason, a, Updates(us, CommitteeRewardReason, a));
    MergedNext(l, x, u, l', VerifiedStakeTransferReason, a, Updates(us, VerifiedStakeTransferReason, a));
    PaidNext(l, x, u, l', EpochRewardReason, a, Updates(us, EpochRewardReason, a));
    PaidNext(l, x, u, l', DelegateeEpochRewardReason, a, OfAddress(received, a));
    NoPaymentNext(l, x, u, l', a);
  }

  lemma HandleListed<Id>(l: Ledger<Id>, x: Id, u: Record, us: seq<Record>)
    requires Tidy(l) && x !in l.vals && IsKeptOnce(u.reason)
    requires forall r: Reason, a: Address | !IsKeptOnce(r) :: IsListed(l, r, a, Updates(us, r, a))
    ensures WF(l) && Tidy(Handle(l, x, u))
    ensures forall r: Reason, a: Address | !IsKeptOnce(r) :: IsListed(Handle(l, x, u), r, a, Updates(us, r, a))
    ensures forall r, a :: IsNext(l, x, u, Handle(l, x, u), r, a)
  {
    hide Handle, Updates, IsListed, IsNext, WF, Tidy;
    HandleIsHandled(l, x, u);
    var l' := Handle(l, x, u);
    assert Tidy(l');
    HandledKeepsListed(l, x, u, l');
    forall r, a ensures IsNext(l, x, u, l', r, a) {
      HandledIsNext(l, x, u, l', r, a);
    }
    hide IsHandled, KeepsListed;
    forall r: Reason, a: Address | !IsKeptOnce(r) ensures IsListed(l', r, a, Updates(us, r, a)) {
      ListedStays(l, x, l', r, a, Updates(us, r, a));
    }
  }

  lemma NullUpdate(us: seq<Record>, u: Record)
    requires !Matters(u)
    ensures forall r, a :: Updates(us + [u], r, a) == Updates(us, r, a)
  {
    forall r, a ensures Updates(us + [u], r, a) == Updates(us, r, a) {
      UpdatesNext(us, u, r, a);
    }
  }

  lemma OneMoreUpdate(us: seq<Record>, u: Record)
    requires Matters(u)
    ensures forall r, a :: Updates(us + [u], r, a) == Updates(us, r, a) + One(u, r, a)
  {
    forall r, a ensures Updates(us + [u], r, a) == Updates(us, r, a) + One(u, r, a) {
      UpdatesNext(us, u, r, a);
    }
  }

  // An update that begins and ends on its own has one of the reasons that the node begins.
  predicate IsBegun(u: Record) {
    u.reason != DelegatorEpochRewardReason && u.reason != DelegateeEpochRewardReason
  }

  lemma HandleRecorded<Id>(l: Ledger<Id>, x: Id, u: Record, us: seq<Record>, received: seq<Record>)
    requires Recorded(l, us, received) && x !in l.vals && IsKeptOnce(u.reason) && IsBegun(u) && Matters(u)
    ensures WF(l) && Recorded(Handle(l, x, u), us + [u], received)
  {
    hide Updates, IsListed, IsNext, WF, Tidy, RecordedFor, Handle, OfAddress;
    OneMoreUpdate(us, u);
    HandleListed(l, x, u, us);
    var l' := Handle(l, x, u);
    forall r: Reason, a: Address | !IsKeptOnce(r) ensures IsListed(l', r, a, Updates(us + [u], r, a)) {
      assert Updates(us, r, a) + [] == Updates(us, r, a);
    }
    forall a: Address ensures RecordedFor(l', us + [u], received, a) {
      assert OfAddress(received, a) + [] == OfAddress(received, a);
      NextIsRecordedFor(l, x, u, l', us, us + [u], received, received, a);
    }
  }

  lemma AppendTidy<Id>(l: Ledger<Id>, x: Id, u: Record)
    requires Tidy(l) && x !in l.vals && !IsKeptOnce(u.reason)
    ensures Tidy(Append(l, x, u))
    ensures forall r, a :: Lookup(Append(l, x, u), r, a) == Lookup(l, r, a)
  {
    AppendWF(l, x, u);
    SameLookup(l, Append(l, x, u));
    hide WF, Lookup;
  }

  lemma AppendedFor<Id>(l: Ledger<Id>, x: Id, u: Record, us: seq<Record>, us': seq<Record>, received: seq<Record>, a: Address)
    requires RecordedFor(l, us, received, a) && WF(l) && x !in l.vals
    requires forall r: Reason | IsKeptOnce(r) :: Updates(us', r, a) == Updates(us, r, a)
    ensures RecordedFor(Append(l, x, u), us', received, a)
  {
    var l' := Append(l, x, u);
    SameLookup(l, l');
    forall r ensures KeptPayment(l', r, a) == KeptPayment(l, r, a) {
      assert Lookup(l, r, a).Some? ==> Keeps(l.vals, Lookup(l, r, a).value, r, a);
    }
    assert forall r :: Lookup(l, r, a).Some? ==> Keeps(l.vals, Lookup(l, r, a).value, r, a);
    hide WF, Lookup, KeptPayment, IsCombined, Payment, Updates;
    assert IsMergedRecord(l, CommitteeRewardReason, a, Updates(us, CommitteeRewardReason, a));
    assert IsMergedRecord(l, VerifiedStakeTransferReason, a, Updates(us, VerifiedStakeTransferReason, a));
  }

  lemma AppendRecorded<Id>(l: Ledger<Id>, x: Id, u: Record, us: seq<Record>, received: seq<Record>)
    requires Recorded(l, us, received) && x !in l.vals && !IsKeptOnce(u.reason) && Matters(u)
    ensures Recorded(Append(l, x, u), us + [u], received)
  {
    var l' := Append(l, x, u);
    OneMoreUpdate(us, u);
    AppendTidy(l, x, u);
    TidyWF(l);
    hide Updates, WF, Tidy, RecordedFor;
    forall r: Reason, a: Address | !IsKeptOnce(r) ensures IsListed(l', r, a, Updates(us + [u], r, a)) {
      assert IsListed(l, r, a, Updates(us, r, a));
      assert x !in l.list;
      ListingFrame(l.list, l.vals, l'.vals, r, a);
      ListingAppend(l.list, l'.vals, x, r, a);
    }
    forall a: Address ensures RecordedFor(l', us + [u], received, a) {
      forall r: Reason | IsKeptOnce(r) ensures Updates(us + [u], r, a) == Updates(us, r, a) {
        assert Updates(us, r, a) + [] == Updates(us, r, a);
      }
      AppendedFor(l, x, u, us, us + [u], received, a);
    }
  }

  lemma PostRecorded<Id>(l: Ledger<Id>, x: Id, u: Record, us: seq<Record>, received: seq<Record>)
    requires Recorded(l, us, received) && x !in l.vals && IsBegun(u)
    ensures WF(l) && Recorded(Post(l, x, u), us + [u], received)
  {
    TidyWF(l);
    assert Changed(u) <==> Matters(u);
    hide WF, Tidy, RecordedFor, Updates, Handle, Append, IsListed, Changed, Matters;
    if !Matters(u) {
      NullUpdate(us, u);
      SameUpdates(l, us, us + [u], received);
    } else if IsKeptOnce(u.reason) {
      HandleRecorded(l, x, u, us, received);
    } else {
      AppendRecorded(l, x, u, us, received);
    }
  }

  lemma SameUpdates<Id>(l: Ledger<Id>, us: seq<Record>, us': seq<Record>, received: seq<Record>)
    requires Recorded(l, us, received) && forall r, a :: Updates(us', r, a) == Updates(us, r, a)
    ensures Recorded(l, us', received)
  {
    hide Updates, Tidy, IsListed, IsMergedRecord, KeptPayment, Payment, OfAddress;
    forall a: Address ensures RecordedFor(l, us', received, a) {
      assert RecordedFor(l, us, received, a);
    }
  }

  // ---------- A reward handed over ----------

  // Without a payment, a part of a hand-over adds nothing to what was paid.
  lemma PartRecorded<Id>(l: Ledger<Id>, x: Id, u: Record, us: seq<Record>, received: seq<Record>)
    requires Recorded(l, us, received) && x !in l.vals && u.payment.None?
    requires u.reason == EpochRewardReason || u.reason == DelegatorEpochRewardReason
    ensures WF(l) && Recorded(Handle(l, x, u), us, received)
  {
    hide Updates, IsListed, IsNext, WF, Tidy, RecordedFor, Handle, OfAddress, Payment;
    HandleListed(l, x, u, us);
    var l' := Handle(l, x, u);
    forall a: Address ensures RecordedFor(l', us, received, a) {
      assert OfAddress(received, a) + [] == OfAddress(received, a);
      assert forall r :: Updates(us, r, a) + [] == Updates(us, r, a);
      PaymentNext(Updates(us, EpochRewardReason, a), u);
      NextIsRecordedFor(l, x, u, l', us, us, received, received, a);
    }
  }

  lemma ReceiptRecorded<Id>(l: Ledger<Id>, x: Id, u: Record, us: seq<Record>, received: seq<Record>)
    requires Recorded(l, us, received) && x !in l.vals && u.reason == DelegateeEpochRewardReason
    ensures WF(l) && Recorded(Handle(l, x, u), us, received + [u])
  {
    hide Updates, IsListed, IsNext, WF, Tidy, RecordedFor, Handle, Payment;
    HandleListed(l, x, u, us);
    var l' := Handle(l, x, u);
    forall a: Address ensures RecordedFor(l', us, received + [u], a) {
      assert (received + [u])[..|received|] == received;
      assert OfAddress(received + [u], a) == OfAddress(received, a) + One(u, u.reason, a);
      assert forall r :: Updates(us, r, a) + [] == Updates(us, r, a);
      NextIsRecordedFor(l, x, u, l', us, us, received, received + [u], a);
    }
  }

  lemma HandOverRecorded<Id>(l: Ledger<Id>, x: Id, y: Id, z: Id, u: Record, v: Record, us: seq<Record>, received: seq<Record>)
    requires Recorded(l, us, received)
    requires x !in l.vals && y !in l.vals && z !in l.vals && x != y && x != z && y != z
    ensures WF(l) && Recorded(HandOver(l, x, y, z, u, v), us, received + [ReceiptPart(v)])
  {
    hide Recorded, WF, Handle;
    PartRecorded(l, x, RewardPart(u, v), us, received);
    GiveAwayWF(l, x, y, u, v);
    PartRecorded(Handle(l, x, RewardPart(u, v)), y, HandOverPart(u, v), us, received);
    ReceiptRecorded(GiveAway(l, x, y, u, v), z, ReceiptPart(v), us, received);
  }

  // ---------- Whole runs ----------

  function RecordsIn<Id>(pend: seq<(Id, Record)>): seq<Record> {
    if |pend| == 0 then [] else RecordsIn(pend[..|pend| - 1]) + [pend[|pend| - 1].1]
  }

  ghost predicate AreBegun<Id>(pend: seq<(Id, Record)>) {
    forall i | 0 <= i < |pend| :: IsBegun(pend[i].1)
  }

  lemma {:induction false} PostAllRecorded<Id>(l: Ledger<Id>, pend: seq<(Id, Record)>, us: seq<Record>, received: seq<Record>)
    requires Recorded(l, us, received) && WF(l) && FreshAll(l, pend) && AreBegun(pend)
    ensures Recorded(PostAll(l, pend), us + RecordsIn(pend), received)
  {
    hide Recorded, WF, Post;
    if |pend| == 0 {
      assert us + RecordsIn(pend) == us;
    } else {
      var n := |pend| - 1;
      PostAllRecorded(l, pend[..n], us, received);
      PostAllWF(l, pend[..n]);
      PostRecorded(PostAll(l, pend[..n]), pend[n].0, pend[n].1, us + RecordsIn(pend[..n]), received);
      assert us + RecordsIn(pend[..n]) + [pend[n].1] == us + RecordsIn(pend);
    }
  }

  // The updates completed together that are recorded each for itself, and those recorded as receipts: of two
  // epoch rewards begun together, that of the pool, which is the first one if its balance changed.
  function OwnUpdates(us: seq<Record>): seq<Record> {
    if IsShared(us) then [] else us
  }

  function Receipts(us: seq<Record>): seq<Record> {
    if IsShared(us) then
      [(if us[0].before.balance != us[0].after.balance then us[0] else us[1]).(reason := DelegateeEpochRewardReason)]
    else []
  }

  predicate IsShared(us: seq<Record>) {
    |us| == 2 && us[0].reason == us[1].reason == EpochRewardReason && us[0].address != us[1].address
  }

  lemma {:induction false} RecordsInAt<Id>(pend: seq<(Id, Record)>)
    ensures |RecordsIn(pend)| == |pend| && forall i | 0 <= i < |pend| :: RecordsIn(pend)[i] == pend[i].1
  {
    if |pend| > 0 {
      RecordsInAt(pend[..|pend| - 1]);
    }
  }

  lemma CompleteRecorded<Id>(l: Ledger<Id>, s: Step<Id>, us: seq<Record>, received: seq<Record>)
    requires Recorded(l, us, received) && WF(l) && Fresh(l, s) && AreBegun(s.pend)
    ensures Recorded(Complete(l, s), us + OwnUpdates(RecordsIn(s.pend)), received + Receipts(RecordsIn(s.pend)))
  {
    RecordsInAt(s.pend);
    hide Recorded, WF, HandOver, PostAll, RecordsIn;
    if s.IsHandOver() {
      assert s.pend[0].0 != s.pend[1].0;
      assert us + [] == us;
      HandOverRecorded(l, s.spare[0], s.spare[1], s.Pool().0, s.Delegator().1, s.Pool().1, us, received);
    } else {
      assert received + [] == received;
      PostAllRecorded(l, s.pend, us, received);
    }
  }
}
