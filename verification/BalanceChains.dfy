/**
 When do the records of an address form a chain without gaps?  This is what the
 database is checked for after every block: each record starts where the
 previous one of the address ended, and the last one ends at the account's state.
 */
module BalanceChains {
  import opened Common
  import opened BalanceLedger

  // The records of address a, in list order.
  ghost function Of<Id>(vals: map<Id, Record>, list: seq<Id>, a: Address): (ids: seq<Id>)
    requires forall x | x in list :: x in vals
    ensures forall x | x in ids :: x in list && vals[x].address == a
    ensures NoDup(list) ==> NoDup(ids)
  {
    if |list| == 0 then []
    else
      var last := list[|list| - 1];
      Of(vals, list[..|list| - 1], a) + if vals[last].address == a then [last] else []
  }

  ghost predicate Chain<Id>(vals: map<Id, Record>, ids: seq<Id>, start: Snapshot, end: Snapshot)
    requires forall x | x in ids :: x in vals
  {
    if |ids| == 0 then start == end
    else
      var r := vals[ids[|ids| - 1]];
      r.after == end && Chain(vals, ids[..|ids| - 1], start, r.before)
  }

  // Chain, spelled out.
  lemma {:induction false} ChainMeaning<Id>(vals: map<Id, Record>, ids: seq<Id>, start: Snapshot, end: Snapshot)
    requires forall x | x in ids :: x in vals
    ensures Chain(vals, ids, start, end) <==>
            if |ids| == 0 then start == end
            else
              && vals[ids[0]].before == start
              && vals[ids[|ids| - 1]].after == end
              && forall i | 0 < i < |ids| :: vals[ids[i]].before == vals[ids[i - 1]].after
  {
    if |ids| > 1 {
      var front := ids[..|ids| - 1];
      ChainMeaning(vals, front, start, vals[ids[|ids| - 1]].before);
      assert forall i | 0 <= i < |front| :: front[i] == ids[i];
      if forall i | 0 < i < |front| :: vals[front[i]].before == vals[front[i - 1]].after {
        forall i | 0 < i < |ids| - 1 ensures vals[ids[i]].before == vals[ids[i - 1]].after {
          assert vals[front[i]].before == vals[front[i - 1]].after;
        }
      }
    }
  }

  lemma ChainFrame<Id>(vals: map<Id, Record>, vals': map<Id, Record>, ids: seq<Id>, start: Snapshot, end: Snapshot)
    requires forall x | x in ids :: x in vals && x in vals' && vals'[x] == vals[x]
    ensures Chain(vals', ids, start, end) == Chain(vals, ids, start, end)
  {
  }

  lemma OfFrame<Id>(vals: map<Id, Record>, vals': map<Id, Record>, list: seq<Id>, a: Address)
    requires forall x | x in list :: x in vals && x in vals' && vals'[x].address == vals[x].address
    ensures Of(vals', list, a) == Of(vals, list, a)
  {
  }

  // The records of the list of a ledger that belong to a.
  ghost function RecordsOf<Id>(l: Ledger<Id>, a: Address): (ids: seq<Id>)
    requires WF(l)
    ensures NoDup(ids) && forall x | x in ids :: x in l.vals && l.vals[x].address == a
  {
    Of(l.vals, l.list, a)
  }

  ghost predicate Chained<Id>(l: Ledger<Id>, a: Address, start: Snapshot, end: Snapshot)
    requires WF(l)
  {
    Chain(l.vals, RecordsOf(l, a), start, end)
  }

  // ---------- The epoch-reward records of one address ----------

  // e: its rewards, d: what it handed over to its pool, g: what it received
  // from its delegators.  Each constructor lists them in the order of their
  // creation; T is the identity of a record, or the record itself.
  datatype Group<T> =
    | NoGroup
    | Own(e: T)
    | Received(g: T)
    | OwnHanded(e: T, d: T)
    | OwnReceived(e: T, g: T)
    | ReceivedOwn(g: T, e: T)
    | ReceivedOwnHanded(g: T, e: T, d: T)
    | OwnHandedReceived(e: T, d: T, g: T)
    | OwnReceivedHanded(e: T, g: T, d: T)
  {
    function Members(): seq<T> {
      match this
      case NoGroup => []
      case Own(e) => [e]
      case Received(g) => [g]
      case OwnHanded(e, d) => [e, d]
      case OwnReceived(e, g) => [e, g]
      case ReceivedOwn(g, e) => [g, e]
      case ReceivedOwnHanded(g, e, d) => [g, e, d]
      case OwnHandedReceived(e, d, g) => [e, d, g]
      case OwnReceivedHanded(e, g, d) => [e, g, d]
    }

    function Rewards(): Option<T> {
      if NoGroup? || Received? then None else Some(e)
    }

    function HandedOver(): Option<T> {
      if OwnHanded? || ReceivedOwnHanded? || OwnHandedReceived? || OwnReceivedHanded? then Some(d) else None
    }

    function Receipts(): Option<T> {
      if NoGroup? || Own? || OwnHanded? then None else Some(g)
    }

    function Get(reason: Reason): Option<T>
      requires IsEpochGroup(reason)
    {
      match reason
      case EpochRewardReason => Rewards()
      case DelegatorEpochRewardReason => HandedOver()
      case DelegateeEpochRewardReason => Receipts()
    }

    // The group with one more member.
    function Add(reason: Reason, x: T): Group<T>
      requires IsEpochGroup(reason) && Get(reason).None?
      requires reason == DelegatorEpochRewardReason ==> Rewards().Some?
    {
      match reason
      case EpochRewardReason => if NoGroup? then Own(x) else ReceivedOwn(g, x)
      case DelegatorEpochRewardReason =>
        if Own? then OwnHanded(e, x) else if OwnReceived? then OwnReceivedHanded(e, g, x) else ReceivedOwnHanded(g, e, x)
      case DelegateeEpochRewardReason =>
        if NoGroup? then Received(x) else if Own? then OwnReceived(e, x) else OwnHandedReceived(e, d, x)
    }

    function Set(reason: Reason, x: T): Group<T>
      requires IsEpochGroup(reason) && Get(reason).Some?
    {
      match reason
      case EpochRewardReason => this.(e := x)
      case DelegatorEpochRewardReason => this.(d := x)
      case DelegateeEpochRewardReason => this.(g := x)
    }

    // The member that the member with the given reason continues.
    function PrevOf(reason: Reason): (r: Option<Reason>)
      ensures r.Some? ==> IsEpochGroup(r.value) && r.value != reason && (IsEpochGroup(reason) && Get(reason).Some? ==> Get(r.value).Some?)
    {
      match reason
      case EpochRewardReason => if ReceivedOwn? || ReceivedOwnHanded? then Some(DelegateeEpochRewardReason) else None
      case DelegatorEpochRewardReason => if HandedOver().Some? then Some(EpochRewardReason) else None
      case DelegateeEpochRewardReason =>
        if OwnReceived? || OwnHandedReceived? || OwnReceivedHanded? then Some(EpochRewardReason) else None
      case _ => None
    }

    // The member that continues the one with the given reason.  Of two that continue e, e knows the later.
    function NextOf(reason: Reason): (r: Option<Reason>)
      ensures r.Some? ==> IsEpochGroup(r.value) && r.value != reason && Get(r.value).Some?
    {
      match reason
      case EpochRewardReason =>
        if OwnHanded? || ReceivedOwnHanded? || OwnReceivedHanded? then Some(DelegatorEpochRewardReason)
        else if OwnReceived? || OwnHandedReceived? then Some(DelegateeEpochRewardReason)
        else None
      case DelegateeEpochRewardReason => if ReceivedOwn? || ReceivedOwnHanded? then Some(EpochRewardReason) else None
      case _ => None
    }

    // The member that a new one with the given reason will continue.
    function Continued(reason: Reason): (r: Option<T>) {
      match reason
      case EpochRewardReason => if HandedOver().Some? then HandedOver() else Receipts()
      case DelegatorEpochRewardReason => Rewards()
      case DelegateeEpochRewardReason => Rewards()
      case _ => None
    }
  }

  function Prev<Id(==)>(l: Ledger<Id>, x: Id): Option<Id> {
    if x in l.byNext then Some(l.byNext[x]) else None
  }

  function Next<Id(==)>(l: Ledger<Id>, x: Id): Option<Id> {
    if x in l.byPrev then Some(l.byPrev[x]) else None
  }

  predicate IsLink<Id(==)>(g: Group<Id>, link: Option<Id>, reason: Option<Reason>)
    requires reason.Some? ==> IsEpochGroup(reason.value)
  {
    link == if reason.Some? then g.Get(reason.value) else None
  }

  // The index holds exactly the members and the link maps are as PrevOf and NextOf say.
  ghost predicate HasGroup<Id>(l: Ledger<Id>, a: Address, g: Group<Id>) {
    forall r | IsEpochGroup(r) :: HasMember(l, a, g, r)
  }

  ghost predicate HasMember<Id>(l: Ledger<Id>, a: Address, g: Group<Id>, r: Reason)
    requires IsEpochGroup(r)
  {
    && Lookup(l, r, a) == g.Get(r)
    && (g.Get(r).Some? ==>
          && IsLink(g, Prev(l, g.Get(r).value), g.PrevOf(r))
          && IsLink(g, Next(l, g.Get(r).value), g.NextOf(r)))
  }

  // h holds what the records of g say.
  ghost predicate Says<Id>(vals: map<Id, Record>, g: Group<Id>, h: Group<Record>) {
    && (g.NoGroup? <==> h.NoGroup?) && (g.Own? <==> h.Own?) && (g.Received? <==> h.Received?)
    && (g.OwnHanded? <==> h.OwnHanded?) && (g.OwnReceived? <==> h.OwnReceived?)
    && (g.ReceivedOwn? <==> h.ReceivedOwn?) && (g.ReceivedOwnHanded? <==> h.ReceivedOwnHanded?)
    && (g.OwnHandedReceived? <==> h.OwnHandedReceived?) && (g.OwnReceivedHanded? <==> h.OwnReceivedHanded?)
    && forall r | IsEpochGroup(r) :: SaysAt(vals, g.Get(r), h.Get(r))
  }

  ghost predicate SaysAt<Id>(vals: map<Id, Record>, x: Option<Id>, v: Option<Record>) {
    (x.Some? <==> v.Some?) && (x.Some? ==> x.value in vals && vals[x.value] == v.value)
  }

  lemma SaysAll<Id>(vals: map<Id, Record>, g: Group<Id>, h: Group<Record>)
    requires Says(vals, g, h)
    ensures g.Rewards().Some? ==> g.e in vals && h.e == vals[g.e]
    ensures g.HandedOver().Some? ==> g.d in vals && h.d == vals[g.d]
    ensures g.Receipts().Some? ==> g.g in vals && h.g == vals[g.g]
  {
    assert SaysAt(vals, g.Get(EpochRewardReason), h.Get(EpochRewardReason));
    assert SaysAt(vals, g.Get(DelegatorEpochRewardReason), h.Get(DelegatorEpochRewardReason));
    assert SaysAt(vals, g.Get(DelegateeEpochRewardReason), h.Get(DelegateeEpochRewardReason));
  }

  lemma IsMember<T>(g: Group<T>, r: Reason)
    requires IsEpochGroup(r) && g.Get(r).Some?
    ensures g.Get(r).value in g.Members()
  {
    var ms := g.Members();
    assert ms[|ms| - 1] in ms;
  }

  // What an update u makes of the epoch-reward records of its address.
  function Updated(h: Group<Record>, u: Record): Group<Record>
    requires IsEpochGroup(u.reason)
    requires u.reason == DelegatorEpochRewardReason ==> h.Rewards().Some?
  {
    var r := u.reason;
    if h.Get(r).None? then
      h.Add(r, if h.Continued(r).Some? then From(u, h.Continued(r).value) else u)
    else
      var m := Merge(h.Get(r).value, u);
      var prev, next := h.PrevOf(r), h.NextOf(r);
      if prev.Some? then h.Set(r, From(m, h.Get(prev.value).value))
      else if next.Some? then
        var q := h.Get(next.value).value;
        h.Set(r, CutBack(m, q)).Set(next.value, MovedTo(CutBack(m, q), q))
      else h.Set(r, m)
  }

  // A chain ending in ms.
  lemma {:induction false} ChainEnd<Id>(vals: map<Id, Record>, pre: seq<Id>, ms: seq<Id>, start: Snapshot, end: Snapshot)
    requires |ms| > 0 && forall x | x in pre + ms :: x in vals
    ensures Chain(vals, pre + ms, start, end) <==>
            && Chain(vals, pre, start, vals[ms[0]].before)
            && (forall i | 0 < i < |ms| :: vals[ms[i]].before == vals[ms[i - 1]].after)
            && vals[ms[|ms| - 1]].after == end
  {
    var n := |ms| - 1;
    assert (pre + ms)[..|pre + ms| - 1] == pre + ms[..n];
    if n == 0 {
      assert pre + ms[..n] == pre;
    } else {
      ChainEnd(vals, pre, ms[..n], start, vals[ms[n]].before);
    }
  }

  lemma HandleRecords<Id>(l: Ledger<Id>, x: Id, u: Record, b: Address)
    requires WF(l) && x !in l.vals
    ensures WF(Handle(l, x, u))
    ensures RecordsOf(Handle(l, x, u), b)
         == RecordsOf(l, b) + if b == u.address && Lookup(l, u.reason, b).None? then [x] else []
  {
    HandleWF(l, x, u);
    var l' := Handle(l, x, u);
    hide Handle;
    if Lookup(l, u.reason, u.address).Some? {
      OfFrame(l.vals, l'.vals, l.list, b);
    } else {
      assert l'.list[..|l'.list| - 1] == l.list;
      OfFrame(l.vals, l'.vals, l.list, b);
    }
  }

  // Nothing kept for address b changes.
  ghost predicate Untouched<Id>(l: Ledger<Id>, l': Ledger<Id>, b: Address) {
    && (forall r :: Lookup(l', r, b) == Lookup(l, r, b))
    && (forall y | y in l.vals && l.vals[y].address == b ::
          y in l'.vals && l'.vals[y] == l.vals[y] && Prev(l', y) == Prev(l, y) && Next(l', y) == Next(l, y))
  }

  lemma UntouchedByVals<Id>(l: Ledger<Id>, l': Ledger<Id>, b: Address)
    requires l' == l.(vals := l'.vals)
    requires forall y | y in l.vals && l.vals[y].address == b :: y in l'.vals && l'.vals[y] == l.vals[y]
    ensures Untouched(l, l', b)
  {
  }

  lemma StartOthers<Id>(l: Ledger<Id>, x: Id, u: Record, b: Address)
    requires WF(l) && x !in l.vals && b != u.address
    ensures Untouched(l, Start(l, x, u), b)
  {
    StartWF(l, x, u);
    var l1 := Start(l, x, u);
    var prev := Continues(l, u.reason, u.address);
    forall y | y in l.vals && l.vals[y].address == b
      ensures y in l1.vals && l1.vals[y] == l.vals[y] && Prev(l1, y) == Prev(l, y) && Next(l1, y) == Next(l, y)
    {
      if prev.Some? {
        assert y != prev.value;
      }
    }
  }

  // Only what is kept for the update's own address changes.
  lemma HandleOthers<Id>(l: Ledger<Id>, x: Id, u: Record, b: Address)
    requires WF(l) && x !in l.vals && b != u.address
    ensures Untouched(l, Handle(l, x, u), b)
  {
    var known := Lookup(l, u.reason, u.address);
    if known.Some? {
      var l1 := MergeAt(l, known.value, u);
      MergeAtWF(l, known.value, u);
      RelinkWF(l1, known.value);
      UntouchedByVals(l, Relink(l1, known.value), b);
    } else {
      StartWF(l, x, u);
      StartOthers(l, x, u, b);
      var l1 := Start(l, x, u);
      RelinkWF(l1, x);
      UntouchedByVals(l1, Relink(l1, x), b);
    }
  }

  // ---------- Handle does to the linked records what Updated says ----------

  lemma GroupByVals<Id>(l: Ledger<Id>, l': Ledger<Id>, a: Address, g: Group<Id>)
    requires HasGroup(l, a, g) && l' == l.(vals := l'.vals)
    ensures HasGroup(l', a, g)
  {
  }

  lemma KnownGroup<Id>(l: Ledger<Id>, a: Address, g: Group<Id>, x: Id, u: Record)
    requires WF(l) && x !in l.vals && u.address == a && HasGroup(l, a, g)
    requires Lookup(l, u.reason, a).Some?
    ensures HasGroup(Handle(l, x, u), a, g)
  {
    var k := Lookup(l, u.reason, a).value;
    MergeAtWF(l, k, u);
    var l1 := MergeAt(l, k, u);
    RelinkWF(l1, k);
    GroupByVals(l, Relink(l1, k), a, g);
  }

  // The members are different records.
  ghost predicate Distinct<Id>(g: Group<Id>) {
    forall r, s | IsEpochGroup(r) && IsEpochGroup(s) && r != s && g.Get(r).Some? && g.Get(s).Some? :: g.Get(r) != g.Get(s)
  }

  lemma MembersKept<Id>(l: Ledger<Id>, a: Address, g: Group<Id>)
    requires WF(l) && HasGroup(l, a, g)
    ensures forall r | IsEpochGroup(r) && g.Get(r).Some? :: Keeps(l.vals, g.Get(r).value, r, a)
    ensures Distinct(g)
  {
    forall r | IsEpochGroup(r) && g.Get(r).Some? ensures Keeps(l.vals, g.Get(r).value, r, a) {
      assert HasMember(l, a, g, r);
    }
  }

  // A new record joins the group.
  lemma NewGroup<Id>(l: Ledger<Id>, a: Address, g: Group<Id>, x: Id, u: Record)
    requires WF(l) && x !in l.vals && u.address == a && HasGroup(l, a, g)
    requires IsEpochGroup(u.reason) && Lookup(l, u.reason, a).None?
    requires g.Get(u.reason).None?
    requires u.reason == DelegatorEpochRewardReason ==> g.Rewards().Some?
    ensures HasGroup(Handle(l, x, u), a, g.Add(u.reason, x))
  {
    hide Start, Relink, Lookup;
    MembersKept(l, a, g);
    StartWF(l, x, u);
    var l1 := Start(l, x, u);
    ContinuesContinued(l, a, g, u.reason);
    var c := ContinuedReason(g, u.reason);
    assert c.Some? ==> Keeps(l.vals, g.Get(c.value).value, c.value, a);
    forall r | IsEpochGroup(r) ensures HasMember(l1, a, g.Add(u.reason, x), r) {
      NewGroupLinks(l, l1, a, g, x, u.reason, r);
    }
    RelinkWF(l1, x);
    GroupByVals(l1, Relink(l1, x), a, g.Add(u.reason, x));
  }

  // Which reason's record a new one continues.
  function ContinuedReason<T>(g: Group<T>, reason: Reason): (r: Option<Reason>)
    ensures r.Some? ==> IsEpochGroup(r.value) && r.value != reason && g.Get(r.value).Some? && g.Continued(reason) == g.Get(r.value)
    ensures r.None? ==> g.Continued(reason).None?
  {
    if g.Continued(reason).None? then None
    else if reason != EpochRewardReason then Some(EpochRewardReason)
    else if g.HandedOver().Some? then Some(DelegatorEpochRewardReason)
    else Some(DelegateeEpochRewardReason)
  }

  lemma AddLinks<T>(g: Group<T>, reason: Reason, x: T, s: Reason)
    requires IsEpochGroup(reason) && g.Get(reason).None? && IsEpochGroup(s)
    requires reason == DelegatorEpochRewardReason ==> g.Rewards().Some?
    ensures var g', c := g.Add(reason, x), ContinuedReason(g, reason);
            && g'.Get(s) == (if s == reason then Some(x) else g.Get(s))
            && (g'.Get(s).Some? ==> g'.PrevOf(s) == if s == reason then c else g.PrevOf(s))
            && (g'.Get(s).Some? ==> g'.NextOf(s) == if s == reason then None else if c == Some(s) then Some(reason) else g.NextOf(s))
  {
  }

  lemma NewGroupLinks<Id>(l: Ledger<Id>, l1: Ledger<Id>, a: Address, g: Group<Id>, x: Id, reason: Reason, r: Reason)
    requires HasGroup(l, a, g) && Distinct(g) && Prev(l, x) == None && Next(l, x) == None
    requires IsEpochGroup(reason) && g.Get(reason).None? && IsEpochGroup(r)
    requires reason == DelegatorEpochRewardReason ==> g.Rewards().Some?
    requires g.Get(r) != Some(x)
    requires forall s :: Lookup(l1, s, a) == if s == reason then Some(x) else Lookup(l, s, a)
    requires var c := g.Continued(reason);
             if c.None? then l1.byNext == l.byNext && l1.byPrev == l.byPrev
             else c.value != x && l1.byNext == l.byNext[x := c.value] && l1.byPrev == l.byPrev[c.value := x]
    ensures HasMember(l1, a, g.Add(reason, x), r)
  {
    var g', c := g.Add(reason, x), ContinuedReason(g, reason);
    AddLinks(g, reason, x, r);
    if r == reason {
      if c.Some? {
        AddLinks(g, reason, x, c.value);
      }
    } else if g.Get(r).Some? {
      hide Lookup;
      OldMemberLinks(l, l1, a, g, x, reason, r);
    } else {
      assert HasMember(l, a, g, r);
    }
  }

  // An old member keeps its links, or is continued by the new one.
  lemma OldMemberLinks<Id>(l: Ledger<Id>, l1: Ledger<Id>, a: Address, g: Group<Id>, x: Id, reason: Reason, r: Reason)
    requires HasGroup(l, a, g) && Distinct(g)
    requires IsEpochGroup(reason) && g.Get(reason).None? && IsEpochGroup(r) && r != reason && g.Get(r).Some? && g.Get(r) != Some(x)
    requires reason == DelegatorEpochRewardReason ==> g.Rewards().Some?
    requires Lookup(l1, r, a) == Lookup(l, r, a)
    requires var c := g.Continued(reason);
             if c.None? then l1.byNext == l.byNext && l1.byPrev == l.byPrev
             else c.value != x && l1.byNext == l.byNext[x := c.value] && l1.byPrev == l.byPrev[c.value := x]
    ensures HasMember(l1, a, g.Add(reason, x), r)
  {
    hide Lookup;
    var c := ContinuedReason(g, reason);
    AddLinks(g, reason, x, r);
    assert HasMember(l, a, g, r);
    var y := g.Get(r).value;
    assert Prev(l1, y) == Prev(l, y);
    assert Next(l1, y) == if c == Some(r) then Some(x) else Next(l, y);
    if g.PrevOf(r).Some? {
      AddLinks(g, reason, x, g.PrevOf(r).value);
    }
    if g.NextOf(r).Some? {
      AddLinks(g, reason, x, g.NextOf(r).value);
    }
    AddLinks(g, reason, x, reason);
  }

  lemma ContinuesContinued<Id>(l: Ledger<Id>, a: Address, g: Group<Id>, reason: Reason)
    requires HasGroup(l, a, g) && IsEpochGroup(reason)
    ensures Continues(l, reason, a) == g.Continued(reason)
  {
    assert HasMember(l, a, g, EpochRewardReason);
    assert HasMember(l, a, g, DelegatorEpochRewardReason);
    assert HasMember(l, a, g, DelegateeEpochRewardReason);
  }

  lemma NewVals<Id>(l: Ledger<Id>, x: Id, u: Record)
    requires WF(l) && x !in l.vals && IsEpochGroup(u.reason) && Lookup(l, u.reason, u.address).None?
    ensures var c := Continues(l, u.reason, u.address);
            && (c.Some? ==> c.value in l.vals)
            && Handle(l, x, u).vals == l.vals[x := if c.Some? then From(u, l.vals[c.value]) else u]
  {
    StartWF(l, x, u);
    RelinkNew(Start(l, x, u), x, Continues(l, u.reason, u.address));
  }

  lemma RelinkNew<Id>(l: Ledger<Id>, x: Id, prev: Option<Id>)
    requires x in l.vals && IsEpochGroup(l.vals[x].reason) && LinksWF(l.vals, l.byNext) && LinksWF(l.vals, l.byPrev)
    requires Prev(l, x) == prev && Next(l, x) == None
    ensures prev.Some? ==> prev.value in l.vals
    ensures Relink(l, x).vals == l.vals[x := if prev.Some? then From(l.vals[x], l.vals[prev.value]) else l.vals[x]]
  {
  }

  lemma KnownVals<Id>(l: Ledger<Id>, x: Id, u: Record, k: Id)
    requires WF(l) && x !in l.vals && IsEpochGroup(u.reason) && Lookup(l, u.reason, u.address) == Some(k)
    ensures k in l.vals
    ensures Prev(l, k).Some? ==> Prev(l, k).value in l.vals
    ensures Next(l, k).Some? ==> Next(l, k).value in l.vals && Next(l, k).value != k
    ensures Handle(l, x, u).vals ==
            var m := Merge(l.vals[k], u);
            if Prev(l, k).Some? then l.vals[k := From(m, l.vals[Prev(l, k).value])]
            else if Next(l, k).Some? then
              var n, q := Next(l, k).value, l.vals[Next(l, k).value];
              l.vals[k := CutBack(m, q)][n := MovedTo(CutBack(m, q), q)]
            else l.vals[k := m]
  {
    MergeAtWF(l, k, u);
    if k in l.byNext {
      assert Joins(l.vals, k, l.byNext[k]);
    }
    if k in l.byPrev {
      assert Joins(l.vals, k, l.byPrev[k]);
    }
  }

  // What the group says after the update is what Updated says.
  lemma NewSaid<Id>(vals: map<Id, Record>, g: Group<Id>, h: Group<Record>, reason: Reason, x: Id, v: Record)
    requires Says(vals, g, h) && x !in vals
    requires IsEpochGroup(reason) && g.Get(reason).None?
    requires reason == DelegatorEpochRewardReason ==> g.Rewards().Some?
    ensures Says(vals[x := v], g.Add(reason, x), h.Add(reason, v))
  {
    assert SaysAt(vals, g.Get(EpochRewardReason), h.Get(EpochRewardReason));
    assert SaysAt(vals, g.Get(DelegatorEpochRewardReason), h.Get(DelegatorEpochRewardReason));
    assert SaysAt(vals, g.Get(DelegateeEpochRewardReason), h.Get(DelegateeEpochRewardReason));
  }

  lemma KnownSaid<Id>(vals: map<Id, Record>, g: Group<Id>, h: Group<Record>, reason: Reason, v: Record)
    requires Says(vals, g, h) && Distinct(g)
    requires IsEpochGroup(reason) && g.Get(reason).Some?
    ensures Says(vals[g.Get(reason).value := v], g, h.Set(reason, v))
  {
    assert SaysAt(vals, g.Get(EpochRewardReason), h.Get(EpochRewardReason));
    assert SaysAt(vals, g.Get(DelegatorEpochRewardReason), h.Get(DelegatorEpochRewardReason));
    assert SaysAt(vals, g.Get(DelegateeEpochRewardReason), h.Get(DelegateeEpochRewardReason));
  }

  // The records of a after an update u of a, made with x if a new record is needed.
  function Then<Id>(g: Group<Id>, reason: Reason, x: Id): Group<Id>
    requires IsEpochGroup(reason)
    requires reason == DelegatorEpochRewardReason ==> g.Rewards().Some?
  {
    if g.Get(reason).None? then g.Add(reason, x) else g
  }

  lemma HandleGroup<Id>(l: Ledger<Id>, a: Address, g: Group<Id>, h: Group<Record>, x: Id, u: Record)
    requires WF(l) && x !in l.vals && u.address == a && HasGroup(l, a, g) && Says(l.vals, g, h)
    requires IsEpochGroup(u.reason)
    requires u.reason == DelegatorEpochRewardReason ==> g.Rewards().Some?
    ensures HasGroup(Handle(l, x, u), a, Then(g, u.reason, x))
    ensures h.Rewards().Some? == g.Rewards().Some?
    ensures Says(Handle(l, x, u).vals, Then(g, u.reason, x), Updated(h, u))
  {
    hide WF, Handle, From, Merge;
    MembersKept(l, a, g);
    var r := u.reason;
    assert HasMember(l, a, g, r);
    assert SaysAt(l.vals, g.Get(r), h.Get(r));
    if g.Get(r).None? {
      NewGroup(l, a, g, x, u);
      NewVals(l, x, u);
      ContinuesContinued(l, a, g, r);
      var c := ContinuedReason(g, r);
      assert c.Some? ==> SaysAt(l.vals, g.Get(c.value), h.Get(c.value));
      NewSaid(l.vals, g, h, r, x, if h.Continued(r).Some? then From(u, h.Continued(r).value) else u);
    } else {
      KnownGroup(l, a, g, x, u);
      KnownVals(l, x, u, g.Get(r).value);
      KnownHandled(l, a, g, h, x, u);
    }
  }

  lemma KnownHandled<Id>(l: Ledger<Id>, a: Address, g: Group<Id>, h: Group<Record>, x: Id, u: Record)
    requires WF(l) && x !in l.vals && u.address == a && HasGroup(l, a, g) && Says(l.vals, g, h) && Distinct(g)
    requires IsEpochGroup(u.reason) && g.Get(u.reason).Some?
    ensures h.Get(u.reason).Some? && Says(Handle(l, x, u).vals, g, Updated(h, u))
  {
    hide WF, Handle, From, Merge, CutBack, MovedTo;
    var r := u.reason;
    assert HasMember(l, a, g, r);
    assert SaysAt(l.vals, g.Get(r), h.Get(r));
    KnownVals(l, x, u, g.Get(r).value);
    var m := Merge(h.Get(r).value, u);
    var prev, next := h.PrevOf(r), h.NextOf(r);
    assert g.PrevOf(r) == prev && g.NextOf(r) == next;
    if prev.Some? {
      assert SaysAt(l.vals, g.Get(prev.value), h.Get(prev.value));
      KnownSaid(l.vals, g, h, r, From(m, h.Get(prev.value).value));
    } else if next.Some? {
      assert SaysAt(l.vals, g.Get(next.value), h.Get(next.value));
      var q := h.Get(next.value).value;
      KnownSaid(l.vals, g, h, r, CutBack(m, q));
      KnownSaid(l.vals[g.Get(r).value := CutBack(m, q)], g, h.Set(r, CutBack(m, q)), next.value, MovedTo(CutBack(m, q), q));
    } else {
      KnownSaid(l.vals, g, h, r, m);
    }
  }

  // ---------- Updates that are not epoch rewards ----------

  lemma AppendKeepsChain<Id>(l: Ledger<Id>, x: Id, u: Record, start: Snapshot)
    requires WF(l) && x !in l.vals && Chained(l, u.address, start, u.before)
    ensures WF(Append(l, x, u)) && Chained(Append(l, x, u), u.address, start, u.after)
  {
    var l' := Append(l, x, u);
    AppendWF(l, x, u);
    assert l'.list[..|l'.list| - 1] == l.list;
    OfFrame(l.vals, l'.vals, l.list, u.address);
    var ids := RecordsOf(l, u.address);
    assert RecordsOf(l', u.address) == ids + [x];
    assert (ids + [x])[..|ids|] == ids;
    ChainFrame(l.vals, l'.vals, ids, start, u.before);
  }

  // Committee rewards and stake transfers are merged into the first one of the address in the block.
  // That is right if nothing else has been recorded for the address since, and otherwise only if nothing changed.
  lemma MergeKeepsChain<Id>(l: Ledger<Id>, x: Id, u: Record, k: Id, start: Snapshot)
    requires WF(l) && x !in l.vals && Chained(l, u.address, start, u.before)
    requires u.reason == CommitteeRewardReason || u.reason == VerifiedStakeTransferReason
    requires Lookup(l, u.reason, u.address) == Some(k)
    ensures k in l.vals && WF(Handle(l, x, u)) && k in RecordsOf(l, u.address)
    ensures Chained(Handle(l, x, u), u.address, start, u.after) <==>
            var ids := RecordsOf(l, u.address);
            ids[|ids| - 1] == k || (u.after == u.before && l.vals[k].after == u.after)
  {
    MergeAtWF(l, k, u);
    HandleWF(l, x, u);
    var l', ids := Handle(l, x, u), RecordsOf(l, u.address);
    HandleRecords(l, x, u, u.address);
    OfComplete(l.vals, l.list, u.address, k);
    assert l'.vals == l.vals[k := Merge(l.vals[k], u)];
    assert RecordsOf(l', u.address) == ids;
    assert Chained(l', u.address, start, u.after) == Chain(l'.vals, ids, start, u.after);
    hide Handle, WF, Lookup, RecordsOf, Chained;
    var i :| 0 <= i < |ids| && ids[i] == k;
    MergeInChain(l.vals, ids, i, Merge(l.vals[k], u), start, u.before);
  }

  // Moving the end of one record of a chain.
  lemma MergeInChain<Id>(vals: map<Id, Record>, ids: seq<Id>, i: nat, m: Record, start: Snapshot, end: Snapshot)
    requires i < |ids| && NoDup(ids) && (forall x | x in ids :: x in vals)
    requires Chain(vals, ids, start, end) && m.before == vals[ids[i]].before
    ensures Chain(vals[ids[i] := m], ids, start, m.after) <==>
            ids[|ids| - 1] == ids[i] || (m.after == end && vals[ids[i]].after == m.after)
  {
    var vals' := vals[ids[i] := m];
    ChainMeaning(vals, ids, start, end);
    ChainMeaning(vals', ids, start, m.after);
    var n := |ids|;
    assert forall j | 0 <= j < n && j != i :: vals'[ids[j]] == vals[ids[j]];
    if i < n - 1 {
      assert vals[ids[i + 1]].before == vals[ids[i + 1 - 1]].after;
      assert Chain(vals', ids, start, m.after) ==> vals'[ids[i + 1]].before == vals'[ids[i + 1 - 1]].after;
    }
  }

  lemma OfComplete<Id>(vals: map<Id, Record>, list: seq<Id>, a: Address, x: Id)
    requires (forall y | y in list :: y in vals) && x in list && vals[x].address == a
    ensures x in Of(vals, list, a)
  {
    if list[|list| - 1] != x {
      OfComplete(vals, list[..|list| - 1], a, x);
    }
  }
}
