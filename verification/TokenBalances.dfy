/**
 The cache of token balances: which (contract, holder) pairs the receipts of a
 block named, and what the contracts last answered for them.
 */
module TokenBalances {
  import opened Common

  type Bytes = seq<bv8>

  const ADDRESS_LENGTH := 20

  function Zeros(n: nat): (r: Bytes)
    ensures |r| == n && forall i | 0 <= i < n :: r[i] == 0
  {
    seq(n, i => 0)
  }

  // The account address a holder's bytes stand for: short ones are filled up with zeros,
  // of long ones only the end counts.
  function AddressOf(bytes: Bytes): (a: Bytes)
    ensures |a| == ADDRESS_LENGTH
    ensures forall k | 0 <= k < ADDRESS_LENGTH ::
              a[k] == if |bytes| >= ADDRESS_LENGTH then bytes[|bytes| - ADDRESS_LENGTH + k] else if k < |bytes| then bytes[k] else 0
  {
    if |bytes| < ADDRESS_LENGTH then bytes + Zeros(ADDRESS_LENGTH - |bytes|)
    else bytes[|bytes| - ADDRESS_LENGTH..]
  }

  // Names are compared in lower case.
  datatype EventName = Transfer | Airdrop | Other

  datatype Event = Event(contract: Address, name: EventName, data: seq<Bytes>)

  datatype Receipt = Receipt(isBurn: bool, from: Bytes, contract: Address, events: seq<Event>)

  datatype Named = Named(contract: Address, bytes: Bytes) {
    function Pair(): (Address, Bytes) {
      (contract, AddressOf(bytes))
    }
  }

  function DetectHolder(bytes: Bytes, contract: Address): seq<Named> {
    if AddressOf(bytes) == Zeros(ADDRESS_LENGTH) then [] else [Named(contract, bytes)]
  }

  function DetectInEvent(e: Event): seq<Named> {
    match e.name
    case Transfer =>
      if |e.data| != 3 then [] else DetectHolder(e.data[0], e.contract) + DetectHolder(e.data[1], e.contract)
    case Airdrop =>
      if |e.data| != 2 then [] else DetectHolder(e.data[0], e.contract)
    case Other => []
  }

  function DetectInEvents(es: seq<Event>): seq<Named> {
    if |es| == 0 then [] else DetectInEvents(es[..|es| - 1]) + DetectInEvent(es[|es| - 1])
  }

  lemma DetectNothing()
    ensures DetectInEvents([]) == []
  {}

  lemma DetectOneMore(named: seq<Named>, es: seq<Event>, i: nat)
    requires i < |es|
    ensures named + DetectInEvents(es[..i + 1]) == named + DetectInEvents(es[..i]) + DetectInEvent(es[i])
  {
    assert es[..i + 1][..i] == es[..i];
  }

  // The pairs whose balance a receipt puts in doubt.
  function Detect(r: Receipt): seq<Named> {
    (if r.isBurn && |r.events| == 0 then DetectHolder(r.from, r.contract) else []) + DetectInEvents(r.events)
  }

  // Whether a receipt names a pair: the address is not zero, and it holds the first or the second part of a
  // transfer in three parts or the first part of an airdrop in two, both of the contract, or it has sent a
  // burn of the contract without events.
  predicate Names(r: Receipt, contract: Address, address: Bytes) {
    && (exists k :: 0 <= k < |address| && address[k] != 0)
    && (|| (r.isBurn && r.events == [] && r.contract == contract && AddressOf(r.from) == address)
        || exists e :: e in r.events && e.contract == contract &&
             (|| (e.name == Transfer && |e.data| == 3 && (AddressOf(e.data[0]) == address || AddressOf(e.data[1]) == address))
              || (e.name == Airdrop && |e.data| == 2 && AddressOf(e.data[0]) == address)))
  }

  predicate EventNames(e: Event, contract: Address, address: Bytes) {
    && e.contract == contract && address != Zeros(ADDRESS_LENGTH)
    && (|| (e.name == Transfer && |e.data| == 3 && (AddressOf(e.data[0]) == address || AddressOf(e.data[1]) == address))
        || (e.name == Airdrop && |e.data| == 2 && AddressOf(e.data[0]) == address))
  }

  lemma HolderPairs(bytes: Bytes, contract: Address, p: (Address, Bytes))
    ensures p in Pairs(DetectHolder(bytes, contract)) <==> p == (contract, AddressOf(bytes)) && p.1 != Zeros(ADDRESS_LENGTH)
  {
    hide AddressOf;
    var n := Named(contract, bytes);
    assert n in [n] && n.Pair() == (contract, AddressOf(bytes));
  }

  lemma EventPairs(e: Event, p: (Address, Bytes))
    ensures p in Pairs(DetectInEvent(e)) <==> EventNames(e, p.0, p.1)
  {
    hide AddressOf, Pairs, DetectHolder;
    NoPairs();
    if |e.data| >= 1 {
      HolderPairs(e.data[0], e.contract, p);
    }
    if |e.data| >= 2 {
      HolderPairs(e.data[1], e.contract, p);
      PairsAppend(DetectHolder(e.data[0], e.contract), DetectHolder(e.data[1], e.contract));
    }
  }

  lemma NoPairs()
    ensures Pairs([]) == {}
  {}

  lemma {:induction false} EventsPairs(es: seq<Event>, p: (Address, Bytes))
    ensures p in Pairs(DetectInEvents(es)) <==> exists e :: e in es && EventNames(e, p.0, p.1)
  {
    hide Pairs, DetectInEvent, EventNames;
    NoPairs();
    if |es| > 0 {
      var init, last := es[..|es| - 1], es[|es| - 1];
      EventsPairs(init, p);
      EventPairs(last, p);
      PairsAppend(DetectInEvents(init), DetectInEvent(last));
      assert es == init + [last];
    }
  }

  lemma NotZero(address: Bytes)
    requires |address| == ADDRESS_LENGTH
    ensures address != Zeros(ADDRESS_LENGTH) <==> exists k :: 0 <= k < |address| && address[k] != 0
  {
    if forall k | 0 <= k < |address| :: address[k] == 0 {
      assert address == Zeros(ADDRESS_LENGTH);
    }
  }

  // The pairs detected are exactly those that the receipt names.
  lemma DetectedExactly(r: Receipt)
    ensures forall p :: p in Pairs(Detect(r)) <==> Names(r, p.0, p.1)
  {
    forall p ensures p in Pairs(Detect(r)) <==> Names(r, p.0, p.1) {
      PairDetected(r, p);
    }
  }

  lemma PairDetected(r: Receipt, p: (Address, Bytes))
    ensures p in Pairs(Detect(r)) <==> Names(r, p.0, p.1)
  {
    hide Pairs, DetectHolder, DetectInEvents, AddressOf, Zeros;
    NoPairs();
    HolderPairs(r.from, r.contract, p);
    EventsPairs(r.events, p);
    PairsAppend(if r.isBurn && |r.events| == 0 then DetectHolder(r.from, r.contract) else [], DetectInEvents(r.events));
    if |p.1| == ADDRESS_LENGTH {
      NotZero(p.1);
    }
  }

  function Pairs(ns: seq<Named>): set<(Address, Bytes)> {
    set n | n in ns :: n.Pair()
  }

  // The names of pairs in the order of their first mention; each pair once, as it was first named.
  function Noted(names: seq<Named>, n: Named): seq<Named> {
    if n.Pair() in Pairs(names) then names else names + [n]
  }

  function NotedAll(names: seq<Named>, ns: seq<Named>): seq<Named> {
    if |ns| == 0 then names else Noted(NotedAll(names, ns[..|ns| - 1]), ns[|ns| - 1])
  }

  lemma {:induction false} NotedTwice(names: seq<Named>, ns: seq<Named>, ms: seq<Named>)
    ensures NotedAll(names, ns + ms) == NotedAll(NotedAll(names, ns), ms)
  {
    if |ms| == 0 {
      assert ns + ms == ns;
    } else {
      hide Noted;
      NotedTwice(names, ns, ms[..|ms| - 1]);
      assert (ns + ms)[..|ns + ms| - 1] == ns + ms[..|ms| - 1];
    }
  }

  // What a contract answers about a holder now; None if the call fails.
  type Answers = (Address, Bytes) -> Option<int>

  datatype TokenBalance = TokenBalance(address: Bytes, contract: Address, balance: int)

  class TokenBalanceUpdate {
    const contract: Address
    const bytes: Bytes
    var balance: Option<int>

    constructor (n: Named)
      ensures contract == n.contract && bytes == n.bytes && balance == None
    {
      contract, bytes, balance := n.contract, n.bytes, None;
    }

    function Pair(): (Address, Bytes) {
      (contract, AddressOf(bytes))
    }
  }

  class Collector {
    var updates: seq<TokenBalanceUpdate>
    var byContractAndAddress: map<Address, map<Bytes, TokenBalanceUpdate>>

    // The index leads exactly to the updates, so no pair is listed twice.
    ghost predicate Valid()
      reads this
    {
      && (forall u | u in updates :: Find(byContractAndAddress, u.Pair()) == Some(u))
      && (forall p | Find(byContractAndAddress, p).Some? ::
            Find(byContractAndAddress, p).value in updates && Find(byContractAndAddress, p).value.Pair() == p)
      && NoDup(updates)
    }

    constructor ()
      ensures Valid() && updates == []
    {
      updates, byContractAndAddress := [], map[];
    }

    // Puts a named pair in doubt: it is listed from now on and has to be asked for.
    method Add(n: Named, ghost all: set<TokenBalanceUpdate>)
      requires Valid() && forall u | u in updates :: u in all
      modifies this, all
      ensures Valid() && old(updates) <= updates
      ensures forall u | u in updates :: u in old(updates) || fresh(u)
      ensures forall u | u in updates ::
                u.balance == if u in old(updates) && u.Pair() != n.Pair() then old(u.balance) else None
      ensures PairsOf(updates) == PairsOf(old(updates)) + {n.Pair()}
      ensures NamesOf(updates) == Noted(NamesOf(old(updates)), n)
    {
      NamesHavePairs(updates);
      hide NamesOf, AddressOf;
      var contract, address := n.contract, AddressOf(n.bytes);
      ghost var before := byContractAndAddress;
      if contract !in byContractAndAddress {
        byContractAndAddress := byContractAndAddress[contract := map[]];
      }
      if address !in byContractAndAddress[contract] {
        var u := new TokenBalanceUpdate(n);
        NamesAppend(updates, u);
        updates := updates + [u];
        byContractAndAddress := byContractAndAddress[contract := byContractAndAddress[contract][address := u]];
        assert Find(before, n.Pair()) == None;
        assert forall p :: Find(byContractAndAddress, p) == if p == n.Pair() then Some(u) else Find(before, p);
        assert u in updates;
        assert n.Pair() !in PairsOf(old(updates));
      } else {
        var known := byContractAndAddress[contract][address];
        assert Find(before, n.Pair()) == Some(known);
        assert n.Pair() in PairsOf(updates);
        known.balance := None;
        assert forall p :: Find(byContractAndAddress, p) == Find(before, p);
      }
    }

    // Puts all pairs of ns in doubt, one after the other.
    method AddAll(ns: seq<Named>, ghost all: set<TokenBalanceUpdate>)
      requires Valid() && forall u | u in updates :: u in all
      modifies this, all
      ensures Valid() && old(updates) <= updates
      ensures forall u | u in updates :: u in old(updates) || fresh(u)
      ensures forall u | u in updates ::
                u.balance == if u in old(updates) && u.Pair() !in Pairs(ns) then old(u.balance) else None
      ensures PairsOf(updates) == PairsOf(old(updates)) + Pairs(ns)
      ensures NamesOf(updates) == NotedAll(NamesOf(old(updates)), ns)
    {
      hide Noted, NamesOf;
      assert Pairs(ns[..0]) == {};
      for i := 0 to |ns|
        invariant Valid() && old(updates) <= updates
        invariant forall u | u in updates :: u in old(updates) || fresh(u)
        invariant forall u | u in updates ::
                    u.balance == if u in old(updates) && u.Pair() !in Pairs(ns[..i]) then old(u.balance) else None
        invariant PairsOf(updates) == PairsOf(old(updates)) + Pairs(ns[..i])
        invariant NamesOf(updates) == NotedAll(NamesOf(old(updates)), ns[..i])
      {
        assert Pairs(ns[..i + 1]) == Pairs(ns[..i]) + {ns[i].Pair()} by {
          assert ns[..i + 1] == ns[..i] + [ns[i]];
          PairsAppend(ns[..i], [ns[i]]);
        }
        assert ns[..i + 1][..i] == ns[..i];
        Add(ns[i], set u | u in updates);
      }
      assert ns[..|ns|] == ns;
    }

    // Lists what the contracts answer for all pairs named so far.  A balance once answered is
    // believed until a receipt names its pair; a failed question is asked again next time.
    method ApplyTxReceipt(r: Receipt, answers: Answers, ghost all: set<TokenBalanceUpdate>) returns (list: seq<TokenBalance>)
      requires Valid() && forall u | u in updates :: u in all
      modifies this, all
      ensures Valid() && old(updates) <= updates
      ensures forall u | u in updates :: u in old(updates) || fresh(u)
      ensures forall p :: p in PairsOf(updates) <==> p in PairsOf(old(updates)) || Names(r, p.0, p.1)
      ensures NamesOf(updates) == NotedAll(NamesOf(old(updates)), Detect(r))
      ensures forall u | u in updates ::
                u.balance == if u in old(updates) && !Names(r, u.contract, AddressOf(u.bytes)) && old(u.balance).Some?
                             then old(u.balance) else answers(u.contract, u.bytes)
      ensures list == Listed(updates)
    {
      hide Listed, Detect, Names, AddressOf, Valid, NotedAll;
      AddNamed(r, all);
      list := Ask(answers);
    }

    // Puts in doubt what the receipt names.
    method AddNamed(r: Receipt, ghost all: set<TokenBalanceUpdate>)
      requires Valid() && forall u | u in updates :: u in all
      modifies this, all
      ensures Valid() && old(updates) <= updates
      ensures forall u | u in updates :: u in old(updates) || fresh(u)
      ensures forall p :: p in PairsOf(updates) <==> p in PairsOf(old(updates)) || Names(r, p.0, p.1)
      ensures NamesOf(updates) == NotedAll(NamesOf(old(updates)), Detect(r))
      ensures forall u | u in updates ::
                u.balance == if u in old(updates) && !Names(r, u.contract, AddressOf(u.bytes)) then old(u.balance) else None
    {
      ghost var known, olds := updates, map u | u in updates :: u.balance;
      assert [] + Detect(r) == Detect(r) && Pairs([]) == {};
      DetectedExactly(r);
      AddDetected(r, known, olds, all);
      hide Detect, Names, AddressOf, Pairs, NotedAll, NamesOf, PairsOf;
    }

    // Since the updates were `known`, with the balances `olds`, all of ns have been put in doubt.
    ghost predicate HasNoted(known: seq<TokenBalanceUpdate>, olds: map<TokenBalanceUpdate, Option<int>>, ns: seq<Named>)
      reads this, updates
    {
      && Valid() && known <= updates
      && (forall u | u in updates :: u.balance == if u in olds && u.Pair() !in Pairs(ns) then olds[u] else None)
      && PairsOf(updates) == PairsOf(known) + Pairs(ns)
      && NamesOf(updates) == NotedAll(NamesOf(known), ns)
    }

    method AddDetected(r: Receipt, ghost known: seq<TokenBalanceUpdate>, ghost olds: map<TokenBalanceUpdate, Option<int>>,
                       ghost all: set<TokenBalanceUpdate>)
      requires HasNoted(known, olds, []) && forall u | u in updates :: u in all
      modifies this, all
      ensures HasNoted(known, olds, Detect(r))
      ensures forall u | u in updates :: u in old(updates) || fresh(u)
    {
      hide HasNoted, DetectInEvents, DetectInEvent, DetectHolder, AddressOf;
      DetectNothing();
      var named := if r.isBurn && |r.events| == 0 then DetectHolder(r.from, r.contract) else [];
      AddMore(named, known, olds, [], all);
      assert [] + named == named && named + DetectInEvents(r.events[..0]) == named;
      for i := 0 to |r.events|
        invariant HasNoted(known, olds, named + DetectInEvents(r.events[..i]))
        invariant forall u | u in updates :: u in old(updates) || fresh(u)
      {
        ghost var before := named + DetectInEvents(r.events[..i]);
        DetectOneMore(named, r.events, i);
        AddMore(DetectInEvent(r.events[i]), known, olds, before, set u | u in updates);
      }
      assert r.events[..|r.events|] == r.events;
    }

    method AddMore(more: seq<Named>, ghost known: seq<TokenBalanceUpdate>, ghost olds: map<TokenBalanceUpdate, Option<int>>,
                   ghost ns: seq<Named>, ghost all: set<TokenBalanceUpdate>)
      requires HasNoted(known, olds, ns) && forall u | u in updates :: u in all
      modifies this, all
      ensures HasNoted(known, olds, ns + more)
      ensures forall u | u in updates :: u in old(updates) || fresh(u)
    {
      PairsAppend(ns, more);
      NotedTwice(NamesOf(known), ns, more);
      hide Valid, Pairs, NotedAll, NamesOf, PairsOf, AddressOf;
      AddAll(more, all);
    }

    method Ask(answers: Answers) returns (list: seq<TokenBalance>)
      requires Valid()
      modifies updates
      ensures Valid() && updates == old(updates)
      ensures forall u | u in updates :: u.balance == if old(u.balance).Some? then old(u.balance) else answers(u.contract, u.bytes)
      ensures list == Listed(updates)
    {
      assert NoDup(updates);
      hide Valid, Listed, ListedWith, AddressOf;
      var us := updates;
      ghost var olds := CachedBalances(us);
      NothingListed(answers);
      list := [];
      for i := 0 to |us|
        invariant forall j | 0 <= j < i :: us[j].balance == AfterAsking(us[j], olds[j], answers)
        invariant forall j | i <= j < |us| :: us[j].balance == olds[j]
        invariant list == ListedWith(us[..i], olds[..i], answers)
      {
        AskOne(us[i], answers);
        ListedWithAppend(us, olds, answers, i);
        if us[i].balance.None? {
          continue;
        }
        list := list + [TokenBalance(AddressOf(us[i].bytes), us[i].contract, us[i].balance.value)];
      }
      assert us[..|us|] == us && olds[..|us|] == olds;
      ListedIs(us, olds, answers);
    }
  }

  function AfterAsking(u: TokenBalanceUpdate, balance: Option<int>, answers: Answers): Option<int> {
    if balance.Some? then balance else answers(u.contract, u.bytes)
  }

  ghost function CachedBalances(us: seq<TokenBalanceUpdate>): (balances: seq<Option<int>>)
    reads us
    ensures |balances| == |us| && forall i | 0 <= i < |us| :: balances[i] == us[i].balance
  {
    seq(|us|, i requires 0 <= i < |us| reads us => us[i].balance)
  }

  // The list, given the balances known before asking.
  function ListedWith(us: seq<TokenBalanceUpdate>, olds: seq<Option<int>>, answers: Answers): seq<TokenBalance>
    requires |us| == |olds|
  {
    if |us| == 0 then []
    else
      var n := |us| - 1;
      var balance := AfterAsking(us[n], olds[n], answers);
      ListedWith(us[..n], olds[..n], answers) +
      if balance.Some? then [TokenBalance(AddressOf(us[n].bytes), us[n].contract, balance.value)] else []
  }

  lemma NothingListed(answers: Answers)
    ensures ListedWith([], [], answers) == []
  {}

  lemma ListedWithAppend(us: seq<TokenBalanceUpdate>, olds: seq<Option<int>>, answers: Answers, i: nat)
    requires |us| == |olds| && i < |us|
    ensures var balance := AfterAsking(us[i], olds[i], answers);
            ListedWith(us[..i + 1], olds[..i + 1], answers) ==
            ListedWith(us[..i], olds[..i], answers) +
            if balance.Some? then [TokenBalance(AddressOf(us[i].bytes), us[i].contract, balance.value)] else []
  {
    assert us[..i + 1][..i] == us[..i] && olds[..i + 1][..i] == olds[..i];
  }

  lemma {:induction false} ListedIs(us: seq<TokenBalanceUpdate>, olds: seq<Option<int>>, answers: Answers)
    requires |us| == |olds| && forall i | 0 <= i < |us| :: us[i].balance == AfterAsking(us[i], olds[i], answers)
    ensures Listed(us) == ListedWith(us, olds, answers)
  {
    if |us| > 0 {
      ListedIs(us[..|us| - 1], olds[..|us| - 1], answers);
    }
  }

  // Asks the contract if the balance is not known.
  method AskOne(u: TokenBalanceUpdate, answers: Answers)
    modifies u
    ensures u.balance == if old(u.balance).Some? then old(u.balance) else answers(u.contract, u.bytes)
  {
    if u.balance.None? {
      u.balance := answers(u.contract, u.bytes);
    }
  }

  function Find(index: map<Address, map<Bytes, TokenBalanceUpdate>>, p: (Address, Bytes)): Option<TokenBalanceUpdate> {
    if p.0 in index && p.1 in index[p.0] then Some(index[p.0][p.1]) else None
  }

  function PairsOf(us: seq<TokenBalanceUpdate>): set<(Address, Bytes)> {
    set u | u in us :: u.Pair()
  }

  function NamesOf(us: seq<TokenBalanceUpdate>): (names: seq<Named>)
    ensures |names| == |us|
  {
    if |us| == 0 then [] else NamesOf(us[..|us| - 1]) + [Named(us[|us| - 1].contract, us[|us| - 1].bytes)]
  }

  lemma NamesAppend(us: seq<TokenBalanceUpdate>, u: TokenBalanceUpdate)
    ensures NamesOf(us + [u]) == NamesOf(us) + [Named(u.contract, u.bytes)]
  {
    assert (us + [u])[..|us|] == us;
  }

  lemma {:induction false} NamesHavePairs(us: seq<TokenBalanceUpdate>)
    ensures Pairs(NamesOf(us)) == PairsOf(us)
  {
    if |us| > 0 {
      var init, u := us[..|us| - 1], us[|us| - 1];
      NamesHavePairs(init);
      var n := Named(u.contract, u.bytes);
      PairsAppend(NamesOf(init), [n]);
      assert Pairs([n]) == {n.Pair()} by {
        assert n in [n];
      }
      assert us == init + [u];
      assert PairsOf(us) == PairsOf(init) + {u.Pair()};
    }
  }

  lemma PairsAppend(ns: seq<Named>, ms: seq<Named>)
    ensures Pairs(ns + ms) == Pairs(ns) + Pairs(ms)
  {
    assert forall n | n in ns + ms :: n in ns || n in ms;
    assert forall n | n in ns :: n in ns + ms;
    assert forall n | n in ms :: n in ns + ms;
  }

  // The known balances of us, in order.
  function Listed(us: seq<TokenBalanceUpdate>): seq<TokenBalance>
    reads us
  {
    if |us| == 0 then []
    else
      var u := us[|us| - 1];
      Listed(us[..|us| - 1]) +
      if u.balance.Some? then [TokenBalance(AddressOf(u.bytes), u.contract, u.balance.value)] else []
  }

  // The balances that the contracts hold, and the questions to them that fail.
  type Balances = (Address, Bytes) -> int
  type Failures = (Address, Bytes) -> bool

  function Reply(balances: Balances, fails: Failures): Answers {
    (contract: Address, bytes: Bytes) => if fails(contract, bytes) then None else Some(balances(contract, bytes))
  }

  // The pairs whose balance is known.
  type Known = (Address, Bytes) -> bool

  // A balance becomes known when its question does not fail, and stays known until its pair is named.
  function KnownNext(known: Known, r: Receipt, fails: Failures): Known {
    (contract: Address, bytes: Bytes) =>
      !fails(contract, bytes) || (!Names(r, contract, AddressOf(bytes)) && known(contract, bytes))
  }

  // What is shown of the balances.
  function Shown(balances: Balances, known: Known): Answers {
    (contract: Address, bytes: Bytes) => if known(contract, bytes) then Some(balances(contract, bytes)) else None
  }

  // The cache holds exactly the known balances, as the contracts hold them.
  ghost predicate Coherent(us: seq<TokenBalanceUpdate>, balances: Balances, known: Known)
    reads us
  {
    forall u | u in us :: u.balance == Shown(balances, known)(u.contract, u.bytes)
  }

  // Only balances of pairs that the receipt names change.
  ghost predicate OnlyNamedChange(before: Balances, after: Balances, r: Receipt) {
    forall contract: Address, bytes: Bytes | !Names(r, contract, AddressOf(bytes)) :: after(contract, bytes) == before(contract, bytes)
  }

  // After a receipt the cache holds the contracts' balances of now, whichever questions fail; a failed
  // question costs only the balances that were not known before or have just been named.
  method FollowReceipt(c: Collector, r: Receipt, ghost before: Balances, ghost known: Known, after: Balances, fails: Failures,
                       ghost all: set<TokenBalanceUpdate>) returns (list: seq<TokenBalance>)
    requires c.Valid() && forall u | u in c.updates :: u in all
    requires Coherent(c.updates, before, known) && OnlyNamedChange(before, after, r)
    modifies c, all
    ensures c.Valid() && Coherent(c.updates, after, KnownNext(known, r, fails))
    ensures forall p :: p in PairsOf(c.updates) <==> p in PairsOf(old(c.updates)) || Names(r, p.0, p.1)
    ensures NamesOf(c.updates) == NotedAll(NamesOf(old(c.updates)), Detect(r))
    ensures forall u | u in c.updates :: u in old(c.updates) || fresh(u)
    ensures list == Answered(c.updates, Shown(after, KnownNext(known, r, fails)))
    ensures forall i, j | 0 <= i < j < |c.updates| :: c.updates[i].Pair() != c.updates[j].Pair()
  {
    list := c.ApplyTxReceipt(r, Reply(after, fails), all);
    hide Detect, Names, NotedAll, NamesOf, AddressOf;
    forall i, j | 0 <= i < j < |c.updates| ensures c.updates[i].Pair() != c.updates[j].Pair() {
      assert c.updates[i] in c.updates && c.updates[j] in c.updates;
    }
    forall u | u in c.updates
      ensures u.balance == Shown(after, KnownNext(known, r, fails))(u.contract, u.bytes)
    {
      if u in old(c.updates) {
        assert old(u.balance) == Shown(before, known)(u.contract, u.bytes);
      } else {
        NewIsNamed(old(c.updates), c.updates, u, r);
      }
    }
    ListedAnswers(c.updates, Shown(after, KnownNext(known, r, fails)));
  }

  lemma NewIsNamed(us: seq<TokenBalanceUpdate>, us': seq<TokenBalanceUpdate>, u: TokenBalanceUpdate, r: Receipt)
    requires us <= us' && u in us' && u !in us && forall p :: p in PairsOf(us') <==> p in PairsOf(us) || Names(r, p.0, p.1)
    requires forall i, j | 0 <= i < j < |us'| :: us'[i].Pair() != us'[j].Pair()
    ensures Names(r, u.contract, AddressOf(u.bytes))
  {
    hide AddressOf, Names;
    var k :| 0 <= k < |us'| && us'[k] == u;
    assert u.Pair() in PairsOf(us');
    forall i | 0 <= i < |us|
      ensures us[i].Pair() != u.Pair()
    {
      assert us'[i] == us[i] && us[i] in us;
      assert i < k;
    }
  }

  // What asking every contract would give.
  function Answered(us: seq<TokenBalanceUpdate>, answers: Answers): seq<TokenBalance> {
    if |us| == 0 then []
    else
      var u := us[|us| - 1];
      var answer := answers(u.contract, u.bytes);
      Answered(us[..|us| - 1], answers) + if answer.Some? then [TokenBalance(AddressOf(u.bytes), u.contract, answer.value)] else []
  }

  lemma {:induction false} ListedAnswers(us: seq<TokenBalanceUpdate>, answers: Answers)
    requires forall u | u in us :: u.balance == answers(u.contract, u.bytes)
    ensures Listed(us) == Answered(us, answers)
  {
    if |us| > 0 {
      ListedAnswers(us[..|us| - 1], answers);
    }
  }

  // What the contracts answer about these pairs.
  function AskAll(names: seq<Named>, answers: Answers): seq<TokenBalance> {
    if |names| == 0 then []
    else
      var n := names[|names| - 1];
      var answer := answers(n.contract, n.bytes);
      AskAll(names[..|names| - 1], answers) + if answer.Some? then [TokenBalance(AddressOf(n.bytes), n.contract, answer.value)] else []
  }

  lemma {:induction false} AnsweredIsAsked(us: seq<TokenBalanceUpdate>, answers: Answers)
    ensures Answered(us, answers) == AskAll(NamesOf(us), answers)
  {
    if |us| > 0 {
      AnsweredIsAsked(us[..|us| - 1], answers);
      assert NamesOf(us)[..|us| - 1] == NamesOf(us[..|us| - 1]);
    }
  }

  // All pairs that the receipts have named.
  function NamedIn(receipts: seq<Receipt>): seq<Named> {
    if |receipts| == 0 then [] else NotedAll(NamedIn(receipts[..|receipts| - 1]), Detect(receipts[|receipts| - 1]))
  }

  ghost predicate IsOnce(names: seq<Named>) {
    forall i, j | 0 <= i < j < |names| :: names[i].Pair() != names[j].Pair()
  }

  lemma OnceNoted(names: seq<Named>, n: Named)
    requires IsOnce(names)
    ensures IsOnce(Noted(names, n))
  {
    hide AddressOf;
    if n.Pair() !in Pairs(names) {
      forall i | 0 <= i < |names|
        ensures names[i].Pair() != n.Pair()
      {
        assert names[i] in names;
      }
    }
  }

  lemma {:induction false} OnceNotedAll(names: seq<Named>, ns: seq<Named>)
    requires IsOnce(names)
    ensures IsOnce(NotedAll(names, ns))
  {
    if |ns| > 0 {
      hide IsOnce, Noted;
      OnceNotedAll(names, ns[..|ns| - 1]);
      OnceNoted(NotedAll(names, ns[..|ns| - 1]), ns[|ns| - 1]);
    }
  }

  // Each pair is named once.
  lemma {:induction false} NamedOnce(receipts: seq<Receipt>)
    ensures IsOnce(NamedIn(receipts))
  {
    if |receipts| > 0 {
      hide IsOnce, NotedAll, Detect;
      NamedOnce(receipts[..|receipts| - 1]);
      OnceNotedAll(NamedIn(receipts[..|receipts| - 1]), Detect(receipts[|receipts| - 1]));
    }
  }

  lemma {:induction false} NotedPairs(names: seq<Named>, ns: seq<Named>)
    ensures Pairs(NotedAll(names, ns)) == Pairs(names) + Pairs(ns)
    ensures names <= NotedAll(names, ns)
  {
    if |ns| == 0 {
      NoPairs();
    } else {
      var init, n := ns[..|ns| - 1], ns[|ns| - 1];
      hide AddressOf;
      NotedPairs(names, init);
      PairsAppend(init, [n]);
      PairsAppend(NotedAll(names, init), [n]);
      assert Pairs([n]) == {n.Pair()} by {
        assert n in [n];
      }
      assert ns == init + [n];
    }
  }

  // The pairs named in receipts are exactly those that one of them names, in the order in which the
  // receipts first name them.
  lemma {:induction false} NamedInExactly(receipts: seq<Receipt>)
    ensures forall p :: p in Pairs(NamedIn(receipts)) <==> exists r :: r in receipts && Names(r, p.0, p.1)
    ensures |receipts| > 0 ==> NamedIn(receipts[..|receipts| - 1]) <= NamedIn(receipts)
  {
    hide Names, Detect, NotedAll, Pairs;
    if |receipts| == 0 {
      NoPairs();
    } else {
      var init, last := receipts[..|receipts| - 1], receipts[|receipts| - 1];
      NamedInExactly(init);
      DetectedExactly(last);
      NotedPairs(NamedIn(init), Detect(last));
      assert receipts == init + [last];
    }
  }

  // The pairs whose balance is known after the receipts.
  function KnownAfter(receipts: seq<Receipt>, fails: seq<Failures>): Known
    requires |receipts| == |fails|
  {
    if |receipts| == 0 then (contract: Address, bytes: Bytes) => false
    else
      var n := |receipts| - 1;
      KnownNext(KnownAfter(receipts[..n], fails[..n]), receipts[n], fails[n])
  }

  // The question at receipt k did not fail, and the pair has not been named since.
  ghost predicate IsAnsweredAt(receipts: seq<Receipt>, fails: seq<Failures>, k: nat, contract: Address, bytes: Bytes)
    requires k < |receipts| == |fails|
  {
    !fails[k](contract, bytes) && forall j | k < j < |receipts| :: !Names(receipts[j], contract, AddressOf(bytes))
  }

  lemma AnsweredBefore(receipts: seq<Receipt>, fails: seq<Failures>, k: nat, contract: Address, bytes: Bytes)
    requires k + 1 < |receipts| == |fails|
    ensures var n := |receipts| - 1;
            IsAnsweredAt(receipts, fails, k, contract, bytes) <==>
            IsAnsweredAt(receipts[..n], fails[..n], k, contract, bytes) && !Names(receipts[n], contract, AddressOf(bytes))
  {
    hide Names;
    var n := |receipts| - 1;
    assert forall j | 0 <= j < n :: receipts[..n][j] == receipts[j];
  }

  // The question was answered at one of the receipts, and the pair has not been named since.
  ghost predicate IsAnswered(receipts: seq<Receipt>, fails: seq<Failures>, contract: Address, bytes: Bytes)
    requires |receipts| == |fails|
  {
    exists k: nat :: k < |receipts| && IsAnsweredAt(receipts, fails, k, contract, bytes)
  }

  lemma KnownLast(receipts: seq<Receipt>, fails: seq<Failures>, contract: Address, bytes: Bytes)
    requires 0 < |receipts| == |fails|
    ensures var n := |receipts| - 1;
            KnownAfter(receipts, fails)(contract, bytes) <==>
            !fails[n](contract, bytes) || (!Names(receipts[n], contract, AddressOf(bytes)) && KnownAfter(receipts[..n], fails[..n])(contract, bytes))
  {
    hide AddressOf, Names;
  }

  lemma AnsweredLast(receipts: seq<Receipt>, fails: seq<Failures>, contract: Address, bytes: Bytes)
    requires 0 < |receipts| == |fails|
    ensures var n := |receipts| - 1;
            IsAnswered(receipts, fails, contract, bytes) <==>
            !fails[n](contract, bytes) || (!Names(receipts[n], contract, AddressOf(bytes)) && IsAnswered(receipts[..n], fails[..n], contract, bytes))
  {
    hide Names;
    var n := |receipts| - 1;
    assert IsAnsweredAt(receipts, fails, n, contract, bytes) <==> !fails[n](contract, bytes);
    hide IsAnsweredAt;
    forall k: nat | k < n
      ensures IsAnsweredAt(receipts, fails, k, contract, bytes) <==>
              IsAnsweredAt(receipts[..n], fails[..n], k, contract, bytes) && !Names(receipts[n], contract, AddressOf(bytes))
    {
      AnsweredBefore(receipts, fails, k, contract, bytes);
    }
  }

  // A balance is known exactly if its question was answered at one of the receipts since its pair was last named.
  lemma {:induction false} KnownExactly(receipts: seq<Receipt>, fails: seq<Failures>, contract: Address, bytes: Bytes)
    requires |receipts| == |fails|
    ensures KnownAfter(receipts, fails)(contract, bytes) <==> IsAnswered(receipts, fails, contract, bytes)
  {
    hide IsAnsweredAt, Names;
    if |receipts| > 0 {
      hide KnownAfter, IsAnswered;
      var n := |receipts| - 1;
      KnownExactly(receipts[..n], fails[..n], contract, bytes);
      KnownLast(receipts, fails, contract, bytes);
      AnsweredLast(receipts, fails, contract, bytes);
    }
  }

  function Balance(n: Named, balances: Balances): TokenBalance {
    TokenBalance(AddressOf(n.bytes), n.contract, balances(n.contract, n.bytes))
  }

  // Every balance shown is the one the contract holds, and exactly the known ones are shown.
  lemma {:induction false} ShownAreTrue(names: seq<Named>, balances: Balances, known: Known)
    ensures forall b :: b in AskAll(names, Shown(balances, known)) <==>
              exists n :: n in names && known(n.contract, n.bytes) && b == Balance(n, balances)
  {
    if |names| > 0 {
      hide AddressOf;
      var init, last := names[..|names| - 1], names[|names| - 1];
      ShownAreTrue(init, balances, known);
      assert names == init + [last];
    }
  }

  // A list shows the balances that the contracts hold of exactly the pairs named whose question was answered
  // since they were last named; a pair that is missing failed just now.
  lemma ListsAreTrue(receipts: seq<Receipt>, fails: seq<Failures>, balances: Balances)
    requires 0 < |receipts| == |fails|
    ensures var list := AskAll(NamedIn(receipts), Shown(balances, KnownAfter(receipts, fails)));
            && (forall b :: b in list <==>
                  exists n :: n in NamedIn(receipts) && IsAnswered(receipts, fails, n.contract, n.bytes) && b == Balance(n, balances))
            && forall n | n in NamedIn(receipts) && Balance(n, balances) !in list :: fails[|receipts| - 1](n.contract, n.bytes)
  {
    hide AskAll, NamedIn, Shown, KnownAfter, IsAnswered, Names, Balance;
    var known := KnownAfter(receipts, fails);
    ShownAreTrue(NamedIn(receipts), balances, known);
    forall n | n in NamedIn(receipts)
      ensures known(n.contract, n.bytes) <==> IsAnswered(receipts, fails, n.contract, n.bytes)
      ensures !known(n.contract, n.bytes) ==> fails[|receipts| - 1](n.contract, n.bytes)
    {
      KnownExactly(receipts, fails, n.contract, n.bytes);
      KnownLast(receipts, fails, n.contract, n.bytes);
    }
  }

  lemma OneMoreReceipt(receipts: seq<Receipt>, fails: seq<Failures>, i: nat)
    requires i < |receipts| == |fails|
    ensures NamedIn(receipts[..i + 1]) == NotedAll(NamedIn(receipts[..i]), Detect(receipts[i]))
    ensures KnownAfter(receipts[..i + 1], fails[..i + 1]) == KnownNext(KnownAfter(receipts[..i], fails[..i]), receipts[i], fails[i])
  {
    hide NotedAll, Detect, KnownNext;
    assert receipts[..i + 1][..i] == receipts[..i] && fails[..i + 1][..i] == fails[..i];
  }

  // Over any receipts, while the contracts change the balances of the pairs named, and whichever questions
  // fail: each list has the balances that the contracts hold at that moment, of all pairs named so far
  // whose question did not always fail since they were last named.
  method FollowReceipts(receipts: seq<Receipt>, balances: seq<Balances>, fails: seq<Failures>) returns (lists: seq<seq<TokenBalance>>)
    requires |balances| == |fails| == |receipts|
    requires forall i | 0 < i < |receipts| :: OnlyNamedChange(balances[i - 1], balances[i], receipts[i])
    ensures |lists| == |receipts|
    ensures forall i | 0 <= i < |lists| ::
              lists[i] == AskAll(NamedIn(receipts[..i + 1]), Shown(balances[i], KnownAfter(receipts[..i + 1], fails[..i + 1])))
  {
    hide Detect, NotedAll, Coherent, OnlyNamedChange, AskAll, Answered, NamesOf, PairsOf, Pairs, AddressOf, KnownNext, Shown;
    lists := [];
    var c := new Collector();
    NothingCached(c.updates);
    hide NamedIn, KnownAfter;
    for i := 0 to |receipts|
      invariant fresh(c) && c.Valid() && forall u | u in c.updates :: fresh(u)
      invariant |lists| == i && NamesOf(c.updates) == NamedIn(receipts[..i])
      invariant if i == 0 then c.updates == [] else Coherent(c.updates, balances[i - 1], KnownAfter(receipts[..i], fails[..i]))
      invariant forall j | 0 <= j < i ::
                  lists[j] == AskAll(NamedIn(receipts[..j + 1]), Shown(balances[j], KnownAfter(receipts[..j + 1], fails[..j + 1])))
    {
      OneMoreReceipt(receipts, fails, i);
      ghost var before, known := if i == 0 then balances[0] else balances[i - 1], KnownAfter(receipts[..i], fails[..i]);
      if i == 0 {
        NothingCachedFor(c.updates, before, known);
        SameBalances(before, receipts[0]);
      }
      var list := FollowReceipt(c, receipts[i], before, known, balances[i], fails[i], set u | u in c.updates);
      AnsweredIsAsked(c.updates, Shown(balances[i], KnownNext(known, receipts[i], fails[i])));
      lists := lists + [list];
    }
  }

  lemma NothingCached(us: seq<TokenBalanceUpdate>)
    requires us == []
    ensures NamesOf(us) == NamedIn([])
  {}

  lemma NothingCachedFor(us: seq<TokenBalanceUpdate>, balances: Balances, known: Known)
    requires us == []
    ensures Coherent(us, balances, known)
  {}

  lemma SameBalances(balances: Balances, r: Receipt)
    ensures OnlyNamedChange(balances, balances, r)
  {}
}
