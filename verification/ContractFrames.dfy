/**
 Balance updates inside one contract transaction: every call frame records its
 own updates, and a committed frame passes them to its caller.
 */
module ContractFrames {
  import opened Common

  datatype Update = Update(address: Address, balanceOld: int, balanceNew: int)

  // updates: in order of recording; byAddress: where the frame's own update of an address is.
  datatype Cache = Cache(updates: seq<Update>, byAddress: map<Address, nat>)

  const NO_UPDATES := Cache([], map[])

  predicate CacheWF(c: Cache) {
    forall a | a in c.byAddress :: c.byAddress[a] < |c.updates| && c.updates[c.byAddress[a]].address == a
  }

  // A frame sets the balance of a, which it sees to be `current`.
  function Touch(c: Cache, a: Address, current: int, balance: int): Cache
    requires CacheWF(c)
  {
    if a in c.byAddress then
      var i := c.byAddress[a];
      c.(updates := c.updates[i := c.updates[i].(balanceNew := balance)])
    else
      Cache(c.updates + [Update(a, current, balance)], c.byAddress[a := |c.updates|])
  }

  lemma ImportWF(c: Cache, child: Cache)
    requires CacheWF(c)
    ensures CacheWF(Import(c, child))
  {
  }

  function Import(c: Cache, child: Cache): Cache {
    c.(updates := c.updates + child.updates)
  }

  // ---------- Chains of balances ----------

  ghost predicate Chain(us: seq<Update>, a: Address, start: int, end: int) {
    if |us| == 0 then start == end
    else
      var u := us[|us| - 1];
      if u.address == a then u.balanceNew == end && Chain(us[..|us| - 1], a, start, u.balanceOld)
      else Chain(us[..|us| - 1], a, start, end)
  }

  lemma {:induction false} ChainConcat(us: seq<Update>, vs: seq<Update>, a: Address, start: int, mid: int, end: int)
    requires Chain(us, a, start, mid) && Chain(vs, a, mid, end)
    ensures Chain(us + vs, a, start, end)
  {
    if |vs| == 0 {
      assert us + vs == us;
    } else {
      assert (us + vs)[..|us + vs| - 1] == us + vs[..|vs| - 1];
      var u := vs[|vs| - 1];
      ChainConcat(us, vs[..|vs| - 1], a, start, mid, if u.address == a then u.balanceOld else end);
    }
  }

  // us[i] is the last update of its address.
  predicate IsLast(us: seq<Update>, i: nat)
    requires i < |us|
  {
    forall j | i < j < |us| :: us[j].address != us[i].address
  }

  // Changing what an update sets keeps the chain exactly if nothing of the address follows it
  // or nothing changes.
  lemma {:induction false} ResetInChain(us: seq<Update>, i: nat, start: int, end: int, balance: int)
    requires i < |us| && Chain(us, us[i].address, start, end)
    ensures Chain(us[i := us[i].(balanceNew := balance)], us[i].address, start, balance) <==>
            IsLast(us, i) || (balance == end && us[i].balanceNew == balance)
  {
    var a, n := us[i].address, |us| - 1;
    var us' := us[i := us[i].(balanceNew := balance)];
    if i == n {
      assert us'[..n] == us[..n];
    } else {
      var front := us[..n];
      assert us'[..n] == front[i := front[i].(balanceNew := balance)];
      if us[n].address == a {
        FrontReset(front, i, start, us[n].balanceOld, balance);
      } else {
        ResetInChain(front, i, start, end, balance);
        assert IsLast(us, i) == IsLast(front, i);
      }
    }
  }

  // The same for the front of a chain, whose end is already fixed by what follows.
  lemma {:induction false} FrontReset(us: seq<Update>, i: nat, start: int, end: int, balance: int)
    requires i < |us| && Chain(us, us[i].address, start, end)
    ensures Chain(us[i := us[i].(balanceNew := balance)], us[i].address, start, end) <==> balance == us[i].balanceNew
  {
    var a, n := us[i].address, |us| - 1;
    var us' := us[i := us[i].(balanceNew := balance)];
    if i == n {
      assert us'[..n] == us[..n];
    } else {
      var front := us[..n];
      assert us'[..n] == front[i := front[i].(balanceNew := balance)];
      FrontReset(front, i, start, if us[n].address == a then us[n].balanceOld else end, balance);
    }
  }

  lemma {:induction false} ResetElsewhere(us: seq<Update>, i: nat, a: Address, start: int, end: int, balance: int)
    requires i < |us| && us[i].address != a
    ensures Chain(us[i := us[i].(balanceNew := balance)], a, start, end) == Chain(us, a, start, end)
  {
    var n := |us| - 1;
    var us' := us[i := us[i].(balanceNew := balance)];
    if i == n {
      assert us'[..n] == us[..n];
    } else {
      assert us'[..n] == us[..n][i := us[..n][i].(balanceNew := balance)];
      ResetElsewhere(us[..n], i, a, start, if us[n].address == a then us[n].balanceOld else end, balance);
    }
  }

  type Balances = Address -> int

  ghost predicate Chains(us: seq<Update>, start: Balances, end: Balances) {
    forall a :: Chain(us, a, start(a), end(a))
  }

  function With(b: Balances, a: Address, v: int): Balances {
    (x: Address) => if x == a then v else b(x)
  }

  // The frame has no update of the address yet, or it is the latest of the address, or nothing changes.
  predicate IsSafe(c: Cache, a: Address, v: int, current: int)
    requires CacheWF(c)
  {
    a in c.byAddress ==>
      IsLast(c.updates, c.byAddress[a]) || (v == current && c.updates[c.byAddress[a]].balanceNew == v)
  }

  // A touch keeps the chains exactly if it is safe.
  lemma TouchKeepsChains(c: Cache, a: Address, v: int, start: Balances, now: Balances)
    requires CacheWF(c) && Chains(c.updates, start, now)
    ensures CacheWF(Touch(c, a, now(a), v))
    ensures Chains(Touch(c, a, now(a), v).updates, start, With(now, a, v)) <==>
            IsSafe(c, a, v, now(a))
  {
    var c', now' := Touch(c, a, now(a), v), With(now, a, v);
    if a in c.byAddress {
      var i := c.byAddress[a];
      assert Chain(c.updates, a, start(a), now(a));
      ResetInChain(c.updates, i, start(a), now(a), v);
      forall b | b != a ensures Chain(c'.updates, b, start(b), now'(b)) {
        assert Chain(c.updates, b, start(b), now(b));
        ResetElsewhere(c.updates, i, b, start(b), now(b), v);
      }
      assert Chains(c'.updates, start, now') <==> Chain(c'.updates, a, start(a), now'(a));
    } else {
      assert c'.updates[..|c.updates|] == c.updates;
      forall b ensures Chain(c'.updates, b, start(b), now'(b)) {
        assert Chain(c.updates, b, start(b), now(b));
      }
    }
  }

  // ---------- Call trees ----------

  // What a frame does: set balances and call other frames, whose effects are committed or not.
  datatype Action = Set(a: Address, v: int) | Call(body: seq<Action>, committed: bool)

  // Runs a frame that sees the balances `now`, with the updates c recorded so far.
  function Run(body: seq<Action>, c: Cache, now: Balances): (r: (Cache, Balances))
    requires CacheWF(c)
    ensures CacheWF(r.0)
    decreases body
  {
    if |body| == 0 then (c, now)
    else
      match body[0]
      case Set(a, v) => Run(body[1..], Touch(c, a, now(a), v), With(now, a, v))
      case Call(inner, committed) =>
        var r := Run(inner, NO_UPDATES, now);
        if committed then Run(body[1..], Import(c, r.0), r.1) else Run(body[1..], c, now)
  }

  // The balances set in committed frames, in order.
  function Sets(body: seq<Action>): seq<(Address, int)>
    decreases body
  {
    if |body| == 0 then []
    else
      (match body[0]
       case Set(a, v) => [(a, v)]
       case Call(inner, committed) => if committed then Sets(inner) else []) + Sets(body[1..])
  }

  function SetAll(sets: seq<(Address, int)>, now: Balances): Balances {
    if |sets| == 0 then now
    else
      var n := |sets| - 1;
      With(SetAll(sets[..n], now), sets[n].0, sets[n].1)
  }

  lemma {:induction false} SetAllConcat(s: seq<(Address, int)>, t: seq<(Address, int)>, now: Balances)
    ensures SetAll(s + t, now) == SetAll(t, SetAll(s, now))
  {
    if |t| == 0 {
      assert s + t == s;
    } else {
      assert (s + t)[..|s + t| - 1] == s + t[..|t| - 1];
      SetAllConcat(s, t[..|t| - 1], now);
    }
  }

  // Only what is committed, up to the outermost frame, has an effect on the balances.
  lemma {:induction false} RunSets(body: seq<Action>, c: Cache, now: Balances)
    requires CacheWF(c)
    ensures Run(body, c, now).1 == SetAll(Sets(body), now)
    decreases body
  {
    if |body| > 0 {
      var rest := Sets(body[1..]);
      match body[0]
      case Set(a, v) =>
        RunSets(body[1..], Touch(c, a, now(a), v), With(now, a, v));
        assert SetAll([(a, v)], now) == With(SetAll([], now), a, v);
        SetAllConcat([(a, v)], rest, now);
      case Call(inner, committed) =>
        if committed {
          var r := Run(inner, NO_UPDATES, now);
          RunSets(inner, NO_UPDATES, now);
          RunSets(body[1..], Import(c, r.0), r.1);
          SetAllConcat(Sets(inner), rest, now);
        } else {
          RunSets(body[1..], c, now);
          assert [] + rest == rest;
        }
    }
  }

  // The addresses a frame leaves updates of, when committed.
  function Touched(body: seq<Action>): set<Address>
    decreases body
  {
    if |body| == 0 then {}
    else
      Touched(body[1..]) +
      match body[0]
      case Set(a, _) => {a}
      case Call(inner, committed) => if committed then Touched(inner) else {}
  }

  // No frame sets an address again that it has recorded (own) and that a committed call has touched since
  // (closed); calls that are not committed do not count.
  predicate NoReset(body: seq<Action>, own: set<Address>, closed: set<Address>)
    decreases body
  {
    |body| == 0 ||
    match body[0]
    case Set(a, _) => a !in closed && NoReset(body[1..], own + {a}, closed)
    case Call(inner, committed) =>
      && (committed ==> NoReset(inner, {}, {}))
      && NoReset(body[1..], own, if committed then closed + own * Touched(inner) else closed)
  }

  // own is what the frame has recorded, and what is not closed is still the latest of its address.
  ghost predicate Tracks(c: Cache, own: set<Address>, closed: set<Address>) {
    && CacheWF(c) && c.byAddress.Keys == own
    && forall a | a in own && a !in closed :: IsLast(c.updates, c.byAddress[a])
  }

  // For every call tree, the committed updates of every address lead from its balance before the call
  // to its balance after it.
  lemma {:induction false} RunChains(body: seq<Action>, c: Cache, start: Balances, now: Balances, own: set<Address>, closed: set<Address>)
    requires Tracks(c, own, closed) && Chains(c.updates, start, now) && NoReset(body, own, closed)
    ensures Chains(Run(body, c, now).0.updates, start, Run(body, c, now).1)
    ensures RecordsOnly(c.updates, Run(body, c, now).0.updates, Touched(body))
    decreases body
  {
    if |body| > 0 {
      match body[0]
      case Set(a, v) =>
        TouchKeepsChains(c, a, v, start, now);
        TouchTracks(c, a, now(a), v, own, closed);
        RunChains(body[1..], Touch(c, a, now(a), v), start, With(now, a, v), own + {a}, closed);
        TouchRecords(c, a, now(a), v);
        RecordsTrans(c.updates, Touch(c, a, now(a), v).updates, Run(body, c, now).0.updates, {a}, Touched(body[1..]));
      case Call(inner, committed) =>
        var r := Run(inner, NO_UPDATES, now);
        if committed {
          RunChains(inner, NO_UPDATES, now, now, {}, {});
          ImportChains(c, r.0, start, now, r.1);
          ImportTracks(c, r.0, own, closed, Touched(inner));
          RunChains(body[1..], Import(c, r.0), start, r.1, own, closed + own * Touched(inner));
          RecordsTrans(c.updates, Import(c, r.0).updates, Run(body, c, now).0.updates, Touched(inner), Touched(body[1..]));
        } else {
          RunChains(body[1..], c, start, now, own, closed);
        }
    }
  }

  // Every balance set in a committed frame is set safely.
  ghost predicate AllSafe(body: seq<Action>, c: Cache, now: Balances)
    requires CacheWF(c)
    decreases body
  {
    |body| == 0 ||
    match body[0]
    case Set(a, v) => IsSafe(c, a, v, now(a)) && AllSafe(body[1..], Touch(c, a, now(a), v), With(now, a, v))
    case Call(inner, committed) =>
      var r := Run(inner, NO_UPDATES, now);
      if committed then AllSafe(inner, NO_UPDATES, now) && AllSafe(body[1..], Import(c, r.0), r.1)
      else AllSafe(body[1..], c, now)
  }

  // There is no gap at any moment in any committed frame.
  ghost predicate ChainsThroughout(body: seq<Action>, c: Cache, start: Balances, now: Balances)
    requires CacheWF(c)
    decreases body
  {
    && Chains(c.updates, start, now)
    && (|body| == 0 ||
        match body[0]
        case Set(a, v) => ChainsThroughout(body[1..], Touch(c, a, now(a), v), start, With(now, a, v))
        case Call(inner, committed) =>
          var r := Run(inner, NO_UPDATES, now);
          if committed then ChainsThroughout(inner, NO_UPDATES, now, now) && ChainsThroughout(body[1..], Import(c, r.0), start, r.1)
          else ChainsThroughout(body[1..], c, start, now))
  }

  lemma ThroughoutEnds(body: seq<Action>, c: Cache, start: Balances, now: Balances)
    requires CacheWF(c) && ChainsThroughout(body, c, start, now)
    ensures Chains(Run(body, c, now).0.updates, start, Run(body, c, now).1)
    decreases body
  {
    if |body| > 0 {
      match body[0]
      case Set(a, v) => ThroughoutEnds(body[1..], Touch(c, a, now(a), v), start, With(now, a, v));
      case Call(inner, committed) =>
        var r := Run(inner, NO_UPDATES, now);
        if committed {
          ThroughoutEnds(body[1..], Import(c, r.0), start, r.1);
        } else {
          ThroughoutEnds(body[1..], c, start, now);
        }
    }
  }

  // For every call tree, a gap ever shows exactly if some balance is not set safely.
  lemma {:induction false} ThroughoutExactly(body: seq<Action>, c: Cache, start: Balances, now: Balances)
    requires CacheWF(c) && Chains(c.updates, start, now)
    ensures ChainsThroughout(body, c, start, now) <==> AllSafe(body, c, now)
    decreases body
  {
    if |body| > 0 {
      match body[0]
      case Set(a, v) =>
        TouchKeepsChains(c, a, v, start, now);
        var c', now' := Touch(c, a, now(a), v), With(now, a, v);
        if Chains(c'.updates, start, now') {
          ThroughoutExactly(body[1..], c', start, now');
        } else {
          assert !ChainsThroughout(body[1..], c', start, now');
        }
      case Call(inner, committed) =>
        var r := Run(inner, NO_UPDATES, now);
        if committed {
          assert Chains([], now, now);
          ThroughoutExactly(inner, NO_UPDATES, now, now);
          if ChainsThroughout(inner, NO_UPDATES, now, now) {
            ThroughoutEnds(inner, NO_UPDATES, now, now);
            ImportChains(c, r.0, start, now, r.1);
            ThroughoutExactly(body[1..], Import(c, r.0), start, r.1);
          }
        } else {
          ThroughoutExactly(body[1..], c, start, now);
        }
    }
  }

  // us' has the updates of us, with the same addresses, and then only updates of the addresses in s.
  ghost predicate RecordsOnly(us: seq<Update>, us': seq<Update>, s: set<Address>) {
    && |us| <= |us'|
    && (forall i | 0 <= i < |us| :: us'[i].address == us[i].address)
    && forall i | |us| <= i < |us'| :: us'[i].address in s
  }

  lemma TouchRecords(c: Cache, a: Address, current: int, v: int)
    requires CacheWF(c)
    ensures RecordsOnly(c.updates, Touch(c, a, current, v).updates, {a})
  {
  }

  lemma RecordsTrans(us: seq<Update>, us': seq<Update>, us'': seq<Update>, s: set<Address>, t: set<Address>)
    requires RecordsOnly(us, us', s) && RecordsOnly(us', us'', t)
    ensures RecordsOnly(us, us'', t + s)
  {
  }

  lemma TouchTracks(c: Cache, a: Address, current: int, v: int, own: set<Address>, closed: set<Address>)
    requires Tracks(c, own, closed) && a !in closed
    ensures Tracks(Touch(c, a, current, v), own + {a}, closed)
  {
    var c' := Touch(c, a, current, v);
    forall b | b in own + {a} && b !in closed ensures IsLast(c'.updates, c'.byAddress[b]) {
      if b in own {
        assert IsLast(c.updates, c.byAddress[b]);
      }
    }
  }

  lemma ImportChains(c: Cache, child: Cache, start: Balances, mid: Balances, end: Balances)
    requires Chains(c.updates, start, mid) && Chains(child.updates, mid, end)
    ensures Chains(Import(c, child).updates, start, end)
  {
    forall a ensures Chain(Import(c, child).updates, a, start(a), end(a)) {
      assert Chain(c.updates, a, start(a), mid(a)) && Chain(child.updates, a, mid(a), end(a));
      ChainConcat(c.updates, child.updates, a, start(a), mid(a), end(a));
    }
  }

  lemma ImportTracks(c: Cache, child: Cache, own: set<Address>, closed: set<Address>, touched: set<Address>)
    requires Tracks(c, own, closed) && RecordsOnly([], child.updates, touched)
    ensures Tracks(Import(c, child), own, closed + own * touched)
    ensures RecordsOnly(c.updates, Import(c, child).updates, touched)
  {
    var us := Import(c, child).updates;
    forall j | |c.updates| <= j < |us| ensures us[j].address in touched {
      assert us[j] == child.updates[j - |c.updates|];
    }
  }

  // ---------- What is kept of a transaction ----------

  function Changed(us: seq<Update>): seq<Update> {
    if |us| == 0 then []
    else
      var u := us[|us| - 1];
      Changed(us[..|us| - 1]) + if u.balanceOld != u.balanceNew then [u] else []
  }

  // kept are the updates at the positions `at`, in order, and these are exactly the ones that change something.
  ghost predicate IsSelection(us: seq<Update>, kept: seq<Update>, at: seq<nat>) {
    && |at| == |kept|
    && (forall i | 0 <= i < |at| :: at[i] < |us| && kept[i] == us[at[i]])
    && (forall i, j | 0 <= i < j < |at| :: at[i] < at[j])
    && forall k | 0 <= k < |us| :: us[k].balanceOld != us[k].balanceNew <==> k in at
  }

  lemma SelectOneMore(us: seq<Update>, kept: seq<Update>, at: seq<nat>, u: Update)
    requires IsSelection(us, kept, at)
    ensures if u.balanceOld != u.balanceNew then IsSelection(us + [u], kept + [u], at + [|us|]) else IsSelection(us + [u], kept, at)
  {
    var us', at' := us + [u], if u.balanceOld != u.balanceNew then at + [|us|] else at;
    assert forall i | 0 <= i < |at| :: at'[i] == at[i];
    forall k | 0 <= k < |us'|
      ensures us'[k].balanceOld != us'[k].balanceNew <==> k in at'
    {
      if k < |us| {
        assert us'[k] == us[k];
        assert k in at' <==> k in at;
      } else {
        assert k !in at;
      }
    }
  }

  lemma {:induction false} ChangedIsSelection(us: seq<Update>) returns (at: seq<nat>)
    ensures IsSelection(us, Changed(us), at)
  {
    at := [];
    if |us| > 0 {
      hide IsSelection;
      var n := |us| - 1;
      at := ChangedIsSelection(us[..n]);
      SelectOneMore(us[..n], Changed(us[..n]), at, us[n]);
      assert us == us[..n] + [us[n]];
      at := at + if us[n].balanceOld != us[n].balanceNew then [n] else [];
      assert us[n].balanceOld == us[n].balanceNew ==> Changed(us) == Changed(us[..n]);
    }
  }

  // kept are exactly the updates of us that change something, in order and as often as they occur.
  ghost predicate AreChanges(us: seq<Update>, kept: seq<Update>) {
    exists at :: IsSelection(us, kept, at)
  }

  lemma {:induction false} ChangedKeepsChain(us: seq<Update>, a: Address, start: int, end: int)
    requires Chain(us, a, start, end)
    ensures Chain(Changed(us), a, start, end)
  {
    if |us| > 0 {
      var n := |us| - 1;
      var u, front := us[n], Changed(us[..n]);
      ChangedKeepsChain(us[..n], a, start, if u.address == a then u.balanceOld else end);
      if u.balanceOld != u.balanceNew {
        assert (front + [u])[..|front|] == front;
      } else {
        assert Changed(us) == front;
      }
    }
  }

  // ---------- The collector of one transaction ----------

  type Frame = nat

  class TxCollector {
    var caches: map<Frame, Cache>      // by call frame
    var applied: seq<Update>           // of the outermost frame, once committed
    var balanceUpdates: seq<Update>    // kept for the block

    ghost predicate Valid()
      reads this
    {
      forall f | f in caches :: CacheWF(caches[f])
    }

    constructor (balanceUpdates: seq<Update>)
      ensures Valid() && caches == map[] && applied == [] && this.balanceUpdates == balanceUpdates
    {
      caches, applied, this.balanceUpdates := map[], [], balanceUpdates;
    }

    ghost function CacheOf(f: Frame): Cache
      reads this
    {
      if f in caches then caches[f] else NO_UPDATES
    }

    method GetOrPutCache(f: Frame) returns (c: Cache)
      modifies this`caches
      ensures c == old(CacheOf(f)) && caches == old(caches)[f := c]
    {
      if f !in caches {
        caches := caches[f := NO_UPDATES];
      }
      c := caches[f];
    }

    method AddContractBalanceUpdate(f: Frame, a: Address, current: int, balance: int)
      requires Valid()
      modifies this`caches
      ensures Valid() && caches == old(caches)[f := Touch(old(CacheOf(f)), a, current, balance)]
    {
      var c := GetOrPutCache(f);
      if a in c.byAddress {
        var i := c.byAddress[a];
        c := c.(updates := c.updates[i := c.updates[i].(balanceNew := balance)]);
      } else {
        c := Cache(c.updates + [Update(a, current, balance)], c.byAddress[a := |c.updates|]);
      }
      caches := caches[f := c];
    }

    method ApplyContractBalanceUpdates(f: Frame, parent: Option<Frame>)
      requires Valid() && parent != Some(f)
      modifies this`caches, this`applied
      ensures Valid()
      ensures parent.None? ==> caches == old(caches) - {f} && applied == old(applied) + old(CacheOf(f)).updates
      ensures parent.Some? ==>
                && caches == (old(caches) - {f})[parent.value := Import(old(CacheOf(parent.value)), old(CacheOf(f)))]
                && applied == old(applied)
    {
      assert forall g :: CacheWF(CacheOf(g));
      var c := GetOrPutCache(f);
      caches := caches - {f};
      if parent.Some? {
        var p := GetOrPutCache(parent.value);
        ImportWF(p, c);
        hide CacheWF;
        caches := caches[parent.value := p.(updates := p.updates + c.updates)];
      } else {
        applied := applied + c.updates;
      }
    }

    method AddTxReceipt(success: bool)
      modifies this`balanceUpdates
      ensures balanceUpdates == old(balanceUpdates) + if success then Changed(applied) else []
      ensures success ==> AreChanges(applied, balanceUpdates[|old(balanceUpdates)|..])
    {
      if success {
        for i := 0 to |applied|
          invariant balanceUpdates == old(balanceUpdates) + Changed(applied[..i])
        {
          assert applied[..i + 1][..i] == applied[..i];
          if applied[i].balanceOld != applied[i].balanceNew {
            balanceUpdates := balanceUpdates + [applied[i]];
          }
        }
        assert applied[..|applied|] == applied;
        ghost var at := ChangedIsSelection(applied);
        assert balanceUpdates[|old(balanceUpdates)|..] == Changed(applied);
      }
    }

    // Runs a frame f of a call tree against the collector; frames from `next` on are still unused.
    method Execute(body: seq<Action>, f: Frame, next: Frame, balances: Balances)
        returns (balances': Balances, next': Frame)
      requires Valid() && f < next && forall g | g in caches :: g < next
      modifies this`caches, this`applied
      ensures applied == old(applied)
      ensures Valid() && next <= next' && forall g | g in caches :: g < next'
      ensures (CacheOf(f), balances') == Run(body, old(CacheOf(f)), balances)
      ensures forall g: Frame | g < next && g != f :: CacheOf(g) == old(CacheOf(g))
      decreases body
    {
      balances', next' := balances, next;
      if |body| == 0 {
        return;
      }
      match body[0] {
        case Set(a, v) =>
          AddContractBalanceUpdate(f, a, balances(a), v);
          balances' := With(balances, a, v);
        case Call(inner, committed) =>
          var callee := next;
          var r;
          r, next' := Execute(inner, callee, callee + 1, balances);
          if committed {
            ApplyContractBalanceUpdates(callee, Some(f));
            balances' := r;
          }
      }
      balances', next' := Execute(body[1..], f, next', balances');
    }

    // A transaction: the outermost frame runs, is committed, and its receipt decides what is kept.
    method RecordTransaction(body: seq<Action>, success: bool, balances: Balances) returns (balances': Balances)
      requires Valid() && caches == map[] && applied == []
      modifies this
      ensures Valid() && |old(balanceUpdates)| <= |balanceUpdates|
      ensures balanceUpdates[..|old(balanceUpdates)|] == old(balanceUpdates)
      ensures !success ==> balanceUpdates == old(balanceUpdates)
      ensures balances' == Run(body, NO_UPDATES, balances).1
      ensures balances' == SetAll(Sets(body), balances)
      ensures success ==> balanceUpdates == old(balanceUpdates) + Changed(Run(body, NO_UPDATES, balances).0.updates)
      ensures success ==> AreChanges(Run(body, NO_UPDATES, balances).0.updates, balanceUpdates[|old(balanceUpdates)|..])
      ensures success && NoReset(body, {}, {}) ==> Chains(balanceUpdates[|old(balanceUpdates)|..], balances, balances')
    {
      var next;
      balances', next := Execute(body, 0, 1, balances);
      ApplyContractBalanceUpdates(0, None);
      AddTxReceipt(success);
      ghost var us := Run(body, NO_UPDATES, balances).0.updates;
      assert applied == [] + us == us;
      TransactionKeeps(body, balances);
      hide Run, Sets, SetAll, Changed, NoReset, Chains, AreChanges;
      if success {
        assert balanceUpdates[|old(balanceUpdates)|..] == Changed(us);
      }
    }
  }

  lemma TransactionKeeps(body: seq<Action>, balances: Balances)
    ensures var (c, balances') := Run(body, NO_UPDATES, balances);
            && balances' == SetAll(Sets(body), balances)
            && AreChanges(c.updates, Changed(c.updates))
            && (NoReset(body, {}, {}) ==> Chains(Changed(c.updates), balances, balances'))
  {
    hide Run, Sets, SetAll, Changed, NoReset, IsSelection;
    var (c, balances') := Run(body, NO_UPDATES, balances);
    RunSets(body, NO_UPDATES, balances);
    var at := ChangedIsSelection(c.updates);
    if NoReset(body, {}, {}) {
      RunChains(body, NO_UPDATES, balances, balances, {}, {});
      forall a ensures Chain(Changed(c.updates), a, balances(a), balances'(a)) {
        assert Chain(c.updates, a, balances(a), balances'(a));
        ChangedKeepsChain(c.updates, a, balances(a), balances'(a));
      }
    }
  }

  // A frame that sets a balance, lets a committed call set it, and sets it again, leaves a gap
  // unless all three values are the same.
  lemma ResetLeavesGap(a: Address, x: int, y: int, z: int, now: Balances)
    ensures var r := Run([Set(a, x), Call([Set(a, y)], true), Set(a, z)], NO_UPDATES, now);
            Chains(r.0.updates, now, r.1) <==> x == y == z
  {
    var inner := [Set(a, y)];
    var body := [Set(a, x), Call(inner, true), Set(a, z)];
    var c1, now1 := Touch(NO_UPDATES, a, now(a), x), With(now, a, x);
    RunSet(a, y, NO_UPDATES, now1);
    var c2, now2 := Import(c1, Touch(NO_UPDATES, a, x, y)), With(now1, a, y);
    assert c2.updates == [Update(a, now(a), x), Update(a, x, y)];
    RunSet(a, z, c2, now2);
    assert body[1..] == [Call(inner, true), Set(a, z)] && body[1..][1..] == [Set(a, z)];
    assert Run(body[1..], c1, now1) == Run([Set(a, z)], c2, now2);
    assert Run(body, NO_UPDATES, now) == (Touch(c2, a, y, z), With(now2, a, z));
    assert Chains([], now, now) && Chains([], now1, now1);
    TouchKeepsChains(NO_UPDATES, a, x, now, now);
    TouchKeepsChains(NO_UPDATES, a, y, now1, now1);
    ImportChains(c1, Touch(NO_UPDATES, a, x, y), now, now1, now2);
    TouchKeepsChains(c2, a, z, now, now2);
    assert !IsLast(c2.updates, 0) by {
      assert c2.updates[1].address == c2.updates[0].address;
    }
  }

  lemma RunSet(a: Address, v: int, c: Cache, now: Balances)
    requires CacheWF(c)
    ensures Run([Set(a, v)], c, now) == (Touch(c, a, now(a), v), With(now, a, v))
  {
    assert [Set(a, v)][1..] == [];
  }
}
