/**
 The contract transactions waiting in the mempool, by sender and contract, and back from the hash.
 */
module ContractTxs {
  import opened Common

  datatype Tx = Tx(hash: string, sender: string)

  function LowerChar(c: char): char {
    if 'A' <= c <= 'Z' then c - 'A' + 'a' else c
  }

  function Lower(s: string): string {
    seq(|s|, i requires 0 <= i < |s| => LowerChar(s[i]))
  }

  lemma LowerTwice(s: string)
    ensures Lower(Lower(s)) == Lower(s)
  {}

  predicate HasNoUpperCase(s: string) {
    forall i | 0 <= i < |s| :: !('A' <= s[i] <= 'Z')
  }

  // The same text, except that letters may differ in case.
  predicate IsSameText(s: string, t: string) {
    |s| == |t| && forall i | 0 <= i < |s| :: IsSameChar(s[i], t[i])
  }

  predicate IsSameChar(c: char, d: char) {
    c == d || ('A' <= c <= 'Z' && d as int == c as int + 32) || ('A' <= d <= 'Z' && c as int == d as int + 32)
  }

  lemma LowerChars(c: char, d: char)
    ensures LowerChar(c) == LowerChar(d) <==> IsSameChar(c, d)
    ensures LowerChar(c) == c <==> !('A' <= c <= 'Z')
  {}

  // Two texts are the same in lower case exactly if they differ only in case, and a text is in lower case
  // exactly if it has no upper-case letter.
  lemma LowerExactly(s: string, t: string)
    ensures Lower(s) == Lower(t) <==> IsSameText(s, t)
    ensures Lower(s) == s <==> HasNoUpperCase(s)
  {
    hide LowerChar, IsSameChar;
    forall i | 0 <= i < |s| && |s| == |t|
      ensures Lower(s)[i] == Lower(t)[i] <==> IsSameChar(s[i], t[i])
    {
      LowerChars(s[i], t[i]);
    }
    forall i | 0 <= i < |s|
      ensures Lower(s)[i] == s[i] <==> !('A' <= s[i] <= 'Z')
    {
      LowerChars(s[i], s[i]);
    }
    if IsSameText(s, t) {
      assert Lower(s) == Lower(t);
    }
    if Lower(s) == Lower(t) {
      assert |Lower(s)| == |s| && |Lower(t)| == |t|;
      assert forall i | 0 <= i < |s| :: Lower(s)[i] == Lower(t)[i];
    }
    if HasNoUpperCase(s) {
      assert Lower(s) == s;
    }
    if Lower(s) == s {
      assert forall i | 0 <= i < |s| :: Lower(s)[i] == s[i];
    }
  }

  // ---------- The index as a value ----------

  // Sender, then contract, then hash.
  type Buckets<K(==), V> = map<K, map<K, map<K, V>>>
  type Index = Buckets<string, Tx>

  function At<K(==), V>(m: Buckets<K, V>, sender: K, contract: K): map<K, V> {
    if sender in m && contract in m[sender] then m[sender][contract] else map[]
  }

  function With<K(==), V>(m: Buckets<K, V>, sender: K, contract: K, hash: K, tx: V): Buckets<K, V> {
    var byContract := if sender in m then m[sender] else map[];
    m[sender := byContract[contract := At(m, sender, contract)[hash := tx]]]
  }

  ghost function Without<K, V>(m: Buckets<K, V>, sender: K, contract: K, hash: K): Buckets<K, V> {
    if sender !in m || contract !in m[sender] then m
    else
      var txs := m[sender][contract] - {hash};
      var byContract := if txs == map[] then m[sender] - {contract} else m[sender][contract := txs];
      if byContract == map[] then m - {sender} else m[sender := byContract]
  }

  ghost predicate HasNoEmpty<K, V>(m: Buckets<K, V>) {
    && (forall s | s in m :: m[s] != map[])
    && forall s, c | s in m && c in m[s] :: m[s][c] != map[]
  }

  // What was added last with a hash, and for which contract; it belongs under the keys of its sender and contract.
  datatype Place = Place(contract: string, tx: Tx) {
    predicate IsAt(s: string, c: string) {
      Lower(tx.sender) == s && Lower(contract) == c
    }
  }

  type Places = map<string, Place>

  // A hash is stored under its sender and its contract, and nowhere else, with the transaction added last;
  // the reverse map knows the same hashes and their contracts; and no map inside the index is empty.
  ghost predicate Agrees(m: Index, reverse: map<string, string>, places: Places) {
    && reverse.Keys == places.Keys
    && (forall h | h in places :: Lower(h) == h && reverse[h] == places[h].contract)
    && (forall s: string, c: string, h: string :: h in At(m, s, c) <==> h in places && places[h].IsAt(s, c))
    && (forall s: string, c: string, h: string | h in At(m, s, c) :: At(m, s, c)[h] == places[h].tx)
    && HasNoEmpty(m)
  }

  lemma WithIs<K, V>(m: Buckets<K, V>, s: K, c: K, h: K, tx: V)
    requires HasNoEmpty(m)
    ensures HasNoEmpty(With(m, s, c, h, tx))
    ensures forall s', c' :: At(With(m, s, c, h, tx), s', c') ==
              if s' == s && c' == c then At(m, s, c)[h := tx] else At(m, s', c')
  {
    var m' := With(m, s, c, h, tx);
    assert h in m'[s][c];
    assert c in m'[s];
  }

  lemma WithoutIs<K, V>(m: Buckets<K, V>, s: K, c: K, h: K)
    requires HasNoEmpty(m)
    ensures HasNoEmpty(Without(m, s, c, h))
    ensures forall s', c' :: At(Without(m, s, c, h), s', c') ==
              if s' == s && c' == c then At(m, s, c) - {h} else At(m, s', c')
  {
    if s in m && c in m[s] {
      var txs := m[s][c] - {h};
      if txs == map[] {
        assert forall c' :: c' in m[s] && c' != c ==> c' in m[s] - {c};
      }
    }
  }

  // Adding keeps the two maps in agreement exactly when the hash is written in lower case and was not
  // known at another place.
  lemma AddKeepsAgreement(m: Index, reverse: map<string, string>, places: Places, tx: Tx, contract: string)
    requires Agrees(m, reverse, places)
    ensures
      var s, h := Lower(tx.sender), Lower(tx.hash);
      Agrees(With(m, s, Lower(contract), tx.hash, tx), reverse[h := contract], places[h := Place(contract, tx)]) <==>
      tx.hash == h && (h in places ==> places[h].IsAt(s, Lower(contract)))
  {
    hide With, At, HasNoEmpty, Lower;
    var s, c, h := Lower(tx.sender), Lower(contract), Lower(tx.hash);
    var m', places' := With(m, s, c, tx.hash, tx), places[h := Place(contract, tx)];
    WithIs(m, s, c, tx.hash, tx);
    LowerTwice(tx.hash);
    if tx.hash != h {
      assert tx.hash in At(m', s, c) && tx.hash !in places';
    } else if h in places && !places[h].IsAt(s, c) {
      assert places[h].IsAt(Lower(places[h].tx.sender), Lower(places[h].contract));
      assert h in At(m', Lower(places[h].tx.sender), Lower(places[h].contract)) && places'[h].IsAt(s, c);
    } else {
      assert places'[h].IsAt(s, c);
    }
  }

  // Removing a known hash keeps the agreement exactly when its own sender is named; otherwise the
  // transaction stays in the index, and nothing leads to it any more.
  lemma RemoveKeepsAgreement(m: Index, reverse: map<string, string>, places: Places, h: string, s: string)
    requires Agrees(m, reverse, places) && h in places
    ensures Agrees(Without(m, s, Lower(reverse[h]), h), reverse - {h}, places - {h}) <==> s == Lower(places[h].tx.sender)
  {
    hide Without, HasNoEmpty, Lower, At;
    var c := Lower(reverse[h]);
    WithoutIs(m, s, c, h);
    if s != Lower(places[h].tx.sender) {
      assert h in At(m, Lower(places[h].tx.sender), c);
      assert h in At(Without(m, s, c, h), Lower(places[h].tx.sender), c);
    }
  }

  // ---------- The index ----------

  class AddressContractTxs {
    var txsByAddressAndContract: Index
    var contractAddressesByTxHash: map<string, string>
    ghost var places: Places

    ghost predicate Valid()
      reads this
    {
      Agrees(txsByAddressAndContract, contractAddressesByTxHash, places)
    }

    constructor ()
      ensures Valid() && places == map[]
    {
      txsByAddressAndContract, contractAddressesByTxHash, places := map[], map[], map[];
    }

    method Add(tx: Tx, contractAddress: string)
      requires Valid()
      modifies this
      ensures places == old(places)[Lower(tx.hash) := Place(contractAddress, tx)]
      ensures Valid() <==>
                HasNoUpperCase(tx.hash) &&
                (tx.hash in old(places) ==>
                   IsSameText(old(places)[tx.hash].tx.sender, tx.sender) && IsSameText(old(places)[tx.hash].contract, contractAddress))
      ensures txsByAddressAndContract ==
              With(old(txsByAddressAndContract), Lower(tx.sender), Lower(contractAddress), tx.hash, tx)
      ensures contractAddressesByTxHash == old(contractAddressesByTxHash)[Lower(tx.hash) := contractAddress]
    {
      AddKeepsAgreement(txsByAddressAndContract, contractAddressesByTxHash, places, tx, contractAddress);
      LowerExactly(tx.hash, tx.hash);
      if tx.hash in places {
        LowerExactly(places[tx.hash].tx.sender, tx.sender);
        LowerExactly(places[tx.hash].contract, contractAddress);
      }
      hide Agrees, Lower, HasNoUpperCase, IsSameText;
      var s, c := Lower(tx.sender), Lower(contractAddress);
      places := places[Lower(tx.hash) := Place(contractAddress, tx)];
      contractAddressesByTxHash := contractAddressesByTxHash[Lower(tx.hash) := contractAddress];
      var byContract := if s in txsByAddressAndContract then txsByAddressAndContract[s] else map[];
      var txs := if c in byContract then byContract[c] else map[];
      txsByAddressAndContract := txsByAddressAndContract[s := byContract[c := txs[tx.hash := tx]]];
    }

    method Remove(txHash: string, sender: string)
      requires Valid()
      modifies this
      ensures places == old(places) - {Lower(txHash)}
      ensures contractAddressesByTxHash == old(contractAddressesByTxHash) - {Lower(txHash)}
      ensures txsByAddressAndContract ==
              if Lower(txHash) !in old(contractAddressesByTxHash) then old(txsByAddressAndContract)
              else Without(old(txsByAddressAndContract), Lower(sender), Lower(old(contractAddressesByTxHash)[Lower(txHash)]), Lower(txHash))
      ensures Valid() <==> (Lower(txHash) in old(places) ==> IsSameText(old(places)[Lower(txHash)].tx.sender, sender))
    {
      var h, s := Lower(txHash), Lower(sender);
      if h !in contractAddressesByTxHash {
        assert places - {h} == places && contractAddressesByTxHash - {h} == contractAddressesByTxHash;
        return;
      }
      LowerExactly(places[h].tx.sender, sender);
      RemoveKeepsAgreement(txsByAddressAndContract, contractAddressesByTxHash, places, h, s);
      hide Agrees, Lower, IsSameText;
      var c := Lower(contractAddressesByTxHash[h]);
      places := places - {h};
      contractAddressesByTxHash := contractAddressesByTxHash - {h};
      if s !in txsByAddressAndContract || c !in txsByAddressAndContract[s] {
        return;
      }
      var txs := txsByAddressAndContract[s][c] - {h};
      var byContract := txsByAddressAndContract[s];
      byContract := if txs == map[] then byContract - {c} else byContract[c := txs];
      txsByAddressAndContract :=
        if byContract == map[] then txsByAddressAndContract - {s} else txsByAddressAndContract[s := byContract];
    }

    // Exactly the transactions whose place it is, if the maps agree.
    method Get(address: string, contractAddress: string) returns (res: map<string, Tx>)
      ensures res == At(txsByAddressAndContract, Lower(address), Lower(contractAddress))
      ensures Valid() ==> forall h: string ::
                && (h in res <==>
                      && h in contractAddressesByTxHash
                      && IsSameText(places[h].tx.sender, address) && IsSameText(places[h].contract, contractAddress))
                && (h in res ==> res[h] == places[h].tx)
    {
      var s, c := Lower(address), Lower(contractAddress);
      forall text: string
        ensures Lower(text) == s <==> IsSameText(text, address)
        ensures Lower(text) == c <==> IsSameText(text, contractAddress)
      {
        LowerExactly(text, address);
        LowerExactly(text, contractAddress);
      }
      hide Lower, IsSameText;
      if s !in txsByAddressAndContract || c !in txsByAddressAndContract[s] {
        return map[];
      }
      res := txsByAddressAndContract[s][c];
    }
  }

  datatype Op = Add(tx: Tx, contract: string) | Remove(hash: string, sender: string)

  // Where the hashes added and not removed since belong, and what was added last with each.
  function PlacesAfter(ops: seq<Op>): Places {
    if |ops| == 0 then map[]
    else
      var places := PlacesAfter(ops[..|ops| - 1]);
      match ops[|ops| - 1]
      case Add(tx, contract) => places[Lower(tx.hash) := Place(contract, tx)]
      case Remove(hash, sender) => places - {Lower(hash)}
  }

  // The hash of an operation determines its sender and its contract, as `place` gives them.
  ghost predicate Fits(op: Op, place: string -> (string, string)) {
    match op
    case Add(tx, contract) => Lower(tx.hash) == tx.hash && place(tx.hash) == (Lower(tx.sender), Lower(contract))
    case Remove(hash, sender) => place(Lower(hash)).0 == Lower(sender)
  }

  lemma {:induction false} PlacesAreDetermined(ops: seq<Op>, place: string -> (string, string))
    requires forall op | op in ops :: Fits(op, place)
    ensures forall h | h in PlacesAfter(ops) :: PlacesAfter(ops)[h].IsAt(place(h).0, place(h).1)
  {
    hide Lower;
    if |ops| > 0 {
      assert ops[|ops| - 1] in ops;
      PlacesAreDetermined(ops[..|ops| - 1], place);
    }
  }

  method Run(ops: seq<Op>, ghost place: string -> (string, string)) returns (txs: AddressContractTxs)
    requires forall op | op in ops :: Fits(op, place)
    ensures txs.Valid() && txs.places == PlacesAfter(ops)
  {
    hide Lower, Agrees, HasNoUpperCase, IsSameText;
    txs := new AddressContractTxs();
    for i := 0 to |ops|
      invariant txs.Valid() && txs.places == PlacesAfter(ops[..i]) && fresh(txs)
    {
      assert ops[..i + 1][..i] == ops[..i];
      PlacesAreDetermined(ops[..i], place);
      assert Fits(ops[i], place);
      match ops[i]
      case Add(tx, contract) =>
        LowerExactly(tx.hash, tx.hash);
        if tx.hash in txs.places {
          LowerExactly(txs.places[tx.hash].tx.sender, tx.sender);
          LowerExactly(txs.places[tx.hash].contract, contract);
        }
        txs.Add(tx, contract);
      case Remove(hash, sender) =>
        if Lower(hash) in txs.places {
          LowerExactly(txs.places[Lower(hash)].tx.sender, sender);
        }
        txs.Remove(hash, sender);
    }
    assert ops[..|ops|] == ops;
  }
}
