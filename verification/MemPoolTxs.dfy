/**
 The transactions waiting in the mempool, by hash and by address.
 */
module MemPoolTxs {
  import opened Common

  datatype Tx = Tx(hash: Hash, sender: Address, to: Option<Address>)

  predicate Names(tx: Tx, a: Address) {
    a == tx.sender || tx.to == Some(a)
  }

  // ---------- The index as a value ----------

  type Buckets = map<Address, map<Hash, Tx>>

  function Bucket(m: Buckets, a: Address): map<Hash, Tx> {
    if a in m then m[a] else map[]
  }

  function With(m: Buckets, a: Address, tx: Tx): Buckets {
    m[a := Bucket(m, a)[tx.hash := tx]]
  }

  function Without(m: Buckets, a: Address, h: Hash): Buckets {
    if a !in m then m else if m[a] - {h} == map[] then m - {a} else m[a := m[a] - {h}]
  }

  function Added(m: Buckets, tx: Tx): Buckets {
    var m := With(m, tx.sender, tx);
    if tx.to.Some? then With(m, tx.to.value, tx) else m
  }

  function Removed(m: Buckets, tx: Tx): Buckets {
    var m := Without(m, tx.sender, tx.hash);
    if tx.to.Some? then Without(m, tx.to.value, tx.hash) else m
  }

  // A transaction is in an address's bucket exactly when the pool holds it and it names the address,
  // and no bucket is empty.
  ghost predicate Consistent(pool: map<Hash, Tx>, m: Buckets) {
    && (forall h | h in pool :: pool[h].hash == h)
    && (forall a | a in m :: m[a] != map[])
    && (forall a: Address, h: Hash :: h in Bucket(m, a) <==> h in pool && Names(pool[h], a))
    && forall a: Address, h: Hash | h in Bucket(m, a) :: Bucket(m, a)[h] == pool[h]
  }

  // A hash determines its transaction.
  ghost predicate Fits(pool: map<Hash, Tx>, tx: Tx) {
    tx.hash in pool ==> pool[tx.hash] == tx
  }

  lemma AddKeepsConsistent(pool: map<Hash, Tx>, m: Buckets, tx: Tx)
    requires Consistent(pool, m) && Fits(pool, tx)
    ensures Consistent(pool[tx.hash := tx], Added(m, tx))
  {
    forall a: Address
      ensures Bucket(Added(m, tx), a) == if Names(tx, a) then Bucket(m, a)[tx.hash := tx] else Bucket(m, a)
    {}
    forall a | a in Added(m, tx)
      ensures Added(m, tx)[a] != map[]
    {
      assert Names(tx, a) ==> tx.hash in Bucket(Added(m, tx), a);
      assert !Names(tx, a) ==> a in m;
    }
  }

  lemma RemoveKeepsConsistent(pool: map<Hash, Tx>, m: Buckets, tx: Tx)
    requires Consistent(pool, m) && tx.hash in pool && Fits(pool, tx)
    ensures Consistent(pool - {tx.hash}, Removed(m, tx))
  {
    forall a: Address
      ensures Bucket(Removed(m, tx), a) == if Names(tx, a) then Bucket(m, a) - {tx.hash} else Bucket(m, a)
    {}
  }

  // ---------- The pool ----------

  class TxsByHash {
    var txs: map<Hash, Tx>

    constructor ()
      ensures txs == map[]
    {
      txs := map[];
    }

    method Add(tx: Tx)
      modifies this
      ensures txs == old(txs)[tx.hash := tx]
    {
      txs := txs[tx.hash := tx];
    }

    method Remove(hash: Hash)
      modifies this
      ensures txs == old(txs) - {hash}
    {
      txs := txs - {hash};
    }

    method IsEmpty() returns (isEmpty: bool)
      ensures isEmpty <==> txs == map[]
    {
      isEmpty := |txs| == 0;
    }

    // As many transactions as asked for, or all there are, each of them once.
    method All(count: int) returns (res: seq<Tx>)
      requires forall h | h in txs :: txs[h].hash == h
      ensures |res| == if count <= 0 then 0 else if count < |txs| then count else |txs|
      ensures NoDup(res) && forall tx | tx in res :: tx.hash in txs && txs[tx.hash] == tx
      ensures |res| < count ==> forall h | h in txs :: txs[h] in res
    {
      res := [];
      if count <= 0 {
        return;
      }
      var size := if count < |txs| then count else |txs|;
      var rest := txs.Keys;
      while |res| < size
        invariant |res| <= size && |rest| == |txs.Keys| - |res| && rest <= txs.Keys
        invariant NoDup(res) && forall tx | tx in res :: tx.hash in txs && tx.hash !in rest && txs[tx.hash] == tx
        invariant forall h | h in txs && h !in rest :: txs[h] in res
        decreases size - |res|
      {
        var hash :| hash in rest;
        rest := rest - {hash};
        res := res + [txs[hash]];
      }
    }
  }

  class MemPool {
    const byHash: TxsByHash
    var byAddress: map<Address, TxsByHash>

    // Each address has its own bucket.
    ghost predicate Separate()
      reads this
    {
      && (forall a | a in byAddress :: byAddress[a] != byHash)
      && forall a, b | a in byAddress && b in byAddress && a != b :: byAddress[a] != byAddress[b]
    }

    ghost function Contents(): Buckets
      reads this, byAddress.Values
    {
      map a | a in byAddress :: byAddress[a].txs
    }

    ghost predicate Valid()
      reads this, byAddress.Values, byHash
    {
      Separate() && Consistent(byHash.txs, Contents())
    }

    constructor ()
      ensures Valid() && byHash.txs == map[] && byAddress == map[]
      ensures fresh(byHash)
    {
      byHash := new TxsByHash();
      byAddress := map[];
    }

    method AddAddressTx(a: Address, tx: Tx)
      requires Separate()
      modifies this`byAddress, byAddress.Values
      ensures Separate() && fresh(byAddress.Values - old(byAddress.Values))
      ensures Contents() == With(old(Contents()), a, tx)
    {
      if a in byAddress {
        byAddress[a].Add(tx);
      } else {
        var txs := new TxsByHash();
        txs.Add(tx);
        byAddress := byAddress[a := txs];
      }
    }

    method RemoveByAddressAndHash(a: Address, hash: Hash)
      requires Separate()
      modifies this`byAddress, byAddress.Values
      ensures Separate() && byAddress.Values <= old(byAddress.Values)
      ensures Contents() == Without(old(Contents()), a, hash)
    {
      if a !in byAddress {
        return;
      }
      byAddress[a].Remove(hash);
      ghost var shrunk := old(Contents())[a] - {hash};
      assert Contents() == old(Contents())[a := shrunk];
      var isEmpty := byAddress[a].IsEmpty();
      if isEmpty {
        byAddress := byAddress - {a};
        assert Contents() == old(Contents()) - {a};
      }
    }

    // Adding a transaction again, or one whose recipient is its sender, changes nothing else.
    method AddTransaction(tx: Tx)
      requires Valid() && Fits(byHash.txs, tx)
      modifies this`byAddress, byAddress.Values, byHash
      ensures Valid() && fresh(byAddress.Values - old(byAddress.Values))
      ensures byHash.txs == old(byHash.txs)[tx.hash := tx]
    {
      hide Consistent, With;
      AddKeepsConsistent(byHash.txs, Contents(), tx);
      byHash.Add(tx);
      AddAddressTx(tx.sender, tx);
      if tx.to.Some? {
        AddAddressTx(tx.to.value, tx);
      }
    }

    method RemoveTransaction(tx: Tx)
      requires Valid() && Fits(byHash.txs, tx)
      modifies this`byAddress, byAddress.Values, byHash
      ensures Valid() && byAddress.Values <= old(byAddress.Values)
      ensures byHash.txs == old(byHash.txs) - {tx.hash}
    {
      hide Consistent, Without;
      if tx.hash !in byHash.txs {
        return;
      }
      RemoveKeepsConsistent(byHash.txs, Contents(), tx);
      byHash.Remove(tx.hash);
      RemoveByAddressAndHash(tx.sender, tx.hash);
      if tx.to.Some? {
        RemoveByAddressAndHash(tx.to.value, tx.hash);
      }
    }

    // The transactions of the pool that name the address, each once, as many as asked for.
    method GetAddressTransactions(a: Address, count: int) returns (res: seq<Tx>)
      requires Valid()
      ensures NoDup(res) && forall tx | tx in res :: tx in byHash.txs.Values && (tx.sender == a || tx.to == Some(a))
      ensures |res| <= if count <= 0 then 0 else count
      ensures |res| < count ==>
                forall h | h in byHash.txs && (byHash.txs[h].sender == a || byHash.txs[h].to == Some(a)) :: byHash.txs[h] in res
    {
      assert forall h: Hash :: h in Bucket(Contents(), a) <==> h in byHash.txs && Names(byHash.txs[h], a);
      if a !in byAddress {
        return [];
      }
      assert byAddress[a].txs == Bucket(Contents(), a);
      res := byAddress[a].All(count);
    }
  }

  datatype Op = Add(tx: Tx) | Remove(tx: Tx)

  // The transactions added and not removed since.
  function Pool(ops: seq<Op>): map<Hash, Tx> {
    if |ops| == 0 then map[]
    else
      var op, pool := ops[|ops| - 1], Pool(ops[..|ops| - 1]);
      if op.Add? then pool[op.tx.hash := op.tx] else pool - {op.tx.hash}
  }

  lemma {:induction false} PoolIsMade(ops: seq<Op>, h: Hash)
    requires h in Pool(ops)
    ensures Pool(ops)[h].hash == h && exists op :: op in ops && op.tx == Pool(ops)[h]
  {
    var op := ops[|ops| - 1];
    if op.tx.hash != h {
      PoolIsMade(ops[..|ops| - 1], h);
    }
  }

  // Whatever is added and removed, in whatever order, the pool stays consistent, provided that a hash
  // determines its transaction.
  method Run(ops: seq<Op>) returns (pool: MemPool)
    requires forall o, p | o in ops && p in ops && o.tx.hash == p.tx.hash :: o.tx == p.tx
    ensures pool.Valid() && pool.byHash.txs == Pool(ops)
  {
    pool := new MemPool();
    for i := 0 to |ops|
      invariant pool.Valid() && pool.byHash.txs == Pool(ops[..i])
      invariant fresh(pool) && fresh(pool.byHash) && fresh(pool.byAddress.Values)
    {
      assert ops[..i + 1][..i] == ops[..i];
      if ops[i].tx.hash in pool.byHash.txs {
        PoolIsMade(ops[..i], ops[i].tx.hash);
      }
      match ops[i]
      case Add(tx) => pool.AddTransaction(tx);
      case Remove(tx) => pool.RemoveTransaction(tx);
    }
    assert ops[..|ops|] == ops;
  }
}
