/** Types shared by the models of the indexer's parts. */
module Common {
  datatype Option<+T> = None | Some(value: T)

  // 20-byte account addresses and 32-byte hashes, as numbers.
  type Address = nat
  type Hash = nat

  ghost predicate NoDup<T>(s: seq<T>) {
    forall i, j | 0 <= i < j < |s| :: s[i] != s[j]
  }
}
