/** Keys in increasing order, and where a key belongs among them. */
module KeyOrder {

  predicate Increasing(keys: seq<int>)
  {
    forall i, j :: 0 <= i < j < |keys| ==> keys[i] < keys[j]
  }

  /** `std::lower_bound` from position `from` on: the first key that is not below `key`. */
  function LowerBound(keys: seq<int>, key: int, from: nat): (lb: nat)
    requires from <= |keys|
    ensures from <= lb <= |keys|
    ensures forall i :: from <= i < lb ==> keys[i] < key
    ensures lb < |keys| ==> keys[lb] >= key
    decreases |keys| - from
  {
    if from == |keys| || keys[from] >= key then from else LowerBound(keys, key, from + 1)
  }
}
