/**
  The binary search of Go's sort package over a nondecreasing list of keys,
  as the reader uses it: the first key above a bound.
 */
module SortSearch {

  predicate Nondecreasing(keys: seq<int>) {
    forall i, j :: 0 <= i <= j < |keys| ==> keys[i] <= keys[j]
  }

  // How many leading keys do not exceed the bound.
  function CountUpTo(keys: seq<int>, bound: int): (n: nat)
    ensures n <= |keys|
    ensures forall i :: 0 <= i < n ==> keys[i] <= bound
    ensures n < |keys| ==> keys[n] > bound
  {
    if keys == [] || keys[0] > bound then 0 else 1 + CountUpTo(keys[1..], bound)
  }

  // sort.Search(len(keys), func(i) bool { return keys[i] > bound })
  method Search(keys: seq<int>, bound: int) returns (i: nat)
    requires Nondecreasing(keys)
    ensures i == CountUpTo(keys, bound)
    ensures i <= |keys|
    ensures forall k :: 0 <= k < i ==> keys[k] <= bound
    ensures forall k :: i <= k < |keys| ==> keys[k] > bound
  {
    i := 0;
    var j := |keys|;
    while i < j
      invariant i <= j <= |keys|
      invariant forall k :: 0 <= k < i ==> keys[k] <= bound
      invariant forall k :: j <= k < |keys| ==> keys[k] > bound
    {
      var h := (i + j) / 2;
      if !(keys[h] > bound) {
        i := h + 1;
      } else {
        j := h;
      }
    }
    CountIs(keys, bound, i);
  }

  lemma {:induction false} CountIs(keys: seq<int>, bound: int, n: nat)
    requires n <= |keys| && forall k :: 0 <= k < n ==> keys[k] <= bound
    requires n < |keys| ==> keys[n] > bound
    ensures CountUpTo(keys, bound) == n
  {
  }
}
