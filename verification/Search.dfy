/** Linear search, the one way the sources look anything up. */
module Search {
  /** Position of the first element with the property, or the length of the sequence. */
  function First<T>(xs: seq<T>, has: T -> bool): (k: nat)
    ensures k <= |xs|
    ensures k < |xs| ==> has(xs[k])
    ensures forall j :: 0 <= j < k ==> !has(xs[j])
  {
    if xs == [] || has(xs[0]) then 0 else 1 + First(xs[1..], has)
  }
}
