// Small shared vocabulary: optional values and string prefixes.
module Prelude {
  datatype Option<+T> = None | Some(value: T)

  // Python's str.startswith.
  predicate StartsWith(s: string, prefix: string) {
    prefix <= s
  }

  // Position of the first element with the property; the length when there is none.
  function FirstIndex<T>(xs: seq<T>, p: T -> bool): (i: nat)
    ensures i <= |xs| && (i < |xs| ==> p(xs[i]))
    ensures forall j :: 0 <= j < i ==> !p(xs[j])
  {
    if xs == [] || p(xs[0]) then 0 else 1 + FirstIndex(xs[1..], p)
  }

  function Max(x: int, y: int): int {
    if x < y then y else x
  }
}
