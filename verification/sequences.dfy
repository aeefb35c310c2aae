/** First-occurrence search, shared by the resource lookup of the role
    wizard and the effect ordering of the group dialog. */
module Sequences {
  import opened Options

  /** The position of the first element equal to `x` (JavaScript's
      `indexOf`, with absence as `None` instead of -1). */
  function FirstIndexOf<T(==)>(s: seq<T>, x: T): (r: Option<nat>)
    ensures r.Some? ==>
      r.value < |s| && s[r.value] == x && forall j :: 0 <= j < r.value ==> s[j] != x
    ensures r.None? <==> x !in s
  {
    if |s| == 0 then None
    else if s[0] == x then Some(0)
    else
      match FirstIndexOf(s[1..], x)
      case None => None
      case Some(k) => Some(k + 1)
  }
}
