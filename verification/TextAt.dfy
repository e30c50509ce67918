/** A token standing at a place in a text. */
module TextAt {
  import opened Options

  predicate HasAt(text: string, at: nat, token: string) {
    at + |token| <= |text| && forall k :: at <= k < at + |token| ==> text[k] == token[k - at]
  }

  lemma HeadAt(text: string, at: nat, head: string, rest: string)
    requires HasAt(text, at, head + rest)
    ensures HasAt(text, at, head) && HasAt(text, at + |head|, rest)
  {}

  /** The first occurrence of `token` at or after `from`. */
  function Find(text: string, from: nat, token: string): (at: Option<nat>)
    ensures at.Some? ==> from <= at.value && HasAt(text, at.value, token)
    ensures at.Some? ==> forall k :: from <= k < at.value ==> !HasAt(text, k, token)
    ensures at.None? ==> forall k :: from <= k ==> !HasAt(text, k, token)
    decreases |text| - from
  {
    if from + |token| > |text| then None
    else if HasAt(text, from, token) then Some(from)
    else Find(text, from + 1, token)
  }
}
