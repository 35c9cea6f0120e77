/** Where a text stands in another. */
module Finding {
  import opened Wrappers

  predicate StandsAt(text: string, quote: string, i: int) {
    0 <= i && i + |quote| <= |text| && text[i..i + |quote|] == quote
  }

  /** `text.find(quote)`, from position `from` on. */
  function FirstIndex(text: string, quote: string, from: nat): (i: Option<nat>)
    ensures i.Some? ==> from <= i.value && StandsAt(text, quote, i.value)
    ensures i.Some? ==> forall k :: from <= k < i.value ==> !StandsAt(text, quote, k)
    ensures i.None? ==> forall k :: from <= k ==> !StandsAt(text, quote, k)
    decreases |text| - from
  {
    if from + |quote| > |text| then None
    else if text[from..from + |quote|] == quote then Some(from)
    else FirstIndex(text, quote, from + 1)
  }
}
