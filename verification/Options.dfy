/** Small shared vocabulary. */
module Options {
  datatype Option<+T> = None | Some(value: T)

  /** Python truthiness of an optional text: absent and empty both count as missing. */
  predicate Has(t: Option<string>) { t.Some? && t.value != "" }

  function OrEmpty(t: Option<string>): string { if t.Some? then t.value else "" }

  lemma SubsetSize<T>(a: set<T>, b: set<T>)
    requires a <= b
    ensures |a| <= |b|
    ensures |a| == |b| ==> a == b
  {
    assert b == a + (b - a);
  }
}
