/** What several models share. */
module Common {
  datatype Option<+T> = None | Some(value: T)

  /** A value, or the HTTP status of a refusal. */
  datatype Result<+T> = Ok(value: T) | Fail(status: nat)

  /** White space in the sense of `strings.TrimSpace`. */
  predicate IsSpace(c: char) {
    || c in {'\t', '\n', '\U{000B}', '\U{000C}', '\r', ' ', '\U{0085}', '\U{00A0}', '\U{1680}'}
    || '\U{2000}' <= c <= '\U{200A}'
    || c in {'\U{2028}', '\U{2029}', '\U{202F}', '\U{205F}', '\U{3000}'}
  }

  lemma SubsetSize<T>(a: set<T>, b: set<T>)
    requires a <= b
    ensures |a| <= |b|
  {
    assert b == a + (b - a);
  }
}
