/** Small shared datatypes. */
module Prelude {

  /** A nullable column or an optional value. */
  datatype Option<+T> = None | Some(value: T)

  /** The outcome of Go code that returns `(value, error)`. */
  datatype Result<+T, +E> = Ok(value: T) | Err(error: E)

  lemma SubsetSize<T>(a: set<T>, b: set<T>)
    requires a <= b
    ensures |a| <= |b|
  {
    assert a + (b - a) == b;
  }

  /** An injective map has as many values as keys. */
  lemma {:induction false} InjectiveImageSize<T>(m: map<nat, T>, ids: set<nat>)
    requires ids <= m.Keys
    requires forall i, j :: i in ids && j in ids && i != j ==> m[i] != m[j]
    ensures |set i | i in ids :: m[i]| == |ids|
  {
    if ids != {} {
      var i :| i in ids;
      InjectiveImageSize(m, ids - {i});
      assert (set j | j in ids :: m[j]) == (set j | j in ids - {i} :: m[j]) + {m[i]};
    }
  }
}
