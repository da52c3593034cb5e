/**
 What several parts of the model share.
 */
module Common {

  datatype Option<T> = None | Some(value: T)

  lemma MulMonotone(p: nat, q: nat, b: nat)
    requires p <= q
    ensures p * b <= q * b
  {
  }
}
