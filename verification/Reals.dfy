/** Products of reals behind a name, with the few facts about them that the proofs use. */
module Reals {

  function Times(a: real, b: real): real {
    a * b
  }

  lemma TimesOrder(d: real, v: real, w: real)
    requires 0.0 <= d && v <= w
    ensures Times(v, d) <= Times(w, d)
  {
  }

}
