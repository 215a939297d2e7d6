// Comparisons at protocol boundaries (src/mech_int_vla/causal.py, _strictly_greater;
// math.isclose).
module Numbers {

  function Abs(x: real): real {
    if x < 0.0 then -x else x
  }

  function Max(x: real, y: real): real {
    if x < y then y else x
  }

  const TINY := 0.000000000001

  // math.isclose with both tolerances at 1e-12
  predicate Close(a: real, b: real) {
    Abs(a - b) <= Max(TINY * Max(Abs(a), Abs(b)), TINY)
  }

  predicate StrictlyGreater(a: real, b: real) {
    a > b && !Close(a, b)
  }

  // math.isclose with the default relative tolerance and an absolute one of 1e-12
  predicate CloseTo(a: real, b: real) {
    Abs(a - b) <= Max(0.000000001 * Max(Abs(a), Abs(b)), TINY)
  }

  lemma CloseToItself(x: real)
    ensures CloseTo(x, x)
  {
  }
}
