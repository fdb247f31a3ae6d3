/** Shared option and result types. */
module Wrappers {

  datatype Option<+T> = None | Some(value: T)

  datatype Result<+T, +E> = Ok(value: T) | Err(error: E)
}

/** Integer limits, powers of two and facts about division that the solver does not find by itself. */
module Arithmetic {
  const INT32_MAX: int := 0x7fff_ffff

  function Pow2(n: nat): (p: nat)
    ensures p > 0
  {
    if n == 0 then 1 else 2 * Pow2(n - 1)
  }

  lemma {:induction false} Pow2Monotone(a: nat, b: nat)
    requires a <= b
    ensures Pow2(a) <= Pow2(b)
  {
    if a < b {
      Pow2Monotone(a, b - 1);
    }
  }

  lemma DivUnique(a: nat, m: nat, q: nat)
    requires m > 0 && q * m <= a < (q + 1) * m
    ensures a / m == q && a % m == a - q * m
  {
    var d := a / m;
    assert a == d * m + a % m;
    MulMonotone(d + 1, q, m);
    MulMonotone(q + 1, d, m);
  }

  lemma MulMonotone(a: nat, b: nat, m: nat)
    ensures a <= b ==> a * m <= b * m
  {
  }

  lemma DivStep(a: nat, m: nat)
    requires m > 0 && a >= m
    ensures a / m == (a - m) / m + 1 && a % m == (a - m) % m
  {
    var q := (a - m) / m;
    assert a - m == q * m + (a - m) % m;
    assert (q + 1) * m == q * m + m && (q + 2) * m == q * m + m + m;
    DivUnique(a, m, q + 1);
  }

  lemma DivMul(a: nat, m: nat)
    requires m > 0
    ensures a * m / m == a
  {
    assert (a + 1) * m == a * m + m;
    DivUnique(a * m, m, a);
  }
}
