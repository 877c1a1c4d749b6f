/** Products of integers. */
module Arithmetic {

  lemma MulMonotone(a: nat, b: nat, c: nat)
    requires a <= b
    ensures a * c <= b * c
  {
    assert b * c - a * c == (b - a) * c;
  }

  lemma MulBig(z: int, c: nat)
    ensures z > 0 ==> z * c >= c
    ensures z < 0 ==> z * c + c <= 0
  {
    if z > 0 { MulMonotone(1, z, c); } else if z < 0 { MulMonotone(1, -z, c); }
  }
}
