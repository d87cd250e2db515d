/** Facts about products and remainders that the address computations share. */
module Arithmetic {

  lemma DivUnique(x: nat, q: nat, t: nat)
    requires x > 0 && t < x
    ensures (x * q + t) / x == q
  {
    var d, rest := (x * q + t) / x, (x * q + t) % x;
    assert x * (d - q) == t - rest;
    SmallMultiple(x, d - q);
  }

  lemma SmallMultiple(x: int, z: int)
    requires 0 - x < x * z < x
    ensures z == 0
  {
    if z >= 1 {
      MulMono(x, 1, z);
    } else if z <= -1 {
      MulMono(x, z, -1);
    }
  }

  lemma DivBound(r: nat, x: nat, y: nat)
    requires x > 0 && r < x * y
    ensures r / x < y
  {
    var d := r / x;
    assert x * d <= r;
    if y <= d {
      MulMono(x, y, d);
    }
  }

  lemma MulMono(x: int, a: int, b: int)
    requires x >= 0 && a <= b
    ensures x * a <= x * b
  {
  }
}
