/** Remainders by a number that is not a constant. */
module Modular {

  lemma SmallMod(j: nat, m: nat)
    requires j < m
    ensures j % m == j
  {
  }

  lemma {:induction false} ModAdd(j: nat, m: nat)
    requires m > 0
    ensures (j + m) % m == j % m
  {
    var q, r := j / m, j % m;
    assert j + m == (q + 1) * m + r;
    DivMod(j + m, m, q + 1, r);
  }

  lemma Distribute(a: int, b: int, m: int)
    ensures a * m - b * m == (a - b) * m
  {
  }

  lemma {:induction false} Multiple(d: nat, m: int)
    requires d > 0 && m > 0
    ensures d * m >= m
  {
    if d > 1 {
      Multiple(d - 1, m);
      Distribute(d, 1, m);
    }
  }

  lemma DivMod(x: nat, m: nat, q: nat, r: nat)
    requires m > 0 && x == q * m + r && r < m
    ensures x % m == r
  {
    var q', r' := x / m, x % m;
    Distribute(q, q', m);
    Distribute(q', q, m);
    if q > q' { Multiple(q - q', m); }
    if q < q' { Multiple(q' - q, m); }
  }

  lemma {:induction false} ModShift(j: nat, c: nat, m: nat)
    requires m > 0
    ensures 0 <= c * m && (j + c * m) % m == j % m
    decreases c
  {
    if c > 0 {
      ModShift(j, c - 1, m);
      Distribute(c, 1, m);
      ModAdd(j + (c - 1) * m, m);
    }
  }

  /** Numbers with the same remainder are a multiple apart. */
  lemma Apart(a: nat, b: nat, m: nat) returns (c: nat)
    requires m > 0 && a >= b && a % m == b % m
    ensures a == b + c * m
  {
    var qa, qb := a / m, b / m;
    Distribute(qa, qb, m);
    Distribute(qb, qa, m);
    if qb > qa { Multiple(qb - qa, m); }
    c := qa - qb;
  }

  /** The factor is the quotient. */
  lemma OnlyFactor(a: nat, b: nat, m: nat)
    requires m > 0 && a * m == b * m
    ensures a == b
  {
    Distribute(a, b, m);
    Distribute(b, a, m);
    if a > b { Multiple(a - b, m); }
    if b > a { Multiple(b - a, m); }
  }

  /** A positive factor makes a multiple that is at least as large. */
  lemma Ordered(a: nat, b: nat, m: nat)
    requires m > 0
    ensures a <= b <==> a * m <= b * m
  {
    Distribute(a, b, m);
    Distribute(b, a, m);
    if a > b { Multiple(a - b, m); }
    if b > a { Multiple(b - a, m); }
  }
}
