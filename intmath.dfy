/** Small facts about integer multiplication and Euclidean division that the
    solver does not find on its own. */
module IntMath {

  lemma DivMod(t: int, i: int)
    requires i > 0
    ensures t == (t / i) * i + t % i && 0 <= t % i < i
  {
  }

  lemma Distrib(a: int, b: int, i: int)
    ensures (a - b) * i == a * i - b * i
  {
  }

  lemma MulSucc(a: int, i: int)
    ensures (a + 1) * i == a * i + i
  {
  }

  lemma MulNonNegative(m: int, i: int)
    requires m >= 0 && i >= 0
    ensures m * i >= 0
  {
  }

  lemma MulAtLeast(m: int, i: int)
    requires m >= 1 && i > 0
    ensures m * i >= i
  {
  }

  lemma MulAtMost(m: int, i: int)
    requires m <= -1 && i > 0
    ensures m * i <= -i
  {
  }

  lemma MulMonotone(a: int, b: int, c: int)
    requires a <= b && c >= 0
    ensures a * c <= b * c
  {
    Distrib(b, a, c);
    MulNonNegative(b - a, c);
  }

  lemma MulCancelLess(a: int, b: int, c: int)
    requires c > 0 && a * c < b * c
    ensures a < b
  {
    if a >= b {
      MulMonotone(b, a, c);
    }
  }

  /** A multiple of `i` leaves no remainder. */
  lemma MulMod(q: int, i: int)
    requires i > 0
    ensures (q * i) % i == 0
  {
    var d := (q * i) / i;
    DivMod(q * i, i);
    Distrib(q, d, i);
    if q - d >= 1 { MulAtLeast(q - d, i); }
    if q - d <= -1 { MulAtMost(q - d, i); }
  }

  /** Euclidean division by a positive divisor is unique. */
  lemma DivUnique(t: int, i: int, q: int)
    requires i > 0
    requires q * i <= t < q * i + i
    ensures t / i == q
  {
    var d := t / i;
    DivMod(t, i);
    Distrib(q, d, i);
    if q - d >= 1 { MulAtLeast(q - d, i); }
    if q - d <= -1 { MulAtMost(q - d, i); }
  }

  lemma AddMul(a: int, b: int, c: int)
    ensures (a + b) * c == a * c + b * c
  {
  }
}
