/** Facts about quotients and multiples that need a proof of their own. */
module Division {
  /** 1 << b */
  function Shifted(b: nat): (r: nat)
    ensures r >= 1
  {
    if b == 0 then 1 else 2 * Shifted(b - 1)
  }

  lemma TimesGrows(a: int, b: int, u: int)
    requires a <= b && u >= 0
    ensures a * u <= b * u
  {
  }

  /** A quotient and a remainder below the divisor are the quotient and the remainder. */
  lemma DivUnique(a: int, u: int, q: int, r: int)
    requires u >= 1 && a == q * u + r && 0 <= r < u
    ensures a / u == q && a % u == r
  {
    var p, s := a / u, a % u;
    assert a == p * u + s && 0 <= s < u;
    assert (p - q) * u == r - s && (q - p) * u == s - r;
    if p > q {
      TimesGrows(1, p - q, u);
    } else if p < q {
      TimesGrows(1, q - p, u);
    }
  }

  lemma MultipleDivides(u: int, k: int)
    requires u >= 1
    ensures (u * k) % u == 0 && (u * k) / u == k && (k * u) % u == 0 && (k * u) / u == k
  {
    DivUnique(u * k, u, k, 0);
  }

  lemma DoublesDivide(a: nat, b: nat)
    requires b >= 1 && a % b == 0
    ensures (2 * a) % (2 * b) == 0
  {
    var k := a / b;
    assert a == b * k;
    assert 2 * a == k * (2 * b) + 0;
    DivUnique(2 * a, 2 * b, k, 0);
  }

  lemma MultipleOfMultiple(t: nat, a: nat, b: nat)
    requires a >= 1 && b >= 1 && t % a == 0 && a % b == 0
    ensures t % b == 0
  {
    var k, l := t / a, a / b;
    assert a == b * l && t == a * k;
    assert t == (l * k) * b + 0;
    DivUnique(t, b, l * k, 0);
  }

  lemma HalfDivides(v: nat, u: nat)
    requires u >= 1
    ensures v / (2 * u) == v / 2 / u
  {
    var k, r := v / (2 * u), v % (2 * u);
    assert v == k * (2 * u) + r;
    assert v / 2 == k * u + r / 2;
    DivUnique(v / 2, u, k, r / 2);
  }

  /** Between a number and a later multiple of u there is room to round up. */
  lemma NextMultiple(v: nat, t: nat, u: nat)
    requires u >= 1 && v <= t && t % u == 0
    ensures v / u * u <= v < v / u * u + u
    ensures v / u * u <= t && (v > v / u * u ==> v / u * u + u <= t)
  {
    var k, l := t / u, v / u;
    assert t == k * u && v == l * u + v % u;
    if k <= l { TimesGrows(k, l, u); } else { TimesGrows(l + 1, k, u); }
  }

  lemma RestBounds(v: nat, u: nat)
    requires u >= 1
    ensures v % u < u && v % u <= v
  {
    if v < u { DivUnique(v, u, 0, v); }
  }
}
