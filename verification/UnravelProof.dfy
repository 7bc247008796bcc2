/** Dividing by the reciprocal is dividing. */
module UnravelProof {
  import opened Division
  import opened Unravel

  /** The reciprocal is too large by less than nfast / (nfast * 2**40). */
  lemma MagicExcess(nfast: nat)
    requires nfast >= 1
    ensures 0 <= Magic(nfast) * nfast - TWO_40 < nfast
  {
    var a := TWO_40 + nfast - 1;
    assert a == a / nfast * nfast + a % nfast;
  }

  /** The product divided by 2**40 is the quotient, before wrapping. */
  lemma ReciprocalDivides(index: nat, nfast: nat)
    requires 1 <= nfast < MAX_FAST && index < MAX_INDEX
    ensures index * Magic(nfast) / TWO_40 == index / nfast
  {
    MagicExcess(nfast);
    DivisionIs(index, nfast);
    ReciprocalFor(index, nfast, Magic(nfast), index / nfast, index % nfast);
  }

  lemma ReciprocalFor(index: nat, nfast: nat, m: nat, q: int, r: int)
    requires 1 <= nfast < MAX_FAST && index < MAX_INDEX
    requires 0 <= m * nfast - TWO_40 < nfast && index == q * nfast + r && 0 <= r < nfast
    ensures index * m / TWO_40 == q
  {
    ExcessSmall(index, m * nfast - TWO_40);
    Scaled(index, m, nfast, m * nfast - TWO_40, q, r);
    ShiftIs(index * m, q);
  }

  lemma DivisionIs(a: nat, b: nat)
    requires b >= 1
    ensures a == a / b * b + a % b && 0 <= a % b < b && a / b >= 0
  {
  }

  lemma ShiftIs(p: nat, q: int)
    requires 0 <= p - q * TWO_40 < TWO_40
    ensures p / TWO_40 == q
  {
  }

  lemma ExcessSmall(index: nat, e: nat)
    requires index < MAX_INDEX && e < MAX_FAST
    ensures index * e < TWO_40
  {
    TimesGrows(index, MAX_INDEX, e);
  }

  lemma Scaled(index: nat, m: nat, nfast: nat, e: nat, q: int, r: int)
    requires nfast >= 1 && m * nfast == TWO_40 + e && index * e < TWO_40 && 0 <= r < nfast && index == q * nfast + r
    ensures 0 <= index * m - q * TWO_40 < TWO_40
  {
    var rest := index * m - q * TWO_40;
    calc {
      rest * nfast;
      index * m * nfast - q * TWO_40 * nfast;
      { assert index * m * nfast == index * (m * nfast); }
      index * (TWO_40 + e) - q * nfast * TWO_40;
      (q * nfast + r) * TWO_40 + index * e - q * nfast * TWO_40;
      r * TWO_40 + index * e;
    }
    assert 0 <= rest * nfast < nfast * TWO_40;
    if rest >= TWO_40 {
      TimesGrows(TWO_40, rest, nfast);
    } else if rest < 0 {
      TimesGrows(rest, -1, nfast);
    }
  }

  /** Wrapping at 2**64 before the shift by 40 bits wraps the quotient at 2**24. */
  lemma QuotientIs(index: nat, nfast: nat)
    requires 1 <= nfast < MAX_FAST && index < MAX_INDEX
    ensures Quotient(index, nfast) == index / nfast % TWO_24
  {
    ReciprocalDivides(index, nfast);
    WrapThenShift(index * Magic(nfast));
  }

  lemma WrapThenShift(p: nat)
    ensures p % TWO_64 / TWO_40 == p / TWO_40 % TWO_24
  {
  }

  /** The fast path stores the quotient and the remainder, both as uint16, also where
      the product wraps: w is the quotient it computes. */
  lemma FastPathDivides(index: nat, nfast: nat, w: nat)
    requires 1 <= nfast < MAX_FAST && index < MAX_INDEX && w == Quotient(index, nfast)
    ensures w % TWO_16 == index / nfast % TWO_16
    ensures Wrap(index - Wrap(w * nfast)) % TWO_16 == index % nfast
  {
    assert w == index / nfast % TWO_24 by { QuotientIs(index, nfast); }
    FastPathFor(index, nfast, index / nfast, index % nfast, w);
  }

  lemma FastPathFor(index: nat, nfast: nat, q: int, r: int, w: nat)
    requires 1 <= nfast < MAX_FAST && w == q % TWO_24 && q == index / nfast && r == index % nfast
    ensures w % TWO_16 == q % TWO_16
    ensures Wrap(index - Wrap(w * nfast)) % TWO_16 == r
  {
    assert w % TWO_16 == q % TWO_16 by { NarrowTwice(q); }
    DivisionOf(index, nfast, q, r);
    StoredFor(index, nfast, q, r, w);
  }

  lemma DivisionOf(a: nat, b: nat, q: int, r: int)
    requires b >= 1 && q == a / b && r == a % b
    ensures a == q * b + r && 0 <= r < b
  {
  }

  lemma StoredFor(index: nat, nfast: nat, q: int, r: int, w: nat)
    requires 0 <= r < nfast < MAX_FAST && index == q * nfast + r && w == q % TWO_24
    ensures Wrap(index - Wrap(w * nfast)) % TWO_16 == r
  {
    LostRows(q, w, nfast);
    RestStored(r, w * nfast, q / TWO_24 * nfast, index);
  }

  lemma NarrowTwice(q: int)
    ensures q % TWO_24 % TWO_16 == q % TWO_16
  {
  }

  lemma LostRows(q: int, w: nat, nfast: nat)
    requires w == q % TWO_24
    ensures q * nfast == w * nfast + q / TWO_24 * nfast * TWO_24
  {
    var k := q / TWO_24;
    assert q == k * TWO_24 + w;
    assert (k * TWO_24 + w) * nfast == k * nfast * TWO_24 + w * nfast;
  }

  lemma RestStored(r: int, product: int, k: int, index: nat)
    requires 0 <= r < TWO_16 && index == product + k * TWO_24 + r
    ensures Wrap(index - Wrap(product)) % TWO_16 == r
  {
    WrapNarrow(index - product, product / TWO_64);
    LostBits(k, r);
  }

  lemma WrapNarrow(n: int, a: int)
    ensures (n + a * TWO_64) % TWO_64 % TWO_16 == n % TWO_16
  {
  }

  lemma LostBits(k: int, r: int)
    requires 0 <= r < TWO_16
    ensures (k * TWO_24 + r) % TWO_16 == r
  {
  }

  /** The product fits in 64 bits for every index of the fast path exactly from four
      columns on. */
  lemma ProductFitsExactly(nfast: nat)
    requires 1 <= nfast < MAX_FAST
    ensures (forall index :: 0 <= index < MAX_INDEX ==> index * Magic(nfast) < TWO_64) <==> nfast >= 4
  {
    MagicExcess(nfast);
    if nfast >= 4 {
      if Magic(nfast) > TWO_40 / 4 { TimesGrows(TWO_40 / 4 + 1, Magic(nfast), nfast); }
      forall index | 0 <= index < MAX_INDEX ensures index * Magic(nfast) < TWO_64 {
        TimesGrows(index, MAX_INDEX - 1, Magic(nfast));
      }
    } else {
      assert (MAX_INDEX - 1) * Magic(nfast) >= TWO_64;
    }
  }

  /** Row and column give the index back exactly when neither was cut to 16 bits. */
  lemma RowColBack(index: nat, nfast: nat)
    requires nfast >= 1
    ensures Row(index, nfast) * nfast + Col(index, nfast) == index
            <==> index / nfast < TWO_16 && index % nfast < TWO_16
  {
    DivisionIs(index, nfast);
    BackFor(index, nfast, index / nfast, index % nfast);
  }

  lemma BackFor(index: nat, nfast: nat, q: int, r: int)
    requires nfast >= 1 && index == q * nfast + r && 0 <= r && 0 <= q
    ensures q % TWO_16 * nfast + r % TWO_16 == index <==> q < TWO_16 && r < TWO_16
  {
    if q >= TWO_16 {
      TimesGrows(q % TWO_16, q - 1, nfast);
      assert (q - 1) * nfast == q * nfast - nfast;
    }
  }
}
