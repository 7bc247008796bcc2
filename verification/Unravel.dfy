/**
  Pixel indices to rows and columns without a division per pixel (`_unravel`): a
  multiplication by the reciprocal in wrapping 64-bit arithmetic, stored as uint16.
*/
module Unravel {
  const TWO_16: nat := 0x1_0000
  const TWO_24: nat := 0x100_0000
  const TWO_40: nat := 0x100_0000_0000
  const TWO_64: nat := 0x1_0000_0000_0000_0000
  const MAX_FAST: nat := 0x4000
  const MAX_INDEX: nat := 0x400_0000

  /** uint64 arithmetic. */
  function Wrap(n: int): nat {
    n % TWO_64
  }

  /** -(-(1 << 40) // nfast): the reciprocal, rounded up. */
  function Magic(nfast: nat): nat
    requires nfast >= 1
  {
    (TWO_40 + nfast - 1) / nfast
  }

  /** np.divmod, stored as uint16. */
  function Row(index: nat, nfast: nat): int
    requires nfast >= 1
  {
    index / nfast % TWO_16
  }

  function Col(index: nat, nfast: nat): int
    requires nfast >= 1
  {
    index % nfast % TWO_16
  }

  /** The quotient of the fast path, before it is stored. */
  function Quotient(index: nat, nfast: nat): nat
    requires nfast >= 1
  {
    Wrap(index * Magic(nfast)) / TWO_40
  }
}
