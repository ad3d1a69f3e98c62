/**
 The byte-to-unit conversions of the readouts: Python's integer floor division `//`
 by 1024**2 (megabytes) and by 1024**3 (gigabytes). Byte counts are never negative,
 so floor division coincides with Dafny's `/` on them.
 */
module Units {

  /** 1024**2 and 1024**3, the divisors the readouts use. */
  const MiB: nat := 1024 * 1024
  const GiB: nat := 1024 * 1024 * 1024

  /** Megabytes as displayed: the whole number of MiB that fit in `bytes`. */
  function ToMB(bytes: nat): (mb: nat)
    ensures mb * MiB <= bytes < (mb + 1) * MiB
  {
    bytes / MiB
  }

  /** Gigabytes as displayed: the whole number of GiB that fit in `bytes`. */
  function ToGB(bytes: nat): (gb: nat)
    ensures gb * GiB <= bytes < (gb + 1) * GiB
  {
    bytes / GiB
  }

  /** The floor bounds determine the quotient: at most one `q` lies between them. */
  lemma FloorUnique(bytes: nat, unit: nat, q: nat, q': nat)
    requires unit > 0
    requires q * unit <= bytes < (q + 1) * unit
    requires q' * unit <= bytes < (q' + 1) * unit
    ensures q == q'
  {
  }

  /** The displayed megabytes are the only count satisfying the floor bounds. */
  lemma ToMBCharacterised(bytes: nat, mb: nat)
    ensures mb == ToMB(bytes) <==> mb * MiB <= bytes < (mb + 1) * MiB
  {
  }

  /** The displayed gigabytes are the only count satisfying the floor bounds. */
  lemma ToGBCharacterised(bytes: nat, gb: nat)
    ensures gb == ToGB(bytes) <==> gb * GiB <= bytes < (gb + 1) * GiB
  {
  }

  /** More bytes never display as fewer megabytes. */
  lemma ToMBMonotone(a: nat, b: nat)
    requires a <= b
    ensures ToMB(a) <= ToMB(b)
  {
  }

  /** More bytes never display as fewer gigabytes. */
  lemma ToGBMonotone(a: nat, b: nat)
    requires a <= b
    ensures ToGB(a) <= ToGB(b)
  {
  }
}
