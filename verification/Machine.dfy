/** Bytes and machine integers, shared by the modules that depend on them. */
module Machine {

  /** A byte string; one character stands for one byte. */
  type Bytes = string

  const U64_MAX: nat := 0xFFFF_FFFF_FFFF_FFFF

  function Min(a: nat, b: nat): nat { if a < b then a else b }

  function Max(a: nat, b: nat): nat { if a < b then b else a }

  /** Saturating subtraction. */
  function SatSub(a: nat, b: nat): nat { if a < b then 0 else a - b }
}
