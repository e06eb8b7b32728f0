/** Bytes, the widths of machine numbers, and the smaller of two numbers. */
module Numbers {
  type byte = x: nat | x < 256

  const TWO32: nat := 0x1_0000_0000
  const TWO63: nat := 0x8000_0000_0000_0000
  const TWO64: nat := 0x1_0000_0000_0000_0000

  function Min(a: nat, b: nat): (r: nat) { if a < b then a else b }
}
