/** Addresses, prefixes and options shared by the other modules. */
module Net {

  datatype Option<+T> = None | Some(value: T)

  /** A parsed host address; text that does not parse gives `NullAddress`. */
  datatype Address = NullAddress | V4(bits: nat) | V6(bits: nat)

  /** An address with a prefix length, the daemon's key for a route. */
  datatype Prefix = Prefix(addr: Address, len: int)

  function Pow2(n: nat): (r: nat)
    ensures r > 0
  {
    if n == 0 then 1 else 2 * Pow2(n - 1)
  }
}
