/** Wrappers and machine limits shared by every component. */
module Common {

  datatype Option<+T> = None | Some(value: T)

  datatype Result<+T, +E> = Ok(value: T) | Err(error: E)

  /** The unit value of a `Result` that carries no payload. */
  datatype Done = Done

  /** Largest `u64`. */
  const U64_MAX: nat := 0xFFFF_FFFF_FFFF_FFFF

  /** Largest `usize` on the supported 64-bit targets. */
  const USIZE_MAX: nat := 0xFFFF_FFFF_FFFF_FFFF

  /** `u64::checked_add(1)`. */
  function CheckedNext(n: nat): (r: Option<nat>)
    ensures r.Some? <==> n < U64_MAX
  {
    if n < U64_MAX then Some(n + 1) else None
  }

  function Min(a: nat, b: nat): (m: nat)
    ensures m <= a && m <= b && (m == a || m == b)
  {
    if a < b then a else b
  }

  /** The truth as a count. */
  function One(b: bool): (n: nat)
  {
    if b then 1 else 0
  }
}
