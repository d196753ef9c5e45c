/** Types shared by every part of the transport model. */
module Common {

  datatype Option<+T> = None | Some(value: T)

  /** One octet. Octets are integers, so that wire arithmetic needs no bit-vectors. */
  type byte = b: int | 0 <= b < 256

  function Min(a: nat, b: nat): (m: nat) { if a <= b then a else b }

  function Max(a: nat, b: nat): (m: nat) { if a <= b then b else a }

  /** `u64::saturating_sub`. */
  function SatSub(a: nat, b: nat): (d: nat) { if a <= b then 0 else a - b }

  /** The larger of an optional running maximum and a new value. */
  function MaxOpt(prev: Option<nat>, x: nat): (m: nat) {
    match prev case None => x case Some(p) => Max(p, x)
  }
}
