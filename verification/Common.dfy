/** Small shared vocabulary: options, results, machine integers and bytes. */
module Common {

  datatype Option<+T> = None | Some(value: T)

  datatype Result<+T, +E> = Ok(value: T) | Err(error: E)

  const U32_MAX: nat := 0xFFFF_FFFF

  type Byte = b: int | 0 <= b < 256

  function Min(a: int, b: int): int {
    if a <= b then a else b
  }

  /** `u32::saturating_add`. */
  function SaturatingAdd(a: nat, b: nat): nat {
    Min(a + b, U32_MAX)
  }

  /** `u32::saturating_sub`. */
  function SaturatingSub(a: nat, b: nat): nat {
    if a <= b then 0 else a - b
  }

  lemma Assoc<T>(a: seq<T>, b: seq<T>, c: seq<T>)
    ensures a + b + c == a + (b + c)
  {
  }
}
