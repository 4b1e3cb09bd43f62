/** Vocabulary shared by every module: optional values and the backend's return codes. */
module Common {

  datatype Option<+T> = None | Some(value: T)

  /** Return codes of the storage interface; `Success` is 0, the rest are the negated errno values. */
  datatype Ret = Success | EINVAL | ENOENT | ESPIPE | ENODATA | ERANGE | EROFS | EIO

  /** Entry payloads. */
  newtype byte = x: int | 0 <= x < 256
  type Bytes = seq<byte>

  const TWO_32: nat := 0x1_0000_0000

  function Max(a: nat, b: nat): nat {
    if a >= b then a else b
  }

  function Min(a: nat, b: nat): nat {
    if a <= b then a else b
  }
}
