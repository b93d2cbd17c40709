/** Stock definitions. */
module Basics {

  const ESRCH := 3
  const ENOMEM := 12
  const EFAULT := 14
  const EBUSY := 16
  const EINVAL := 22

  const INT_MAX := 0x7fff_ffff

  /** One more than the largest unsigned int and unsigned long. */
  const UINT := 0x1_0000_0000
  const ULONG := 0x1_0000_0000_0000_0000

  datatype Option<T> = None | Some(value: T)

  type Byte = b: int | 0 <= b < 256

  function Min(a: nat, b: nat): nat {
    if a < b then a else b
  }
}
