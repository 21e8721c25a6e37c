/** Shared value wrappers. */
module Wrappers {
  datatype Option<+T> = None | Some(value: T)

  const TWO_TO_THE_64: int := 0x1_0000_0000_0000_0000

  /** The source's uint64_t. */
  type u64 = n: int | 0 <= n < TWO_TO_THE_64

  const UINT64_MAX: u64 := TWO_TO_THE_64 - 1

  const INT_MAX := 0x7FFF_FFFF

  /** static_cast<int32_t>, and narrowing to int. */
  function Int32(v: int): (r: int)
    ensures -0x8000_0000 <= r < 0x8000_0000
    ensures -0x8000_0000 <= v < 0x8000_0000 ==> r == v
  {
    (v + 0x8000_0000) % 0x1_0000_0000 - 0x8000_0000
  }
}
