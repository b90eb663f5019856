/**
  The fixed-width integer types of the slide header. Keys and sizes are
  `int64_t`, counts and quality settings are `int`, level indices are
  `size_t`. Comparisons on these never overflow, so the newtypes only
  record the ranges the fields can hold.
*/
module FixedWidth {

  newtype int32 = x: int | -0x8000_0000 <= x < 0x8000_0000

  newtype int64 = x: int | -0x8000_0000_0000_0000 <= x < 0x8000_0000_0000_0000

  newtype uint64 = x: int | 0 <= x < 0x1_0000_0000_0000_0000
}
