/** The C integer types the node computes with, and the casts between them. */
module Words {

  const WORD_SPAN: int := 0x1_0000_0000
  const INT_SPAN: int := 0x8000_0000

  /** uint32_t */
  type u32 = x: int | 0 <= x < 0x1_0000_0000

  /** A log length or a next_index: a non-negative `int`. */
  type Len = x: int | 0 <= x < 0x8000_0000

  /** An index word as the protocol sends it: a non-negative `int`, or the sentinel -1. */
  type IndexWord = x: int | 0 <= x < 0x8000_0000 || x == 0xFFFF_FFFF

  /** The cast `(int)w`. */
  function ToInt(w: u32): int {
    if w < INT_SPAN then w else w - WORD_SPAN
  }

  /** The cast `(uint32_t)x`. */
  function ToWord(x: int): u32 {
    if 0 <= x < WORD_SPAN then x
    else if -WORD_SPAN <= x < 0 then x + WORD_SPAN
    else if WORD_SPAN <= x < 2 * WORD_SPAN then x - WORD_SPAN
    else x % WORD_SPAN
  }

  /** `next_index[i] - 1` in unsigned arithmetic: 0 wraps to the sentinel. */
  function Before(next: Len): IndexWord {
    if next == 0 then 0xFFFF_FFFF else next - 1
  }
}
