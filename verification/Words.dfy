/** Unsigned 32-bit words and the alignment macros of `rtdef.h`. */
module Words {
  const WORD: nat := 0x1_0000_0000

  /** `RT_ALIGN_SIZE` */
  const ALIGN: nat := 4

  /** `RT_ALIGN(x, RT_ALIGN_SIZE)` in a machine word */
  function AlignUp(x: nat): nat { (x + ALIGN - 1) % WORD / ALIGN * ALIGN }

  /** `RT_ALIGN_DOWN(x, RT_ALIGN_SIZE)` */
  function AlignDown(x: nat): nat { x / ALIGN * ALIGN }

  /** The next multiple of four, except that the last three words wrap round to 0. */
  lemma AlignUpIs(x: nat)
    requires x < WORD
    ensures AlignUp(x) % ALIGN == 0
    ensures x + ALIGN - 1 < WORD ==> x <= AlignUp(x) < x + ALIGN
    ensures x + ALIGN - 1 >= WORD ==> AlignUp(x) == 0
    ensures x % ALIGN == 0 ==> AlignUp(x) == x
  {
  }
}
