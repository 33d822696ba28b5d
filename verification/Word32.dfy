// Unsigned 32-bit arithmetic: every counter that the driver keeps in a
// `uint32_t` or `unsigned int` is an integer reduced modulo 2^32.
module Word32 {

  const MODULUS: int := 0x1_0000_0000
  const HALF: int := 0x8000_0000

  type word = x: int | 0 <= x < 0x1_0000_0000

  function Wrap(x: int): word {
    x % 0x1_0000_0000
  }

  /** The test `(int32_t)(a - b) >= 0`: a lies less than half a circle ahead of b. */
  predicate Reached(a: int, b: int) {
    Wrap(a - b) < HALF
  }

  /** Whole turns of the circle do not change a word. */
  lemma WrapTurns(x: int, turns: int)
    ensures Wrap(x + turns * MODULUS) == Wrap(x)
  {
  }

  /** Reducing an operand early does not change a sum. */
  lemma WrapSum(x: int, y: int)
    ensures Wrap(Wrap(x) + y) == Wrap(x + y)
    ensures Wrap(x + Wrap(y)) == Wrap(x + y)
  {
    WrapTurns(Wrap(x) + y, x / MODULUS);
    WrapTurns(x + Wrap(y), y / MODULUS);
  }

  /** Reducing an operand early does not change a product. */
  lemma WrapProduct(x: int, y: int)
    ensures Wrap(x * Wrap(y)) == Wrap(x * y)
  {
    var turns := y / MODULUS;
    assert y == turns * MODULUS + Wrap(y);
    calc {
      x * y;
      x * (turns * MODULUS + Wrap(y));
      x * (turns * MODULUS) + x * Wrap(y);
      (x * turns) * MODULUS + x * Wrap(y);
    }
    WrapTurns(x * Wrap(y), x * turns);
  }
}
