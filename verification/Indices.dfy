/** Indices into a ring, and remainders. */
module Indices {

  /** The index `steps` places after `head`. */
  function RingIndex(head: nat, steps: nat, capacity: nat): (r: nat)
    requires head < capacity && steps <= capacity
    ensures r < capacity
  {
    if head + steps < capacity then head + steps else head + steps - capacity
  }

  /** It is the modulo expression that the source writes. */
  lemma RingIndexModulo(head: nat, steps: nat, capacity: nat)
    requires head < capacity && steps <= capacity
    ensures RingIndex(head, steps, capacity) == (head + steps) % capacity
  {
    var turns := if head + steps < capacity then 0 else 1;
    ModuloUnique(head + steps, turns, RingIndex(head, steps, capacity), capacity);
  }

  lemma ModuloUnique(n: int, q: int, r: int, m: int)
    requires m > 0 && n == q * m + r && 0 <= r < m
    ensures n % m == r && n / m == q
  {
    var d := n / m - q;
    assert n == (n / m) * m + n % m;
    assert d * m == (n / m) * m - q * m;
    if d != 0 {
      WholeMultiple(d, m);
      assert false;
    }
  }

  lemma WholeMultiple(d: int, m: int)
    requires m > 0 && d != 0
    ensures d * m >= m || d * m <= -m
  {
    if d > 0 {
      assert (d - 1) * m >= 0;
    } else {
      assert (-d - 1) * m >= 0;
    }
  }
}
