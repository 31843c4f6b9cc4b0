/**
 * The helpers the browser build exports from WebAssembly: a set of indices and a bounded
 * random draw. On the wasm32 target `usize` is 32 bits wide.
 */
module WasmVoca {

  newtype usize = x: int | 0 <= x < 0x1_0000_0000

  /** A wrapper around a hash set of indices; `inner` is the set itself. */
  class HashSet {
    var inner: set<usize>

    /** `contains` borrows the set immutably: it reads `inner` and changes nothing. */
    function Contains(item: usize): bool
      reads this
    {
      item in inner
    }

    /** `new`: a set that contains no index. */
    constructor ()
      ensures forall y :: !Contains(y)
    {
      inner := {};
    }

    /**
     * `insert`: afterwards the item is contained, every other index is as before, and
     * inserting an index that is already there changes nothing.
     */
    method Insert(item: usize)
      modifies this
      ensures Contains(item)
      ensures forall y :: y != item ==> (Contains(y) <==> old(Contains(y)))
      ensures old(Contains(item)) ==> inner == old(inner)
    {
      inner := inner + {item};
    }

    /** `clear`: afterwards no index is contained. */
    method Clear()
      modifies this
      ensures forall y :: !Contains(y)
    {
      inner := {};
    }
  }

  /**
   * `rand(limit)`: the remainder of a raw random `usize` by `limit`. A zero limit is a
   * remainder by zero, which panics, so callers must pass a positive limit.
   */
  function Rand(limit: usize, random: usize): (x: usize)
    requires limit > 0
    ensures x < limit && x <= random
    ensures random < limit ==> x == random
  {
    RemainderBounds(random as int, limit as int);
    random % limit
  }

  lemma RemainderBounds(a: int, b: int)
    requires 0 <= a && 0 < b
    ensures 0 <= a % b < b && a % b <= a
    ensures a < b ==> a % b == a
  {
    assert a == (a / b) * b + a % b;
    assert a / b >= 0;
  }
}
