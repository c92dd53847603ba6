/** Unsigned counters that wrap, and the microsecond clock. */
module Counters {
  type Time = nat
  type uint32 = x: int | 0 <= x < 0x1_0000_0000
  type uint64 = x: int | 0 <= x < 0x1_0000_0000_0000_0000

  function Wrap32(x: int): (w: uint32)
    ensures 0 <= x < 0x1_0000_0000 ==> w == x
  {
    x % 0x1_0000_0000
  }

  function Wrap64(x: int): (w: uint64)
    ensures 0 <= x < 0x1_0000_0000_0000_0000 ==> w == x
  {
    x % 0x1_0000_0000_0000_0000
  }

  function Inc(x: uint32): uint32 {
    Wrap32(x + 1)
  }

  /** Equality of wrapping counters, as C's unsigned arithmetic sees it. */
  predicate Same32(x: int, y: int) {
    (x - y) % 0x1_0000_0000 == 0
  }

  lemma OneTurnLess(d: int)
    requires d % 0x1_0000_0000 == 0
    ensures (d - 0x1_0000_0000) % 0x1_0000_0000 == 0
  {
  }

  /** Counting once more, also where the counter wraps. */
  lemma IncSame(x: uint32, more: int, n: int)
    requires Same32(x + more, n)
    ensures Same32(Inc(x) + more, n + 1)
  {
    var d := x + more - n;
    OneTurnLess(d);
    assert Inc(x) + more - (n + 1) == if x == 0xFFFF_FFFF then d - 0x1_0000_0000 else d;
  }

  lemma SameBy(x: int, y: int, turns: int)
    requires x == y + 0x1_0000_0000 * turns
    ensures Same32(x, y)
  {
  }

  lemma IncIs(x: uint32)
    ensures Inc(x) == if x == 0xFFFF_FFFF then 0 else x + 1
  {
  }
}
