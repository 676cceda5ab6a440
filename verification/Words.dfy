/** Go's fixed-width integers, written out over unbounded ones. */
module Words {
  const TWO_63 := 0x8000_0000_0000_0000
  const TWO_64 := 0x1_0000_0000_0000_0000
  const MAX_INT64 := TWO_63 - 1
  const MIN_INT64 := -TWO_63

  type Word = n: nat | n < TWO_64

  /** A uint64 conversion, and the value every uint64 addition leaves. */
  function UInt64(x: int): (r: Word)
    ensures 0 <= x < TWO_64 ==> r == x
  {
    x % 0x1_0000_0000_0000_0000
  }

  /** An int64 conversion, and the value every int64 addition leaves. */
  function Int64(x: int): (r: int)
    ensures MIN_INT64 <= r <= MAX_INT64
    ensures MIN_INT64 <= x <= MAX_INT64 ==> r == x
  {
    (x + 0x8000_0000_0000_0000) % 0x1_0000_0000_0000_0000 - 0x8000_0000_0000_0000
  }

  /** Two integers a uint64 cannot tell apart. */
  predicate Congruent(x: int, y: int) {
    UInt64(x) == UInt64(y)
  }

  function Min(x: int, y: int): int {
    if x <= y then x else y
  }

  lemma {:induction false} ShiftMod(x: int, k: int)
    ensures (x + k * TWO_64) % TWO_64 == x % TWO_64
  {
    var q := (x + k * TWO_64) / TWO_64;
    assert (q - k) * TWO_64 + (x + k * TWO_64) % TWO_64 == x;
  }

  /** Wrapping early changes nothing: only the final conversion matters. */
  lemma {:induction false} Int64Absorbs(x: int, y: int)
    ensures Int64(Int64(x) + y) == Int64(x + y)
    ensures Int64(Int64(x) - y) == Int64(x - y)
    ensures Int64(y + Int64(x)) == Int64(y + x)
    ensures Int64(y - Int64(x)) == Int64(y - x)
  {
    var k := (x + TWO_63) / TWO_64;
    assert Int64(x) == x - k * TWO_64;
    ShiftMod(x + y + TWO_63, -k);
    ShiftMod(x - y + TWO_63, -k);
    ShiftMod(y - x + TWO_63, k);
  }

  lemma {:induction false} UInt64Absorbs(x: int, y: int)
    ensures UInt64(UInt64(x) + y) == UInt64(x + y)
    ensures UInt64(UInt64(x) - y) == UInt64(x - y)
    ensures UInt64(y - UInt64(x)) == UInt64(y - x)
  {
    var k := x / TWO_64;
    assert UInt64(x) == x - k * TWO_64;
    ShiftMod(x + y, -k);
    ShiftMod(x - y, -k);
    ShiftMod(y - x, k);
  }

  lemma {:induction false} CongruentSums(x: int, y: int, u: int, v: int)
    requires Congruent(x, y) && Congruent(u, v)
    ensures Congruent(x + u, y + v) && Congruent(x - u, y - v)
  {
    hide UInt64;
    UInt64Absorbs(x, u);
    UInt64Absorbs(y, u);
    UInt64Absorbs(u, y);
    UInt64Absorbs(v, y);
  }

  /** Adding to a word leaves it as it was only when nothing is added. */
  lemma {:induction false} WordStays(x: Word, y: Word)
    ensures UInt64(x + y) == x <==> y == 0
  {
    if x + y >= TWO_64 { ShiftMod(x + y - TWO_64, 1); }
  }

  lemma {:induction false} CongruentConversions(x: int)
    ensures Congruent(UInt64(x), x) && Congruent(Int64(x), x)
  {
    ShiftMod(x, -((x + TWO_63) / TWO_64));
  }
}
