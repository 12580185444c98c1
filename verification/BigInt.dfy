/** Machine-word conversions of math/big and the bound computed by common/bigint. */
module BigInt {

  const TWO_63: nat := 0x8000_0000_0000_0000
  const TWO_64: nat := 0x1_0000_0000_0000_0000

  function Magnitude(x: int): nat {
    if x < 0 then -x else x
  }

  /** big.Int.Uint64: the low 64 bits of the magnitude; the sign is dropped. */
  function Uint64(x: int): (r: nat)
    ensures r < TWO_64
    ensures 0 <= x < TWO_64 ==> r == x
  {
    Magnitude(x) % TWO_64
  }

  /** Subtraction of one on a uint64. */
  function Pred64(x: nat): nat
    requires x < TWO_64
  {
    if x == 0 then TWO_64 - 1 else x - 1
  }

  /** The int64 with the same bits as a uint64. */
  function Int64(x: nat): int
    requires x < TWO_64
  {
    if x < TWO_63 then x else x - TWO_64
  }

  /** `temp.Sub(end, start).Uint64() + 1` on a uint64: the heights in an inclusive range. */
  function Count64(start: int, end: int): (r: nat)
    ensures r < TWO_64
    ensures start <= end && end - start < TWO_64 - 1 ==> r == end - start + 1
  {
    (Uint64(end - start) + 1) % TWO_64
  }

  function Clamped(start: int, end: int, size: nat): int
    requires size < TWO_64
  {
    if Count64(start, end) <= size then end else start + Int64(Pred64(size))
  }

  method Clamp(start: int, end: int, size: nat) returns (r: int)
    requires size < TWO_64
    ensures r == Clamped(start, end, size)
    ensures start <= end && end - start + 1 < TWO_64 && size <= TWO_63 ==> r == WindowEnd(start, end, size)
  {
    var temp := end - start;
    var count := (Uint64(temp) + 1) % TWO_64;
    if count <= size {
      return end;
    }
    temp := start + Int64(Pred64(size));
    return temp;
  }

  /** The nearer of `end` and the last height of a window of `size` heights from `start`. */
  function WindowEnd(start: int, end: int, size: nat): (r: int)
    ensures r <= end && r <= start + size - 1 && (r == end || r == start + size - 1)
  {
    if end <= start + size - 1 then end else start + size - 1
  }

  /**
    On every ordered range, Clamp is the last height of the window exactly when neither the
    uint64 count of the range wraps into the window nor `int64(size - 1)` turns negative.
   */
  lemma ClampIsWindowEndIff(start: int, end: int, size: nat)
    requires size < TWO_64 && start <= end
    ensures Clamped(start, end, size) == WindowEnd(start, end, size) <==>
            if end - start + 1 < TWO_64 then end - start + 1 <= size || size <= TWO_63
            else size < (end - start + 1) % TWO_64 && size <= TWO_63
  {
  }

  /** The smallest ranges on which the conversions defeat the bound. */
  lemma ClampWraps()
    ensures Clamped(0, TWO_64 - 1, 5) == TWO_64 - 1 > WindowEnd(0, TWO_64 - 1, 5)
    ensures Clamped(0, TWO_63 + 1, TWO_63 + 1) == 0 - TWO_63
  {
  }
}
