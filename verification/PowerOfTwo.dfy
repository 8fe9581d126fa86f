/**
  Rounding a capacity up to a power of two by smearing its leading bit, as the flat
  chain store does with the sizes it is asked for.
 */
module PowerOfTwo {

  const WORD: bv64 := 0xffff_ffff
  const LIMIT: bv64 := 0x1_0000_0000
  const HALF: bv64 := 0x8000_0000_0000_0000

  predicate IsPowerOfTwo(x: bv64) {
    x != 0 && x & (x - 1) == 0
  }

  /** A power of two that is large enough and whose half is not. */
  predicate RoundsUp(n: bv64, r: bv64) {
    IsPowerOfTwo(r) && n <= r && r >> 1 < n
  }

  /** Copies every bit to the 31 places below it. */
  function Smear(x: bv64): bv64 {
    var a := x | (x >> 1);
    var b := a | (a >> 2);
    var c := b | (b >> 4);
    var d := c | (c >> 8);
    d | (d >> 16)
  }

  /** Right for every request up to 2^32. The increment wraps where the smeared number has all bits set. */
  function TruncateToPow2(n: bv64): (r: bv64)
    ensures n == 0 ==> r == 0
    ensures 1 <= n <= LIMIT ==> RoundsUp(n, r)
  {
    if n == 0 then 0 else Smear(n - 1) + 1
  }

  /** Rounding up gives the least power of two that is at least the request. */
  lemma LeastPowerOfTwo(n: bv64, r: bv64, p: bv64)
    requires RoundsUp(n, r) && IsPowerOfTwo(p) && p >= n
    ensures p >= r
  {
  }

  // ---------- larger requests ----------

  /** A bit is set in each of the eight windows of 32 places that start at the lowest eight places. */
  predicate EightWindows(x: bv64) {
    && x & (WORD << 0) != 0 && x & (WORD << 1) != 0 && x & (WORD << 2) != 0 && x & (WORD << 3) != 0
    && x & (WORD << 4) != 0 && x & (WORD << 5) != 0 && x & (WORD << 6) != 0 && x & (WORD << 7) != 0
  }

  predicate AllWindows(x: bv64) {
    EightWindows(x) && EightWindows(x >> 8) && EightWindows(x >> 16) && EightWindows(x >> 24)
  }

  /** No 32 zero bits in a row below a set bit. */
  predicate NoGap(x: bv64) {
    x <= WORD || AllWindows(x)
  }

  lemma ByteFilled(x: bv64)
    ensures Smear(x) & 0xff == 0xff <==> EightWindows(x)
  {
  }

  lemma Shift8(x: bv64)
    ensures Smear(x) >> 8 == Smear(x >> 8)
  {
  }

  lemma Shift16(x: bv64)
    ensures Smear(x) >> 16 == Smear(x >> 16)
  {
  }

  lemma Shift24(x: bv64)
    ensures Smear(x) >> 24 == Smear(x >> 24)
  {
  }

  lemma FourBytes(y: bv64)
    ensures y & WORD == WORD <==>
            y & 0xff == 0xff && (y >> 8) & 0xff == 0xff && (y >> 16) & 0xff == 0xff && (y >> 24) & 0xff == 0xff
  {
  }

  lemma LowHalf(x: bv64)
    ensures Smear(x) & WORD == WORD <==> AllWindows(x)
  {
    FourBytes(Smear(x));
    Shift8(x);
    Shift16(x);
    Shift24(x);
    ByteFilled(x);
    ByteFilled(x >> 8);
    ByteFilled(x >> 16);
    ByteFilled(x >> 24);
  }

  lemma HighHalf(x: bv64)
    ensures x > WORD ==> Smear(x) > WORD && (Smear(x) >> 32) & ((Smear(x) >> 32) + 1) == 0
  {
  }

  lemma Bounds(x: bv64)
    ensures WORD < x < HALF ==> x <= Smear(x) < HALF && Smear(x) >> 1 < x
  {
  }

  /** When the high half is filled below its leading bit, the low half decides. */
  lemma Filled(x: bv64, y: bv64)
    ensures y > WORD && (y >> 32) & ((y >> 32) + 1) == 0 && x <= y < HALF && y >> 1 < x ==>
              (RoundsUp(x + 1, y + 1) <==> y & WORD == WORD)
  {
  }

  lemma AboveLimit(x: bv64)
    ensures WORD < x < HALF ==> (RoundsUp(x + 1, Smear(x) + 1) <==> AllWindows(x))
  {
    HighHalf(x);
    LowHalf(x);
    Bounds(x);
    Filled(x, Smear(x));
  }

  lemma UpToLimit(x: bv64)
    ensures x <= WORD ==> RoundsUp(x + 1, Smear(x) + 1)
  {
  }

  lemma AboveHalf(x: bv64, r: bv64)
    ensures x >= HALF ==> !RoundsUp(x + 1, r)
  {
  }

  lemma SmearExactly(x: bv64)
    ensures RoundsUp(x + 1, Smear(x) + 1) <==> x < HALF && NoGap(x)
  {
    UpToLimit(x);
    AboveLimit(x);
    AboveHalf(x, Smear(x) + 1);
  }

  lemma Request(n: bv64, x: bv64)
    requires n == x + 1 && n != 0
    ensures TruncateToPow2(n) == Smear(x) + 1
  {
  }

  /** For every request `n`: it is rounded up to the least power of two if and only if `x`, one less than it, is below
      2^63 and has no 32 zero bits in a row below a set bit. */
  lemma TruncateExactly(n: bv64, x: bv64)
    requires n == x + 1 && n != 0
    ensures RoundsUp(n, TruncateToPow2(n)) <==> x < HALF && NoGap(x)
  {
    Request(n, x);
    SmearExactly(x);
  }

  /** The smallest request that is not rounded up. */
  lemma BeyondLimit()
    ensures TruncateToPow2(LIMIT + 1) == 0x1_ffff_ffff && !NoGap(LIMIT)
  {
  }
}
