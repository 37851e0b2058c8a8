/** What the functions of a round do to their words, bit by bit.

    F, G, H and I are told from all others by what they do where one of their words has ones and where it has
    zeros.  A rotation is told by where it moves each bit; that one rotation undoes another follows from
    that, since words with the same bits are the same.

    The shifts and the combination of words have names here, so that what is known of their single bits can be
    put together without looking at all bits at once.

    Section 3.4 of RFC 1321 has these functions. */
module MessageDigestFunctions {
  import opened MessageDigest

  predicate Bit(x: bv32, k: bv32)
    requires k < 32
  {
    (x >> k) & 1 == 1
  }

  // ----- The functions of the rounds

  /** F takes the bits of `y` where `x` has ones, and those of `z` elsewhere. */
  lemma FChooses(x: bv32, y: bv32, z: bv32)
    ensures F(x, y, z) & x == y & x && F(x, y, z) & !x == z & !x
  {
  }

  /** G takes the bits of `x` where `z` has ones, and those of `y` elsewhere. */
  lemma GChooses(x: bv32, y: bv32, z: bv32)
    ensures G(x, y, z) & z == x & z && G(x, y, z) & !z == y & !z
  {
  }

  /** H has a one where `y` and `z` differ, flipped where `x` has ones. */
  lemma HFlips(x: bv32, y: bv32, z: bv32)
    ensures H(x, y, z) & x == !(y ^ z) & x && H(x, y, z) & !x == (y ^ z) & !x
  {
  }

  /** I is `y`, flipped where `x` has ones or `z` has none. */
  lemma IFlips(x: bv32, y: bv32, z: bv32)
    ensures I(x, y, z) & x == !y & x && I(x, y, z) & !z == !y & !z
    ensures I(x, y, z) & (!x & z) == y & (!x & z)
  {
  }

  // ----- The parts of a rotation

  function Left(x: bv32, n: bv32): bv32
    requires n <= 32
  {
    x << n
  }

  function Right(x: bv32, n: bv32): bv32
    requires n <= 32
  {
    x >> n
  }

  function Or(x: bv32, y: bv32): bv32 {
    x | y
  }

  lemma RotateLeftIs(x: bv32, n: bv32)
    requires n <= 32
    ensures 32 - n <= 32 && RotateLeft(x, n) == Or(Left(x, n), Right(x, 32 - n))
  {
  }

  lemma OrBit(x: bv32, y: bv32, k: bv32)
    requires k < 32
    ensures Bit(Or(x, y), k) == (Bit(x, k) || Bit(y, k))
  {
  }

  lemma LeftBit(x: bv32, n: bv32, k: bv32)
    requires n <= k < 32
    ensures Bit(Left(x, n), k) == Bit(x, k - n)
  {
    hide Bit;
    ShiftedBit(x, n, k);
  }

  lemma ShiftedBit(x: bv32, n: bv32, k: bv32)
    requires n <= k < 32
    ensures Bit(x << n, k) == Bit(x, k - n)
  {
  }

  lemma LeftNoBit(x: bv32, n: bv32, k: bv32)
    requires k < n <= 32
    ensures !Bit(Left(x, n), k)
  {
  }

  lemma RightBit(x: bv32, n: bv32, k: bv32)
    requires n <= 32 && k < 32 - n
    ensures k + n < 32 && Bit(Right(x, n), k) == Bit(x, k + n)
  {
    hide Bit;
    ShiftedRightBit(x, n, k);
  }

  lemma ShiftedRightBit(x: bv32, n: bv32, k: bv32)
    requires n <= 32 && k < 32 - n
    ensures k + n < 32 && Bit(x >> n, k) == Bit(x, k + n)
  {
  }

  lemma RightNoBit(x: bv32, n: bv32, k: bv32)
    requires n <= 32 && 32 - n <= k < 32
    ensures !Bit(Right(x, n), k)
  {
  }

  // ----- Rotation

  // Where bit `k` goes.
  function Moved(k: bv32, n: bv32): (m: bv32)
    requires n <= 32 && k < 32
    ensures m < 32
  {
    (k + n) & 31
  }

  lemma MovedIs(k: bv32, n: bv32)
    requires n <= 32 && k < 32
    ensures k < 32 - n ==> Moved(k, n) == k + n && n <= k + n < 32 && (k + n) - n == k
    ensures k >= 32 - n ==> Moved(k, n) == k - (32 - n) && Moved(k, n) < n && Moved(k, n) + (32 - n) == k
    ensures Moved(Moved(k, n), 32 - n) == k
  {
  }

  /** Rotating by `n` moves bit `k` to bit `k + n` modulo 32. */
  lemma RotateMoves(x: bv32, n: bv32, k: bv32)
    requires n <= 32 && k < 32
    ensures Bit(RotateLeft(x, n), (k + n) & 31) == Bit(x, k)
  {
    MovedIs(k, n);
    RotateBit(x, n, k, Moved(k, n));
  }

  lemma RotateBit(x: bv32, n: bv32, k: bv32, m: bv32)
    requires n <= 32 && k < 32 && m < 32
    requires k < 32 - n ==> n <= m && m - n == k && m >= 32 - (32 - n)
    requires k >= 32 - n ==> m < n && m < 32 - (32 - n) && m + (32 - n) == k
    ensures Bit(RotateLeft(x, n), m) == Bit(x, k)
  {
    hide Bit, RotateLeft, Left, Right, Or;
    RotateLeftIs(x, n);
    OrBit(Left(x, n), Right(x, 32 - n), m);
    if k < 32 - n {
      LeftBit(x, n, m);
      RightNoBit(x, 32 - n, m);
    } else {
      LeftNoBit(x, n, m);
      RightBit(x, 32 - n, m);
    }
  }

  lemma SameBits0To7(x: bv32, y: bv32)
    requires Bit(x, 0) == Bit(y, 0) && Bit(x, 1) == Bit(y, 1)
    requires Bit(x, 2) == Bit(y, 2) && Bit(x, 3) == Bit(y, 3)
    requires Bit(x, 4) == Bit(y, 4) && Bit(x, 5) == Bit(y, 5)
    requires Bit(x, 6) == Bit(y, 6) && Bit(x, 7) == Bit(y, 7)
    ensures x & 0x000000ff == y & 0x000000ff
  {
  }

  lemma SameBits8To15(x: bv32, y: bv32)
    requires Bit(x, 8) == Bit(y, 8) && Bit(x, 9) == Bit(y, 9)
    requires Bit(x, 10) == Bit(y, 10) && Bit(x, 11) == Bit(y, 11)
    requires Bit(x, 12) == Bit(y, 12) && Bit(x, 13) == Bit(y, 13)
    requires Bit(x, 14) == Bit(y, 14) && Bit(x, 15) == Bit(y, 15)
    ensures x & 0x0000ff00 == y & 0x0000ff00
  {
  }

  lemma SameBits16To23(x: bv32, y: bv32)
    requires Bit(x, 16) == Bit(y, 16) && Bit(x, 17) == Bit(y, 17)
    requires Bit(x, 18) == Bit(y, 18) && Bit(x, 19) == Bit(y, 19)
    requires Bit(x, 20) == Bit(y, 20) && Bit(x, 21) == Bit(y, 21)
    requires Bit(x, 22) == Bit(y, 22) && Bit(x, 23) == Bit(y, 23)
    ensures x & 0x00ff0000 == y & 0x00ff0000
  {
  }

  lemma SameBits24To31(x: bv32, y: bv32)
    requires Bit(x, 24) == Bit(y, 24) && Bit(x, 25) == Bit(y, 25)
    requires Bit(x, 26) == Bit(y, 26) && Bit(x, 27) == Bit(y, 27)
    requires Bit(x, 28) == Bit(y, 28) && Bit(x, 29) == Bit(y, 29)
    requires Bit(x, 30) == Bit(y, 30) && Bit(x, 31) == Bit(y, 31)
    ensures x & 0xff000000 == y & 0xff000000
  {
  }

  lemma SameBytes(x: bv32, y: bv32)
    requires x & 0x000000ff == y & 0x000000ff && x & 0x0000ff00 == y & 0x0000ff00
    requires x & 0x00ff0000 == y & 0x00ff0000 && x & 0xff000000 == y & 0xff000000
    ensures x == y
  {
  }

  lemma SameBits(x: bv32, y: bv32)
    requires forall k: bv32 :: k < 32 ==> Bit(x, k) == Bit(y, k)
    ensures x == y
  {
    hide Bit;
    SameBits0To7(x, y);
    SameBits8To15(x, y);
    SameBits16To23(x, y);
    SameBits24To31(x, y);
    SameBytes(x, y);
  }

  /** Rotating by the rest of 32 undoes a rotation. */
  lemma RotateBack(x: bv32, n: bv32)
    requires n <= 32
    ensures 32 - n <= 32 && RotateLeft(RotateLeft(x, n), 32 - n) == x
  {
    hide Bit, RotateLeft, Moved;
    RestOf32(n);
    var y := RotateLeft(RotateLeft(x, n), 32 - n);
    forall k: bv32 | k < 32 ensures Bit(y, k) == Bit(x, k) {
      MovedIs(k, n);
      RotateMovesTo(x, n, k);
      RotateMovesTo(RotateLeft(x, n), 32 - n, Moved(k, n));
    }
    SameBits(y, x);
  }

  lemma RestOf32(n: bv32)
    requires n <= 32
    ensures 32 - n <= 32
  {
  }

  lemma RotateMovesTo(x: bv32, n: bv32, k: bv32)
    requires n <= 32 && k < 32
    ensures Bit(RotateLeft(x, n), Moved(k, n)) == Bit(x, k)
  {
    hide Bit, RotateLeft;
    RotateMoves(x, n, k);
  }
}
