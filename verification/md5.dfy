/** The MD5 message digest (RFC 1321), computed from a message that comes in pieces.

    The specification is the one-shot digest: pad the whole message, cut it into blocks, and fold the
    compression function over them, with the 64 steps of a block driven by tables.  The implementation has
    the unrolled steps, a buffer for the tail of the message and two count words, and its state is always
    the fold over the whole blocks that it has been given so far. */
module MessageDigest {

  type Byte = bv8

  // ----- Sections 3.3 and 3.4 of RFC 1321

  // The registers A, B, C and D.
  datatype Registers = Registers(a: bv32, b: bv32, c: bv32, d: bv32)

  const INITIAL := Registers(0x67452301, 0xefcdab89, 0x98badcfe, 0x10325476)

  function F(x: bv32, y: bv32, z: bv32): bv32 {
    (x & y) | (!x & z)
  }

  function G(x: bv32, y: bv32, z: bv32): bv32 {
    (x & z) | (y & !z)
  }

  function H(x: bv32, y: bv32, z: bv32): bv32 {
    x ^ y ^ z
  }

  function I(x: bv32, y: bv32, z: bv32): bv32 {
    y ^ (x | !z)
  }

  function RotateLeft(x: bv32, n: bv32): bv32
    requires n <= 32
  {
    (x << n) | (x >> (32 - n))
  }

  function Mix(a: bv32, f: bv32, x: bv32, s: bv32, t: bv32, b: bv32): bv32
    requires s <= 32
  {
    RotateLeft(a + f + x + t, s) + b
  }

  // The constants of the steps: the integer part of 4294967296 times abs(sin(i + 1)).
  function Sine1(i: nat): bv32
    requires 0 <= i < 16
  {
    match i
    case 0 => 0xd76aa478 case 1 => 0xe8c7b756 case 2 => 0x242070db case 3 => 0xc1bdceee
    case 4 => 0xf57c0faf case 5 => 0x4787c62a case 6 => 0xa8304613 case 7 => 0xfd469501
    case 8 => 0x698098d8 case 9 => 0x8b44f7af case 10 => 0xffff5bb1 case 11 => 0x895cd7be
    case 12 => 0x6b901122 case 13 => 0xfd987193 case 14 => 0xa679438e case 15 => 0x49b40821
  }

  function Sine2(i: nat): bv32
    requires 16 <= i < 32
  {
    match i
    case 16 => 0xf61e2562 case 17 => 0xc040b340 case 18 => 0x265e5a51 case 19 => 0xe9b6c7aa
    case 20 => 0xd62f105d case 21 => 0x02441453 case 22 => 0xd8a1e681 case 23 => 0xe7d3fbc8
    case 24 => 0x21e1cde6 case 25 => 0xc33707d6 case 26 => 0xf4d50d87 case 27 => 0x455a14ed
    case 28 => 0xa9e3e905 case 29 => 0xfcefa3f8 case 30 => 0x676f02d9 case 31 => 0x8d2a4c8a
  }

  function Sine3(i: nat): bv32
    requires 32 <= i < 48
  {
    match i
    case 32 => 0xfffa3942 case 33 => 0x8771f681 case 34 => 0x6d9d6122 case 35 => 0xfde5380c
    case 36 => 0xa4beea44 case 37 => 0x4bdecfa9 case 38 => 0xf6bb4b60 case 39 => 0xbebfbc70
    case 40 => 0x289b7ec6 case 41 => 0xeaa127fa case 42 => 0xd4ef3085 case 43 => 0x04881d05
    case 44 => 0xd9d4d039 case 45 => 0xe6db99e5 case 46 => 0x1fa27cf8 case 47 => 0xc4ac5665
  }

  function Sine4(i: nat): bv32
    requires 48 <= i < 64
  {
    match i
    case 48 => 0xf4292244 case 49 => 0x432aff97 case 50 => 0xab9423a7 case 51 => 0xfc93a039
    case 52 => 0x655b59c3 case 53 => 0x8f0ccc92 case 54 => 0xffeff47d case 55 => 0x85845dd1
    case 56 => 0x6fa87e4f case 57 => 0xfe2ce6e0 case 58 => 0xa3014314 case 59 => 0x4e0811a1
    case 60 => 0xf7537e82 case 61 => 0xbd3af235 case 62 => 0x2ad7d2bb case 63 => 0xeb86d391
  }

  function Sine(i: nat): bv32
    requires i < 64
  {
    if i < 16 then Sine1(i) else if i < 32 then Sine2(i) else if i < 48 then Sine3(i) else Sine4(i)
  }

  function Shift(i: nat): (s: bv32)
    requires i < 64
    ensures s <= 32
  {
    if i < 16 then [7, 12, 17, 22][i % 4]
    else if i < 32 then [5, 9, 14, 20][i % 4]
    else if i < 48 then [4, 11, 16, 23][i % 4]
    else [6, 10, 15, 21][i % 4]
  }

  // The word of the block that a step takes.
  function Index(i: nat): (k: nat)
    requires i < 64
    ensures k < 16
  {
    if i < 16 then i else if i < 32 then (5 * i + 1) % 16 else if i < 48 then (3 * i + 5) % 16 else 7 * i % 16
  }

  function Logic(i: nat, b: bv32, c: bv32, d: bv32): bv32
    requires i < 64
  {
    if i < 16 then F(b, c, d) else if i < 32 then G(b, c, d) else if i < 48 then H(b, c, d) else I(b, c, d)
  }

  /** One step; the registers change their roles. */
  function Step(i: nat, r: Registers, x: seq<bv32>): Registers
    requires i < 64 && |x| == 16
  {
    Registers(r.d, Mix(r.a, Logic(i, r.b, r.c, r.d), x[Index(i)], Shift(i), Sine(i), r.b), r.b, r.c)
  }

  function Steps(n: nat, s: Registers, x: seq<bv32>): Registers
    requires n <= 64 && |x| == 16
  {
    if n == 0 then s else Step(n - 1, Steps(n - 1, s, x), x)
  }

  function Word(bytes: seq<Byte>): bv32
    requires |bytes| == 4
  {
    bytes[0] as bv32 | (bytes[1] as bv32 << 8) | (bytes[2] as bv32 << 16) | (bytes[3] as bv32 << 24)
  }

  function Words(block: seq<Byte>): (x: seq<bv32>)
    requires |block| % 4 == 0
    ensures |x| == |block| / 4
  {
    seq(|block| / 4, i requires 0 <= i < |block| / 4 => Word(block[4 * i..4 * i + 4]))
  }

  // Addition of words, modulo 2^32.
  function Sum(x: bv32, y: bv32): bv32 {
    x + y
  }

  function Compress(s: Registers, block: seq<Byte>): Registers
    requires |block| == 64
  {
    var r := Steps(64, s, Words(block));
    Registers(Sum(s.a, r.a), Sum(s.b, r.b), Sum(s.c, r.c), Sum(s.d, r.d))
  }

  /** The registers after all whole blocks of a message. */
  function Digested(bytes: seq<Byte>): Registers {
    if |bytes| < 64 then INITIAL else
      var n := (|bytes| / 64 - 1) * 64;
      Compress(Digested(bytes[..n]), bytes[n..n + 64])
  }

  // ----- Sections 3.1, 3.2 and 3.5 of RFC 1321

  const TWO32 := 0x1_0000_0000

  // The bytes of a 32-bit number, the low-order one first.
  function NumberBytes(w: nat): seq<Byte>
    requires w < TWO32
  {
    [(w % 256) as bv8, (w / 256 % 256) as bv8, (w / 65536 % 256) as bv8, (w / 16777216 % 256) as bv8]
  }

  function WordBytes(w: bv32): seq<Byte> {
    [(w & 0xff) as bv8, ((w >> 8) & 0xff) as bv8, ((w >> 16) & 0xff) as bv8, ((w >> 24) & 0xff) as bv8]
  }

  /** The number of padding bytes: at least one, up to 8 bytes before the end of a block. */
  function PaddingLength(n: nat): (p: nat)
    ensures 1 <= p <= 64 && (n + p) % 64 == 56
  {
    if n % 64 < 56 then 56 - n % 64 else 120 - n % 64
  }

  function Padding(n: nat): seq<Byte>
    requires n > 0
  {
    [0x80] + seq(n - 1, i => 0)
  }

  // The length in bits, modulo 2^64, as two numbers with the low-order one first.
  function LengthBytes(n: nat): seq<Byte> {
    NumberBytes(8 * n % TWO32) + NumberBytes(8 * n / TWO32 % TWO32)
  }

  function Padded(message: seq<Byte>): seq<Byte> {
    message + Padding(PaddingLength(|message|)) + LengthBytes(|message|)
  }

  /** The digest of a message, of one piece. */
  function Digest(message: seq<Byte>): seq<Byte> {
    var r := Digested(Padded(message));
    WordBytes(r.a) + WordBytes(r.b) + WordBytes(r.c) + WordBytes(r.d)
  }

  /** There is one padding length that leaves 8 bytes in the last block. */
  lemma PaddingLengthUnique(n: nat, p: nat)
    requires 1 <= p <= 64 && (n + p) % 64 == 56
    ensures p == PaddingLength(n)
  {
  }

  lemma PaddedIsWhole(message: seq<Byte>)
    ensures |Padded(message)| % 64 == 0
  {
    hide Padding, LengthBytes;
    PaddingSize(PaddingLength(|message|));
    LengthSize(|message|);
  }

  lemma LengthSize(n: nat)
    ensures |LengthBytes(n)| == 8
  {
    hide NumberBytes;
    NumberSize(8 * n % TWO32);
    NumberSize(8 * n / TWO32 % TWO32);
  }

  lemma NumberSize(w: nat)
    requires w < TWO32
    ensures |NumberBytes(w)| == 4
  {
  }

  /** Encoding undoes decoding. */
  lemma WordRoundTrip(w: bv32)
    ensures Word(WordBytes(w)) == w
  {
  }

  // ----- The transformation as the code unrolls it

  function FF(a: bv32, b: bv32, c: bv32, d: bv32, x: bv32, s: bv32, t: bv32): bv32
    requires s <= 32
  {
    Mix(a, F(b, c, d), x, s, t, b)
  }

  function GG(a: bv32, b: bv32, c: bv32, d: bv32, x: bv32, s: bv32, t: bv32): bv32
    requires s <= 32
  {
    Mix(a, G(b, c, d), x, s, t, b)
  }

  function HH(a: bv32, b: bv32, c: bv32, d: bv32, x: bv32, s: bv32, t: bv32): bv32
    requires s <= 32
  {
    Mix(a, H(b, c, d), x, s, t, b)
  }

  function II(a: bv32, b: bv32, c: bv32, d: bv32, x: bv32, s: bv32, t: bv32): bv32
    requires s <= 32
  {
    Mix(a, I(b, c, d), x, s, t, b)
  }

  lemma Sines1To4()
    ensures Sine(0) == 0xd76aa478 && Sine(1) == 0xe8c7b756 && Sine(2) == 0x242070db && Sine(3) == 0xc1bdceee
  {
  }

  lemma Sines5To8()
    ensures Sine(4) == 0xf57c0faf && Sine(5) == 0x4787c62a && Sine(6) == 0xa8304613 && Sine(7) == 0xfd469501
  {
  }

  lemma Sines9To12()
    ensures Sine(8) == 0x698098d8 && Sine(9) == 0x8b44f7af && Sine(10) == 0xffff5bb1 && Sine(11) == 0x895cd7be
  {
  }

  lemma Sines13To16()
    ensures Sine(12) == 0x6b901122 && Sine(13) == 0xfd987193 && Sine(14) == 0xa679438e && Sine(15) == 0x49b40821
  {
  }

  lemma Sines17To20()
    ensures Sine(16) == 0xf61e2562 && Sine(17) == 0xc040b340 && Sine(18) == 0x265e5a51 && Sine(19) == 0xe9b6c7aa
  {
  }

  lemma Sines21To24()
    ensures Sine(20) == 0xd62f105d && Sine(21) == 0x02441453 && Sine(22) == 0xd8a1e681 && Sine(23) == 0xe7d3fbc8
  {
  }

  lemma Sines25To28()
    ensures Sine(24) == 0x21e1cde6 && Sine(25) == 0xc33707d6 && Sine(26) == 0xf4d50d87 && Sine(27) == 0x455a14ed
  {
  }

  lemma Sines29To32()
    ensures Sine(28) == 0xa9e3e905 && Sine(29) == 0xfcefa3f8 && Sine(30) == 0x676f02d9 && Sine(31) == 0x8d2a4c8a
  {
  }

  lemma Sines33To36()
    ensures Sine(32) == 0xfffa3942 && Sine(33) == 0x8771f681 && Sine(34) == 0x6d9d6122 && Sine(35) == 0xfde5380c
  {
  }

  lemma Sines37To40()
    ensures Sine(36) == 0xa4beea44 && Sine(37) == 0x4bdecfa9 && Sine(38) == 0xf6bb4b60 && Sine(39) == 0xbebfbc70
  {
  }

  lemma Sines41To44()
    ensures Sine(40) == 0x289b7ec6 && Sine(41) == 0xeaa127fa && Sine(42) == 0xd4ef3085 && Sine(43) == 0x04881d05
  {
  }

  lemma Sines45To48()
    ensures Sine(44) == 0xd9d4d039 && Sine(45) == 0xe6db99e5 && Sine(46) == 0x1fa27cf8 && Sine(47) == 0xc4ac5665
  {
  }

  lemma Sines49To52()
    ensures Sine(48) == 0xf4292244 && Sine(49) == 0x432aff97 && Sine(50) == 0xab9423a7 && Sine(51) == 0xfc93a039
  {
  }

  lemma Sines53To56()
    ensures Sine(52) == 0x655b59c3 && Sine(53) == 0x8f0ccc92 && Sine(54) == 0xffeff47d && Sine(55) == 0x85845dd1
  {
  }

  lemma Sines57To60()
    ensures Sine(56) == 0x6fa87e4f && Sine(57) == 0xfe2ce6e0 && Sine(58) == 0xa3014314 && Sine(59) == 0x4e0811a1
  {
  }

  lemma Sines61To64()
    ensures Sine(60) == 0xf7537e82 && Sine(61) == 0xbd3af235 && Sine(62) == 0x2ad7d2bb && Sine(63) == 0xeb86d391
  {
  }

  lemma StepIs(i: nat, s: Registers, x: seq<bv32>, r: Registers)
    requires i < 64 && |x| == 16 && r == Step(i, Steps(i, s, x), x)
    ensures r == Steps(i + 1, s, x)
  {
  }

  // ----- The digest as a state machine over pieces

  // ----- What an update keeps of the message

  // The whole blocks, which are digested, and the rest, which is in the buffer.
  function Whole(bytes: seq<Byte>): seq<Byte> {
    bytes[..|bytes| / 64 * 64]
  }

  function Rest(bytes: seq<Byte>): (rest: seq<Byte>)
    ensures |rest| == |bytes| % 64
  {
    bytes[|bytes| / 64 * 64..]
  }

  // The length in bits, in two words.
  function LowBits(n: nat): (bits: nat)
    ensures bits < TWO32
  {
    8 * n % TWO32
  }

  function HighBits(n: nat): (bits: nat)
    ensures bits < TWO32
  {
    8 * n / TWO32 % TWO32
  }

  // ----- The loop of an update, whose counter has 32 bits

  function Blocks(start: nat, length: nat): nat
    requires start <= length
  {
    (length - start) / 64
  }

  // Where the loop should stop: behind the last whole block.
  function Stop(start: nat, length: nat): (stop: nat)
    requires start <= length
    ensures start <= stop <= length < stop + 64
  {
    start + 64 * Blocks(start, length)
  }

  lemma StopIsLast(start: nat, length: nat, i: nat)
    requires start <= length && start <= i <= Stop(start, length) && (i - start) % 64 == 0
    ensures i <= length && (i < Stop(start, length) <==> i + 64 <= length) && (i < Stop(start, length) ==> i + 64 <= Stop(start, length))
  {
  }

  // The guard of the loop before block number `j`.
  predicate GoesOn(start: nat, length: nat, j: nat) {
    (start + 64 * j + 64) % TWO32 <= length
  }

  /** A piece that an update can take in with `index` bytes in the buffer: its length has 32 bits, and so has
      the sum in the guard of the loop. */
  predicate Fits(index: nat, length: nat)
    requires index < 64
  {
    length < TWO32 && (64 - index <= length ==> Stop(64 - index, length) + 64 < TWO32)
  }

  class MD5 {
    const state: array<bv32>
    const count: array<nat>
    const buffer: array<Byte>
    const digest: array<Byte>
    var finalized: bool
    ghost var message: seq<Byte>

    ghost predicate Shaped()
      reads this
    {
      state.Length == 4 && count.Length == 2 && buffer.Length == 64 && digest.Length == 16 && buffer != digest
    }

    function Current(): Registers
      requires Shaped()
      reads this, state
    {
      Registers(state[0], state[1], state[2], state[3])
    }

    /** The registers have taken in all whole blocks of the message, the buffer holds the rest, and the two
        count words hold its length in bits modulo 2^64. */
    ghost predicate Valid()
      reads this, state, count, buffer
    {
      && Shaped() && !finalized
      && Current() == Digested(message)
      && buffer[..|Rest(message)|] == Rest(message)
      && count[0] == LowBits(|message|) && count[1] == HighBits(|message|)
    }

    constructor ()
      ensures Valid() && message == []
      ensures fresh(state) && fresh(count) && fresh(buffer) && fresh(digest)
    {
      state, count, buffer, digest := new bv32[4], new nat[2], new Byte[64], new Byte[16];
      finalized, message := false, [];
      new;
      state[0], state[1], state[2], state[3] := 0x67452301, 0xefcdab89, 0x98badcfe, 0x10325476;
      count[0], count[1] := 0, 0;
      assert buffer[..0] == [];
    }

    static method Steps1To4(ghost s: Registers, r: Registers, x: seq<bv32>) returns (r': Registers)
      requires |x| == 16 && r == Steps(0, s, x)
      ensures r' == Steps(4, s, x)
    {
      hide Mix, F, G, H, I, Steps, Sine;
      Sines1To4();
      var a, b, c, d := r.a, r.b, r.c, r.d;
      a := FF(a, b, c, d, x[0], 7, 0xd76aa478);
      StepIs(0, s, x, Registers(d, a, b, c));
      d := FF(d, a, b, c, x[1], 12, 0xe8c7b756);
      StepIs(1, s, x, Registers(c, d, a, b));
      c := FF(c, d, a, b, x[2], 17, 0x242070db);
      StepIs(2, s, x, Registers(b, c, d, a));
      b := FF(b, c, d, a, x[3], 22, 0xc1bdceee);
      StepIs(3, s, x, Registers(a, b, c, d));
      r' := Registers(a, b, c, d);
    }

    static method Steps5To8(ghost s: Registers, r: Registers, x: seq<bv32>) returns (r': Registers)
      requires |x| == 16 && r == Steps(4, s, x)
      ensures r' == Steps(8, s, x)
    {
      hide Mix, F, G, H, I, Steps, Sine;
      Sines5To8();
      var a, b, c, d := r.a, r.b, r.c, r.d;
      a := FF(a, b, c, d, x[4], 7, 0xf57c0faf);
      StepIs(4, s, x, Registers(d, a, b, c));
      d := FF(d, a, b, c, x[5], 12, 0x4787c62a);
      StepIs(5, s, x, Registers(c, d, a, b));
      c := FF(c, d, a, b, x[6], 17, 0xa8304613);
      StepIs(6, s, x, Registers(b, c, d, a));
      b := FF(b, c, d, a, x[7], 22, 0xfd469501);
      StepIs(7, s, x, Registers(a, b, c, d));
      r' := Registers(a, b, c, d);
    }

    static method Steps9To12(ghost s: Registers, r: Registers, x: seq<bv32>) returns (r': Registers)
      requires |x| == 16 && r == Steps(8, s, x)
      ensures r' == Steps(12, s, x)
    {
      hide Mix, F, G, H, I, Steps, Sine;
      Sines9To12();
      var a, b, c, d := r.a, r.b, r.c, r.d;
      a := FF(a, b, c, d, x[8], 7, 0x698098d8);
      StepIs(8, s, x, Registers(d, a, b, c));
      d := FF(d, a, b, c, x[9], 12, 0x8b44f7af);
      StepIs(9, s, x, Registers(c, d, a, b));
      c := FF(c, d, a, b, x[10], 17, 0xffff5bb1);
      StepIs(10, s, x, Registers(b, c, d, a));
      b := FF(b, c, d, a, x[11], 22, 0x895cd7be);
      StepIs(11, s, x, Registers(a, b, c, d));
      r' := Registers(a, b, c, d);
    }

    static method Steps13To16(ghost s: Registers, r: Registers, x: seq<bv32>) returns (r': Registers)
      requires |x| == 16 && r == Steps(12, s, x)
      ensures r' == Steps(16, s, x)
    {
      hide Mix, F, G, H, I, Steps, Sine;
      Sines13To16();
      var a, b, c, d := r.a, r.b, r.c, r.d;
      a := FF(a, b, c, d, x[12], 7, 0x6b901122);
      StepIs(12, s, x, Registers(d, a, b, c));
      d := FF(d, a, b, c, x[13], 12, 0xfd987193);
      StepIs(13, s, x, Registers(c, d, a, b));
      c := FF(c, d, a, b, x[14], 17, 0xa679438e);
      StepIs(14, s, x, Registers(b, c, d, a));
      b := FF(b, c, d, a, x[15], 22, 0x49b40821);
      StepIs(15, s, x, Registers(a, b, c, d));
      r' := Registers(a, b, c, d);
    }

    static method Steps17To20(ghost s: Registers, r: Registers, x: seq<bv32>) returns (r': Registers)
      requires |x| == 16 && r == Steps(16, s, x)
      ensures r' == Steps(20, s, x)
    {
      hide Mix, F, G, H, I, Steps, Sine;
      Sines17To20();
      var a, b, c, d := r.a, r.b, r.c, r.d;
      a := GG(a, b, c, d, x[1], 5, 0xf61e2562);
      StepIs(16, s, x, Registers(d, a, b, c));
      d := GG(d, a, b, c, x[6], 9, 0xc040b340);
      StepIs(17, s, x, Registers(c, d, a, b));
      c := GG(c, d, a, b, x[11], 14, 0x265e5a51);
      StepIs(18, s, x, Registers(b, c, d, a));
      b := GG(b, c, d, a, x[0], 20, 0xe9b6c7aa);
      StepIs(19, s, x, Registers(a, b, c, d));
      r' := Registers(a, b, c, d);
    }

    static method Steps21To24(ghost s: Registers, r: Registers, x: seq<bv32>) returns (r': Registers)
      requires |x| == 16 && r == Steps(20, s, x)
      ensures r' == Steps(24, s, x)
    {
      hide Mix, F, G, H, I, Steps, Sine;
      Sines21To24();
      var a, b, c, d := r.a, r.b, r.c, r.d;
      a := GG(a, b, c, d, x[5], 5, 0xd62f105d);
      StepIs(20, s, x, Registers(d, a, b, c));
      d := GG(d, a, b, c, x[10], 9, 0x02441453);
      StepIs(21, s, x, Registers(c, d, a, b));
      c := GG(c, d, a, b, x[15], 14, 0xd8a1e681);
      StepIs(22, s, x, Registers(b, c, d, a));
      b := GG(b, c, d, a, x[4], 20, 0xe7d3fbc8);
      StepIs(23, s, x, Registers(a, b, c, d));
      r' := Registers(a, b, c, d);
    }

    static method Steps25To28(ghost s: Registers, r: Registers, x: seq<bv32>) returns (r': Registers)
      requires |x| == 16 && r == Steps(24, s, x)
      ensures r' == Steps(28, s, x)
    {
      hide Mix, F, G, H, I, Steps, Sine;
      Sines25To28();
      var a, b, c, d := r.a, r.b, r.c, r.d;
      a := GG(a, b, c, d, x[9], 5, 0x21e1cde6);
      StepIs(24, s, x, Registers(d, a, b, c));
      d := GG(d, a, b, c, x[14], 9, 0xc33707d6);
      StepIs(25, s, x, Registers(c, d, a, b));
      c := GG(c, d, a, b, x[3], 14, 0xf4d50d87);
      StepIs(26, s, x, Registers(b, c, d, a));
      b := GG(b, c, d, a, x[8], 20, 0x455a14ed);
      StepIs(27, s, x, Registers(a, b, c, d));
      r' := Registers(a, b, c, d);
    }

    static method Steps29To32(ghost s: Registers, r: Registers, x: seq<bv32>) returns (r': Registers)
      requires |x| == 16 && r == Steps(28, s, x)
      ensures r' == Steps(32, s, x)
    {
      hide Mix, F, G, H, I, Steps, Sine;
      Sines29To32();
      var a, b, c, d := r.a, r.b, r.c, r.d;
      a := GG(a, b, c, d, x[13], 5, 0xa9e3e905);
      StepIs(28, s, x, Registers(d, a, b, c));
      d := GG(d, a, b, c, x[2], 9, 0xfcefa3f8);
      StepIs(29, s, x, Registers(c, d, a, b));
      c := GG(c, d, a, b, x[7], 14, 0x676f02d9);
      StepIs(30, s, x, Registers(b, c, d, a));
      b := GG(b, c, d, a, x[12], 20, 0x8d2a4c8a);
      StepIs(31, s, x, Registers(a, b, c, d));
      r' := Registers(a, b, c, d);
    }

    static method Steps33To36(ghost s: Registers, r: Registers, x: seq<bv32>) returns (r': Registers)
      requires |x| == 16 && r == Steps(32, s, x)
      ensures r' == Steps(36, s, x)
    {
      hide Mix, F, G, H, I, Steps, Sine;
      Sines33To36();
      var a, b, c, d := r.a, r.b, r.c, r.d;
      a := HH(a, b, c, d, x[5], 4, 0xfffa3942);
      StepIs(32, s, x, Registers(d, a, b, c));
      d := HH(d, a, b, c, x[8], 11, 0x8771f681);
      StepIs(33, s, x, Registers(c, d, a, b));
      c := HH(c, d, a, b, x[11], 16, 0x6d9d6122);
      StepIs(34, s, x, Registers(b, c, d, a));
      b := HH(b, c, d, a, x[14], 23, 0xfde5380c);
      StepIs(35, s, x, Registers(a, b, c, d));
      r' := Registers(a, b, c, d);
    }

    static method Steps37To40(ghost s: Registers, r: Registers, x: seq<bv32>) returns (r': Registers)
      requires |x| == 16 && r == Steps(36, s, x)
      ensures r' == Steps(40, s, x)
    {
      hide Mix, F, G, H, I, Steps, Sine;
      Sines37To40();
      var a, b, c, d := r.a, r.b, r.c, r.d;
      a := HH(a, b, c, d, x[1], 4, 0xa4beea44);
      StepIs(36, s, x, Registers(d, a, b, c));
      d := HH(d, a, b, c, x[4], 11, 0x4bdecfa9);
      StepIs(37, s, x, Registers(c, d, a, b));
      c := HH(c, d, a, b, x[7], 16, 0xf6bb4b60);
      StepIs(38, s, x, Registers(b, c, d, a));
      b := HH(b, c, d, a, x[10], 23, 0xbebfbc70);
      StepIs(39, s, x, Registers(a, b, c, d));
      r' := Registers(a, b, c, d);
    }

    static method Steps41To44(ghost s: Registers, r: Registers, x: seq<bv32>) returns (r': Registers)
      requires |x| == 16 && r == Steps(40, s, x)
      ensures r' == Steps(44, s, x)
    {
      hide Mix, F, G, H, I, Steps, Sine;
      Sines41To44();
      var a, b, c, d := r.a, r.b, r.c, r.d;
      a := HH(a, b, c, d, x[13], 4, 0x289b7ec6);
      StepIs(40, s, x, Registers(d, a, b, c));
      d := HH(d, a, b, c, x[0], 11, 0xeaa127fa);
      StepIs(41, s, x, Registers(c, d, a, b));
      c := HH(c, d, a, b, x[3], 16, 0xd4ef3085);
      StepIs(42, s, x, Registers(b, c, d, a));
      b := HH(b, c, d, a, x[6], 23, 0x04881d05);
      StepIs(43, s, x, Registers(a, b, c, d));
      r' := Registers(a, b, c, d);
    }

    static method Steps45To48(ghost s: Registers, r: Registers, x: seq<bv32>) returns (r': Registers)
      requires |x| == 16 && r == Steps(44, s, x)
      ensures r' == Steps(48, s, x)
    {
      hide Mix, F, G, H, I, Steps, Sine;
      Sines45To48();
      var a, b, c, d := r.a, r.b, r.c, r.d;
      a := HH(a, b, c, d, x[9], 4, 0xd9d4d039);
      StepIs(44, s, x, Registers(d, a, b, c));
      d := HH(d, a, b, c, x[12], 11, 0xe6db99e5);
      StepIs(45, s, x, Registers(c, d, a, b));
      c := HH(c, d, a, b, x[15], 16, 0x1fa27cf8);
      StepIs(46, s, x, Registers(b, c, d, a));
      b := HH(b, c, d, a, x[2], 23, 0xc4ac5665);
      StepIs(47, s, x, Registers(a, b, c, d));
      r' := Registers(a, b, c, d);
    }

    static method Steps49To52(ghost s: Registers, r: Registers, x: seq<bv32>) returns (r': Registers)
      requires |x| == 16 && r == Steps(48, s, x)
      ensures r' == Steps(52, s, x)
    {
      hide Mix, F, G, H, I, Steps, Sine;
      Sines49To52();
      var a, b, c, d := r.a, r.b, r.c, r.d;
      a := II(a, b, c, d, x[0], 6, 0xf4292244);
      StepIs(48, s, x, Registers(d, a, b, c));
      d := II(d, a, b, c, x[7], 10, 0x432aff97);
      StepIs(49, s, x, Registers(c, d, a, b));
      c := II(c, d, a, b, x[14], 15, 0xab9423a7);
      StepIs(50, s, x, Registers(b, c, d, a));
      b := II(b, c, d, a, x[5], 21, 0xfc93a039);
      StepIs(51, s, x, Registers(a, b, c, d));
      r' := Registers(a, b, c, d);
    }

    static method Steps53To56(ghost s: Registers, r: Registers, x: seq<bv32>) returns (r': Registers)
      requires |x| == 16 && r == Steps(52, s, x)
      ensures r' == Steps(56, s, x)
    {
      hide Mix, F, G, H, I, Steps, Sine;
      Sines53To56();
      var a, b, c, d := r.a, r.b, r.c, r.d;
      a := II(a, b, c, d, x[12], 6, 0x655b59c3);
      StepIs(52, s, x, Registers(d, a, b, c));
      d := II(d, a, b, c, x[3], 10, 0x8f0ccc92);
      StepIs(53, s, x, Registers(c, d, a, b));
      c := II(c, d, a, b, x[10], 15, 0xffeff47d);
      StepIs(54, s, x, Registers(b, c, d, a));
      b := II(b, c, d, a, x[1], 21, 0x85845dd1);
      StepIs(55, s, x, Registers(a, b, c, d));
      r' := Registers(a, b, c, d);
    }

    static method Steps57To60(ghost s: Registers, r: Registers, x: seq<bv32>) returns (r': Registers)
      requires |x| == 16 && r == Steps(56, s, x)
      ensures r' == Steps(60, s, x)
    {
      hide Mix, F, G, H, I, Steps, Sine;
      Sines57To60();
      var a, b, c, d := r.a, r.b, r.c, r.d;
      a := II(a, b, c, d, x[8], 6, 0x6fa87e4f);
      StepIs(56, s, x, Registers(d, a, b, c));
      d := II(d, a, b, c, x[15], 10, 0xfe2ce6e0);
      StepIs(57, s, x, Registers(c, d, a, b));
      c := II(c, d, a, b, x[6], 15, 0xa3014314);
      StepIs(58, s, x, Registers(b, c, d, a));
      b := II(b, c, d, a, x[13], 21, 0x4e0811a1);
      StepIs(59, s, x, Registers(a, b, c, d));
      r' := Registers(a, b, c, d);
    }

    static method Steps61To64(ghost s: Registers, r: Registers, x: seq<bv32>) returns (r': Registers)
      requires |x| == 16 && r == Steps(60, s, x)
      ensures r' == Steps(64, s, x)
    {
      hide Mix, F, G, H, I, Steps, Sine;
      Sines61To64();
      var a, b, c, d := r.a, r.b, r.c, r.d;
      a := II(a, b, c, d, x[4], 6, 0xf7537e82);
      StepIs(60, s, x, Registers(d, a, b, c));
      d := II(d, a, b, c, x[11], 10, 0xbd3af235);
      StepIs(61, s, x, Registers(c, d, a, b));
      c := II(c, d, a, b, x[2], 15, 0x2ad7d2bb);
      StepIs(62, s, x, Registers(b, c, d, a));
      b := II(b, c, d, a, x[9], 21, 0xeb86d391);
      StepIs(63, s, x, Registers(a, b, c, d));
      r' := Registers(a, b, c, d);
    }

    // The unrolled steps, in groups of four that bring every register back to its place.
    static method AllSteps(s: Registers, x: seq<bv32>) returns (r: Registers)
      requires |x| == 16
      ensures r == Steps(64, s, x)
    {
      hide Steps;
      StepsNone(s, x);
      r := s;
      r := Steps1To4(s, r, x);
      r := Steps5To8(s, r, x);
      r := Steps9To12(s, r, x);
      r := Steps13To16(s, r, x);
      r := Steps17To20(s, r, x);
      r := Steps21To24(s, r, x);
      r := Steps25To28(s, r, x);
      r := Steps29To32(s, r, x);
      r := Steps33To36(s, r, x);
      r := Steps37To40(s, r, x);
      r := Steps41To44(s, r, x);
      r := Steps45To48(s, r, x);
      r := Steps49To52(s, r, x);
      r := Steps53To56(s, r, x);
      r := Steps57To60(s, r, x);
      r := Steps61To64(s, r, x);
    }

    static method Decode(block: seq<Byte>) returns (x: seq<bv32>)
      requires |block| == 64
      ensures x == Words(block)
    {
      x := [];
      for i := 0 to 16
        invariant |x| == i && forall k :: 0 <= k < i ==> x[k] == Words(block)[k]
      {
        x := x + [Word(block[4 * i..4 * i + 4])];
      }
    }

    method Transform(block: seq<Byte>)
      requires Shaped() && |block| == 64
      modifies state
      ensures Current() == Compress(old(Current()), block)
    {
      hide Steps, Words, Sum;
      var x := Decode(block);
      var r := AllSteps(Registers(state[0], state[1], state[2], state[3]), x);
      state[0] := Sum(state[0], r.a);
      state[1] := Sum(state[1], r.b);
      state[2] := Sum(state[2], r.c);
      state[3] := Sum(state[3], r.d);
    }

    // Adds the bits of the input to the two count words.
    method AddBits(length: nat)
      requires Shaped() && count[0] < TWO32 && count[1] < TWO32 && length < TWO32
      modifies count
      ensures var shifted := 8 * length % TWO32;
              var carried := if count[0] < shifted then (old(count[1]) + 1) % TWO32 else old(count[1]);
              && count[0] == (old(count[0]) + shifted) % TWO32 && count[1] == (carried + length / 0x2000_0000) % TWO32
    {
      var shifted := 8 * length % TWO32;
      count[0] := (count[0] + shifted) % TWO32;
      if count[0] < shifted {
        count[1] := (count[1] + 1) % TWO32;
      }
      count[1] := (count[1] + length / 0x2000_0000) % TWO32;
    }

    method Store(index: nat, bytes: seq<Byte>)
      requires Shaped() && index + |bytes| <= 64
      modifies buffer
      ensures buffer[..index + |bytes|] == old(buffer[..index]) + bytes
    {
      forall k | 0 <= k < |bytes| {
        buffer[index + k] := bytes[k];
      }
    }

    // Transforms the whole blocks of the input from `start` on.
    method TransformBlocks(input: seq<Byte>, start: nat, ghost before: seq<Byte>) returns (i: nat)
      requires Shaped() && start <= |input| < TWO32 && Stop(start, |input|) + 64 < TWO32
      requires |before| % 64 == 0 && Current() == Digested(before)
      modifies state
      ensures start <= i <= |input| < i + 64 && (i - start) % 64 == 0
      ensures Current() == Digested(before + input[start..i])
    {
      hide Compress, Digested, Stop;
      i := start;
      assert before + input[start..i] == before;
      StopIsLast(start, |input|, i);
      while (i + 64) % TWO32 <= |input|
        invariant start <= i <= Stop(start, |input|) && i <= |input| && (i - start) % 64 == 0
        invariant Current() == Digested(before + input[start..i])
      {
        StopIsLast(start, |input|, i);
        BlockFollows(before, input, start, i);
        Transform(input[i..i + 64]);
        i := i + 64;
      }
      StopIsLast(start, |input|, i);
    }

    // Fills the buffer and transforms it and the whole blocks that follow.
    method TakeBlocks(input: seq<Byte>, index: nat, ghost whole: seq<Byte>, ghost rest: seq<Byte>) returns (i: nat)
      requires Shaped() && Current() == Digested(whole) && |whole| % 64 == 0
      requires index == |rest| < 64 && buffer[..index] == rest && 64 - index <= |input| && Fits(index, |input|)
      modifies state, buffer
      ensures i <= |input| < i + 64 && |whole + rest + input[..i]| % 64 == 0
      ensures Current() == Digested(whole + rest + input[..i])
    {
      hide Compress, Digested;
      var firstPart := 64 - index;
      ghost var block := rest + input[..firstPart];
      Store(index, input[..firstPart]);
      assert buffer[..] == buffer[..64];
      DigestedBlock(whole, block);
      Transform(buffer[..]);
      i := TransformBlocks(input, firstPart, whole + block);
      assert whole + block + input[firstPart..i] == whole + rest + input[..i];
    }

    // Takes whole blocks and keeps the rest in the buffer.
    method TakeIn(input: seq<Byte>, index: nat, ghost whole: seq<Byte>, ghost rest: seq<Byte>)
      requires Shaped() && Current() == Digested(whole) && |whole| % 64 == 0
      requires index == |rest| < 64 && buffer[..index] == rest && Fits(index, |input|)
      modifies state, buffer
      ensures var all := whole + rest + input;
              Current() == Digested(Whole(all)) && buffer[..|Rest(all)|] == Rest(all)
    {
      hide Compress, Digested, Whole, Rest;
      if |input| >= 64 - index {
        var i := TakeBlocks(input, index, whole, rest);
        Store(0, input[i..]);
        WholeAndRest(whole + rest, input, i, whole + rest + input[..i]);
        assert buffer[..|input[i..]|] == input[i..];
      } else {
        Store(index, input);
        PartOfBlock(whole, rest + input);
        assert whole + rest + input == whole + (rest + input);
      }
    }

    // Counts the input in.
    method CountIn(length: nat, ghost n: nat)
      requires Shaped() && count[0] == LowBits(n) && count[1] == HighBits(n) && length < TWO32
      modifies count
      ensures count[0] == LowBits(n + length) && count[1] == HighBits(n + length)
    {
      CountGrows(n, length, count[0], count[1]);
      AddBits(length);
    }

    /** Takes in one more piece of the message. */
    method Update(input: seq<Byte>)
      requires Valid() && Fits(|message| % 64, |input|)
      modifies this, state, count, buffer
      ensures Valid() && message == old(message) + input
    {
      hide Compress, Digested, Fits, Whole, Rest, LowBits, HighBits;
      FitsIsShort(|message| % 64, |input|);
      WholeBlocks(message);
      IndexIs(|message|);
      var index := count[0] / 8 % 64;
      CountIn(|input|, |message|);
      TakeIn(input, index, Whole(message), Rest(message));
      message := message + input;
      WholeBlocks(message);
    }

    method Pad()
      requires Valid()
      modifies this, state, count, buffer
      ensures Valid() && message == Padded(old(message))
    {
      hide Digested, Padding, LengthBytes, NumberBytes, Whole, Rest, LowBits, HighBits, Fits;
      LengthIs(|message|);
      IndexIs(|message|);
      PadFits(|message|);
      var bits := NumberBytes(count[0]) + NumberBytes(count[1]);
      var index := count[0] / 8 % 64;
      var padLen := if index < 56 then 56 - index else 120 - index;
      PaddingSize(padLen);
      Update(Padding(padLen));
      Update(bits);
    }

    /** Ends the message; a second call changes nothing. */
    method Finalize()
      requires Shaped() && (!finalized ==> Valid())
      modifies this, state, count, buffer, digest
      ensures Shaped() && finalized
      ensures !old(finalized) ==> digest[..] == Digest(old(message))
      ensures old(finalized) ==> digest[..] == old(digest[..])
    {
      if !finalized {
        hide Digested, Compress, Padding, LengthBytes, NumberBytes;
        ghost var m := message;
        Pad();
        WriteDigest();
        forall k | 0 <= k < 64 {
          buffer[k] := 0;
        }
        count[0], count[1] := 0, 0;
        finalized := true;
      }
    }

    static method Encode(words: seq<bv32>) returns (bytes: seq<Byte>)
      ensures bytes == Encoded(words)
    {
      hide WordBytes;
      bytes := [];
      for i := 0 to |words|
        invariant bytes == Encoded(words[..i])
      {
        assert words[..i + 1][..i] == words[..i];
        bytes := bytes + WordBytes(words[i]);
      }
      assert words[..|words|] == words;
    }

    method WriteDigest()
      requires Shaped()
      modifies digest
      ensures var r := Current();
              digest[..] == WordBytes(r.a) + WordBytes(r.b) + WordBytes(r.c) + WordBytes(r.d)
    {
      hide WordBytes, Encoded;
      var bytes := Encode([state[0], state[1], state[2], state[3]]);
      FourWords(state[0], state[1], state[2], state[3]);
      forall k | 0 <= k < 16 {
        digest[k] := bytes[k];
      }
    }
  }

  function Encoded(words: seq<bv32>): seq<Byte> {
    if words == [] then [] else Encoded(words[..|words| - 1]) + WordBytes(words[|words| - 1])
  }

  lemma FourWords(a: bv32, b: bv32, c: bv32, d: bv32)
    ensures Encoded([a, b, c, d]) == WordBytes(a) + WordBytes(b) + WordBytes(c) + WordBytes(d)
    ensures |Encoded([a, b, c, d])| == 16
  {
    var words := [a, b, c, d];
    assert words[..3] == [a, b, c] && [a, b, c][..2] == [a, b] && [a, b][..1] == [a] && [a][..0] == [];
    assert Encoded([a]) == WordBytes(a);
    assert Encoded([a, b]) == WordBytes(a) + WordBytes(b);
    assert Encoded([a, b, c]) == WordBytes(a) + WordBytes(b) + WordBytes(c);
  }

  lemma PartOfBlock(whole: seq<Byte>, rest: seq<Byte>)
    requires |whole| % 64 == 0 && |rest| < 64
    ensures var all := whole + rest; Whole(all) == whole && Rest(all) == rest
  {
    assert |whole + rest| / 64 * 64 == |whole|;
  }

  function Joined(pieces: seq<seq<Byte>>): seq<Byte> {
    if pieces == [] then [] else Joined(pieces[..|pieces| - 1]) + pieces[|pieces| - 1]
  }

  /** However a message is cut into pieces, its digest is that of the whole. */
  method DigestOfPieces(pieces: seq<seq<Byte>>) returns (digest: seq<Byte>)
    requires forall i :: 0 <= i < |pieces| ==> Fits(|Joined(pieces[..i])| % 64, |pieces[i]|)
    ensures digest == Digest(Joined(pieces))
  {
    hide Fits, Digested, Whole, Rest, LowBits, HighBits;
    var md5 := new MD5();
    for i := 0 to |pieces|
      invariant md5.Valid() && md5.message == Joined(pieces[..i])
      invariant fresh(md5) && fresh(md5.state) && fresh(md5.count) && fresh(md5.buffer) && fresh(md5.digest)
    {
      assert pieces[..i + 1][..i] == pieces[..i];
      md5.Update(pieces[i]);
    }
    assert pieces[..|pieces|] == pieces;
    md5.Finalize();
    digest := md5.digest[..];
  }

  // After the blocks of a piece, the rest of the message is the rest of the piece.
  lemma WholeAndRest(message: seq<Byte>, input: seq<Byte>, i: nat, whole: seq<Byte>)
    requires i <= |input| < i + 64 && whole == message + input[..i] && |whole| % 64 == 0
    ensures var all := message + input; Whole(all) == whole && Rest(all) == input[i..]
  {
    var all := message + input;
    assert all == whole + input[i..];
    assert |all| / 64 * 64 == |whole|;
  }

  lemma LengthIs(n: nat)
    ensures LengthBytes(n) == NumberBytes(LowBits(n)) + NumberBytes(HighBits(n)) && |LengthBytes(n)| == 8
  {
  }

  lemma PaddingSize(n: nat)
    requires n > 0
    ensures |Padding(n)| == n
  {
  }

  // ----- Messages that grow

  lemma {:induction false} DigestedPrefix(bytes: seq<Byte>)
    ensures Digested(bytes) == Digested(Whole(bytes))
  {
    hide Compress;
    var whole := Whole(bytes);
    if |bytes| >= 64 {
      var n := (|bytes| / 64 - 1) * 64;
      assert bytes[..n] == whole[..n] && bytes[n..n + 64] == whole[n..n + 64];
      assert |whole| / 64 == |bytes| / 64;
    }
  }

  lemma WholeBlocks(bytes: seq<Byte>)
    ensures Digested(bytes) == Digested(Whole(bytes)) && |Whole(bytes)| % 64 == 0
    ensures Whole(bytes) + Rest(bytes) == bytes
  {
    hide Digested;
    DigestedPrefix(bytes);
  }

  lemma DigestedStep(bytes: seq<Byte>, n: nat)
    requires |bytes| >= 64 && n == (|bytes| / 64 - 1) * 64
    ensures Digested(bytes) == Compress(Digested(bytes[..n]), bytes[n..n + 64])
  {
    hide Compress;
  }

  lemma LastBlock(n: nat)
    requires n % 64 == 0
    ensures ((n + 64) / 64 - 1) * 64 == n
  {
  }

  /** Digesting goes on block by block. */
  lemma DigestedBlock(whole: seq<Byte>, block: seq<Byte>)
    requires |whole| % 64 == 0 && |block| == 64
    ensures Digested(whole + block) == Compress(Digested(whole), block)
  {
    hide Compress, Digested;
    var all := whole + block;
    LastBlock(|whole|);
    DigestedStep(all, |whole|);
    assert all[..|whole|] == whole && all[|whole|..|whole| + 64] == block;
  }

  lemma BlockFollows(before: seq<Byte>, input: seq<Byte>, start: nat, i: nat)
    requires start <= i && i + 64 <= |input| && (|before| + i - start) % 64 == 0
    ensures Digested(before + input[start..i + 64]) == Compress(Digested(before + input[start..i]), input[i..i + 64])
  {
    hide Compress, Digested;
    DigestedBlock(before + input[start..i], input[i..i + 64]);
    assert before + input[start..i + 64] == before + input[start..i] + input[i..i + 64];
  }

  lemma Divided(x: nat, q: nat, r: nat)
    requires x == TWO32 * q + r && r < TWO32
    ensures x / TWO32 == q && x % TWO32 == r
  {
  }

  lemma HighWord(q: nat, p: nat, carry: nat)
    requires carry <= 1
    ensures ((q % TWO32 + carry) % TWO32 + p) % TWO32 == (q + p + carry) % TWO32
  {
    var k, r := q / TWO32, q % TWO32;
    Divided(q, k, r);
    if r + carry < TWO32 {
      SameModulo(r + carry + p, k, q + p + carry);
    } else {
      assert (r + carry) % TWO32 == 0;
      SameModulo(p, k + 1, q + p + carry);
    }
  }

  lemma SameModulo(x: nat, k: nat, y: nat)
    requires y == TWO32 * k + x
    ensures x % TWO32 == y % TWO32
  {
    Divided(x, x / TWO32, x % TWO32);
    Divided(y, k + x / TWO32, x % TWO32);
  }

  /** The count words hold the length in bits modulo 2^64, also when the low one wraps around. */
  lemma CountGrows(n: nat, l: nat, lo: nat, hi: nat)
    requires l < TWO32 && lo == LowBits(n) && hi == HighBits(n)
    ensures var shifted := 8 * l % TWO32;
            var lo' := (lo + shifted) % TWO32;
            var carried := if lo' < shifted then (hi + 1) % TWO32 else hi;
            && lo' == LowBits(n + l) && (carried + l / 0x2000_0000) % TWO32 == HighBits(n + l)
  {
    var q, p, s := 8 * n / TWO32, l / 0x2000_0000, 8 * l % TWO32;
    Divided(8 * n, q, lo);
    assert 8 * l == TWO32 * p + s;
    Carried(q, p, lo, s, 8 * (n + l));
  }

  lemma Carried(q: nat, p: nat, lo: nat, s: nat, total: nat)
    requires lo < TWO32 && s < TWO32 && total == TWO32 * (q + p) + lo + s
    ensures var carried := if (lo + s) % TWO32 < s then (q % TWO32 + 1) % TWO32 else q % TWO32;
            (lo + s) % TWO32 == total % TWO32 && (carried + p) % TWO32 == total / TWO32 % TWO32
  {
    if lo + s < TWO32 {
      Divided(total, q + p, lo + s);
      HighWord(q, p, 0);
    } else {
      Divided(total, q + p + 1, lo + s - TWO32);
      HighWord(q, p, 1);
    }
  }

  lemma IndexIs(n: nat)
    ensures LowBits(n) / 8 % 64 == n % 64
  {
  }

  // The padding and the length are short.
  lemma PadFits(n: nat)
    ensures forall index, length :: 0 <= index < 64 && 0 <= length <= 120 ==> Fits(index, length)
  {
  }

  /** The loop takes the blocks behind the first part, no more and no fewer, exactly when the sum in its guard
      does not wrap around where it should stop; all earlier sums are in range. */
  lemma LoopStopsIff(start: nat, length: nat)
    requires start <= length < TWO32
    ensures (forall j :: 0 <= j < Blocks(start, length) ==> GoesOn(start, length, j)) && !GoesOn(start, length, Blocks(start, length))
       <==> Stop(start, length) + 64 < TWO32
  {
    forall j | 0 <= j < Blocks(start, length) ensures GoesOn(start, length, j) {
      assert start + 64 * j + 64 <= length;
    }
  }

  /** A piece for which it does not: with an empty buffer and 2^32 - 64 bytes the loop goes on at the end of
      the input, and takes a block that is not part of it. */
  lemma LoopRunsOn()
    ensures var length := TWO32 - 64;
            && length < TWO32 && !Fits(0, length)
            && Stop(64, length) == length && GoesOn(64, length, Blocks(64, length))
  {
  }

  lemma FitsIsShort(index: nat, length: nat)
    requires index < 64
    ensures Fits(index, length) ==> length < TWO32
  {
  }

  /** With 63 bytes in the buffer the same number of bytes is taken in properly. */
  lemma FullerBufferFits()
    ensures Fits(63, TWO32 - 64)
  {
  }

  lemma StepsNone(s: Registers, x: seq<bv32>)
    requires |x| == 16
    ensures Steps(0, s, x) == s
  {
  }
}