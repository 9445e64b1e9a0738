/**
 * The word-at-a-time byte search of src/client/pending.rs: eight bytes are
 * compared per step with the borrow trick `(w - 0x01..01) & !w & 0x80..80`.
 *
 * Facts about words are stated on their eight byte lanes. The `hide` statements
 * keep bit-level definitions out of proofs that only need such facts.
 */
module WordScan {
  import opened Bytes

  /** A byte as a machine byte. */
  function Bits(x: byte): (b: bv8) { x as bv8 }

  lemma {:induction false} SomeBits(x: byte) returns (b: bv8)
    ensures b as int == x
  {
    b := 0;
    if x > 0 {
      b := SomeBits(x - 1);
      b := b + 1;
    }
  }

  lemma BackToBits(b: bv8)
    ensures Bits(b as int) == b
  {
  }

  lemma BitsInjective(x: byte, y: byte)
    ensures Bits(x) == Bits(y) <==> x == y
  {
    var a := SomeBits(x);
    BackToBits(a);
    var b := SomeBits(y);
    BackToBits(b);
  }

  function LeWord(b0: bv8, b1: bv8, b2: bv8, b3: bv8, b4: bv8, b5: bv8, b6: bv8, b7: bv8): (w: bv64)
  {
    (b0 as bv64) | ((b1 as bv64) << 8) | ((b2 as bv64) << 16) | ((b3 as bv64) << 24)
    | ((b4 as bv64) << 32) | ((b5 as bv64) << 40) | ((b6 as bv64) << 48) | ((b7 as bv64) << 56)
  }

  /** `u64::from_le_bytes`: byte `i` sits in bits `8 * i`. */
  function WordAt(chunk: seq<byte>): (w: bv64)
    requires |chunk| == 8
  {
    LeWord(Bits(chunk[0]), Bits(chunk[1]), Bits(chunk[2]), Bits(chunk[3]),
           Bits(chunk[4]), Bits(chunk[5]), Bits(chunk[6]), Bits(chunk[7]))
  }

  function RepeatBits(b: bv8): (w: bv64) { (b as bv64) * 0x0101_0101_0101_0101 }

  /** Marks the high bit of every zero byte, and possibly of bytes above one. */
  function ZeroByteMask(word: bv64): (m: bv64)
  {
    (word - 0x0101_0101_0101_0101) & !word & 0x8080_8080_8080_8080
  }

  /** The bytes of `w`, lowest first. */
  predicate Lanes(w: bv64, b0: bv8, b1: bv8, b2: bv8, b3: bv8, b4: bv8, b5: bv8, b6: bv8, b7: bv8) {
    && (w & 0xFF) as bv8 == b0
    && ((w >> 8) & 0xFF) as bv8 == b1
    && ((w >> 16) & 0xFF) as bv8 == b2
    && ((w >> 24) & 0xFF) as bv8 == b3
    && ((w >> 32) & 0xFF) as bv8 == b4
    && ((w >> 40) & 0xFF) as bv8 == b5
    && ((w >> 48) & 0xFF) as bv8 == b6
    && ((w >> 56) & 0xFF) as bv8 == b7
  }

  lemma LeWordLanes(b0: bv8, b1: bv8, b2: bv8, b3: bv8, b4: bv8, b5: bv8, b6: bv8, b7: bv8)
    ensures Lanes(LeWord(b0, b1, b2, b3, b4, b5, b6, b7), b0, b1, b2, b3, b4, b5, b6, b7)
  {
  }

  lemma RepeatLanes(a: bv8)
    ensures Lanes(RepeatBits(a), a, a, a, a, a, a, a, a)
  {
  }

  lemma XorLanes(p: bv64, q: bv64, b0: bv8, b1: bv8, b2: bv8, b3: bv8, b4: bv8, b5: bv8, b6: bv8, b7: bv8, a: bv8)
    requires Lanes(p, b0, b1, b2, b3, b4, b5, b6, b7) && Lanes(q, a, a, a, a, a, a, a, a)
    ensures Lanes(p ^ q, b0 ^ a, b1 ^ a, b2 ^ a, b3 ^ a, b4 ^ a, b5 ^ a, b6 ^ a, b7 ^ a)
  {
  }

  lemma XorZero(b: bv8, a: bv8)
    ensures b ^ a == 0 <==> b == a
  {
  }

  lemma LanesInjective(w: bv64, b0: bv8, b1: bv8, b2: bv8, b3: bv8, b4: bv8, b5: bv8, b6: bv8, b7: bv8,
                       c0: bv8, c1: bv8, c2: bv8, c3: bv8, c4: bv8, c5: bv8, c6: bv8, c7: bv8)
    requires Lanes(w, b0, b1, b2, b3, b4, b5, b6, b7) && Lanes(w, c0, c1, c2, c3, c4, c5, c6, c7)
    ensures b0 == c0 && b1 == c1 && b2 == c2 && b3 == c3 && b4 == c4 && b5 == c5 && b6 == c6 && b7 == c7
  {
  }

  /** Up to the first zero byte of a word with bytes `b0..b7`, exactly the zero bytes are marked in `m`. */
  predicate Marked(m: bv64, b0: bv8, b1: bv8, b2: bv8, b3: bv8, b4: bv8, b5: bv8, b6: bv8, b7: bv8) {
    && (m & 0xFF) as bv8 == (if b0 == 0 then 0x80 else 0)
    && (b0 != 0 ==>
          ((m >> 8) & 0xFF) as bv8 == (if b1 == 0 then 0x80 else 0))
    && (b0 != 0 && b1 != 0 ==>
          ((m >> 16) & 0xFF) as bv8 == (if b2 == 0 then 0x80 else 0))
    && (b0 != 0 && b1 != 0 && b2 != 0 ==>
          ((m >> 24) & 0xFF) as bv8 == (if b3 == 0 then 0x80 else 0))
    && (b0 != 0 && b1 != 0 && b2 != 0 && b3 != 0 ==>
          ((m >> 32) & 0xFF) as bv8 == (if b4 == 0 then 0x80 else 0))
    && (b0 != 0 && b1 != 0 && b2 != 0 && b3 != 0 && b4 != 0 ==>
          ((m >> 40) & 0xFF) as bv8 == (if b5 == 0 then 0x80 else 0))
    && (b0 != 0 && b1 != 0 && b2 != 0 && b3 != 0 && b4 != 0 && b5 != 0 ==>
          ((m >> 48) & 0xFF) as bv8 == (if b6 == 0 then 0x80 else 0))
    && (b0 != 0 && b1 != 0 && b2 != 0 && b3 != 0 && b4 != 0 && b5 != 0 && b6 != 0 ==>
          ((m >> 56) & 0xFF) as bv8 == (if b7 == 0 then 0x80 else 0))
  }

  lemma MarkLanes(x: bv64, b0: bv8, b1: bv8, b2: bv8, b3: bv8, b4: bv8, b5: bv8, b6: bv8, b7: bv8)
    requires Lanes(x, b0, b1, b2, b3, b4, b5, b6, b7)
    ensures Marked(ZeroByteMask(x), b0, b1, b2, b3, b4, b5, b6, b7)
  {
  }

  /** The lowest mark of `m` is in the first byte whose flag is set. */
  predicate FirstMark(m: bv64, h0: bool, h1: bool, h2: bool, h3: bool, h4: bool, h5: bool, h6: bool, h7: bool) {
    && (h0 ==> (m & 0xFF) as bv8 == 0x80)
    && (!h0 ==> (m & 0xFF) as bv8 == 0)
    && (!h0 && h1 ==> ((m >> 8) & 0xFF) as bv8 == 0x80)
    && (!h0 && !h1 ==> ((m >> 8) & 0xFF) as bv8 == 0)
    && (!h0 && !h1 && h2 ==> ((m >> 16) & 0xFF) as bv8 == 0x80)
    && (!h0 && !h1 && !h2 ==> ((m >> 16) & 0xFF) as bv8 == 0)
    && (!h0 && !h1 && !h2 && h3 ==> ((m >> 24) & 0xFF) as bv8 == 0x80)
    && (!h0 && !h1 && !h2 && !h3 ==> ((m >> 24) & 0xFF) as bv8 == 0)
    && (!h0 && !h1 && !h2 && !h3 && h4 ==> ((m >> 32) & 0xFF) as bv8 == 0x80)
    && (!h0 && !h1 && !h2 && !h3 && !h4 ==> ((m >> 32) & 0xFF) as bv8 == 0)
    && (!h0 && !h1 && !h2 && !h3 && !h4 && h5 ==> ((m >> 40) & 0xFF) as bv8 == 0x80)
    && (!h0 && !h1 && !h2 && !h3 && !h4 && !h5 ==> ((m >> 40) & 0xFF) as bv8 == 0)
    && (!h0 && !h1 && !h2 && !h3 && !h4 && !h5 && h6 ==> ((m >> 48) & 0xFF) as bv8 == 0x80)
    && (!h0 && !h1 && !h2 && !h3 && !h4 && !h5 && !h6 ==> ((m >> 48) & 0xFF) as bv8 == 0)
    && (!h0 && !h1 && !h2 && !h3 && !h4 && !h5 && !h6 && h7 ==> ((m >> 56) & 0xFF) as bv8 == 0x80)
    && (!h0 && !h1 && !h2 && !h3 && !h4 && !h5 && !h6 && !h7 ==> ((m >> 56) & 0xFF) as bv8 == 0)
  }

  /**
   * A false mark can only sit above a zero byte, so in the OR of two masks the lowest mark is right for either word.
   */
  lemma OrMarks(p: bv64, q: bv64, b0: bv8, b1: bv8, b2: bv8, b3: bv8, b4: bv8, b5: bv8, b6: bv8, b7: bv8,
                c0: bv8, c1: bv8, c2: bv8, c3: bv8, c4: bv8, c5: bv8, c6: bv8, c7: bv8)
    requires Marked(p, b0, b1, b2, b3, b4, b5, b6, b7) && Marked(q, c0, c1, c2, c3, c4, c5, c6, c7)
    ensures FirstMark(p | q, b0 == 0 || c0 == 0, b1 == 0 || c1 == 0, b2 == 0 || c2 == 0, b3 == 0 || c3 == 0,
                      b4 == 0 || c4 == 0, b5 == 0 || c5 == 0, b6 == 0 || c6 == 0, b7 == 0 || c7 == 0)
  {
  }

  function TrailingZerosFrom(m: bv64, n: nat): (t: nat)
  {
    if n == 0 || m & 1 == 1 then 0 else 1 + TrailingZerosFrom(m >> 1, n - 1)
  }

  /** `u64::trailing_zeros`. */
  function TrailingZeros(m: bv64): (t: nat) { TrailingZerosFrom(m, 64) }

  lemma TwoZeros(m: bv64, n: nat)
    requires n >= 2 && m & 3 == 0
    ensures TrailingZerosFrom(m, n) == 2 + TrailingZerosFrom(m >> 2, n - 2)
  {
  }

  lemma FourZeros(m: bv64, n: nat)
    requires n >= 4 && m & 15 == 0
    ensures TrailingZerosFrom(m, n) == 4 + TrailingZerosFrom(m >> 4, n - 4)
  {
    TwoZeros(m, n);
    TwoZeros(m >> 2, n - 2);
    assert (m >> 2) >> 2 == m >> 4;
  }

  lemma EightZeros(m: bv64, n: nat)
    requires n >= 8 && m & 0xFF == 0
    ensures TrailingZerosFrom(m, n) == 8 + TrailingZerosFrom(m >> 8, n - 8)
  {
    FourZeros(m, n);
    FourZeros(m >> 4, n - 4);
    assert (m >> 4) >> 4 == m >> 8;
  }

  lemma SevenZeros(m: bv64, n: nat)
    requires n >= 8 && m & 0xFF == 0x80
    ensures TrailingZerosFrom(m, n) == 7
  {
    FourZeros(m, n);
    TwoZeros(m >> 4, n - 4);
    assert (m >> 4) >> 2 == m >> 6;
    assert (m >> 6) >> 1 == m >> 7;
    assert (m >> 6) & 1 == 0 && (m >> 7) & 1 == 1;
  }

  lemma NoMark(m: bv64)
    requires FirstMark(m, false, false, false, false, false, false, false, false)
    ensures m == 0
  {
  }

  lemma SomeMark(m: bv64, h0: bool, h1: bool, h2: bool, h3: bool, h4: bool, h5: bool, h6: bool, h7: bool)
    requires FirstMark(m, h0, h1, h2, h3, h4, h5, h6, h7)
    requires h0 || h1 || h2 || h3 || h4 || h5 || h6 || h7
    ensures m != 0
  {
  }

  lemma DropLane(m: bv64, h1: bool, h2: bool, h3: bool, h4: bool, h5: bool, h6: bool, h7: bool)
    requires FirstMark(m, false, h1, h2, h3, h4, h5, h6, h7)
    ensures m & 0xFF == 0 && FirstMark(m >> 8, h1, h2, h3, h4, h5, h6, h7, false)
  {
  }

  /** With the lowest mark in byte `k`, `trailing_zeros / 8` is `k`. */
  lemma {:induction false} LowestMark(m: bv64, h0: bool, h1: bool, h2: bool, h3: bool, h4: bool, h5: bool, h6: bool,
                                      h7: bool, lanes: nat)
    requires lanes <= 8 && FirstMark(m, h0, h1, h2, h3, h4, h5, h6, h7)
    requires h0 ==> lanes > 0
    requires h1 ==> lanes > 1
    requires h2 ==> lanes > 2
    requires h3 ==> lanes > 3
    requires h4 ==> lanes > 4
    requires h5 ==> lanes > 5
    requires h6 ==> lanes > 6
    requires h7 ==> lanes > 7
    requires h0 || h1 || h2 || h3 || h4 || h5 || h6 || h7
    ensures TrailingZerosFrom(m, 8 * lanes) / 8 ==
            if h0 then 0 else if h1 then 1 else if h2 then 2 else if h3 then 3
            else if h4 then 4 else if h5 then 5 else if h6 then 6 else 7
  {
    hide TrailingZerosFrom;
    if h0 {
      SevenZeros(m, 8 * lanes);
    } else {
      DropLane(m, h1, h2, h3, h4, h5, h6, h7);
      EightZeros(m, 8 * lanes);
      LowestMark(m >> 8, h1, h2, h3, h4, h5, h6, h7, false, lanes - 1);
    }
  }

  // The naive scan and the word-at-a-time one.

  predicate Hit(x: byte, a: byte, b: byte) { x == a || x == b }

  /** The obvious byte loop: the least index holding `a` or `b`. */
  function FirstEither(h: seq<byte>, a: byte, b: byte): (r: Option<nat>)
    ensures r.Some? ==> r.value < |h| && Hit(h[r.value], a, b) && forall i | 0 <= i < r.value :: !Hit(h[i], a, b)
    ensures r.None? ==> forall i | 0 <= i < |h| :: !Hit(h[i], a, b)
  {
    if h == [] then None
    else if Hit(h[0], a, b) then Some(0)
    else match FirstEither(h[1..], a, b)
      case None => None
      case Some(i) => Some(i + 1)
  }

  /** The OR of the two masks of one chunk: marks bytes equal to `a` or `b`. */
  function EitherBits(b0: bv8, b1: bv8, b2: bv8, b3: bv8, b4: bv8, b5: bv8, b6: bv8, b7: bv8, a: bv8, b: bv8): (m: bv64)
  {
    var word := LeWord(b0, b1, b2, b3, b4, b5, b6, b7);
    ZeroByteMask(word ^ RepeatBits(a)) | ZeroByteMask(word ^ RepeatBits(b))
  }

  function EitherMask(chunk: seq<byte>, a: byte, b: byte): (m: bv64)
    requires |chunk| == 8
  {
    EitherBits(Bits(chunk[0]), Bits(chunk[1]), Bits(chunk[2]), Bits(chunk[3]),
               Bits(chunk[4]), Bits(chunk[5]), Bits(chunk[6]), Bits(chunk[7]), Bits(a), Bits(b))
  }

  lemma WordMarks(b0: bv8, b1: bv8, b2: bv8, b3: bv8, b4: bv8, b5: bv8, b6: bv8, b7: bv8, a: bv8)
    ensures Marked(ZeroByteMask(LeWord(b0, b1, b2, b3, b4, b5, b6, b7) ^ RepeatBits(a)), b0 ^ a, b1 ^ a, b2 ^ a,
                   b3 ^ a, b4 ^ a, b5 ^ a, b6 ^ a, b7 ^ a)
  {
    hide LeWord, RepeatBits, Lanes, Marked, ZeroByteMask;
    LeWordLanes(b0, b1, b2, b3, b4, b5, b6, b7);
    RepeatLanes(a);
    XorLanes(LeWord(b0, b1, b2, b3, b4, b5, b6, b7), RepeatBits(a), b0, b1, b2, b3, b4, b5, b6, b7, a);
    MarkLanes(LeWord(b0, b1, b2, b3, b4, b5, b6, b7) ^ RepeatBits(a), b0 ^ a, b1 ^ a, b2 ^ a, b3 ^ a, b4 ^ a, b5 ^ a,
              b6 ^ a, b7 ^ a);
  }

  lemma EitherMarks(b0: bv8, b1: bv8, b2: bv8, b3: bv8, b4: bv8, b5: bv8, b6: bv8, b7: bv8, a: bv8, b: bv8)
    ensures FirstMark(EitherBits(b0, b1, b2, b3, b4, b5, b6, b7, a, b),
                      b0 == a || b0 == b, b1 == a || b1 == b, b2 == a || b2 == b, b3 == a || b3 == b,
                      b4 == a || b4 == b, b5 == a || b5 == b, b6 == a || b6 == b, b7 == a || b7 == b)
  {
    hide LeWord, RepeatBits, Marked, ZeroByteMask, FirstMark;
    WordMarks(b0, b1, b2, b3, b4, b5, b6, b7, a);
    WordMarks(b0, b1, b2, b3, b4, b5, b6, b7, b);
    OrMarks(ZeroByteMask(LeWord(b0, b1, b2, b3, b4, b5, b6, b7) ^ RepeatBits(a)),
            ZeroByteMask(LeWord(b0, b1, b2, b3, b4, b5, b6, b7) ^ RepeatBits(b)),
            b0 ^ a, b1 ^ a, b2 ^ a, b3 ^ a, b4 ^ a, b5 ^ a, b6 ^ a, b7 ^ a,
            b0 ^ b, b1 ^ b, b2 ^ b, b3 ^ b, b4 ^ b, b5 ^ b, b6 ^ b, b7 ^ b);
    XorZero(b0, a);
    XorZero(b0, b);
    XorZero(b1, a);
    XorZero(b1, b);
    XorZero(b2, a);
    XorZero(b2, b);
    XorZero(b3, a);
    XorZero(b3, b);
    XorZero(b4, a);
    XorZero(b4, b);
    XorZero(b5, a);
    XorZero(b5, b);
    XorZero(b6, a);
    XorZero(b6, b);
    XorZero(b7, a);
    XorZero(b7, b);
  }

  lemma ChunkMarks(chunk: seq<byte>, a: byte, b: byte)
    requires |chunk| == 8
    ensures FirstMark(EitherMask(chunk, a, b),
                      Hit(chunk[0], a, b), Hit(chunk[1], a, b), Hit(chunk[2], a, b), Hit(chunk[3], a, b),
                      Hit(chunk[4], a, b), Hit(chunk[5], a, b), Hit(chunk[6], a, b), Hit(chunk[7], a, b))
  {
    hide Bits, EitherBits, FirstMark;
    BitsInjective(chunk[0], a);
    BitsInjective(chunk[0], b);
    BitsInjective(chunk[1], a);
    BitsInjective(chunk[1], b);
    BitsInjective(chunk[2], a);
    BitsInjective(chunk[2], b);
    BitsInjective(chunk[3], a);
    BitsInjective(chunk[3], b);
    BitsInjective(chunk[4], a);
    BitsInjective(chunk[4], b);
    BitsInjective(chunk[5], a);
    BitsInjective(chunk[5], b);
    BitsInjective(chunk[6], a);
    BitsInjective(chunk[6], b);
    BitsInjective(chunk[7], a);
    BitsInjective(chunk[7], b);
    EitherMarks(Bits(chunk[0]), Bits(chunk[1]), Bits(chunk[2]), Bits(chunk[3]),
                Bits(chunk[4]), Bits(chunk[5]), Bits(chunk[6]), Bits(chunk[7]), Bits(a), Bits(b));
  }

  /** The mask of a chunk is zero without a hit, and its lowest mark is the first hit otherwise. */
  lemma ChunkHit(chunk: seq<byte>, a: byte, b: byte)
    requires |chunk| == 8
    ensures match FirstEither(chunk, a, b)
            case None => EitherMask(chunk, a, b) == 0
            case Some(k) => EitherMask(chunk, a, b) != 0 && TrailingZeros(EitherMask(chunk, a, b)) / 8 == k
  {
    hide EitherMask, FirstMark, FirstEither, TrailingZerosFrom;
    ChunkMarks(chunk, a, b);
    var m := EitherMask(chunk, a, b);
    if FirstEither(chunk, a, b).None? {
      NoMark(m);
    } else {
      SomeMark(m, Hit(chunk[0], a, b), Hit(chunk[1], a, b), Hit(chunk[2], a, b), Hit(chunk[3], a, b),
               Hit(chunk[4], a, b), Hit(chunk[5], a, b), Hit(chunk[6], a, b), Hit(chunk[7], a, b));
      LowestMark(m, Hit(chunk[0], a, b), Hit(chunk[1], a, b), Hit(chunk[2], a, b), Hit(chunk[3], a, b),
                 Hit(chunk[4], a, b), Hit(chunk[5], a, b), Hit(chunk[6], a, b), Hit(chunk[7], a, b), 8);
    }
  }

  /** `find_either`: eight bytes per step, then the remainder byte by byte. */
  method FindEither(haystack: seq<byte>, a: byte, b: byte) returns (r: Option<nat>)
    ensures r == FirstEither(haystack, a, b)
  {
    hide EitherMask, TrailingZeros;
    var offset := 0;
    while offset + 8 <= |haystack|
      invariant 0 <= offset <= |haystack|
      invariant forall i | 0 <= i < offset :: !Hit(haystack[i], a, b)
    {
      var chunk := haystack[offset..offset + 8];
      var mask := EitherMask(chunk, a, b);
      ChunkHit(chunk, a, b);
      assert forall i | offset <= i < offset + 8 :: haystack[i] == chunk[i - offset];
      if mask != 0 {
        return Some(offset + TrailingZeros(mask) / 8);
      }
      offset := offset + 8;
    }
    while offset < |haystack|
      invariant 0 <= offset <= |haystack|
      invariant forall i | 0 <= i < offset :: !Hit(haystack[i], a, b)
    {
      if Hit(haystack[offset], a, b) {
        return Some(offset);
      }
      offset := offset + 1;
    }
    return None;
  }

  /** Equal words have equal bytes. */
  lemma WordAtInjective(c: seq<byte>, d: seq<byte>)
    requires |c| == 8 && |d| == 8 && WordAt(c) == WordAt(d)
    ensures c == d
  {
    hide Bits, LeWord, Lanes;
    LeWordLanes(Bits(c[0]), Bits(c[1]), Bits(c[2]), Bits(c[3]), Bits(c[4]), Bits(c[5]), Bits(c[6]), Bits(c[7]));
    LeWordLanes(Bits(d[0]), Bits(d[1]), Bits(d[2]), Bits(d[3]), Bits(d[4]), Bits(d[5]), Bits(d[6]), Bits(d[7]));
    LanesInjective(WordAt(c),
                   Bits(c[0]), Bits(c[1]), Bits(c[2]), Bits(c[3]), Bits(c[4]), Bits(c[5]), Bits(c[6]), Bits(c[7]),
                   Bits(d[0]), Bits(d[1]), Bits(d[2]), Bits(d[3]), Bits(d[4]), Bits(d[5]), Bits(d[6]), Bits(d[7]));
    forall i | 0 <= i < 8 ensures c[i] == d[i] {
      BitsInjective(c[i], d[i]);
    }
  }
}
