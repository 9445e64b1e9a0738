/**
 * The cipher block chaining mode of section 6.2 of NIST SP 800-38A over an
 * arbitrary block permutation, with the zero-byte padding of src/crypto/session.rs.
 */
module Cbc {
  import opened Bytes

  type Block = b: seq<byte> | |b| == 16 witness Zeros(16)

  /** The session key as the permutation it selects, and the initialisation vector. */
  datatype SessionKeys = SessionKeys(encrypt: Block -> Block, decrypt: Block -> Block, iv: Block) {
    ghost predicate Inverse() { forall b: Block :: decrypt(encrypt(b)) == b }
  }

  function XorBits(a: nat, b: nat, width: nat): (x: nat)
  {
    if width == 0 then 0 else (if a % 2 == b % 2 then 0 else 1) + 2 * XorBits(a / 2, b / 2, width - 1)
  }

  lemma {:induction false} XorTwice(a: nat, b: nat, width: nat, bound: nat)
    requires bound == Pow2(width) && a < bound && b < bound
    ensures XorBits(a, b, width) < bound
    ensures XorBits(XorBits(a, b, width), b, width) == a
  {
    if width > 0 {
      XorTwice(a / 2, b / 2, width - 1, bound / 2);
      var x, y := XorBits(a, b, width), XorBits(a / 2, b / 2, width - 1);
      var low := if a % 2 == b % 2 then 0 else 1;
      assert x == low + 2 * y;
      assert x % 2 == low && x / 2 == y;
    }
  }

  function Pow2(n: nat): (p: nat)
  {
    if n == 0 then 1 else 2 * Pow2(n - 1)
  }

  function XorByte(a: byte, b: byte): (x: byte)
    ensures XorBits(x, b, 8) == a
  {
    assert Pow2(8) == 256 by {
      assert Pow2(4) == 16;
      assert Pow2(6) == 64;
    }
    XorTwice(a, b, 8, 256);
    XorBits(a, b, 8)
  }

  function Xor(a: Block, b: Block): (x: Block)
    ensures forall i | 0 <= i < 16 :: x[i] == XorByte(a[i], b[i])
  {
    seq(16, i requires 0 <= i < 16 => XorByte(a[i], b[i]))
  }

  lemma XorInvolution(a: Block, b: Block)
    ensures Xor(Xor(a, b), b) == a
  {
  }

  function Encrypt(keys: SessionKeys, chain: Block, data: seq<byte>): (c: seq<byte>)
    requires |data| % 16 == 0
    ensures |c| == |data|
    decreases |data|
  {
    if data == [] then []
    else
      var block: Block := keys.encrypt(Xor(data[..16], chain));
      block + Encrypt(keys, block, data[16..])
  }

  function Decrypt(keys: SessionKeys, chain: Block, data: seq<byte>): (p: seq<byte>)
    requires |data| % 16 == 0
    ensures |p| == |data|
    decreases |data|
  {
    if data == [] then []
    else Xor(keys.decrypt(data[..16]), chain) + Decrypt(keys, data[..16], data[16..])
  }

  /** Decryption undoes encryption block by block. */
  lemma {:induction false} DecryptEncrypt(keys: SessionKeys, chain: Block, data: seq<byte>)
    requires keys.Inverse() && |data| % 16 == 0
    ensures Decrypt(keys, chain, Encrypt(keys, chain, data)) == data
    decreases |data|
  {
    if data != [] {
      var block: Block := keys.encrypt(Xor(data[..16], chain));
      var c := Encrypt(keys, chain, data);
      assert c[..16] == block && c[16..] == Encrypt(keys, block, data[16..]);
      XorInvolution(data[..16], chain);
      DecryptEncrypt(keys, block, data[16..]);
      assert data[..16] + data[16..] == data;
    }
  }

  /** `next_multiple_of(16)` for a length, as the padded length. */
  function PaddedLen(n: nat): (m: nat)
    ensures m % 16 == 0 && n <= m < n + 16
  {
    (n + 15) / 16 * 16
  }

  /** Zero-byte padding: nothing at all on a block boundary. */
  function ZeroPad(data: seq<byte>): (p: seq<byte>)
    ensures |p| == PaddedLen(|data|) && data <= p
  {
    data + Zeros(PaddedLen(|data|) - |data|)
  }

  /** `aes_encrypt_zerobyte`. */
  function EncryptZeroPadded(keys: SessionKeys, data: seq<byte>): (c: seq<byte>)
    ensures |c| == PaddedLen(|data|)
  {
    Encrypt(keys, keys.iv, ZeroPad(data))
  }

  /** `aes_decrypt_zerobyte`: refuses a length that is not a multiple of 16 and strips trailing NULs. */
  function DecryptZeroPadded(keys: SessionKeys, data: seq<byte>): (r: Option<seq<byte>>)
    ensures r.Some? <==> |data| % 16 == 0
  {
    if |data| % 16 == 0 then Some(StripNuls(Decrypt(keys, keys.iv, data))) else None
  }

  /** The round trip loses exactly the trailing NULs of the plaintext. */
  lemma ZeroPaddedRoundTrip(keys: SessionKeys, data: seq<byte>)
    requires keys.Inverse()
    ensures DecryptZeroPadded(keys, EncryptZeroPadded(keys, data)) == Some(StripNuls(data))
  {
    DecryptEncrypt(keys, keys.iv, ZeroPad(data));
    var r := StripNuls(data);
    var p := ZeroPad(data);
    assert p == r + Zeros(|p| - |r|);
    StripNulsIs(p, r, |p| - |r|);
  }
}
