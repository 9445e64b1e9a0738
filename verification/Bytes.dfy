/** Bytes, byte strings and the little-endian integers of the wire. */
module Bytes {
  type byte = x: int | 0 <= x < 256

  /** A Rust `str` or `[u8]`: its bytes. Where UTF-8 validity matters it is stated with `Utf8.Valid`. */
  type Text = seq<byte>

  datatype Option<+T> = None | Some(value: T)

  const SLASH: byte := 0x2F

  /** The value of a hex digit in either case. */
  function HexValue(c: byte): (v: Option<nat>)
    ensures v.Some? ==> v.value < 16
  {
    if 0x30 <= c <= 0x39 then Some(c - 0x30)
    else if 0x61 <= c <= 0x66 then Some(c - 0x57)
    else if 0x41 <= c <= 0x46 then Some(c - 0x37)
    else None
  }

  /** The bytes of an ASCII literal. */
  function Ascii(s: string): (t: Text)
    requires forall i | 0 <= i < |s| :: s[i] < 128 as char
    ensures |t| == |s| && forall i | 0 <= i < |s| :: t[i] == s[i] as int
  {
    seq(|s|, i requires 0 <= i < |s| => s[i] as int)
  }

  function Min(a: nat, b: nat): (m: nat)
  {
    if a <= b then a else b
  }

  function Zeros(n: nat): (z: seq<byte>)
    ensures |z| == n && forall i | 0 <= i < n :: z[i] == 0
  {
    seq(n, _ => 0)
  }

  /** Dropping a front and cutting a tail commute. */
  lemma DropTake(s: Text, n: nat, m: nat)
    requires n <= m <= |s|
    ensures s[n..][..m - n] == s[..m][n..]
  {
  }

  /** `u32::from_le_bytes`. */
  function LeU32(b: seq<byte>): (n: nat)
    requires |b| == 4
    ensures n < 0x1_0000_0000
  {
    (b[0] as int) + 0x100 * (b[1] as int) + 0x1_0000 * (b[2] as int) + 0x100_0000 * (b[3] as int)
  }

  /** `u32::to_le_bytes`. */
  function U32Le(n: nat): (b: seq<byte>)
    requires n < 0x1_0000_0000
    ensures |b| == 4 && LeU32(b) == n
  {
    var n1 := n / 0x100;
    var n2 := n1 / 0x100;
    [n % 0x100, n1 % 0x100, n2 % 0x100, n2 / 0x100]
  }

  lemma LeU32Inverse(b: seq<byte>)
    requires |b| == 4
    ensures U32Le(LeU32(b)) == b
  {
    var n, b0: int, b1: int, b2: int, b3: int := LeU32(b), b[0], b[1], b[2], b[3];
    var n1 := b1 + 0x100 * b2 + 0x1_0000 * b3;
    var n2 := b2 + 0x100 * b3;
    assert n == b0 + 0x100 * n1 && n1 == b1 + 0x100 * n2;
    assert n / 0x100 == n1 && n1 / 0x100 == n2;
  }

  /** Everything up to and including the first `sep` is dropped; `None` without one (`split_once`). */
  function AfterFirst(s: Text, sep: byte): (r: Option<Text>)
  {
    if s == [] then None
    else if s[0] == sep then Some(s[1..])
    else AfterFirst(s[1..], sep)
  }

  lemma {:induction false} AfterFirstOf(head: Text, sep: byte, rest: Text)
    requires sep !in head
    ensures AfterFirst(head + [sep] + rest, sep) == Some(rest)
  {
    var s := head + [sep] + rest;
    if head == [] {
      assert s[1..] == rest;
    } else {
      assert s[1..] == head[1..] + [sep] + rest;
      AfterFirstOf(head[1..], sep, rest);
    }
  }

  /** Drops trailing NUL bytes. */
  function StripNuls(s: Text): (r: Text)
    ensures r <= s
    ensures r == [] || r[|r| - 1] != 0
    ensures forall i | |r| <= i < |s| :: s[i] == 0
  {
    if s != [] && s[|s| - 1] == 0 then StripNuls(s[..|s| - 1]) else s
  }

  /** What `StripNuls` leaves is determined by ending in a non-NUL byte and dropping only NULs. */
  lemma {:induction false} StripNulsIs(s: Text, r: Text, n: nat)
    requires s == r + Zeros(n)
    requires r == [] || r[|r| - 1] != 0
    ensures StripNuls(s) == r
  {
    if n > 0 {
      assert s[..|s| - 1] == r + Zeros(n - 1);
      StripNulsIs(s[..|s| - 1], r, n - 1);
    }
  }
}
