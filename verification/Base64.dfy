/** Standard Base64 with padding: section 4 of RFC 4648, decoded as strictly as the `STANDARD` engine does. */
module Base64 {
  import opened Bytes

  const PAD: byte := 0x3D

  function Symbol(v: nat): (c: byte)
    requires v < 64
    ensures Value(c) == Some(v)
  {
    if v < 26 then 0x41 + v
    else if v < 52 then 0x61 + (v - 26)
    else if v < 62 then 0x30 + (v - 52)
    else if v == 62 then 0x2B
    else 0x2F
  }

  function Value(c: byte): (v: Option<nat>)
    ensures v.Some? ==> v.value < 64
  {
    if 0x41 <= c <= 0x5A then Some(c - 0x41)
    else if 0x61 <= c <= 0x7A then Some(c - 0x61 + 26)
    else if 0x30 <= c <= 0x39 then Some(c - 0x30 + 52)
    else if c == 0x2B then Some(62)
    else if c == 0x2F then Some(63)
    else None
  }

  predicate IsSymbol(c: byte) { Value(c).Some? }

  function Encode(s: seq<byte>): (t: Text)
    ensures |t| == (|s| + 2) / 3 * 4
    ensures forall i | 0 <= i < |t| :: IsSymbol(t[i]) || t[i] == PAD
  {
    if |s| == 0 then []
    else if |s| == 1 then [Symbol(s[0] / 4), Symbol(s[0] % 4 * 16), PAD, PAD]
    else if |s| == 2 then [Symbol(s[0] / 4), Symbol(s[0] % 4 * 16 + s[1] / 16), Symbol(s[1] % 16 * 4), PAD]
    else [Symbol(s[0] / 4), Symbol(s[0] % 4 * 16 + s[1] / 16), Symbol(s[1] % 16 * 4 + s[2] / 64), Symbol(s[2] % 64)]
         + Encode(s[3..])
  }

  /** The bytes of one quad of symbols; the final quad may be padded, and its spare bits must be zero. */
  function DecodeQuad(a: byte, b: byte, c: byte, d: byte, final: bool): (r: Option<seq<byte>>)
  {
    if !IsSymbol(a) || !IsSymbol(b) then None else
    var v, w := Value(a).value, Value(b).value;
    if final && c == PAD && d == PAD then
      if w % 16 == 0 then Some([v * 4 + w / 16]) else None
    else if !IsSymbol(c) then None else
    var x := Value(c).value;
    if final && d == PAD then
      if x % 4 == 0 then Some([v * 4 + w / 16, w % 16 * 16 + x / 4]) else None
    else if !IsSymbol(d) then None else
    Some([v * 4 + w / 16, w % 16 * 16 + x / 4, x % 4 * 64 + Value(d).value])
  }

  function Decode(t: Text): (r: Option<seq<byte>>)
  {
    if t == [] then Some([])
    else if |t| < 4 then None
    else
      match DecodeQuad(t[0], t[1], t[2], t[3], |t| == 4)
      case None => None
      case Some(head) =>
        match Decode(t[4..])
        case None => None
        case Some(tail) => Some(head + tail)
  }

  lemma PadIsNoSymbol()
    ensures !IsSymbol(PAD)
  {
  }

  lemma QuadOfOne(p: byte)
    ensures DecodeQuad(Symbol(p / 4), Symbol(p % 4 * 16), PAD, PAD, true) == Some([p])
  {
  }

  lemma QuadOfTwo(p: byte, q: byte)
    ensures DecodeQuad(Symbol(p / 4), Symbol(p % 4 * 16 + q / 16), Symbol(q % 16 * 4), PAD, true) == Some([p, q])
  {
    hide Symbol, Value;
    PadIsNoSymbol();
    MiddleSextets(p, q, 0);
  }

  lemma QuadOfThree(p: byte, q: byte, r: byte, final: bool)
    ensures DecodeQuad(Symbol(p / 4), Symbol(p % 4 * 16 + q / 16), Symbol(q % 16 * 4 + r / 64), Symbol(r % 64), final)
         == Some([p, q, r])
  {
    hide Symbol, Value;
    PadIsNoSymbol();
    MiddleSextets(p, q, r);
  }

  lemma MiddleSextets(p: byte, q: byte, r: byte)
    ensures (p % 4 * 16 + q / 16) / 16 == p % 4 && (p % 4 * 16 + q / 16) % 16 == q / 16
    ensures (q % 16 * 4 + r / 64) / 4 == q % 16 && (q % 16 * 4 + r / 64) % 4 == r / 64
  {
  }

  /** Decoding undoes encoding. */
  lemma {:induction false} DecodeEncode(s: seq<byte>)
    ensures Decode(Encode(s)) == Some(s)
  {
    hide Symbol, Value, DecodeQuad;
    if |s| == 1 {
      QuadOfOne(s[0]);
      assert Encode(s)[4..] == [] && [s[0]] + [] == s;
    } else if |s| == 2 {
      QuadOfTwo(s[0], s[1]);
      assert Encode(s)[4..] == [] && [s[0], s[1]] + [] == s;
    } else if |s| >= 3 {
      QuadOfThree(s[0], s[1], s[2], |Encode(s)| == 4);
      DecodeEncode(s[3..]);
      assert Encode(s)[4..] == Encode(s[3..]);
      assert [s[0], s[1], s[2]] + s[3..] == s;
    }
  }

  /** `Engine::encode_slice`: writes into the front of `buf`, leaving the rest; `None` when it does not fit. */
  function EncodeSlice(input: seq<byte>, buf: seq<byte>): (r: Option<(seq<byte>, nat)>)
    ensures r.Some? <==> |Encode(input)| <= |buf|
    ensures r.Some? ==> r.value.1 <= |r.value.0| == |buf| && r.value.0[..r.value.1] == Encode(input)
  {
    var text := Encode(input);
    if |text| <= |buf| then Some((text + buf[|text|..], |text|)) else None
  }
}
