/** Loxone UUIDs and their string form (src/uuid.rs). */
module LoxoneUuid {
  import opened Bytes
  import opened EventTables

  const LOXONE_UUID_STR_LEN := 35
  const DASH: byte := 0x2D

  function HexDigit(v: nat): (c: byte)
    requires v < 16
    ensures HexValue(c) == Some(v) && c != DASH
  {
    if v < 10 then 0x30 + v else 0x57 + v
  }

  function Hex(b: byte): (t: Text)
    ensures |t| == 2
  {
    [HexDigit(b / 16), HexDigit(b % 16)]
  }

  function HexAll(bytes: Text): (t: Text)
    ensures |t| == 2 * |bytes|
  {
    if bytes == [] then [] else Hex(bytes[0]) + HexAll(bytes[1..])
  }

  /** The display order of the wire bytes: the first three fields are little-endian on the wire. */
  function Displayed(u: Uuid): (bytes: Uuid)
  {
    [u[3], u[2], u[1], u[0], u[5], u[4], u[7], u[6]] + u[8..]
  }

  lemma DisplayedTwice(u: Uuid)
    ensures Displayed(Displayed(u)) == u
  {
  }

  function Head(b: Uuid): (t: Text)
    ensures |t| == 19
  {
    HexAll(b[..4]) + [DASH] + HexAll(b[4..6]) + [DASH] + HexAll(b[6..8]) + [DASH]
  }

  /** The `8-4-4-16` form: no dash between clock sequence and node. */
  function Format(u: Uuid): (t: Text)
    ensures |t| == LOXONE_UUID_STR_LEN
  {
    Head(Displayed(u)) + HexAll(Displayed(u)[8..])
  }

  lemma {:induction false} HexAllConcat(a: Text, b: Text)
    ensures HexAll(a + b) == HexAll(a) + HexAll(b)
  {
    if a == [] {
      assert a + b == b;
    } else {
      assert (a + b)[1..] == a[1..] + b;
      HexAllConcat(a[1..], b);
    }
  }

  method PutHex(out: array<byte>, at: nat, b: byte)
    requires at + 1 < out.Length
    modifies out
    ensures out[..at + 2] == old(out[..at]) + Hex(b) && out[at + 2..] == old(out[at + 2..])
  {
    out[at] := HexDigit(b / 16);
    out[at + 1] := HexDigit(b % 16);
  }

  lemma HexOne(b: byte)
    ensures HexAll([b]) == Hex(b)
  {
  }

  lemma HexTwo(a: byte, b: byte)
    ensures HexAll([a, b]) == Hex(a) + Hex(b)
  {
  }

  lemma HeadIs(b: Uuid)
    ensures Head(b) == Hex(b[0]) + Hex(b[1]) + Hex(b[2]) + Hex(b[3]) + [DASH] + Hex(b[4]) + Hex(b[5]) + [DASH]
            + Hex(b[6]) + Hex(b[7]) + [DASH]
  {
    hide Hex;
    HexAllConcat(b[..2], b[2..4]);
    assert b[..4] == b[..2] + b[2..4];
    HexTwo(b[0], b[1]);
    HexTwo(b[2], b[3]);
    HexTwo(b[4], b[5]);
    HexTwo(b[6], b[7]);
    assert b[..2] == [b[0], b[1]] && b[2..4] == [b[2], b[3]] && b[4..6] == [b[4], b[5]] && b[6..8] == [b[6], b[7]];
  }

  predicate AllDashes(t: Text) { forall i | 0 <= i < |t| :: t[i] == DASH }

  /** The next two hex pairs go behind what is already there. */
  method PutPair(out: array<byte>, at: nat, a: byte, b: byte)
    requires at + 4 <= out.Length && AllDashes(out[at..])
    modifies out
    ensures out[..at + 4] == old(out[..at]) + Hex(a) + Hex(b) && AllDashes(out[at + 4..])
  {
    hide Hex;
    PutHex(out, at, a);
    PutHex(out, at + 2, b);
    assert out[at + 4..] == old(out[at + 4..]) == old(out[at..])[4..];
  }

  lemma DashNext(t: Text, at: nat)
    requires at < |t| && AllDashes(t[at..])
    ensures t[..at + 1] == t[..at] + [DASH] && AllDashes(t[at + 1..])
  {
  }

  /** The fields before the last dash. */
  method PutHead(out: array<byte>, u: Uuid)
    requires out.Length == LOXONE_UUID_STR_LEN && AllDashes(out[..])
    modifies out
    ensures out[..19] == Head(Displayed(u))
  {
    hide Hex, Head, AllDashes;
    assert out[0..] == out[..] && out[..0] == [];
    PutPair(out, 0, u[3], u[2]);
    PutPair(out, 4, u[1], u[0]);
    DashNext(out[..], 8);
    PutPair(out, 9, u[5], u[4]);
    DashNext(out[..], 13);
    PutPair(out, 14, u[7], u[6]);
    DashNext(out[..], 18);
    HeadIs(Displayed(u));
  }

  /** `format_loxone_bytes`: hex pairs put into a buffer of dashes. */
  method FormatLoxoneBytes(u: Uuid) returns (out: array<byte>)
    ensures fresh(out) && out[..] == Format(u)
  {
    hide Hex, Head;
    out := new byte[LOXONE_UUID_STR_LEN](_ => DASH);
    PutHead(out, u);
    ghost var b := Displayed(u);
    var src, dst := 8, 19;
    assert b[8..8] == [];
    while src < 16
      invariant 8 <= src <= 16 && dst == 19 + 2 * (src - 8)
      invariant out[..dst] == Head(b) + HexAll(b[8..src])
    {
      PutHex(out, dst, u[src]);
      HexOne(u[src]);
      HexAllConcat(b[8..src], [u[src]]);
      assert b[8..src + 1] == b[8..src] + [u[src]];
      src := src + 1;
      dst := dst + 2;
    }
    assert b[8..16] == b[8..];
    assert out[..35] == out[..];
  }

  // Parsing.

  /** The values of the hex digits of `s` with dashes skipped; `None` when anything else occurs. */
  function Digits(s: Text): (d: Option<seq<nat>>)
    ensures d.Some? ==> forall i | 0 <= i < |d.value| :: d.value[i] < 16
  {
    if s == [] then Some([])
    else if s[0] == DASH then Digits(s[1..])
    else match HexValue(s[0])
         case None => None
         case Some(v) => (match Digits(s[1..]) case None => None case Some(d) => Some([v] + d))
  }

  function Pack(d: seq<nat>): (bytes: Text)
    requires |d| % 2 == 0 && forall i | 0 <= i < |d| :: d[i] < 16
    ensures |bytes| == |d| / 2
  {
    if d == [] then [] else [16 * d[0] + d[1]] + Pack(d[2..])
  }

  function Parse(s: Text): (u: Option<Uuid>)
  {
    match Digits(s)
    case None => None
    case Some(d) => if |d| == 32 then Some(Displayed(Pack(d))) else None
  }

  /** What the first `|d|` nibbles leave in the sixteen bytes. */
  predicate Filled(raw: Text, d: seq<nat>) {
    && |raw| == 16 && |d| <= 32
    && (forall i | 0 <= i < |d| / 2 :: raw[i] == 16 * d[2 * i] + d[2 * i + 1])
    && (|d| % 2 == 1 ==> raw[|d| / 2] == 16 * d[|d| - 1])
  }

  lemma {:induction false} PackAt(d: seq<nat>, i: nat)
    requires |d| % 2 == 0 && (forall i | 0 <= i < |d| :: d[i] < 16) && 2 * i + 1 < |d|
    ensures Pack(d)[i] == 16 * d[2 * i] + d[2 * i + 1]
  {
    if i > 0 {
      PackAt(d[2..], i - 1);
      assert d[2..][2 * (i - 1)] == d[2 * i] && d[2..][2 * (i - 1) + 1] == d[2 * i + 1];
    }
  }

  lemma FilledIsPack(raw: Text, d: seq<nat>)
    requires Filled(raw, d) && |d| == 32 && forall i | 0 <= i < |d| :: d[i] < 16
    ensures Pack(d) == raw
  {
    hide Pack;
    forall i | 0 <= i < 16 ensures Pack(d)[i] == raw[i] {
      PackAt(d, i);
    }
  }

  /** One more character on the right. */
  lemma {:induction false} DigitsAppend(s: Text, c: byte)
    ensures Digits(s + [c]) == if c == DASH then Digits(s)
                               else if Digits(s).None? || HexValue(c).None? then None
                               else Some(Digits(s).value + [HexValue(c).value])
  {
    hide HexValue;
    if s == [] {
      EmptyDigits();
      assert s + [c] == [c] && [c][1..] == [];
      if HexValue(c).Some? {
        var v := HexValue(c).value;
        assert [v] + [] == [v] == [] + [v];
      }
    } else {
      DigitsAppend(s[1..], c);
      assert (s + [c])[1..] == s[1..] + [c];
      if s[0] != DASH && Digits(s).Some? && c != DASH && HexValue(c).Some? {
        var d, v := Digits(s[1..]).value, HexValue(s[0]).value;
        assert [v] + (d + [HexValue(c).value]) == [v] + d + [HexValue(c).value];
      }
    }
  }

  lemma {:induction false} DigitsPrefix(s: Text, i: nat)
    requires i <= |s|
    ensures Digits(s[..i]).None? ==> Digits(s).None?
    ensures Digits(s[..i]).Some? && Digits(s).Some? ==> |Digits(s[..i]).value| <= |Digits(s).value|
    decreases |s| - i
  {
    hide Digits, HexValue;
    if i < |s| {
      DigitsAppend(s[..i], s[i]);
      assert s[..i + 1] == s[..i] + [s[i]];
      DigitsPrefix(s, i + 1);
    } else {
      assert s[..i] == s;
    }
  }

  /** `parse`: nibbles go into a sixteen-byte buffer as they are read; more than 32 digits and anything else fail. */
  method ParseUuid(s: Text) returns (u: Option<Uuid>)
    ensures u == Parse(s)
  {
    hide Digits, HexValue, Displayed;
    var raw: Text := Zeros(16);
    var nibbles := 0;
    EmptyDigits();
    for at := 0 to |s|
      invariant Digits(s[..at]).Some? && nibbles == |Digits(s[..at]).value|
      invariant Filled(raw, Digits(s[..at]).value)
    {
      DigitsAppend(s[..at], s[at]);
      DigitsPrefix(s, at + 1);
      assert s[..at + 1] == s[..at] + [s[at]];
      if s[at] != DASH {
        var v := HexValue(s[at]);
        if v.None? || nibbles >= 32 {
          return None;
        }
        var i := nibbles / 2;
        raw := raw[i := if nibbles % 2 == 0 then 16 * v.value else raw[i] + v.value];
        nibbles := nibbles + 1;
      }
    }
    assert s[..|s|] == s;
    if nibbles != 32 {
      return None;
    }
    FilledIsPack(raw, Digits(s).value);
    u := Some(Displayed(raw));
  }

  lemma EmptyDigits()
    ensures Digits([]) == Some([])
  {
  }

  function Dashless(s: Text): (t: Text)
  {
    if s == [] then [] else (if s[0] == DASH then [] else [s[0]]) + Dashless(s[1..])
  }

  lemma {:induction false} DigitsIff(s: Text)
    ensures Digits(s).Some? <==> forall c | c in Dashless(s) :: HexValue(c).Some?
    ensures Digits(s).Some? ==> |Digits(s).value| == |Dashless(s)|
  {
    if s != [] {
      DigitsIff(s[1..]);
      if s[0] != DASH {
        assert s[0] in Dashless(s);
        assert forall c | c in Dashless(s[1..]) :: c in Dashless(s);
      }
    }
  }

  /** `parse` succeeds exactly on 32 hex digits with any number of dashes anywhere. */
  lemma ParseIff(s: Text)
    ensures Parse(s).Some? <==> |Dashless(s)| == 32 && forall c | c in Dashless(s) :: HexValue(c).Some?
  {
    DigitsIff(s);
  }

  lemma {:induction false} DigitsConcat(a: Text, b: Text)
    requires Digits(a).Some? && Digits(b).Some?
    ensures Digits(a + b) == Some(Digits(a).value + Digits(b).value)
  {
    if a == [] {
      assert a + b == b && [] + Digits(b).value == Digits(b).value;
    } else {
      assert (a + b)[1..] == a[1..] + b;
      DigitsConcat(a[1..], b);
      if a[0] != DASH {
        assert [HexValue(a[0]).value] + (Digits(a[1..]).value + Digits(b).value) == Digits(a).value + Digits(b).value;
      }
    }
  }

  lemma {:induction false} PackConcat(a: seq<nat>, b: seq<nat>)
    requires |a| % 2 == 0 && |b| % 2 == 0 && (forall i | 0 <= i < |a| :: a[i] < 16)
             && forall i | 0 <= i < |b| :: b[i] < 16
    ensures Pack(a + b) == Pack(a) + Pack(b)
  {
    if a == [] {
      assert a + b == b;
    } else {
      assert (a + b)[2..] == a[2..] + b;
      PackConcat(a[2..], b);
    }
  }

  /** Hex pairs read back as the bytes they show. */
  lemma {:induction false} DigitsOfHex(bytes: Text)
    ensures Digits(HexAll(bytes)).Some? && |Digits(HexAll(bytes)).value| == 2 * |bytes|
    ensures Pack(Digits(HexAll(bytes)).value) == bytes
  {
    hide HexValue, HexDigit;
    if bytes != [] {
      var t, more := HexAll(bytes), HexAll(bytes[1..]);
      DigitsOfHex(bytes[1..]);
      assert t[1..][1..] == more;
      var d := Digits(more).value;
      assert Digits(t) == Some([bytes[0] / 16] + ([bytes[0] % 16] + d));
      assert ([bytes[0] / 16] + ([bytes[0] % 16] + d))[2..] == d;
    }
  }

  /** A dash-separated pair of pieces reads back as both. */
  lemma JoinPieces(a: Text, x: Text, b: Text, y: Text)
    requires Digits(a).Some? && |Digits(a).value| == 2 * |x| && Pack(Digits(a).value) == x
    requires Digits(b).Some? && |Digits(b).value| == 2 * |y| && Pack(Digits(b).value) == y
    ensures Digits(a + b).Some? && |Digits(a + b).value| == 2 * |x + y| && Pack(Digits(a + b).value) == x + y
  {
    hide Digits, Pack;
    DigitsConcat(a, b);
    PackConcat(Digits(a).value, Digits(b).value);
  }

  lemma DashedPiece(bytes: Text)
    ensures var t := HexAll(bytes) + [DASH];
            Digits(t).Some? && |Digits(t).value| == 2 * |bytes| && Pack(Digits(t).value) == bytes
  {
    DigitsOfHex(bytes);
    DigitsConcat(HexAll(bytes), [DASH]);
    assert [DASH][1..] == [];
    assert Digits([DASH]) == Some([]);
    assert Digits(HexAll(bytes)).value + [] == Digits(HexAll(bytes)).value;
  }

  /** `parse` undoes `format` for every UUID. */
  lemma ParseFormat(u: Uuid)
    ensures Parse(Format(u)) == Some(u)
  {
    DisplayedTwice(u);
    hide Digits, Pack, HexAll;
    var b := Displayed(u);
    DashedPiece(b[..4]);
    DashedPiece(b[4..6]);
    DashedPiece(b[6..8]);
    DigitsOfHex(b[8..]);
    var p1, p2, p3 := HexAll(b[..4]) + [DASH], HexAll(b[4..6]) + [DASH], HexAll(b[6..8]) + [DASH];
    JoinPieces(p1, b[..4], p2, b[4..6]);
    assert b[..4] + b[4..6] == b[..6];
    JoinPieces(p1 + p2, b[..6], p3, b[6..8]);
    assert b[..6] + b[6..8] == b[..8];
    JoinPieces(p1 + p2 + p3, b[..8], HexAll(b[8..]), b[8..]);
    assert b[..8] + b[8..] == b;
    assert Format(u) == p1 + p2 + p3 + HexAll(b[8..]);
  }

  /** So different UUIDs have different string forms. */
  lemma FormatInjective(u: Uuid, v: Uuid)
    requires Format(u) == Format(v)
    ensures u == v
  {
    ParseFormat(u);
    ParseFormat(v);
  }
}
