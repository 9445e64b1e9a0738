/** Percent-encoding of Base64 text (src/crypto/session.rs) and the decoder of section 2.1 of RFC 3986. */
module Percent {
  import opened Bytes
  import Base64

  const PERCENT: byte := 0x25

  predicate Escaped(b: byte) { b == 0x2B || b == 0x2F || b == 0x3D }

  /** `%2B`, `%2F` and `%3D` for `+`, `/` and `=`; anything else passes through. */
  function Escape(b: byte): (t: Text)
  {
    if b == 0x2B then [PERCENT, 0x32, 0x42]
    else if b == 0x2F then [PERCENT, 0x32, 0x46]
    else if b == 0x3D then [PERCENT, 0x33, 0x44]
    else [b]
  }

  function EscapeAll(s: Text): (t: Text)
  {
    if s == [] then [] else EscapeAll(s[..|s| - 1]) + Escape(s[|s| - 1])
  }

  lemma {:induction false} EscapeAllConcat(s: Text, t: Text)
    ensures EscapeAll(s + t) == EscapeAll(s) + EscapeAll(t)
    decreases |t|
  {
    hide Escape;
    if t == [] {
      assert s + t == s;
    } else {
      assert (s + t)[..|s + t| - 1] == s + t[..|t| - 1];
      EscapeAllConcat(s, t[..|t| - 1]);
    }
  }

  /** A run of unescaped bytes is copied wholesale. */
  lemma {:induction false} PlainRun(s: Text)
    requires forall i | 0 <= i < |s| :: !Escaped(s[i])
    ensures EscapeAll(s) == s
  {
    if s != [] {
      PlainRun(s[..|s| - 1]);
    }
  }

  /** `percent_encode_base64`: copies runs between escapes instead of walking byte by byte. */
  method PercentEncodeBase64(encoded: Text, prefix: Text) returns (out: Text)
    ensures out == prefix + EscapeAll(encoded)
  {
    hide EscapeAll, Escape;
    out := prefix;
    var runStart := 0;
    EscapeNone();
    for i := 0 to |encoded|
      invariant 0 <= runStart <= i
      invariant out == prefix + EscapeAll(encoded[..runStart])
      invariant forall k | runStart <= k < i :: !Escaped(encoded[k])
    {
      if Escaped(encoded[i]) {
        CopiedRun(encoded, runStart, i);
        out := out + encoded[runStart..i] + Escape(encoded[i]);
        runStart := i + 1;
      }
    }
    var run := encoded[runStart..];
    PlainRun(run);
    EscapeAllConcat(encoded[..runStart], run);
    assert encoded == encoded[..runStart] + run;
    out := out + run;
  }

  lemma EscapeNone()
    ensures EscapeAll([]) == []
  {
  }

  lemma RunBefore(s: Text, runStart: nat, i: nat)
    requires runStart <= i <= |s| && forall k | runStart <= k < i :: !Escaped(s[k])
    ensures EscapeAll(s[..i]) == EscapeAll(s[..runStart]) + s[runStart..i]
  {
    hide EscapeAll;
    PlainRun(s[runStart..i]);
    EscapeAllConcat(s[..runStart], s[runStart..i]);
    assert s[..i] == s[..runStart] + s[runStart..i];
  }

  lemma CopiedRun(s: Text, runStart: nat, i: nat)
    requires runStart <= i < |s| && forall k | runStart <= k < i :: !Escaped(s[k])
    ensures EscapeAll(s[..i + 1]) == EscapeAll(s[..runStart]) + s[runStart..i] + Escape(s[i])
  {
    hide Escape, EscapeAll, Escaped;
    RunBefore(s, runStart, i);
    EscapeLast(s[..i + 1]);
    assert s[..i + 1][..i] == s[..i];
  }

  lemma EscapeLast(s: Text)
    requires s != []
    ensures EscapeAll(s) == EscapeAll(s[..|s| - 1]) + Escape(s[|s| - 1])
  {
  }

  predicate Alphanumeric(b: byte) { 0x30 <= b <= 0x39 || 0x41 <= b <= 0x5A || 0x61 <= b <= 0x7A }

  function UpperHex(v: nat): (c: byte)
    requires v < 16
  {
    if v < 10 then 0x30 + v else 0x41 + (v - 10)
  }

  /** The general encoder: every byte that is not alphanumeric becomes `%XX`. */
  function GeneralEscape(b: byte): (t: Text)
  {
    if Alphanumeric(b) then [b] else [PERCENT, UpperHex(b / 16), UpperHex(b % 16)]
  }

  function GeneralEncode(s: Text): (t: Text)
  {
    if s == [] then [] else GeneralEncode(s[..|s| - 1]) + GeneralEscape(s[|s| - 1])
  }

  lemma EscapesAgree(b: byte)
    requires Base64.IsSymbol(b) || b == Base64.PAD
    ensures Escape(b) == GeneralEscape(b)
    ensures forall i | 0 <= i < |Escape(b)| :: Unreserved(Escape(b)[i])
  {
  }

  predicate Base64Text(s: Text) { forall i | 0 <= i < |s| :: Base64.IsSymbol(s[i]) || s[i] == Base64.PAD }

  /** On Base64 text the three special cases are the general encoder. */
  lemma {:induction false} AgreesWithGeneral(s: Text)
    requires Base64Text(s)
    ensures EscapeAll(s) == GeneralEncode(s)
  {
    if s != [] {
      hide Escape, GeneralEscape;
      AgreesWithGeneral(s[..|s| - 1]);
      EscapesAgree(s[|s| - 1]);
    }
  }

  /** `percent_decode`: a `%` without two hex digits behind it stands for itself. */
  function Decode(s: Text): (t: Text)
  {
    if s == [] then []
    else if s[0] == PERCENT && |s| >= 3 && HexValue(s[1]).Some? && HexValue(s[2]).Some? then
      [HexValue(s[1]).value * 16 + HexValue(s[2]).value] + Decode(s[3..])
    else [s[0]] + Decode(s[1..])
  }

  lemma DecodeEscape(b: byte, t: Text)
    requires b != PERCENT
    ensures Decode(Escape(b) + t) == [b] + Decode(t)
  {
    var s := Escape(b) + t;
    if Escaped(b) {
      assert s[3..] == t;
    } else {
      assert s[1..] == t;
    }
  }

  /** Decoding undoes the escaping of any text without a `%`. */
  lemma {:induction false} RoundTrip(s: Text)
    requires PERCENT !in s
    ensures Decode(EscapeAll(s)) == s
  {
    hide Escape, Decode;
    if s == [] {
      DecodeNone();
    } else {
      RoundTrip(s[1..]);
      DecodeEscape(s[0], EscapeAll(s[1..]));
      EscapeAllConcat([s[0]], s[1..]);
      assert s == [s[0]] + s[1..];
      assert [s[0]][..0] == [] && [] + Escape(s[0]) == Escape(s[0]);
    }
  }

  lemma DecodeNone()
    ensures Decode([]) == []
  {
  }

  lemma Base64HasNoPercent(s: Text)
    requires Base64Text(s)
    ensures PERCENT !in s
  {
  }

  /** What is left of the alphabet after escaping: alphanumerics and `%`, so no `/`. */
  predicate Unreserved(b: byte) { Alphanumeric(b) || b == PERCENT }

  lemma {:induction false} EscapedAlphabet(s: Text)
    requires Base64Text(s)
    ensures forall i | 0 <= i < |EscapeAll(s)| :: Unreserved(EscapeAll(s)[i])
  {
    if s != [] {
      hide Escape;
      EscapedAlphabet(s[..|s| - 1]);
      EscapesAgree(s[|s| - 1]);
    }
  }

  lemma {:induction false} EscapeLength(s: Text)
    ensures |EscapeAll(s)| >= |s|
  {
    if s != [] {
      EscapeLength(s[..|s| - 1]);
    }
  }
}
