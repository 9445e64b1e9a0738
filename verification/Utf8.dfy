/** UTF-8 well-formedness (Unicode Standard, table 3-7) and the whitespace `str::trim` removes. */
module Utf8 {
  import opened Bytes

  predicate Continuation(b: byte) { 0x80 <= b <= 0xBF }

  /** Length of the well-formed scalar value `s` starts with; 0 when there is none. */
  function ScalarLen(s: Text): (n: nat)
    ensures n <= |s| && n <= 4
  {
    if |s| >= 1 && s[0] <= 0x7F then 1
    else if |s| >= 2 && 0xC2 <= s[0] <= 0xDF && Continuation(s[1]) then 2
    else if |s| >= 3 && Continuation(s[1]) && Continuation(s[2])
         && (0xE0 <= s[0] <= 0xEF) && (s[0] == 0xE0 ==> s[1] >= 0xA0) && (s[0] == 0xED ==> s[1] <= 0x9F) then 3
    else if |s| >= 4 && Continuation(s[1]) && Continuation(s[2]) && Continuation(s[3])
         && (0xF0 <= s[0] <= 0xF4) && (s[0] == 0xF0 ==> s[1] >= 0x90) && (s[0] == 0xF4 ==> s[1] <= 0x8F) then 4
    else 0
  }

  /** `std::str::from_utf8(s).is_ok()`. */
  predicate Valid(s: Text)
    decreases |s|
  {
    s == [] || (ScalarLen(s) > 0 && Valid(s[ScalarLen(s)..]))
  }

  /** Putting ASCII in front of a valid string keeps it valid. */
  lemma {:induction false} AsciiPrepend(a: Text, s: Text)
    requires forall i | 0 <= i < |a| :: a[i] < 0x80
    requires Valid(s)
    ensures Valid(a + s)
  {
    if a == [] {
      assert a + s == s;
    } else {
      AsciiPrepend(a[1..], s);
      assert (a + s)[1..] == a[1..] + s;
    }
  }

  /** Dropping trailing NULs keeps a string valid: a NUL byte is always a whole scalar value. */
  lemma {:induction false} StripNulsValid(s: Text)
    requires Valid(s)
    ensures Valid(StripNuls(s))
    decreases |s|
  {
    if s != [] && s[|s| - 1] == 0 {
      DropLastNul(s);
      StripNulsValid(s[..|s| - 1]);
    }
  }

  lemma {:induction false} DropLastNul(s: Text)
    requires Valid(s) && s != [] && s[|s| - 1] == 0
    ensures Valid(s[..|s| - 1])
    decreases |s|
  {
    var n, m := ScalarLen(s), |s| - 1;
    if n <= m {
      ScalarLenCut(s, m);
      hide ScalarLen;
      DropLastNul(s[n..]);
      DropTake(s, n, m);
    }
  }

  /** Cutting behind the first scalar value leaves it. */
  lemma ScalarLenCut(s: Text, m: nat)
    requires ScalarLen(s) <= m <= |s|
    ensures ScalarLen(s) > 0 ==> ScalarLen(s[..m]) == ScalarLen(s)
  {
    assert forall i | 0 <= i < m :: s[..m][i] == s[i];
  }

  /** Length of the `White_Space` scalar value at the front of `s`; 0 when there is none. */
  function SpaceAtFront(s: Text): (n: nat)
    ensures n <= |s|
  {
    if |s| >= 1 && (0x09 <= s[0] <= 0x0D || s[0] == 0x20) then 1
    else if |s| >= 2 && s[0] == 0xC2 && (s[1] == 0x85 || s[1] == 0xA0) then 2
    else if |s| >= 3 && WideSpace(s[0], s[1], s[2]) then 3
    else 0
  }

  /** Length of the `White_Space` scalar value at the end of `s`; 0 when there is none. */
  function SpaceAtBack(s: Text): (n: nat)
    ensures n <= |s|
  {
    var l := |s|;
    if l >= 1 && (0x09 <= s[l - 1] <= 0x0D || s[l - 1] == 0x20) then 1
    else if l >= 2 && s[l - 2] == 0xC2 && (s[l - 1] == 0x85 || s[l - 1] == 0xA0) then 2
    else if l >= 3 && WideSpace(s[l - 3], s[l - 2], s[l - 1]) then 3
    else 0
  }

  /** U+1680, U+2000 to U+200A, U+2028, U+2029, U+202F, U+205F and U+3000. */
  predicate WideSpace(a: byte, b: byte, c: byte) {
    || (a == 0xE1 && b == 0x9A && c == 0x80)
    || (a == 0xE2 && b == 0x80 && (0x80 <= c <= 0x8A || c == 0xA8 || c == 0xA9 || c == 0xAF))
    || (a == 0xE2 && b == 0x81 && c == 0x9F)
    || (a == 0xE3 && b == 0x80 && c == 0x80)
  }

  /** `str::trim`. */
  function Trim(s: Text): (r: Text)
    decreases |s|
  {
    if SpaceAtFront(s) > 0 then Trim(s[SpaceAtFront(s)..])
    else if SpaceAtBack(s) > 0 then Trim(s[..|s| - SpaceAtBack(s)])
    else s
  }
}
