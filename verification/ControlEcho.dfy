/** Reading an echoed `LL.control` back: decryption, prefix stripping and the spellings that compare equal. */
module ControlEcho {
  import opened Bytes
  import opened SaltSession
  import Base64
  import Cbc
  import Percent
  import Utf8

  /** `str::contains`. */
  predicate Contains(s: Text, pattern: Text) { pattern <= s || (s != [] && Contains(s[1..], pattern)) }

  /** `rsplit(pattern).next()`: what follows the last occurrence, or everything. */
  function AfterLast(s: Text, pattern: Text): (r: Text)
  {
    if s != [] && Contains(s[1..], pattern) then AfterLast(s[1..], pattern)
    else if pattern <= s then s[|pattern|..]
    else s
  }

  /** `decrypt_control_response`. */
  function DecryptControlResponse(keys: Cbc.SessionKeys, response: Text): (r: Option<Text>)
  {
    var decoded := Percent.Decode(AfterLast(response, CMD_ENCRYPT));
    if !Utf8.Valid(decoded) then None else
    match Base64.Decode(decoded)
    case None => None
    case Some(encrypted) =>
      match Cbc.DecryptZeroPadded(keys, encrypted)
      case None => None
      case Some(plain) => if Utf8.Valid(plain) then Some(plain) else None
  }

  /** `strip_salt_prefix`: a malformed prefix is returned unchanged. */
  function StripSaltPrefix(plaintext: Text): (r: Text)
  {
    var trimmed := StripNuls(plaintext);
    if NEXT_SALT_TAG <= trimmed then
      match AfterFirst(trimmed[|NEXT_SALT_TAG|..], SLASH)
      case None => trimmed
      case Some(rest) => (match AfterFirst(rest, SLASH) case None => trimmed case Some(cmd) => cmd)
    else if SALT_TAG <= trimmed then
      match AfterFirst(trimmed[|SALT_TAG|..], SLASH)
      case None => trimmed
      case Some(cmd) => cmd
    else trimmed
  }

  /** `decode_control`. */
  function DecodeControl(control: Text, keys: Cbc.SessionKeys): (r: Option<Text>)
  {
    if Contains(control, CMD_ENCRYPT) then
      match DecryptControlResponse(keys, control)
      case None => None
      case Some(plain) => Some(StripSaltPrefix(plain))
    else Some(control)
  }

  /** The prefix ends in a slash, so trailing NULs of a plaintext are those of its command. */
  lemma StripNulsBehind(head: Text, command: Text, n: nat)
    requires head != [] && head[|head| - 1] != 0
    ensures StripNuls(head + command + Zeros(n)) == head + StripNuls(command)
  {
    var r := StripNuls(command);
    var s := head + command + Zeros(n);
    assert s == (head + r) + Zeros(|s| - |head| - |r|);
    StripNulsIs(s, head + r, |s| - |head| - |r|);
  }

  lemma BehindTag(tag: Text, salt: Text, rest: Text)
    ensures tag <= tag + salt + [SLASH] + rest && (tag + salt + [SLASH] + rest)[|tag|..] == salt + [SLASH] + rest
  {
  }

  lemma TwoSegments(tag: Text, prev: Text, salt: Text, cmd: Text)
    ensures tag + prev + [SLASH] + salt + [SLASH] + cmd == tag + prev + [SLASH] + (salt + [SLASH] + cmd)
  {
  }

  lemma StripRotated(prev: Text, salt: Text, cmd: Text)
    requires HexSalt(prev) && HexSalt(salt) && StripNuls(cmd) == cmd
    ensures StripSaltPrefix(NEXT_SALT_TAG + prev + [SLASH] + salt + [SLASH] + cmd) == cmd
  {
    hide Ascii, AfterFirst, StripNuls, HexSalt;
    NulsBehindSlash(NEXT_SALT_TAG + prev + [SLASH] + salt, cmd);
    HexHasNoSlash(prev);
    HexHasNoSlash(salt);
    AfterFirstOf(salt, SLASH, cmd);
    AfterFirstOf(prev, SLASH, salt + [SLASH] + cmd);
    TwoSegments(NEXT_SALT_TAG, prev, salt, cmd);
    BehindTag(NEXT_SALT_TAG, prev, salt + [SLASH] + cmd);
  }

  lemma NulsBehindSlash(head: Text, cmd: Text)
    requires StripNuls(cmd) == cmd
    ensures StripNuls(head + [SLASH] + cmd) == head + [SLASH] + cmd
  {
    hide StripNuls;
    StripNulsBehind(head + [SLASH], cmd, 0);
    assert head + [SLASH] + cmd + Zeros(0) == head + [SLASH] + cmd;
  }

  lemma StripCurrent(salt: Text, cmd: Text)
    requires HexSalt(salt) && StripNuls(cmd) == cmd
    ensures StripSaltPrefix(SALT_TAG + salt + [SLASH] + cmd) == cmd
  {
    hide Ascii, AfterFirst, StripNuls, HexSalt;
    NulsBehindSlash(SALT_TAG + salt, cmd);
    HexHasNoSlash(salt);
    AfterFirstOf(salt, SLASH, cmd);
    BehindTag(SALT_TAG, salt, cmd);
    assert SALT_TAG + salt + [SLASH] + cmd == SALT_TAG + (salt + [SLASH] + cmd);
    TagsDiffer(salt + [SLASH] + cmd);
  }

  /** Stripping the prefix recovers the command for both forms, even if it holds slashes or starts with `salt/`. */
  lemma StripPrefixed(s: Salt, command: Text, d: Draw)
    requires HexSalt(d.newSalt) && (s.salt == [] || HexSalt(s.salt))
    ensures StripSaltPrefix(Prefix(s, d) + StripNuls(command)) == StripNuls(command)
  {
    hide Ascii, StripSaltPrefix, StripNuls;
    var cmd := StripNuls(command);
    StripNulsIs(cmd, cmd, 0);
    if Rotates(s, d) {
      StripRotated(s.salt, d.newSalt, cmd);
    } else {
      StripCurrent(After(s, d).salt, cmd);
    }
  }

  lemma PrefixAscii(s: Salt, d: Draw)
    requires HexSalt(d.newSalt) && (s.salt == [] || HexSalt(s.salt))
    ensures forall i | 0 <= i < |Prefix(s, d)| :: Prefix(s, d)[i] < 0x80
    ensures Prefix(s, d) != [] && Prefix(s, d)[|Prefix(s, d)| - 1] == SLASH
  {
  }

  lemma {:induction false} NoPrefixIn(t: Text)
    requires forall i | 12 <= i < |t| :: t[i] != SLASH
    ensures !Contains(t, CMD_ENCRYPT)
  {
    assert CMD_ENCRYPT[12] == SLASH;
    if t != [] {
      NoPrefixIn(t[1..]);
    }
  }

  /** The wire text carries the command prefix exactly once, at its start, and its body has no slash. */
  lemma WireShape(keys: Cbc.SessionKeys, plain: Text)
    ensures var body := Percent.EscapeAll(Base64.Encode(Cbc.EncryptZeroPadded(keys, plain)));
            && WireText(keys, plain) == CMD_ENCRYPT + body
            && (forall i | 0 <= i < |body| :: Percent.Unreserved(body[i]))
            && SLASH !in body
            && Contains(WireText(keys, plain), CMD_ENCRYPT)
            && !Contains(WireText(keys, plain)[1..], CMD_ENCRYPT)
            && AfterLast(WireText(keys, plain), CMD_ENCRYPT) == body
  {
    hide Percent.EscapeAll, Base64.Encode, Ascii;
    var text := Base64.Encode(Cbc.EncryptZeroPadded(keys, plain));
    Base64Ascii(Cbc.EncryptZeroPadded(keys, plain));
    Percent.EscapedAlphabet(text);
    var body := Percent.EscapeAll(text);
    assert forall i | 0 <= i < |body| :: Percent.Unreserved(body[i]) && body[i] != SLASH;
    NoPrefixIn(WireText(keys, plain)[1..]);
  }

  /** Decrypting a wire text gives the plaintext without its trailing NULs. */
  lemma DecryptWire(keys: Cbc.SessionKeys, plain: Text)
    requires keys.Inverse() && Utf8.Valid(StripNuls(plain))
    ensures DecryptControlResponse(keys, WireText(keys, plain)) == Some(StripNuls(plain))
  {
    hide Percent.EscapeAll, Percent.Decode, Base64.Encode, Base64.Decode, Utf8.Valid, AfterLast, StripNuls;
    var cipher := Cbc.EncryptZeroPadded(keys, plain);
    WireShape(keys, plain);
    Base64Ascii(cipher);
    Percent.Base64HasNoPercent(Base64.Encode(cipher));
    Percent.RoundTrip(Base64.Encode(cipher));
    Base64.DecodeEncode(cipher);
    Cbc.ZeroPaddedRoundTrip(keys, plain);
  }

  /** For every salt state, key and command, decoding the encrypted command loses exactly its trailing NULs. */
  lemma DecodeEncrypted(keys: Cbc.SessionKeys, s: Salt, command: Text, d: Draw)
    requires keys.Inverse() && Utf8.Valid(command)
    requires HexSalt(d.newSalt) && (s.salt == [] || HexSalt(s.salt))
    ensures DecodeControl(WireText(keys, Salted(s, command, d)), keys) == Some(StripNuls(command))
  {
    hide WireText, DecryptControlResponse, StripSaltPrefix, Contains, StripNuls, Prefix, Utf8.Valid;
    var plain := Salted(s, command, d);
    PrefixAscii(s, d);
    StripNulsBehind(Prefix(s, d), command, 1);
    assert Prefix(s, d) + command + Zeros(1) == plain;
    Utf8.StripNulsValid(command);
    Utf8.AsciiPrepend(Prefix(s, d), StripNuls(command));
    DecryptWire(keys, plain);
    WireShape(keys, plain);
    StripPrefixed(s, command, d);
  }

  /** So the command comes back verbatim if and only if it does not end in NUL. */
  lemma RoundTripIff(keys: Cbc.SessionKeys, s: Salt, command: Text, d: Draw)
    requires keys.Inverse() && Utf8.Valid(command)
    requires HexSalt(d.newSalt) && (s.salt == [] || HexSalt(s.salt))
    ensures DecodeControl(WireText(keys, Salted(s, command, d)), keys) == Some(command)
       <==> command == [] || command[|command| - 1] != 0
  {
    hide DecodeControl, WireText;
    DecodeEncrypted(keys, s, command, d);
  }

  // Comparing an echo with the command it answers.

  const JDEV: Text := Ascii("jdev/")
  const DEV: Text := Ascii("dev/")

  /** `canonical`: trims, drops trailing NULs, one leading slash and the `j` of `jdev/`. */
  function Canonical(cmd: Text): (r: Text)
  {
    var s := StripNuls(Utf8.Trim(cmd));
    var s := if s != [] && s[0] == SLASH then s[1..] else s;
    if JDEV <= s then s[1..] else s
  }

  /** Where the first `n` slash-separated segments of `s` end. */
  function SegmentsEnd(s: Text, n: nat): (end: nat)
    ensures end <= |s|
  {
    if n == 0 || s == [] then 0
    else if s[0] != SLASH then 1 + SegmentsEnd(s[1..], n)
    else if n == 1 then 0
    else 1 + SegmentsEnd(s[1..], n - 1)
  }

  function TakeSegments(s: Text, n: nat): (r: Text) { s[..SegmentsEnd(s, n)] }

  lemma {:induction false} SkipSegment(s: Text, start: nat, j: nat, n: nat)
    requires start <= j <= |s| && n > 0 && forall k | start <= k < j :: s[k] != SLASH
    ensures SegmentsEnd(s[start..], n) == j - start + SegmentsEnd(s[j..], n)
    decreases j - start
  {
    if start < j {
      SkipSegment(s, start + 1, j, n);
      assert s[start..][1..] == s[start + 1..];
    }
  }

  /** `take_segments`: adds up the lengths of the first `n` parts of `split('/')` and the slashes between them. */
  method SumSegments(s: Text, n: nat) returns (r: Text)
    ensures r == TakeSegments(s, n)
  {
    var end, i, start := 0, 0, 0;
    while i < n && start <= |s|
      invariant 0 <= i <= n && 0 <= start <= |s| + 1
      invariant end == if i == 0 then 0 else start - 1
      invariant i == 0 ==> start == 0
      invariant i < n && start <= |s| ==> SegmentsEnd(s, n) == start + SegmentsEnd(s[start..], n - i)
      invariant i == n || start > |s| ==> SegmentsEnd(s, n) == end
      decreases n - i
    {
      var j := start;
      while j < |s| && s[j] != SLASH
        invariant start <= j <= |s|
        invariant forall k | start <= k < j :: s[k] != SLASH
      {
        j := j + 1;
      }
      SkipSegment(s, start, j, n - i);
      if j < |s| {
        assert s[j..][1..] == s[j + 1..];
      }
      if i > 0 {
        end := end + 1;
      }
      end := end + (j - start);
      start := j + 1;
      i := i + 1;
    }
    r := s[..Min(end, |s|)];
  }

  /** `verb`: three segments below `dev/`, one otherwise. */
  function Verb(cmd: Text): (r: Text)
  {
    var s := Canonical(cmd);
    TakeSegments(s, if DEV <= s then 3 else 1)
  }

  predicate ControlMatches(control: Text, plaintext: Text) { Verb(control) == Verb(plaintext) }

  /** The verdict of `resolve` for a control that is not recognised as the text sent. */
  predicate SlowMatch(control: Text, keys: Cbc.SessionKeys, plaintext: Text) {
    var decoded := DecodeControl(control, keys);
    decoded.Some? && ControlMatches(decoded.value, plaintext)
  }

  /** The verdict of `resolve`. */
  predicate Matches(control: Text, wire: Text, keys: Cbc.SessionKeys, plaintext: Text) {
    Canonical(control) == Canonical(wire) || SlowMatch(control, keys, plaintext)
  }

  /** What the decrypting path says of a verbatim echo, for every command. */
  lemma VerbatimEcho(keys: Cbc.SessionKeys, s: Salt, command: Text, d: Draw)
    requires keys.Inverse() && Utf8.Valid(command)
    requires HexSalt(d.newSalt) && (s.salt == [] || HexSalt(s.salt))
    ensures var wire := WireText(keys, Salted(s, command, d));
            && Matches(wire, wire, keys, command)
            && (SlowMatch(wire, keys, command) <==> ControlMatches(StripNuls(command), command))
            && (command == [] || command[|command| - 1] != 0 ==> SlowMatch(wire, keys, command))
  {
    hide DecodeControl, WireText, Verb;
    DecodeEncrypted(keys, s, command, d);
  }

  const NUL_COMMAND: Text := [0x61, 0x20, 0]

  lemma TrimBlank()
    ensures Utf8.Trim([0x61, 0x20]) == [0x61]
  {
    assert [0x61, 0x20][..1] == [0x61];
    NothingToTrim([0x61]);
  }

  lemma VerbOfOne(s: Text)
    requires |s| == 2 && s[0] == 0x61 && s[1] == 0x20
    ensures SegmentsEnd(s, 1) == 2 && SegmentsEnd([0x61], 1) == 1
  {
    assert s[1..][1..] == [] && [0x61][1..] == [];
    assert SegmentsEnd(s[1..], 1) == 1;
  }

  lemma NulCommandVerbs()
    ensures Utf8.Valid(NUL_COMMAND) && !ControlMatches(StripNuls(NUL_COMMAND), NUL_COMMAND)
  {
    hide StripNuls, Utf8.Trim, Utf8.Valid, SegmentsEnd, Ascii;
    AsciiValid(NUL_COMMAND);
    StripNulsIs(NUL_COMMAND, [0x61, 0x20], 1);
    NothingToTrim(NUL_COMMAND);
    TrimBlank();
    StripNulsIs([0x61], [0x61], 0);
    VerbOfOne([0x61, 0x20]);
    assert Canonical([0x61, 0x20]) == [0x61] && Canonical(NUL_COMMAND) == [0x61, 0x20];
  }

  /**
   * `a`, blank, NUL: under every key, salt and draw the comparison accepts its echo and the decrypting path does not.
   */
  lemma TrailingNulDiffers(keys: Cbc.SessionKeys, s: Salt, d: Draw)
    requires keys.Inverse() && HexSalt(d.newSalt) && (s.salt == [] || HexSalt(s.salt))
    ensures var wire := WireText(keys, Salted(s, NUL_COMMAND, d));
            Matches(wire, wire, keys, NUL_COMMAND) && !SlowMatch(wire, keys, NUL_COMMAND)
  {
    hide *;
    NulCommandVerbs();
    VerbatimEcho(keys, s, NUL_COMMAND, d);
  }

  /** An echo that differs in salt only still matches, through the decrypting path. */
  lemma ReencodedEcho(keys: Cbc.SessionKeys, s: Salt, command: Text, d: Draw, wire: Text)
    requires keys.Inverse() && Utf8.Valid(command) && (command == [] || command[|command| - 1] != 0)
    requires HexSalt(d.newSalt) && (s.salt == [] || HexSalt(s.salt))
    ensures Matches(WireText(keys, Salted(s, command, d)), wire, keys, command)
  {
    hide DecodeControl, WireText, Verb, Canonical;
    RoundTripIff(keys, s, command, d);
  }

  lemma NothingToTrim(s: Text)
    requires s != [] && 0x21 <= s[0] < 0x80 && (s[|s| - 1] == 0 || 0x21 <= s[|s| - 1] < 0x80)
    ensures Utf8.Trim(s) == s
  {
  }

  /** Text between printable ASCII characters, with NULs behind it, keeps itself. */
  lemma TrimNuls(s: Text, n: nat)
    requires s != [] && 0x21 <= s[0] < 0x80 && 0x21 <= s[|s| - 1] < 0x80
    ensures StripNuls(Utf8.Trim(s + Zeros(n))) == s
  {
    hide StripNuls, Utf8.Trim;
    NothingToTrim(s + Zeros(n));
    StripNulsIs(s + Zeros(n), s, n);
  }

  lemma WireEnds(keys: Cbc.SessionKeys, plain: Text)
    requires plain != []
    ensures var wire := WireText(keys, plain);
            CMD_ENCRYPT < wire && 0x21 <= wire[|wire| - 1] < 0x80
  {
    hide Percent.EscapeAll, Base64.Encode, Contains, AfterLast, Ascii;
    WireShape(keys, plain);
    Percent.EscapeLength(Base64.Encode(Cbc.EncryptZeroPadded(keys, plain)));
  }

  lemma CanonicalOf(s: Text, n: nat)
    requires s != [] && 0x21 <= s[0] < 0x80 && 0x21 <= s[|s| - 1] < 0x80
    ensures s[0] == SLASH && JDEV <= s[1..] ==> Canonical(s + Zeros(n)) == s[2..]
    ensures s[0] != SLASH && JDEV <= s ==> Canonical(s + Zeros(n)) == s[1..]
    ensures s[0] != SLASH && !(JDEV <= s) ==> Canonical(s + Zeros(n)) == s
  {
    hide Ascii, StripNuls, Utf8.Trim;
    TrimNuls(s, n);
  }

  /** The spellings the Miniserver varies between compare equal to the text sent: `/jdev`, `dev` and trailing NULs. */
  lemma EchoQuirks(keys: Cbc.SessionKeys, plain: Text, n: nat)
    requires plain != []
    ensures var wire := WireText(keys, plain);
            && Canonical(wire + Zeros(n)) == wire[1..]
            && Canonical([SLASH] + wire + Zeros(n)) == wire[1..]
            && Canonical(wire[1..] + Zeros(n)) == wire[1..]
  {
    hide WireText, Canonical;
    var wire := WireText(keys, plain);
    WireEnds(keys, plain);
    assert wire[0] == 0x6A && wire[1] == 0x64 && JDEV <= wire;
    CanonicalOf(wire, n);
    assert ([SLASH] + wire)[1..] == wire && ([SLASH] + wire)[2..] == wire[1..];
    CanonicalOf([SLASH] + wire, n);
    CanonicalOf(wire[1..], n);
  }

  /** The text is the command encrypted under the session key with these salts. */
  predicate EncryptsWith(text: Text, command: Text, keys: Cbc.SessionKeys, s: Salt, d: Draw) {
    HexSalt(d.newSalt) && (s.salt == [] || HexSalt(s.salt)) && text == WireText(keys, Salted(s, command, d))
  }

  ghost predicate Encrypts(text: Text, command: Text, keys: Cbc.SessionKeys) {
    exists s: Salt, d: Draw :: EncryptsWith(text, command, keys, s, d)
  }

  /** The text sent, with a slash in front or without its `j`, and with any number of NULs behind it. */
  predicate Respells(control: Text, wire: Text, nuls: nat) {
    || control == wire + Zeros(nuls)
    || control == [SLASH] + wire + Zeros(nuls)
    || (wire != [] && control == wire[1..] + Zeros(nuls))
  }

  /** A respelling of the text sent, or the same command encrypted anew if it does not end in NUL. */
  ghost predicate Echoes(control: Text, wire: Text, command: Text, keys: Cbc.SessionKeys) {
    || (exists n: nat :: Respells(control, wire, n))
    || (Encrypts(control, command, keys) && Utf8.Valid(command) && (command == [] || command[|command| - 1] != 0))
  }

  lemma RespellingMatches(control: Text, wire: Text, command: Text, keys: Cbc.SessionKeys, n: nat)
    requires Encrypts(wire, command, keys) && Respells(control, wire, n)
    ensures Matches(control, wire, keys, command)
  {
    var s: Salt, d: Draw :| EncryptsWith(wire, command, keys, s, d);
    var plain := Salted(s, command, d);
    EchoQuirks(keys, plain, n);
    EchoQuirks(keys, plain, 0);
    assert wire + Zeros(0) == wire;
    hide WireText, Canonical, SlowMatch, Salted;
  }

  /** Every echo of an encrypted command matches it. */
  lemma EchoMatches(control: Text, wire: Text, command: Text, keys: Cbc.SessionKeys)
    requires keys.Inverse() && Encrypts(wire, command, keys) && Echoes(control, wire, command, keys)
    ensures Matches(control, wire, keys, command)
  {
    hide WireText, Canonical, SlowMatch, Salted, Matches;
    if n: nat :| Respells(control, wire, n) {
      RespellingMatches(control, wire, command, keys, n);
    } else {
      var s: Salt, d: Draw :| EncryptsWith(control, command, keys, s, d);
      ReencodedEcho(keys, s, command, d, wire);
    }
  }
}
