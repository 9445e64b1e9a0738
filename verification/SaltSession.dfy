/** Command encryption and the `salt` / `nextSalt` sequence of src/crypto/session.rs. */
module SaltSession {
  import opened Bytes
  import Base64
  import Cbc
  import Percent
  import Utf8

  const SALT_MAX_AGE_SECONDS: nat := 60 * 60
  const SALT_MAX_USE_COUNT: nat := 30
  const CMD_ENCRYPT: Text := Ascii("jdev/sys/enc/")
  const SALT_TAG: Text := Ascii("salt/")
  const NEXT_SALT_TAG: Text := Ascii("nextSalt/")

  /** The salt bookkeeping as a value; an empty salt is the reset state. */
  datatype Salt = Salt(salt: Text, used: nat, stamp: nat)

  const RESET := Salt([], 0, 0)

  /** What one command draws from outside: the random salt and the two clock readings. */
  datatype Draw = Draw(newSalt: Text, nowCheck: nat, nowStamp: nat)

  /** `hex::encode` of random bytes: lower-case hex digits. */
  predicate HexSalt(s: Text) {
    s != [] && forall i | 0 <= i < |s| :: 0x30 <= s[i] <= 0x39 || 0x61 <= s[i] <= 0x66
  }

  function SaturatingSub(a: nat, b: nat): (d: nat) { if a >= b then a - b else 0 }

  /** `new_salt_needed` on a set salt: the use just counted is over the limit, or the salt is too old. */
  predicate Rotates(s: Salt, d: Draw) {
    s.salt != [] && (s.used + 1 > SALT_MAX_USE_COUNT || SaturatingSub(d.nowCheck, s.stamp) > SALT_MAX_AGE_SECONDS)
  }

  function After(s: Salt, d: Draw): (t: Salt)
  {
    if s.salt == [] || Rotates(s, d) then Salt(d.newSalt, 0, d.nowStamp) else s.(used := s.used + 1)
  }

  function Prefix(s: Salt, d: Draw): (p: Text)
  {
    (if Rotates(s, d) then NEXT_SALT_TAG + s.salt + [SLASH] else SALT_TAG) + After(s, d).salt + [SLASH]
  }

  function Salted(s: Salt, command: Text, d: Draw): (p: Text) { Prefix(s, d) + command + [0] }

  /** The staged pipeline: pad, CBC, Base64, percent-encode byte by byte, prefix. */
  function WireText(keys: Cbc.SessionKeys, plain: Text): (w: Text)
  {
    CMD_ENCRYPT + Percent.EscapeAll(Base64.Encode(Cbc.EncryptZeroPadded(keys, plain)))
  }

  /** `Vec::resize(n, 0)`. */
  function Resize(v: seq<byte>, n: nat): (r: seq<byte>)
    ensures |r| == n
  {
    if n <= |v| then v[..n] else v + Zeros(n - |v|)
  }

  lemma {:induction false} AsciiValid(t: Text)
    requires forall i | 0 <= i < |t| :: t[i] < 0x80
    ensures Utf8.Valid(t)
  {
    Utf8.AsciiPrepend(t, []);
    assert t + [] == t;
  }

  lemma Base64Ascii(s: seq<byte>)
    ensures Utf8.Valid(Base64.Encode(s)) && Percent.Base64Text(Base64.Encode(s))
  {
    var t := Base64.Encode(s);
    forall i | 0 <= i < |t| ensures t[i] < 0x80 {
      assert Base64.IsSymbol(t[i]) || t[i] == Base64.PAD;
    }
    AsciiValid(t);
  }

  class SaltState {
    var salt: Text
    var usedCount: nat
    var timeStamp: nat
    var scratch: seq<byte>
    var encoded: seq<byte>

    function View(): (s: Salt)
      reads this
    {
      Salt(salt, usedCount, timeStamp)
    }

    constructor ()
      ensures View() == RESET
    {
      salt, usedCount, timeStamp, scratch, encoded := [], 0, 0, [], [];
    }

    method Reset()
      modifies this
      ensures View() == RESET && scratch == [] && encoded == []
    {
      salt, usedCount, timeStamp, scratch, encoded := [], 0, 0, [], [];
    }

    method GenerateSalt(newSalt: Text, now: nat)
      modifies this`salt, this`usedCount, this`timeStamp
      ensures View() == Salt(newSalt, 0, now)
    {
      salt := newSalt;
      timeStamp := now;
      usedCount := 0;
    }

    method NewSaltNeeded(now: nat) returns (needed: bool)
      modifies this`usedCount
      ensures usedCount == old(usedCount) + 1
      ensures needed == (usedCount > SALT_MAX_USE_COUNT || SaturatingSub(now, timeStamp) > SALT_MAX_AGE_SECONDS)
    {
      usedCount := usedCount + 1;
      needed := usedCount > SALT_MAX_USE_COUNT || SaturatingSub(now, timeStamp) > SALT_MAX_AGE_SECONDS;
    }

    method FillSaltedPlaintext(command: Text, d: Draw)
      modifies this
      ensures View() == After(old(View()), d) && scratch == Salted(old(View()), command, d) && encoded == old(encoded)
    {
      hide Ascii;
      scratch := [];
      var rotate := false;
      if salt != [] {
        rotate := NewSaltNeeded(d.nowCheck);
      }
      if rotate {
        var previous := salt;
        GenerateSalt(d.newSalt, d.nowStamp);
        scratch := NEXT_SALT_TAG;
        scratch := scratch + previous;
        scratch := scratch + [SLASH];
      } else {
        if salt == [] {
          GenerateSalt(d.newSalt, d.nowStamp);
        }
        scratch := SALT_TAG;
      }
      scratch := scratch + salt;
      scratch := scratch + [SLASH];
      scratch := scratch + command;
      scratch := scratch + [0];
    }

    /**
     * `encrypt`, in the two reused buffers. Whatever earlier commands left in them, the result is
     * the staged pipeline, and the error exits for a short Base64 buffer and non-ASCII are not taken.
     */
    method Encrypt(keys: Cbc.SessionKeys, command: Text, d: Draw) returns (r: Option<Text>)
      modifies this
      ensures View() == After(old(View()), d)
      ensures r == Some(WireText(keys, Salted(old(View()), command, d)))
    {
      hide Ascii, Base64.Encode, Percent.EscapeAll, Utf8.Valid, Cbc.Encrypt, Salted, After;
      FillSaltedPlaintext(command, d);
      ghost var plain := scratch;
      var padded := Cbc.PaddedLen(|scratch|);
      scratch := Resize(scratch, padded);
      assert scratch == Cbc.ZeroPad(plain);
      scratch := Cbc.Encrypt(keys, keys.iv, scratch);
      encoded := Resize(encoded, (padded + 2) / 3 * 4);
      Base64Ascii(scratch);
      match Base64.EncodeSlice(scratch, encoded)
      case None =>
        r := None;
      case Some((buffer, written)) =>
        encoded := buffer;
        var text := encoded[..written];
        if Utf8.Valid(text) {
          var out := Percent.PercentEncodeBase64(text, CMD_ENCRYPT);
          r := Some(out);
        } else {
          r := None;
        }
    }
  }

  // The sequence of salts over a whole session.

  /** The bookkeeping before command `i` of a session that starts reset. */
  function StateAt(draws: seq<Draw>, i: nat): (s: Salt)
    requires i <= |draws|
  {
    if i == 0 then RESET else After(StateAt(draws, i - 1), draws[i - 1])
  }

  /** Command `i` makes a salt of its own rather than reusing one. */
  predicate StartsSalt(draws: seq<Draw>, i: nat)
    requires i < |draws|
  {
    StateAt(draws, i).salt == [] || Rotates(StateAt(draws, i), draws[i])
  }

  predicate AllHex(draws: seq<Draw>) { forall i | 0 <= i < |draws| :: HexSalt(draws[i].newSalt) }

  /** The command that drew the salt in force after command `i`. */
  function Origin(draws: seq<Draw>, i: nat): (g: nat)
    requires i < |draws|
    ensures g <= i
  {
    if StartsSalt(draws, i) || i == 0 then i else Origin(draws, i - 1)
  }

  /** After command `i` the bookkeeping is that of its origin, counting the commands since. */
  lemma {:induction false} SinceOrigin(draws: seq<Draw>, i: nat)
    requires i < |draws| && AllHex(draws)
    ensures var g := Origin(draws, i);
            StartsSalt(draws, g) && StateAt(draws, i + 1) == Salt(draws[g].newSalt, i - g, draws[g].nowStamp)
  {
    if !StartsSalt(draws, i) {
      SinceOrigin(draws, i - 1);
    }
  }

  /** Each salt serves at most 31 commands, the one that draws it included. */
  lemma SaltLifetime(draws: seq<Draw>, i: nat)
    requires i < |draws| && AllHex(draws)
    ensures i - Origin(draws, i) <= 30
  {
    SinceOrigin(draws, i);
    if !StartsSalt(draws, i) {
      SinceOrigin(draws, i - 1);
    }
  }

  /** The last salt really lives that long unless its age ends it: 30 reuses are allowed. */
  lemma SaltReused(draws: seq<Draw>, i: nat)
    requires 0 < i < |draws| && AllHex(draws)
    ensures var g := Origin(draws, i - 1);
            !StartsSalt(draws, i) <==>
            i - g <= 30 && SaturatingSub(draws[i].nowCheck, draws[g].nowStamp) <= SALT_MAX_AGE_SECONDS
  {
    SinceOrigin(draws, i - 1);
  }

  /** What a plaintext announces to the Miniserver. */
  datatype Announcement = Use(salt: Text) | Rotate(previous: Text, next: Text)

  function SplitSegment(s: Text): (r: Option<(Text, Text)>)
  {
    match AfterFirst(s, SLASH)
    case None => None
    case Some(rest) => if |rest| < |s| then Some((s[..|s| - |rest| - 1], rest)) else None
  }

  lemma SplitSegmentOf(head: Text, rest: Text)
    requires SLASH !in head
    ensures SplitSegment(head + [SLASH] + rest) == Some((head, rest))
  {
    AfterFirstOf(head, SLASH, rest);
    var s := head + [SLASH] + rest;
    assert s[..|s| - |rest| - 1] == head;
  }

  /** Reading the prefix of a plaintext the way the Miniserver does. */
  function Announced(plain: Text): (a: Option<Announcement>)
  {
    if NEXT_SALT_TAG <= plain then
      match SplitSegment(plain[|NEXT_SALT_TAG|..])
      case None => None
      case Some((previous, rest)) =>
        match SplitSegment(rest)
        case None => None
        case Some((next, _)) => Some(Rotate(previous, next))
    else if SALT_TAG <= plain then
      match SplitSegment(plain[|SALT_TAG|..])
      case None => None
      case Some((salt, _)) => Some(Use(salt))
    else None
  }

  /** A Miniserver that knows the current salt: the first `salt/` sets it, a `nextSalt/` must name it. */
  function Accept(current: Option<Text>, plain: Text): (r: Option<Text>)
  {
    match Announced(plain)
    case None => None
    case Some(Use(salt)) => if current.None? || current == Some(salt) then Some(salt) else None
    case Some(Rotate(previous, next)) => if current == Some(previous) then Some(next) else None
  }

  lemma TagsDiffer(rest: Text)
    ensures !(NEXT_SALT_TAG <= SALT_TAG + rest)
  {
    assert NEXT_SALT_TAG[0] != (SALT_TAG + rest)[0];
  }

  lemma HexHasNoSlash(s: Text)
    requires HexSalt(s)
    ensures SLASH !in s
  {
  }

  lemma AnnouncedPrefix(s: Salt, command: Text, d: Draw)
    requires HexSalt(d.newSalt) && (s.salt == [] || HexSalt(s.salt))
    ensures Announced(Salted(s, command, d))
         == Some(if Rotates(s, d) then Rotate(s.salt, d.newSalt) else Use(After(s, d).salt))
  {
    hide Ascii;
    var plain := Salted(s, command, d);
    var tail := command + [0];
    var salt := After(s, d).salt;
    HexHasNoSlash(salt);
    SplitSegmentOf(salt, tail);
    if Rotates(s, d) {
      HexHasNoSlash(s.salt);
      var rest := salt + [SLASH] + tail;
      SplitSegmentOf(s.salt, rest);
      assert plain == NEXT_SALT_TAG + (s.salt + [SLASH] + rest);
    } else {
      assert plain == SALT_TAG + (salt + [SLASH] + tail);
      TagsDiffer(salt + [SLASH] + tail);
    }
  }

  function ServerSalt(s: Salt): (c: Option<Text>) { if s.salt == [] then None else Some(s.salt) }

  /** The Miniserver's salt after the first `i` commands; `None` in the outer option is a refusal. */
  function ServerRun(draws: seq<Draw>, commands: seq<Text>, i: nat): (r: Option<Option<Text>>)
    requires i <= |draws| == |commands|
  {
    if i == 0 then Some(None)
    else
      match ServerRun(draws, commands, i - 1)
      case None => None
      case Some(current) =>
        match Accept(current, Salted(StateAt(draws, i - 1), commands[i - 1], draws[i - 1]))
        case None => None
        case Some(next) => Some(Some(next))
  }

  /** Over every command sequence and clock, the Miniserver accepts the whole chain and holds the client's salt. */
  lemma {:induction false} ChainAccepted(draws: seq<Draw>, commands: seq<Text>, i: nat)
    requires i <= |draws| == |commands| && AllHex(draws)
    ensures ServerRun(draws, commands, i) == Some(ServerSalt(StateAt(draws, i)))
    ensures StateAt(draws, i).salt == [] || HexSalt(StateAt(draws, i).salt)
  {
    if i > 0 {
      ChainAccepted(draws, commands, i - 1);
      AnnouncedPrefix(StateAt(draws, i - 1), commands[i - 1], draws[i - 1]);
    }
  }
}
