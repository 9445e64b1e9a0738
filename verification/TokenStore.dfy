/** The token file (src/auth/store.rs) and the in-memory token mirrored into it (src/client/state.rs). */
module TokenStore {
  import opened Bytes

  type I64 = x: int | -0x8000_0000_0000_0000 <= x < 0x8000_0000_0000_0000

  datatype HashAlg = Sha1 | Sha256

  datatype LxToken = LxToken(token: string, validUntil: I64, hashAlg: HashAlg) {
    predicate IsEmpty() { token == "" }

    /** Seconds left at Unix time `now`. */
    function SecondsToExpire(now: int): (s: int) { LOXONE_EPOCH + validUntil - now }

    function Cleared(): (t: LxToken) { this.(token := "", validUntil := 0) }
  }

  const LOXONE_EPOCH := 1_230_768_000
  const DEFAULT_TOKEN := LxToken("", 0, Sha1)
  const MAGIC := "loxwebsocket-token 1"

  predicate LineFree(s: string) { '\n' !in s && '\r' !in s }

  // Decimal numbers.

  function Digit(d: nat): (c: char)
    requires d < 10
    ensures DigitValue(c) == Some(d) && c != '=' && c != '\n' && c != '\r' && c != '-' && c != '+'
  {
    ['0', '1', '2', '3', '4', '5', '6', '7', '8', '9'][d]
  }

  function DigitValue(c: char): (d: Option<nat>)
    ensures d.Some? ==> d.value < 10
  {
    if '0' <= c <= '9' then Some((c as int) - ('0' as int)) else None
  }

  function PrintNat(n: nat): (s: string)
    ensures s != "" && DigitValue(s[0]).Some?
  {
    if n < 10 then [Digit(n)] else PrintNat(n / 10) + [Digit(n % 10)]
  }

  /** `Display` of an `i64`. */
  function PrintI64(n: I64): (s: string) { if n < 0 then "-" + PrintNat(Abs(n)) else PrintNat(Abs(n)) }

  function Abs(n: int): (m: nat) { if n < 0 then -n else n }

  function ParseNat(s: string): (n: Option<nat>)
  {
    if s == "" then Some(0)
    else match (ParseNat(s[..|s| - 1]), DigitValue(s[|s| - 1]))
         case (Some(n), Some(d)) => Some(10 * n + d)
         case _ => None
  }

  /** `str::parse::<i64>`: an optional sign and at least one digit, within range. */
  function ParseI64(s: string): (n: Option<I64>)
  {
    var negative := s != "" && s[0] == '-';
    var digits := if s != "" && (s[0] == '-' || s[0] == '+') then s[1..] else s;
    if digits == "" then None
    else match ParseNat(digits)
         case None => None
         case Some(m) =>
           var n: int := if negative then 0 - m as int else m as int;
           if -0x8000_0000_0000_0000 <= n < 0x8000_0000_0000_0000 then Some(n) else None
  }

  lemma {:induction false} ParsePrintNat(n: nat)
    ensures ParseNat(PrintNat(n)) == Some(n) && LineFree(PrintNat(n))
  {
    hide Digit, DigitValue;
    if n < 10 {
      assert [Digit(n)][..0] == "";
    } else {
      var s := PrintNat(n);
      ParsePrintNat(n / 10);
      assert s[..|s| - 1] == PrintNat(n / 10);
    }
  }

  /** The saved expiry reads back for every `i64`. */
  lemma ParsePrintI64(n: I64)
    ensures ParseI64(PrintI64(n)) == Some(n) && LineFree(PrintI64(n))
  {
    hide PrintNat, ParseNat, DigitValue;
    ParsePrintNat(Abs(n));
    assert DigitValue('-') == None && DigitValue('+') == None by { SignsAreNoDigits(); }
    if n < 0 {
      assert PrintI64(n)[1..] == PrintNat(Abs(n));
    }
  }

  lemma SignsAreNoDigits()
    ensures DigitValue('-') == None && DigitValue('+') == None
  {
  }

  // Lines and fields.

  function StripCr(line: string): (r: string)
  {
    if line != "" && line[|line| - 1] == '\r' then line[..|line| - 1] else line
  }

  /** How far the first line reaches. */
  function LineEnd(s: string): (k: nat)
    ensures k <= |s| && (k < |s| ==> s[k] == '\n') && forall i | 0 <= i < k :: s[i] != '\n'
  {
    if s == "" || s[0] == '\n' then 0 else 1 + LineEnd(s[1..])
  }

  /** `str::lines`: a carriage return counts only right before a line feed, and a final line feed ends no empty line. */
  function Lines(s: string): (lines: seq<string>)
    decreases |s|
  {
    if s == "" then []
    else var k := LineEnd(s);
         if k == |s| then [s] else [StripCr(s[..k])] + Lines(s[k + 1..])
  }

  /** A line and its line feed in front of `rest`. */
  function Line(line: string, rest: string): (s: string) { line + "\n" + rest }

  lemma LineEndIs(s: string, k: nat)
    requires k < |s| && s[k] == '\n' && forall i | 0 <= i < k :: s[i] != '\n'
    ensures LineEnd(s) == k
  {
  }

  lemma LinesOf(line: string, rest: string)
    requires LineFree(line)
    ensures Lines(Line(line, rest)) == [line] + Lines(rest)
  {
    var s := Line(line, rest);
    LineEndIs(s, |line|);
    assert s[..|line|] == line && s[|line| + 1..] == rest;
  }

  function Field(key: string, value: string): (line: string) { key + "=" + value }

  /** `split_once('=')`. */
  function SplitOnce(line: string): (r: Option<(string, string)>)
  {
    if line == "" then None
    else if line[0] == '=' then Some(("", line[1..]))
    else match SplitOnce(line[1..])
         case None => None
         case Some((key, value)) => Some(([line[0]] + key, value))
  }

  lemma {:induction false} SplitOnceOf(key: string, value: string)
    requires '=' !in key
    ensures SplitOnce(Field(key, value)) == Some((key, value))
  {
    var line := Field(key, value);
    if key == "" {
      assert line[1..] == value;
    } else {
      SplitOnceOf(key[1..], value);
      assert line[1..] == Field(key[1..], value);
      assert [line[0]] + key[1..] == key;
    }
  }

  datatype Fields = Fields(binding: Option<string>, token: Option<string>, validUntil: Option<I64>,
                           hashAlg: Option<HashAlg>)

  const NO_FIELDS := Fields(None, None, None, None)

  function AlgName(a: HashAlg): (s: string) { if a.Sha1? then "SHA1" else "SHA256" }

  function ParseAlg(s: string): (a: Option<HashAlg>)
  {
    if s == "SHA1" then Some(Sha1) else if s == "SHA256" then Some(Sha256) else None
  }

  /** One line: the first usable occurrence of a key wins. */
  function Note(f: Fields, line: string): (r: Fields)
  {
    match SplitOnce(line)
    case None => f
    case Some((key, value)) =>
      if key == "binding" && f.binding.None? then f.(binding := Some(value))
      else if key == "token" && f.token.None? then f.(token := Some(value))
      else if key == "valid_until" && f.validUntil.None? then f.(validUntil := ParseI64(value))
      else if key == "hash_alg" && f.hashAlg.None? then f.(hashAlg := ParseAlg(value))
      else f
  }

  function NoteAll(f: Fields, lines: seq<string>): (r: Fields)
    decreases |lines|
  {
    if lines == [] then f else NoteAll(Note(f, lines[0]), lines[1..])
  }

  datatype Record = Record(binding: string, token: LxToken)

  function Complete(f: Fields): (r: Option<Record>)
  {
    match f
    case Fields(Some(binding), Some(token), Some(validUntil), Some(hashAlg)) =>
      if token == "" then None else Some(Record(binding, LxToken(token, validUntil, hashAlg)))
    case _ => None
  }

  /** `read_record` on the text of the file. */
  function ParseRecord(text: string): (r: Option<Record>)
  {
    var lines := Lines(text);
    if lines == [] || lines[0] != MAGIC then None else Complete(NoteAll(NO_FIELDS, lines[1..]))
  }

  function PrintRecord(r: Record): (text: string)
  {
    Line(MAGIC, Line(Field("binding", r.binding), Line(Field("hash_alg", AlgName(r.token.hashAlg)),
      Line(Field("valid_until", PrintI64(r.token.validUntil)), Line(Field("token", r.token.token), "")))))
  }

  predicate Storable(r: Record) { LineFree(r.binding) && LineFree(r.token.token) && !r.token.IsEmpty() }

  lemma KeyedLineFree(key: string, value: string)
    requires LineFree(key) && LineFree(value)
    ensures LineFree(Field(key, value))
  {
  }

  lemma RecordLines(r: Record)
    requires Storable(r)
    ensures Lines(PrintRecord(r))
         == [MAGIC] + [Field("binding", r.binding)] + [Field("hash_alg", AlgName(r.token.hashAlg))]
            + [Field("valid_until", PrintI64(r.token.validUntil))] + [Field("token", r.token.token)]
  {
    ParsePrintI64(r.token.validUntil);
    hide Lines, Line, PrintI64, LineFree, Field;
    var line2, line3 := Field("binding", r.binding), Field("hash_alg", AlgName(r.token.hashAlg));
    var line4, line5 := Field("valid_until", PrintI64(r.token.validUntil)), Field("token", r.token.token);
    LiteralsLineFree(r.token.hashAlg);
    KeyedLineFree("binding", r.binding);
    KeyedLineFree("hash_alg", AlgName(r.token.hashAlg));
    KeyedLineFree("valid_until", PrintI64(r.token.validUntil));
    KeyedLineFree("token", r.token.token);
    LinesOf(line5, "");
    LinesOf(line4, Line(line5, ""));
    LinesOf(line3, Line(line4, Line(line5, "")));
    LinesOf(line2, Line(line3, Line(line4, Line(line5, ""))));
    LinesOf(MAGIC, Line(line2, Line(line3, Line(line4, Line(line5, "")))));
    NoLines();
  }

  lemma NoLines()
    ensures Lines("") == []
  {
  }

  lemma LiteralsLineFree(a: HashAlg)
    ensures LineFree(MAGIC) && LineFree("binding") && LineFree("hash_alg") && LineFree("valid_until")
            && LineFree("token") && LineFree(AlgName(a))
  {
    assert LineFree(MAGIC) by { MagicLineFree(); }
    assert LineFree("valid_until") && LineFree("hash_alg") by { LongKeysLineFree(); }
  }

  lemma MagicLineFree()
    ensures LineFree(MAGIC)
  {
  }

  lemma LongKeysLineFree()
    ensures LineFree("valid_until") && LineFree("hash_alg")
  {
  }

  // Reading back the four lines of a record.

  lemma NoteBinding(f: Fields, value: string)
    requires f.binding.None?
    ensures Note(f, Field("binding", value)) == f.(binding := Some(value))
  {
    SplitOnceOf("binding", value);
    hide SplitOnce, ParseI64, Field;
  }

  lemma NoteToken(f: Fields, value: string)
    requires f.token.None?
    ensures Note(f, Field("token", value)) == f.(token := Some(value))
  {
    SplitOnceOf("token", value);
    hide SplitOnce, ParseI64, Field;
  }

  lemma NoteValidUntil(f: Fields, value: string)
    requires f.validUntil.None?
    ensures Note(f, Field("valid_until", value)) == f.(validUntil := ParseI64(value))
  {
    SplitOnceOf("valid_until", value);
    hide SplitOnce, ParseI64, Field;
  }

  lemma NoteAlg(f: Fields, a: HashAlg)
    requires f.hashAlg.None?
    ensures Note(f, Field("hash_alg", AlgName(a))) == f.(hashAlg := Some(a))
  {
    SplitOnceOf("hash_alg", AlgName(a));
    hide SplitOnce, ParseI64, Field;
    assert |"hash_alg"| == 8;
  }

  lemma NoteFour(f: Fields, a: string, b: string, c: string, d: string)
    ensures NoteAll(f, [a] + [b] + [c] + [d]) == Note(Note(Note(Note(f, a), b), c), d)
  {
    hide Note;
    var f1, f2, f3 := Note(f, a), Note(Note(f, a), b), Note(Note(Note(f, a), b), c);
    assert ([a] + [b] + [c] + [d])[1..] == [b, c, d] && [b, c, d][1..] == [c, d] && [c, d][1..] == [d]
           && [d][1..] == [];
    assert NoteAll(f3, [d]) == NoteAll(Note(f3, d), []);
    assert NoteAll(f2, [c, d]) == NoteAll(f3, [d]);
    assert NoteAll(f1, [b, c, d]) == NoteAll(f2, [c, d]);
  }

  lemma RecordFields(r: Record)
    ensures Note(Note(Note(Note(NO_FIELDS, Field("binding", r.binding)), Field("hash_alg", AlgName(r.token.hashAlg))),
                      Field("valid_until", PrintI64(r.token.validUntil))), Field("token", r.token.token))
         == Fields(Some(r.binding), Some(r.token.token), Some(r.token.validUntil), Some(r.token.hashAlg))
  {
    ParsePrintI64(r.token.validUntil);
    hide Note, PrintI64, ParseI64, LineFree, AlgName, Field;
    NoteBinding(NO_FIELDS, r.binding);
    var f := Fields(Some(r.binding), None, None, None);
    NoteAlg(f, r.token.hashAlg);
    var g := f.(hashAlg := Some(r.token.hashAlg));
    NoteValidUntil(g, PrintI64(r.token.validUntil));
    NoteToken(g.(validUntil := Some(r.token.validUntil)), r.token.token);
  }

  lemma ParseLines(text: string, rest: seq<string>)
    requires Lines(text) == [MAGIC] + rest
    ensures ParseRecord(text) == Complete(NoteAll(NO_FIELDS, rest))
  {
  }

  /** What is written reads back identically. */
  lemma RecordRoundTrip(r: Record)
    requires Storable(r)
    ensures ParseRecord(PrintRecord(r)) == Some(r)
  {
    hide *;
    RecordLines(r);
    RecordFields(r);
    var line2, line3 := Field("binding", r.binding), Field("hash_alg", AlgName(r.token.hashAlg));
    var line4, line5 := Field("valid_until", PrintI64(r.token.validUntil)), Field("token", r.token.token);
    NoteFour(NO_FIELDS, line2, line3, line4, line5);
    assert Lines(PrintRecord(r)) == [MAGIC] + ([line2] + [line3] + [line4] + [line5]);
    ParseLines(PrintRecord(r), [line2] + [line3] + [line4] + [line5]);
    CompleteAll(r);
  }

  lemma CompleteAll(r: Record)
    requires Storable(r)
    ensures Complete(Fields(Some(r.binding), Some(r.token.token), Some(r.token.validUntil), Some(r.token.hashAlg)))
            == Some(r)
  {
  }

  // The file as state.

  function FileAfterSave(file: Option<string>, binding: string, token: LxToken): (f: Option<string>)
  {
    if token.IsEmpty() then None
    else if !LineFree(token.token) then file
    else Some(PrintRecord(Record(binding, token)))
  }

  /** The record a file holds, if it is one. */
  function Parsed(file: Option<string>): (r: Option<Record>) { if file.None? then None else ParseRecord(file.value) }

  function Loaded(file: Option<string>, binding: string): (t: Option<LxToken>)
  {
    match Parsed(file)
    case None => None
    case Some(r) => if r.binding == binding then Some(r.token) else None
  }

  class FileTokenStore {
    /** The content of the file; `None` when there is no file. */
    var file: Option<string>

    constructor (content: Option<string>)
      ensures file == content
    {
      file := content;
    }

    method ReadRecord() returns (r: Option<Record>)
      ensures r == Parsed(file)
    {
      hide Lines, Note;
      if file.None? {
        return None;
      }
      var lines := Lines(file.value);
      if lines == [] || lines[0] != MAGIC {
        return None;
      }
      var f := NO_FIELDS;
      ghost var all := lines[1..];
      for i := 1 to |lines|
        invariant NoteAll(NO_FIELDS, all) == NoteAll(f, lines[i..])
      {
        assert lines[i..][1..] == lines[i + 1..];
        f := Note(f, lines[i]);
      }
      r := Complete(f);
    }

    /** Refuses a token with a line break and keeps the old file. */
    method WriteRecord(binding: string, token: LxToken) returns (ok: bool)
      modifies this
      ensures ok == LineFree(token.token)
      ensures file == if ok then Some(PrintRecord(Record(binding, token))) else old(file)
    {
      hide PrintRecord;
      ok := LineFree(token.token);
      if ok {
        file := Some(PrintRecord(Record(binding, token)));
      }
    }

    method Load(binding: string) returns (t: Option<LxToken>)
      ensures t == Loaded(file, binding)
    {
      var r := ReadRecord();
      t := if r.Some? && r.value.binding == binding then Some(r.value.token) else None;
    }

    method Save(binding: string, token: LxToken)
      modifies this
      ensures file == FileAfterSave(old(file), binding, token)
    {
      if token.IsEmpty() {
        Clear(binding);
        return;
      }
      var _ := WriteRecord(binding, token);
    }

    /** Whatever the binding, the one file goes. */
    method Clear(binding: string)
      modifies this
      ensures file == None
    {
      file := None;
    }
  }

  // The file acts as one slot.

  datatype Op = Save(binding: string, token: LxToken) | Clear(binding: string) | Load(binding: string)

  function FileAfter(initial: Option<string>, ops: seq<Op>): (file: Option<string>)
  {
    if ops == [] then initial
    else match ops[|ops| - 1]
         case Save(binding, token) => FileAfterSave(FileAfter(initial, ops[..|ops| - 1]), binding, token)
         case Clear(_) => None
         case Load(_) => FileAfter(initial, ops[..|ops| - 1])
  }

  /**
   * The reference: the last save that was not refused, or what was there before, unless something was cleared since.
   */
  function SlotAfter(initial: Option<string>, ops: seq<Op>): (slot: Option<Record>)
  {
    if ops == [] then Parsed(initial)
    else match ops[|ops| - 1]
         case Save(binding, token) =>
           if token.IsEmpty() then None
           else if LineFree(token.token) then Some(Record(binding, token))
           else SlotAfter(initial, ops[..|ops| - 1])
         case Clear(_) => None
         case Load(_) => SlotAfter(initial, ops[..|ops| - 1])
  }

  predicate Bindings(ops: seq<Op>) { forall i | 0 <= i < |ops| :: LineFree(ops[i].binding) }

  lemma SavedRecord(file: Option<string>, binding: string, token: LxToken)
    requires LineFree(binding)
    ensures Parsed(FileAfterSave(file, binding, token))
         == if token.IsEmpty() then None
            else if LineFree(token.token) then Some(Record(binding, token))
            else Parsed(file)
  {
    hide PrintRecord, ParseRecord;
    if !token.IsEmpty() && LineFree(token.token) {
      RecordRoundTrip(Record(binding, token));
    }
  }

  /** Whatever the file held first, it holds the record of the slot after any operations. */
  lemma {:induction false} FileHoldsSlot(initial: Option<string>, ops: seq<Op>)
    requires Bindings(ops)
    ensures Parsed(FileAfter(initial, ops)) == SlotAfter(initial, ops)
  {
    hide ParseRecord, FileAfterSave, LineFree;
    if ops != [] {
      var before := ops[..|ops| - 1];
      FileHoldsSlot(initial, before);
      if ops[|ops| - 1].Save? {
        SavedRecord(FileAfter(initial, before), ops[|ops| - 1].binding, ops[|ops| - 1].token);
      }
    }
  }

  /** After any operations, `load` answers exactly for the binding of the slot, with the token saved under it. */
  lemma StoreIsOneSlot(initial: Option<string>, ops: seq<Op>, binding: string)
    requires Bindings(ops)
    ensures var slot := SlotAfter(initial, ops);
            Loaded(FileAfter(initial, ops), binding)
            == if slot.Some? && slot.value.binding == binding then Some(slot.value.token) else None
  {
    hide Parsed, FileAfter, SlotAfter, LineFree;
    FileHoldsSlot(initial, ops);
  }

  // The in-memory token and its mirror.

  function MirrorOf(token: LxToken): (t: Option<LxToken>) { if token.IsEmpty() then None else Some(token) }

  datatype Shared = Shared(token: LxToken, file: Option<string>) {
    /** The store answers with the token held, or with nothing when none is held. */
    predicate Mirrors(binding: string) { Loaded(file, binding) == MirrorOf(token) }
  }

  /** The saved token, if there is one, has no line break: a file this client wrote. */
  predicate Clean(file: Option<string>) { Parsed(file).Some? ==> LineFree(Parsed(file).value.token.token) }

  /** `restore_token`: an expired token is discarded, any other saved one adopted. */
  function Restored(s: Shared, binding: string, now: int): (t: Shared)
  {
    match Loaded(s.file, binding)
    case None => s
    case Some(saved) =>
      if saved.IsEmpty() || saved.SecondsToExpire(now) <= 0 then s.(file := None) else s.(token := saved)
  }

  /** There is a saved token worth trying. */
  predicate Usable(file: Option<string>, binding: string, now: int) {
    var saved := Loaded(file, binding);
    saved.Some? && !saved.value.IsEmpty() && saved.value.SecondsToExpire(now) > 0
  }

  datatype TokenOp = Set(token: LxToken) | Forget

  function Held(s: Shared, binding: string, ops: seq<TokenOp>): (t: Shared)
  {
    if ops == [] then s
    else
      var before := Held(s, binding, ops[..|ops| - 1]);
      match ops[|ops| - 1]
      case Set(token) => Shared(token, FileAfterSave(before.file, binding, token))
      case Forget => Shared(before.token.Cleared(), None)
  }

  /** `set_token` mirrors a token without line breaks from any state, and from a clean file no other. */
  lemma SetMirrorsIff(file: Option<string>, binding: string, token: LxToken)
    requires LineFree(binding)
    ensures var s := Shared(token, FileAfterSave(file, binding, token));
            && (LineFree(token.token) ==> s.Mirrors(binding))
            && (Clean(file) ==> Clean(s.file) && (s.Mirrors(binding) <==> LineFree(token.token)))
  {
    hide FileAfterSave, Parsed;
    SavedRecord(file, binding, token);
  }

  /** After `restore_token` memory and store agree if and only if a token was adopted or none was held. */
  lemma RestoreMirrors(s: Shared, binding: string, now: int)
    ensures var t := Restored(s, binding, now);
            && (t.Mirrors(binding) <==> Usable(s.file, binding, now) || s.token.IsEmpty())
            && (Clean(s.file) ==> Clean(t.file))
  {
    hide ParseRecord;
  }

  /**
   * Over every sequence of new and forgotten tokens after the start, from whatever file: the store mirrors a token
   * without line breaks; and from a clean file it mirrors no other.
   */
  lemma {:induction false} MirrorIff(file: Option<string>, binding: string, now: int, ops: seq<TokenOp>)
    requires LineFree(binding)
    ensures var t := Held(Restored(Shared(DEFAULT_TOKEN, file), binding, now), binding, ops);
            && (LineFree(t.token.token) ==> t.Mirrors(binding))
            && (Clean(file) ==> Clean(t.file) && (t.Mirrors(binding) <==> LineFree(t.token.token)))
  {
    hide ParseRecord, FileAfterSave;
    var start := Restored(Shared(DEFAULT_TOKEN, file), binding, now);
    if ops == [] {
      RestoreMirrors(Shared(DEFAULT_TOKEN, file), binding, now);
    } else {
      MirrorIff(file, binding, now, ops[..|ops| - 1]);
      var before := Held(start, binding, ops[..|ops| - 1]);
      if ops[|ops| - 1].Set? {
        SetMirrorsIff(before.file, binding, ops[|ops| - 1].token);
      }
    }
  }

  class SharedState {
    var token: LxToken
    const store: FileTokenStore
    const binding: string

    constructor (store: FileTokenStore, binding: string)
      ensures this.store == store && this.binding == binding && token == DEFAULT_TOKEN
    {
      this.store, this.binding, token := store, binding, DEFAULT_TOKEN;
    }

    function View(): (s: Shared)
      reads this, store
    {
      Shared(token, store.file)
    }

    method SetToken(t: LxToken)
      modifies this, store
      ensures View() == Shared(t, FileAfterSave(old(store.file), binding, t))
      ensures LineFree(binding) && LineFree(t.token) ==> View().Mirrors(binding)
      ensures LineFree(binding) && Clean(old(store.file)) ==>
                Clean(store.file) && (View().Mirrors(binding) <==> LineFree(t.token))
    {
      hide FileAfterSave, LineFree;
      if LineFree(binding) {
        SetMirrorsIff(store.file, binding, t);
      }
      token := t;
      store.Save(binding, t);
    }

    method ClearToken()
      modifies this, store
      ensures View() == Shared(old(token).Cleared(), None) && View().Mirrors(binding)
    {
      token := token.Cleared();
      store.Clear(binding);
    }

    /** `now` is Unix time. */
    method RestoreToken(now: int)
      modifies this, store
      ensures View() == Restored(old(View()), binding, now)
      ensures View().Mirrors(binding) <==> Usable(old(store.file), binding, now) || old(token).IsEmpty()
    {
      RestoreMirrors(View(), binding, now);
      hide Parsed;
      var saved := store.Load(binding);
      if saved.None? {
        return;
      }
      if saved.value.IsEmpty() || saved.value.SecondsToExpire(now) <= 0 {
        store.Clear(binding);
        return;
      }
      token := saved.value;
    }
  }
}
