/** Finding `LL.control` in a raw type-0 payload without building a DOM (src/client/pending.rs). */
module ControlScan {
  import opened Bytes
  import opened WordScan
  import Utf8

  const CONTROL_KEY_SCAN_LIMIT: nat := 512
  const CONTROL_VALUE_LIMIT: nat := 8 * 1024

  const QUOTE: byte := 0x22
  const BACKSLASH: byte := 0x5C
  const COLON: byte := 0x3A

  /** `"control"`, with its quotes. */
  const KEY: seq<byte> := [QUOTE, 0x63, 0x6F, 0x6E, 0x74, 0x72, 0x6F, 0x6C, QUOTE]

  predicate KeyAt(w: seq<byte>, i: int) { 0 <= i && i + 9 <= |w| && w[i..i + 9] == KEY }

  predicate FirstKey(w: seq<byte>, at: int) { KeyAt(w, at) && forall i | 0 <= i < at :: !KeyAt(w, i) }

  /** The naive window search: a nine-byte comparison at every offset. */
  function KeyFrom(w: seq<byte>, from: nat): (r: Option<nat>)
    requires from <= |w|
    requires forall i | 0 <= i < from :: !KeyAt(w, i)
    ensures r.Some? ==> FirstKey(w, r.value)
    ensures r.None? ==> forall i :: !KeyAt(w, i)
    decreases |w| - from
  {
    if KeyAt(w, from) then Some(from)
    else if from == |w| then None
    else KeyFrom(w, from + 1)
  }

  lemma KeyByWord(w: seq<byte>, at: nat)
    requires at + 9 <= |w|
    ensures WordAt(w[at..at + 8]) == WordAt(KEY[..8]) && w[at + 8] == QUOTE <==> KeyAt(w, at)
  {
    hide WordAt;
    if WordAt(w[at..at + 8]) == WordAt(KEY[..8]) {
      WordAtInjective(w[at..at + 8], KEY[..8]);
    }
    assert w[at..at + 9] == w[at..at + 8] + [w[at + 8]];
    assert KEY == KEY[..8] + [QUOTE];
    if KeyAt(w, at) {
      assert w[at..at + 8] == w[at..at + 9][..8];
    }
  }

  /** `find_control_key`: jumps from quote to quote. It finds what the naive search finds. */
  method FindControlKey(window: seq<byte>) returns (r: Option<nat>)
    ensures r == KeyFrom(window, 0)
  {
    hide WordAt;
    if |window| < |KEY| {
      return None;
    }
    var last := |window| - |KEY|;
    var anchor := WordAt(KEY[..8]);
    var from := 0;
    while from <= last
      invariant 0 <= from <= last + 1
      invariant forall i | 0 <= i < from :: !KeyAt(window, i)
    {
      var quote := FindEither(window[from..], QUOTE, QUOTE);
      forall i | from <= i < |window| && KeyAt(window, i)
        ensures quote.Some? && from + quote.value <= i
      {
        assert window[i] == KEY[0];
        assert Hit(window[from..][i - from], QUOTE, QUOTE);
      }
      if quote.None? {
        return None;
      }
      var at := from + quote.value;
      if at > last {
        return None;
      }
      KeyByWord(window, at);
      if WordAt(window[at..at + 8]) == anchor && window[at + 8] == QUOTE {
        return Some(at);
      }
      from := at + 1;
    }
    return None;
  }

  /** `u8::is_ascii_whitespace`. */
  predicate AsciiSpace(b: byte) { b == 0x20 || b == 0x09 || b == 0x0A || b == 0x0C || b == 0x0D }

  function SpaceRun(s: seq<byte>): (n: nat)
    ensures n <= |s| && (forall i | 0 <= i < n :: AsciiSpace(s[i])) && (n < |s| ==> !AsciiSpace(s[n]))
  {
    if s != [] && AsciiSpace(s[0]) then 1 + SpaceRun(s[1..]) else 0
  }

  /** Where the value's opening quote sits, for a key ending at `keyEnd`. */
  function QuoteAfter(payload: seq<byte>, keyEnd: nat): (r: Option<nat>)
    requires keyEnd <= |payload|
    ensures r.Some? ==> r.value < |payload|
  {
    match FirstEither(payload[keyEnd..], COLON, COLON)
    case None => None
    case Some(skip) =>
      var colon := keyEnd + skip;
      var quote := colon + 1 + SpaceRun(payload[colon + 1..]);
      if quote < |payload| && payload[quote] == QUOTE then Some(quote) else None
  }

  /** The quoted value opened at `quote`, searched within the limit. */
  function ValueAt(payload: seq<byte>, quote: nat): (r: Option<Text>)
    requires quote < |payload|
  {
    var value := payload[quote + 1..][..Min(|payload| - quote - 1, CONTROL_VALUE_LIMIT)];
    match FirstEither(value, QUOTE, BACKSLASH)
    case None => None
    case Some(end) => if value[end] == QUOTE && Utf8.Valid(value[..end]) then Some(value[..end]) else None
  }

  /** The value `extract_ll_control` computes, with naive searches. */
  function ControlOf(payload: seq<byte>): (r: Option<Text>)
  {
    match KeyFrom(payload[..Min(|payload|, CONTROL_KEY_SCAN_LIMIT)], 0)
    case None => None
    case Some(key) =>
      match QuoteAfter(payload, key + 9)
      case None => None
      case Some(quote) => ValueAt(payload, quote)
  }

  /** The first half of `extract_ll_control` after the key: the colon and the opening quote. */
  method FindQuote(payload: seq<byte>, keyEnd: nat) returns (r: Option<nat>)
    requires keyEnd <= |payload|
    ensures r == QuoteAfter(payload, keyEnd)
  {
    hide FirstEither, SpaceRun;
    var skip := FindEither(payload[keyEnd..], COLON, COLON);
    if skip.None? {
      return None;
    }
    var colon := keyEnd + skip.value;
    var quote := colon + 1;
    while quote < |payload| && AsciiSpace(payload[quote])
      invariant colon < quote <= |payload|
      invariant forall i | colon < i < quote :: AsciiSpace(payload[i])
    {
      quote := quote + 1;
    }
    SpaceRunIs(payload[colon + 1..], quote - colon - 1);
    if quote == |payload| || payload[quote] != QUOTE {
      return None;
    }
    return Some(quote);
  }

  /** `extract_ll_control`. */
  method ExtractLlControl(payload: seq<byte>) returns (r: Option<Text>)
    ensures r == ControlOf(payload)
  {
    hide FirstEither, KeyFrom, QuoteAfter, Utf8.Valid;
    var key := FindControlKey(payload[..Min(|payload|, CONTROL_KEY_SCAN_LIMIT)]);
    if key.None? {
      return None;
    }
    var quote := FindQuote(payload, key.value + 9);
    if quote.None? {
      return None;
    }
    var value := payload[quote.value + 1..][..Min(|payload| - quote.value - 1, CONTROL_VALUE_LIMIT)];
    var end := FindEither(value, QUOTE, BACKSLASH);
    if end.None? || value[end.value] != QUOTE || !Utf8.Valid(value[..end.value]) {
      return None;
    }
    return Some(value[..end.value]);
  }

  /** `quote` opens the value: the first colon after the key at `key`, then only whitespace, then a quote. */
  predicate OpensValue(payload: seq<byte>, key: int, colon: int, quote: int) {
    && 0 <= key && key + 9 <= colon < quote < |payload|
    && payload[colon] == COLON && (forall i | key + 9 <= i < colon :: payload[i] != COLON)
    && (forall i | colon < i < quote :: AsciiSpace(payload[i])) && payload[quote] == QUOTE
  }

  /** `c` is the text between the quote at `quote` and the next one, free of backslashes and within the limit. */
  predicate QuotedAt(payload: seq<byte>, quote: int, c: Text) {
    && 0 <= quote && quote + 1 + |c| < |payload| && |c| < CONTROL_VALUE_LIMIT
    && payload[quote + 1..quote + 1 + |c|] == c && payload[quote + 1 + |c|] == QUOTE
    && (forall i | 0 <= i < |c| :: !Hit(c[i], QUOTE, BACKSLASH))
    && Utf8.Valid(c)
  }

  predicate ControlWith(payload: seq<byte>, key: int, colon: int, quote: int, c: Text) {
    && FirstKey(payload[..Min(|payload|, CONTROL_KEY_SCAN_LIMIT)], key)
    && OpensValue(payload, key, colon, quote)
    && QuotedAt(payload, quote, c)
  }

  /**
   * The first `"control"` lying wholly in the first 512 bytes is followed by a first colon,
   * whitespace and the quoted value `c`.
   */
  ghost predicate HasControl(payload: seq<byte>, c: Text) {
    exists key, colon, quote :: ControlWith(payload, key, colon, quote, c)
  }

  lemma FirstEitherIs(h: seq<byte>, a: byte, b: byte, k: nat)
    requires k < |h| && Hit(h[k], a, b) && forall i | 0 <= i < k :: !Hit(h[i], a, b)
    ensures FirstEither(h, a, b) == Some(k)
  {
  }

  lemma SpaceRunIs(s: seq<byte>, n: nat)
    requires n <= |s| && (n < |s| ==> !AsciiSpace(s[n])) && forall i | 0 <= i < n :: AsciiSpace(s[i])
    ensures SpaceRun(s) == n
  {
  }

  lemma FirstKeyIs(w: seq<byte>, at: nat)
    requires FirstKey(w, at)
    ensures KeyFrom(w, 0) == Some(at)
  {
  }

  lemma QuoteIff(payload: seq<byte>, key: nat, quote: nat)
    requires key + 9 <= |payload|
    ensures QuoteAfter(payload, key + 9) == Some(quote) <==> exists colon :: OpensValue(payload, key, colon, quote)
  {
    hide FirstEither, SpaceRun;
    if colon :| OpensValue(payload, key, colon, quote) {
      FirstEitherIs(payload[key + 9..], COLON, COLON, colon - key - 9);
      SpaceRunIs(payload[colon + 1..], quote - colon - 1);
    }
    if QuoteAfter(payload, key + 9) == Some(quote) {
      var tail := payload[key + 9..];
      var colon := key + 9 + FirstEither(tail, COLON, COLON).value;
      assert forall i | key + 9 <= i < colon :: payload[i] == tail[i - key - 9];
      var after := payload[colon + 1..];
      assert forall i | colon < i < quote :: payload[i] == after[i - colon - 1];
      assert OpensValue(payload, key, colon, quote);
    }
  }

  lemma ValueIff(payload: seq<byte>, quote: nat, c: Text)
    requires quote < |payload|
    ensures ValueAt(payload, quote) == Some(c) <==> QuotedAt(payload, quote, c)
  {
    hide FirstEither, Utf8.Valid;
    var value := payload[quote + 1..][..Min(|payload| - quote - 1, CONTROL_VALUE_LIMIT)];
    if QuotedAt(payload, quote, c) {
      assert value[..|c|] == payload[quote + 1..quote + 1 + |c|];
      assert forall i | 0 <= i < |c| :: value[i] == value[..|c|][i];
      FirstEitherIs(value, QUOTE, BACKSLASH, |c|);
    }
    if ValueAt(payload, quote) == Some(c) {
      assert payload[quote + 1..quote + 1 + |c|] == value[..|c|];
    }
  }

  /** `extract_ll_control` returns `c` if and only if the payload has `c` as its described control value. */
  lemma ControlIff(payload: seq<byte>, c: Text)
    ensures ControlOf(payload) == Some(c) <==> HasControl(payload, c)
  {
    hide KeyFrom, QuoteAfter, ValueAt, OpensValue, QuotedAt;
    var w := payload[..Min(|payload|, CONTROL_KEY_SCAN_LIMIT)];
    if HasControl(payload, c) {
      var key, colon, quote :| ControlWith(payload, key, colon, quote, c);
      FirstKeyIs(w, key);
      InPayload(payload, key, colon, quote);
      QuoteIff(payload, key, quote);
      ValueIff(payload, quote, c);
    }
    if ControlOf(payload) == Some(c) {
      var key := KeyFrom(w, 0).value;
      var quote := QuoteAfter(payload, key + 9).value;
      QuoteIff(payload, key, quote);
      var colon :| OpensValue(payload, key, colon, quote);
      ValueIff(payload, quote, c);
      assert ControlWith(payload, key, colon, quote, c);
    }
  }

  lemma InPayload(payload: seq<byte>, key: int, colon: int, quote: int)
    requires OpensValue(payload, key, colon, quote)
    ensures 0 <= key && key + 9 <= |payload| && 0 <= quote < |payload|
  {
  }
}
