/** Event tables: the walkers of src/proto and the wire layout they undo. Floats stay eight opaque bytes. */
module EventTables {
  import opened Bytes

  const UUID_SIZE := 16
  const TEXT_HEADER_SIZE := 36
  const VALUE_RECORD_SIZE := 24
  const I32_LIMIT := 0x8000_0000

  type Uuid = u: Text | |u| == UUID_SIZE witness Zeros(16)

  lemma PrefixCons<T>(x: T, a: seq<T>, b: seq<T>)
    requires a <= b
    ensures [x] + a <= [x] + b
  {
  }

  // Fixed-size records: value tables, and the entry arrays of the other tables.

  /** Consecutive pieces of `size` bytes; what is left over is ignored. */
  function Chunks(bytes: Text, size: nat): (c: seq<Text>)
    requires size > 0
    decreases |bytes|
  {
    if |bytes| < size then [] else [bytes[..size]] + Chunks(bytes[size..], size)
  }

  function Join(chunks: seq<Text>): (bytes: Text) { if chunks == [] then [] else chunks[0] + Join(chunks[1..]) }

  predicate AllOfSize(chunks: seq<Text>, size: nat) { forall i | 0 <= i < |chunks| :: |chunks[i]| == size }

  lemma {:induction false} ChunksOfJoin(chunks: seq<Text>, size: nat, tail: Text)
    requires size > 0 && AllOfSize(chunks, size) && |tail| < size
    ensures Chunks(Join(chunks) + tail, size) == chunks
  {
    if chunks != [] {
      ChunksOfJoin(chunks[1..], size, tail);
      var bytes := Join(chunks) + tail;
      assert bytes == chunks[0] + (Join(chunks[1..]) + tail);
      assert bytes[..size] == chunks[0] && bytes[size..] == Join(chunks[1..]) + tail;
    }
  }

  lemma {:induction false} JoinSize(chunks: seq<Text>, size: nat)
    requires AllOfSize(chunks, size)
    ensures |Join(chunks)| == size * |chunks|
  {
    if chunks != [] {
      JoinSize(chunks[1..], size);
    }
  }

  datatype ValueRecord = ValueRecord(uuid: Uuid, value: Text)

  function ValueOf(chunk: Text): (r: ValueRecord)
    requires |chunk| == VALUE_RECORD_SIZE
  {
    ValueRecord(chunk[..16], chunk[16..])
  }

  /** Type-2 tables. */
  function Values(payload: Text): (r: seq<ValueRecord>)
  {
    if |payload| < VALUE_RECORD_SIZE then []
    else [ValueOf(payload[..VALUE_RECORD_SIZE])] + Values(payload[VALUE_RECORD_SIZE..])
  }

  function EncodeValues(records: seq<ValueRecord>): (bytes: Text)
  {
    if records == [] then [] else records[0].uuid + records[0].value + EncodeValues(records[1..])
  }

  /** Walking an encoded value table returns it; incomplete trailing bytes are ignored. */
  lemma {:induction false} ValuesRoundTrip(records: seq<ValueRecord>, tail: Text)
    requires (forall r | r in records :: |r.value| == 8) && |tail| < VALUE_RECORD_SIZE
    ensures Values(EncodeValues(records) + tail) == records
  {
    if records != [] {
      var head, more := records[0].uuid + records[0].value, EncodeValues(records[1..]) + tail;
      ValuesRoundTrip(records[1..], tail);
      assert EncodeValues(records) + tail == head + more;
      assert (head + more)[..24] == head && (head + more)[24..] == more;
      assert head[..16] == records[0].uuid && head[16..] == records[0].value;
    }
  }

  lemma {:induction false} ValuesTruncated(payload: Text, k: nat)
    requires k <= |payload|
    ensures Values(payload[..k]) <= Values(payload)
  {
    if k >= VALUE_RECORD_SIZE {
      ValuesTruncated(payload[24..], k - 24);
      assert payload[..k][..24] == payload[..24] && payload[..k][24..] == payload[24..][..k - 24];
      PrefixCons(ValueOf(payload[..24]), Values(payload[24..][..k - 24]), Values(payload[24..]));
    }
  }

  /** `walk_values`; the callback's calls are returned in order. */
  method WalkValues(payload: Text) returns (records: seq<ValueRecord>)
    ensures records == Values(payload)
  {
    var count := |payload| / VALUE_RECORD_SIZE;
    records := [];
    for i := 0 to count
      invariant 24 * count <= |payload| < 24 * count + 24
      invariant Values(payload) == records + Values(payload[24 * i..])
    {
      var rest := payload[24 * i..];
      assert rest[..24] == payload[24 * i..24 * i + 24] && rest[24..] == payload[24 * (i + 1)..];
      records := records + [ValueOf(payload[24 * i..24 * i + 24])];
    }
  }

  // Type-3 text tables: records of variable length, padded to four bytes.

  datatype TextRecord = TextRecord(uuid: Uuid, icon: Uuid, text: Text)

  function RecordLen(textLen: nat): (n: nat)
    ensures n % 4 == 0 && TEXT_HEADER_SIZE + textLen <= n < TEXT_HEADER_SIZE + textLen + 4
  {
    (TEXT_HEADER_SIZE + textLen + 3) / 4 * 4
  }

  function TextLen(payload: Text): (n: nat)
    requires |payload| >= TEXT_HEADER_SIZE
  {
    LeU32(payload[32..36])
  }

  function TextAt(payload: Text): (r: TextRecord)
    requires |payload| >= TEXT_HEADER_SIZE && TEXT_HEADER_SIZE + TextLen(payload) <= |payload|
  {
    TextRecord(payload[..16], payload[16..32], payload[36..36 + TextLen(payload)])
  }

  function Texts(payload: Text): (r: seq<TextRecord>)
    decreases |payload|
  {
    if |payload| < TEXT_HEADER_SIZE || TEXT_HEADER_SIZE + TextLen(payload) > |payload| then []
    else [TextAt(payload)]
         + if RecordLen(TextLen(payload)) > |payload| then [] else Texts(payload[RecordLen(TextLen(payload))..])
  }

  function EncodeText(r: TextRecord): (bytes: Text)
    requires |r.text| < 0x1_0000_0000
  {
    r.uuid + r.icon + U32Le(|r.text|) + r.text
  }

  /** How many bytes pad a text of the given length. */
  function PadLen(textLen: nat): (n: nat)
    ensures n < 4
  {
    RecordLen(textLen) - TEXT_HEADER_SIZE - textLen
  }

  /** A record with the bytes that pad it, which may be anything. */
  datatype Padded = Padded(record: TextRecord, padding: Text)

  predicate IsPadded(p: Padded) { |p.record.text| < 0x1_0000_0000 && |p.padding| == PadLen(|p.record.text|) }

  predicate AllPadded(items: seq<Padded>) { forall i | 0 <= i < |items| :: IsPadded(items[i]) }

  function EncodeTexts(items: seq<Padded>): (bytes: Text)
    requires AllPadded(items)
  {
    if items == [] then [] else EncodeText(items[0].record) + items[0].padding + EncodeTexts(items[1..])
  }

  function Records(items: seq<Padded>): (r: seq<TextRecord>)
  {
    if items == [] then [] else [items[0].record] + Records(items[1..])
  }

  lemma EncodedText(r: TextRecord, tail: Text)
    requires |r.text| < 0x1_0000_0000
    ensures var p := EncodeText(r) + tail;
            && |p| >= TEXT_HEADER_SIZE + |r.text| && TextLen(p) == |r.text|
            && p[..16] == r.uuid && p[16..32] == r.icon && p[36..36 + |r.text|] == r.text
            && p[36 + |r.text|..] == tail
  {
  }

  /** The padding of the last record may be missing, or be cut. */
  lemma LastPadding(r: TextRecord, padding: Text)
    requires |r.text| < 0x1_0000_0000 && |padding| <= PadLen(|r.text|)
    ensures Texts(EncodeText(r) + padding) == [r]
  {
    var p, n := EncodeText(r) + padding, |r.text|;
    EncodedText(r, padding);
    assert TextAt(p) == r && |p| == 36 + n + |padding| <= RecordLen(n);
    hide EncodeText, LeU32, TextLen, TextAt, RecordLen;
    if RecordLen(n) <= |p| {
      assert p[RecordLen(n)..] == [];
    }
  }

  lemma TextsStep(p: Padded, tail: Text)
    requires IsPadded(p)
    ensures Texts(EncodeText(p.record) + p.padding + tail) == [p.record] + Texts(tail)
  {
    var r := p.record;
    var bytes := EncodeText(r) + (p.padding + tail);
    assert EncodeText(r) + p.padding + tail == bytes;
    EncodedText(r, p.padding + tail);
    hide EncodeText, LeU32;
    var n := RecordLen(|r.text|);
    assert bytes[n..] == bytes[36 + |r.text|..][n - 36 - |r.text|..] == tail;
  }

  /** Encoded records are walked one by one, whatever pads them and whatever follows. */
  lemma {:induction false} TextsBehind(items: seq<Padded>, tail: Text)
    requires AllPadded(items)
    ensures Texts(EncodeTexts(items) + tail) == Records(items) + Texts(tail)
  {
    hide Texts, EncodeText;
    if items == [] {
      assert EncodeTexts(items) + tail == tail;
    } else {
      TextsBehind(items[1..], tail);
      TextsStep(items[0], EncodeTexts(items[1..]) + tail);
      assert EncodeTexts(items) + tail
          == EncodeText(items[0].record) + items[0].padding + (EncodeTexts(items[1..]) + tail);
    }
  }

  /**
   * Walking an encoded text table returns it, whatever pads the records and with all, part or none of the last padding.
   */
  lemma TextsRoundTrip(items: seq<Padded>, last: TextRecord, padding: Text)
    requires AllPadded(items) && |last.text| < 0x1_0000_0000 && |padding| <= PadLen(|last.text|)
    ensures Texts(EncodeTexts(items)) == Records(items)
    ensures Texts(EncodeTexts(items) + EncodeText(last) + padding) == Records(items) + [last]
  {
    hide Texts, EncodeText, EncodeTexts;
    NoTexts();
    TextsBehind(items, []);
    assert EncodeTexts(items) + [] == EncodeTexts(items);
    LastPadding(last, padding);
    TextsBehind(items, EncodeText(last) + padding);
    assert EncodeTexts(items) + (EncodeText(last) + padding) == EncodeTexts(items) + EncodeText(last) + padding;
  }

  /** A record read encodes to the bytes it was read from. */
  lemma TextEncodes(payload: Text)
    requires |payload| >= TEXT_HEADER_SIZE && TEXT_HEADER_SIZE + TextLen(payload) <= |payload|
    ensures TextLen(payload) < 0x1_0000_0000
    ensures EncodeText(TextAt(payload)) == payload[..36 + TextLen(payload)]
  {
    LeU32Inverse(payload[32..36]);
    hide LeU32, U32Le;
    var n := TextLen(payload);
    assert payload[..36 + n] == payload[..16] + payload[16..32] + payload[32..36] + payload[36..36 + n];
  }

  /** What is left behind the padded records: no record, or one whose padding is cut. */
  predicate LastText(tail: Text) {
    || Texts(tail) == []
    || (|Texts(tail)| == 1 && |Texts(tail)[0].text| < 0x1_0000_0000 && EncodeText(Texts(tail)[0]) <= tail
        && |tail| < RecordLen(|Texts(tail)[0].text|))
  }

  lemma PadRecord(payload: Text) returns (item: Padded)
    requires |payload| >= TEXT_HEADER_SIZE && RecordLen(TextLen(payload)) <= |payload|
    ensures IsPadded(item) && item.record == TextAt(payload)
    ensures EncodeText(item.record) + item.padding == payload[..RecordLen(TextLen(payload))]
  {
    TextEncodes(payload);
    hide LeU32, EncodeText;
    var n := TextLen(payload);
    item := Padded(TextAt(payload), payload[36 + n..RecordLen(n)]);
    assert payload[..RecordLen(n)] == payload[..36 + n] + payload[36 + n..RecordLen(n)];
  }

  lemma LastRecord(payload: Text)
    requires |payload| >= TEXT_HEADER_SIZE ==> RecordLen(TextLen(payload)) > |payload|
    ensures LastText(payload)
  {
    hide LeU32, EncodeText;
    if |payload| >= TEXT_HEADER_SIZE && TEXT_HEADER_SIZE + TextLen(payload) <= |payload| {
      TextEncodes(payload);
    }
  }

  /**
   * Conversely, every payload is the encoding of the records read from it, up to a last one and to bytes that hold
   * none.
   */
  lemma {:induction false} TextsEncode(payload: Text) returns (items: seq<Padded>, tail: Text)
    ensures AllPadded(items) && payload == EncodeTexts(items) + tail
    ensures Texts(payload) == Records(items) + Texts(tail) && LastText(tail)
    decreases |payload|
  {
    hide TextLen, TextAt, RecordLen, EncodeText, LastText, Texts, IsPadded;
    if |payload| >= TEXT_HEADER_SIZE && RecordLen(TextLen(payload)) <= |payload| {
      var n := RecordLen(TextLen(payload));
      var item := PadRecord(payload);
      var later;
      later, tail := TextsEncode(payload[n..]);
      items := [item] + later;
      assert payload == payload[..n] + payload[n..];
      assert payload == EncodeTexts(items) + tail;
      TextsBehind(items, tail);
    } else {
      items, tail := [], payload;
      LastRecord(payload);
    }
  }

  lemma NoTexts()
    ensures Texts([]) == []
  {
  }

  /** A record that is still whole in a cut payload is the same one. */
  lemma TextCut(payload: Text, k: nat)
    requires TEXT_HEADER_SIZE <= k <= |payload|
    ensures var cut, n := payload[..k], TextLen(payload);
            && TextLen(cut) == n
            && (TEXT_HEADER_SIZE + n <= k ==> TextAt(cut) == TextAt(payload))
            && (RecordLen(n) <= k ==> cut[RecordLen(n)..] == payload[RecordLen(n)..][..k - RecordLen(n)])
  {
    hide LeU32, RecordLen;
    var cut := payload[..k];
    assert cut[32..36] == payload[32..36];
    var n := TextLen(payload);
    if TEXT_HEADER_SIZE + n <= k {
      assert cut[..16] == payload[..16] && cut[16..32] == payload[16..32] && cut[36..36 + n] == payload[36..36 + n];
    }
  }

  /** Cutting a payload anywhere only loses records at the end. */
  lemma {:induction false} TextsTruncated(payload: Text, k: nat)
    requires k <= |payload|
    ensures Texts(payload[..k]) <= Texts(payload)
    decreases |payload|
  {
    hide TextLen, TextAt, RecordLen;
    if k >= TEXT_HEADER_SIZE {
      TextCut(payload, k);
      var n := RecordLen(TextLen(payload));
      if n <= k {
        TextsTruncated(payload[n..], k - n);
      }
    }
  }

  /** `walk_texts`. */
  method WalkTexts(payload: Text) returns (records: seq<TextRecord>)
    ensures records == Texts(payload)
  {
    hide LeU32, RecordLen, TextLen, TextAt;
    var rest := payload;
    records := [];
    while |rest| >= TEXT_HEADER_SIZE
      invariant Texts(payload) == records + Texts(rest)
      decreases |rest|
    {
      var textLen := TextLen(rest);
      if TEXT_HEADER_SIZE + textLen > |rest| {
        return;
      }
      var record := TextAt(rest);
      ghost var seen := records;
      records := records + [record];
      if RecordLen(textLen) > |rest| {
        return;
      }
      rest := rest[RecordLen(textLen)..];
      AppendOne(seen, record, Texts(rest));
    }
  }

  lemma AppendOne<T>(a: seq<T>, x: T, b: seq<T>)
    ensures a + ([x] + b) == a + [x] + b
  {
  }

  // Type-4 and type-7 tables: a header with a signed entry count, then that many fixed-size entries.

  datatype Layout = Daytimer | Weather
  {
    /** Bytes between UUID and count. */
    function Extra(): (n: nat) { if Daytimer? then 8 else 4 }

    /** Bytes per entry. */
    function Entry(): (n: nat)
      ensures n > 0
    {
      if Daytimer? then 24 else 68
    }
  }

  /** A table; `extra` is the default value of a daytimer or the last update of a weather table. */
  datatype Table = Table(uuid: Uuid, extra: Text, entries: seq<Text>)

  /** `None` for a negative `i32`. */
  function Count(bytes: Text): (n: Option<nat>)
    requires |bytes| == 4
  {
    if LeU32(bytes) < I32_LIMIT then Some(LeU32(bytes)) else None
  }

  datatype Piece = Piece(table: Table, rest: Text)

  /** `split_table` and `entries_of`. */
  function SplitTable(l: Layout, payload: Text): (r: Option<Piece>)
    ensures r.Some? ==> |r.value.rest| < |payload|
  {
    var header := UUID_SIZE + l.Extra() + 4;
    if |payload| < header then None
    else match Count(payload[header - 4..header])
         case None => None
         case Some(count) =>
           var end := header + count * l.Entry();
           if end > |payload| then None
           else
             var entries := Chunks(payload[header..end], l.Entry());
             Some(Piece(Table(payload[..16], payload[16..16 + l.Extra()], entries), payload[end..]))
  }

  function Tables(l: Layout, payload: Text): (r: seq<Table>)
    decreases |payload|
  {
    match SplitTable(l, payload)
    case None => []
    case Some(p) => [p.table] + Tables(l, p.rest)
  }

  predicate Fits(l: Layout, t: Table) {
    |t.extra| == l.Extra() && |t.entries| < I32_LIMIT && AllOfSize(t.entries, l.Entry())
  }

  function EncodeTable(l: Layout, t: Table): (bytes: Text)
    requires Fits(l, t)
  {
    t.uuid + t.extra + U32Le(|t.entries|) + Join(t.entries)
  }

  function EncodeTables(l: Layout, tables: seq<Table>): (bytes: Text)
    requires forall t | t in tables :: Fits(l, t)
  {
    if tables == [] then [] else EncodeTable(l, tables[0]) + EncodeTables(l, tables[1..])
  }

  /** The pieces of a table's bytes are its slices. */
  lemma Sliced(uuid: Text, extra: Text, count: Text, entries: Text, tail: Text)
    ensures var p := uuid + extra + count + entries + tail;
            var i, j := |uuid| + |extra|, |uuid| + |extra| + |count|;
            && p[..|uuid|] == uuid && p[|uuid|..i] == extra && p[i..j] == count
            && p[j..j + |entries|] == entries && p[j + |entries|..] == tail
  {
  }

  lemma EncodedTable(l: Layout, t: Table, tail: Text)
    requires Fits(l, t)
    ensures SplitTable(l, EncodeTable(l, t) + tail) == Some(Piece(t, tail))
  {
    JoinSize(t.entries, l.Entry());
    ChunksOfJoin(t.entries, l.Entry(), []);
    assert Join(t.entries) + [] == Join(t.entries);
    Sliced(t.uuid, t.extra, U32Le(|t.entries|), Join(t.entries), tail);
    hide Join, Chunks, LeU32, AllOfSize, Layout.Extra, Layout.Entry;
  }

  lemma {:induction false} JoinOfChunks(bytes: Text, size: nat, n: nat)
    requires size > 0 && |bytes| == n * size
    ensures Join(Chunks(bytes, size)) == bytes && |Chunks(bytes, size)| == n && AllOfSize(Chunks(bytes, size), size)
    decreases n
  {
    if n > 0 {
      assert n * size == (n - 1) * size + size;
      JoinOfChunks(bytes[size..], size, n - 1);
      assert bytes == bytes[..size] + bytes[size..];
      assert ([bytes[..size]] + Chunks(bytes[size..], size))[1..] == Chunks(bytes[size..], size);
    }
  }

  lemma Glued(bytes: Text, i: nat, j: nat, k: nat, n: nat)
    requires i <= j <= k <= n <= |bytes|
    ensures bytes[..i] + bytes[i..j] + bytes[j..k] + bytes[k..n] + bytes[n..] == bytes
  {
  }

  /**
   * Conversely, what is split off encodes to the bytes it was read from, with exactly the announced number of entries.
   */
  lemma SplitEncodes(l: Layout, payload: Text)
    requires SplitTable(l, payload).Some?
    ensures var p := SplitTable(l, payload).value;
            Fits(l, p.table) && EncodeTable(l, p.table) + p.rest == payload
  {
    var header := UUID_SIZE + l.Extra() + 4;
    var n := Count(payload[header - 4..header]).value;
    var end := header + n * l.Entry();
    JoinOfChunks(payload[header..end], l.Entry(), n);
    LeU32Inverse(payload[header - 4..header]);
    Glued(payload, 16, header - 4, header, end);
    hide Join, Chunks, LeU32, U32Le, AllOfSize, Layout.Extra, Layout.Entry;
  }

  /** Walking encoded tables returns them. */
  lemma {:induction false} TablesRoundTrip(l: Layout, tables: seq<Table>)
    requires forall t | t in tables :: Fits(l, t)
    ensures Tables(l, EncodeTables(l, tables)) == tables
  {
    hide EncodeTable, SplitTable;
    if tables == [] {
      NoTable(l);
    } else {
      EncodedTable(l, tables[0], EncodeTables(l, tables[1..]));
      TablesRoundTrip(l, tables[1..]);
    }
  }

  lemma NoTable(l: Layout)
    ensures SplitTable(l, []) == None
  {
  }

  /** A cut payload splits off the same table, or none. */
  lemma SplitTruncated(l: Layout, payload: Text, k: nat)
    requires k <= |payload|
    ensures var cut, full := SplitTable(l, payload[..k]), SplitTable(l, payload);
            cut.Some? ==>
              && full.Some? && cut.value.table == full.value.table
              && |cut.value.rest| <= |full.value.rest| && cut.value.rest == full.value.rest[..|cut.value.rest|]
  {
    hide Chunks, LeU32;
    var header := UUID_SIZE + l.Extra() + 4;
    if k >= header {
      assert payload[..k][header - 4..header] == payload[header - 4..header];
      var count := Count(payload[header - 4..header]);
      if count.Some? && header + count.value * l.Entry() <= k {
        var end := header + count.value * l.Entry();
        assert payload[..k][..16] == payload[..16] && payload[..k][16..16 + l.Extra()] == payload[16..16 + l.Extra()];
        assert payload[..k][header..end] == payload[header..end];
        assert payload[..k][end..] == payload[end..][..k - end];
      }
    }
  }

  /** Cutting a payload anywhere only loses tables at the end. */
  lemma {:induction false} TablesTruncated(l: Layout, payload: Text, k: nat)
    requires k <= |payload|
    ensures Tables(l, payload[..k]) <= Tables(l, payload)
    decreases |payload|
  {
    SplitTruncated(l, payload, k);
    hide SplitTable;
    var cut := SplitTable(l, payload[..k]);
    if cut.Some? {
      var full := SplitTable(l, payload).value;
      TablesTruncated(l, full.rest, |cut.value.rest|);
      PrefixCons(full.table, Tables(l, cut.value.rest), Tables(l, full.rest));
    }
  }

  /** `walk_daytimers` and `walk_weather`. */
  method WalkTables(l: Layout, payload: Text) returns (tables: seq<Table>)
    ensures tables == Tables(l, payload)
  {
    hide SplitTable;
    var rest := payload;
    tables := [];
    var piece := SplitTable(l, rest);
    while piece.Some?
      invariant piece == SplitTable(l, rest) && Tables(l, payload) == tables + Tables(l, rest)
      decreases |rest|
    {
      AppendOne(tables, piece.value.table, Tables(l, piece.value.rest));
      tables := tables + [piece.value.table];
      rest := piece.value.rest;
      piece := SplitTable(l, rest);
    }
  }

  /** The two callbacks of `walk_daytimer_raw`. */
  datatype RawEvent = TableStart(uuid: Uuid, defaultValue: Text, nrEntries: nat) | RawEntry(uuid: Uuid, entry: Text)

  function RawEntries(uuid: Uuid, entries: seq<Text>): (r: seq<RawEvent>)
  {
    if entries == [] then [] else [RawEntry(uuid, entries[0])] + RawEntries(uuid, entries[1..])
  }

  /** The events of the table walk, flattened. */
  function Flatten(tables: seq<Table>): (r: seq<RawEvent>)
  {
    if tables == [] then []
    else [TableStart(tables[0].uuid, tables[0].extra, |tables[0].entries|)]
         + RawEntries(tables[0].uuid, tables[0].entries) + Flatten(tables[1..])
  }

  lemma {:induction false} RawEntriesAppend(uuid: Uuid, entries: seq<Text>, e: Text)
    ensures RawEntries(uuid, entries + [e]) == RawEntries(uuid, entries) + [RawEntry(uuid, e)]
  {
    if entries != [] {
      RawEntriesAppend(uuid, entries[1..], e);
      assert (entries + [e])[1..] == entries[1..] + [e];
    }
  }

  method DispatchEntries(uuid: Uuid, entries: seq<Text>) returns (events: seq<RawEvent>)
    ensures events == RawEntries(uuid, entries)
  {
    events := [];
    for i := 0 to |entries|
      invariant events == RawEntries(uuid, entries[..i])
    {
      RawEntriesAppend(uuid, entries[..i], entries[i]);
      assert entries[..i + 1] == entries[..i] + [entries[i]];
      events := events + [RawEntry(uuid, entries[i])];
    }
    assert entries[..|entries|] == entries;
  }

  lemma FlattenStep(seen: seq<RawEvent>, t: Table, more: seq<RawEvent>)
    ensures seen + ([TableStart(t.uuid, t.extra, |t.entries|)] + RawEntries(t.uuid, t.entries) + more)
         == seen + [TableStart(t.uuid, t.extra, |t.entries|)] + RawEntries(t.uuid, t.entries) + more
  {
  }

  /** `walk_daytimer_raw` yields the flattening of `walk_daytimers`. */
  method WalkDaytimerRaw(payload: Text) returns (events: seq<RawEvent>)
    ensures events == Flatten(Tables(Daytimer, payload))
  {
    hide SplitTable, RawEntries;
    var rest := payload;
    events := [];
    var piece := SplitTable(Daytimer, rest);
    while piece.Some?
      invariant piece == SplitTable(Daytimer, rest)
      invariant Flatten(Tables(Daytimer, payload)) == events + Flatten(Tables(Daytimer, rest))
      decreases |rest|
    {
      var t := piece.value.table;
      FlattenStep(events, t, Flatten(Tables(Daytimer, piece.value.rest)));
      assert Tables(Daytimer, rest)[1..] == Tables(Daytimer, piece.value.rest);
      events := events + [TableStart(t.uuid, t.extra, |t.entries|)];
      rest := piece.value.rest;
      var entries := DispatchEntries(t.uuid, t.entries);
      events := events + entries;
      piece := SplitTable(Daytimer, rest);
    }
  }
}
