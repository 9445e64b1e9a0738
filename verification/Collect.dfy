/** Maps collected from event tables (src/collect.rs), keyed by UUID or by its string form. */
module Collect {
  import opened Bytes
  import opened EventTables
  import LoxoneUuid

  datatype Pair<V> = Pair(uuid: Uuid, value: V)

  /** The last record with a key wins. */
  function ByUuid<V>(records: seq<Pair<V>>): (m: map<Uuid, V>)
  {
    if records == [] then map[]
    else var last := records[|records| - 1]; ByUuid(records[..|records| - 1])[last.uuid := last.value]
  }

  function ByName<V>(records: seq<Pair<V>>): (m: map<Text, V>)
  {
    if records == [] then map[]
    else var last := records[|records| - 1];
         ByName(records[..|records| - 1])[LoxoneUuid.Format(last.uuid) := last.value]
  }

  /** The index of the last record for `u`; the number of records when there is none. */
  function LastOf<V>(records: seq<Pair<V>>, u: Uuid): (i: nat)
    ensures i <= |records|
    ensures i < |records| ==> records[i].uuid == u
    ensures forall j | 0 <= j < |records| && (i == |records| || j > i) :: records[j].uuid != u
  {
    if records == [] then 0
    else if records[|records| - 1].uuid == u then |records| - 1
    else
      var i := LastOf(records[..|records| - 1], u);
      if i == |records| - 1 then |records| else i
  }

  /** A key is present if and only if a record has it, and maps to the last such record. */
  lemma {:induction false} LastWins<V>(records: seq<Pair<V>>, u: Uuid)
    ensures u in ByUuid(records) <==> LastOf(records, u) < |records|
    ensures u in ByUuid(records) ==> ByUuid(records)[u] == records[LastOf(records, u)].value
  {
    if records != [] {
      LastWins(records[..|records| - 1], u);
    }
  }

  /** Collecting by name is collecting by UUID with every key formatted. */
  lemma {:induction false} NamesAreFormatted<V>(records: seq<Pair<V>>)
    ensures forall u: Uuid :: u in ByUuid(records) <==> LoxoneUuid.Format(u) in ByName(records)
    ensures forall u: Uuid | u in ByUuid(records) :: ByName(records)[LoxoneUuid.Format(u)] == ByUuid(records)[u]
    ensures forall k | k in ByName(records) :: exists u: Uuid :: u in ByUuid(records) && k == LoxoneUuid.Format(u)
  {
    hide LoxoneUuid.Format;
    if records != [] {
      var before, last := records[..|records| - 1], records[|records| - 1];
      NamesAreFormatted(before);
      forall u: Uuid | LoxoneUuid.Format(u) == LoxoneUuid.Format(last.uuid) ensures u == last.uuid {
        LoxoneUuid.FormatInjective(u, last.uuid);
      }
      forall k | k in ByName(records) ensures exists u: Uuid :: u in ByUuid(records) && k == LoxoneUuid.Format(u) {
        if k == LoxoneUuid.Format(last.uuid) {
          assert last.uuid in ByUuid(records);
        } else {
          var u: Uuid :| u in ByUuid(before) && k == LoxoneUuid.Format(u);
          assert u in ByUuid(records);
        }
      }
    }
  }

  function OfValue(r: ValueRecord): (p: Pair<Text>) { Pair(r.uuid, r.value) }

  function OfText(r: TextRecord): (p: Pair<Text>) { Pair(r.uuid, r.text) }

  function ValuePairs(records: seq<ValueRecord>): (p: seq<Pair<Text>>)
    ensures |p| == |records|
  {
    seq(|records|, i requires 0 <= i < |records| => OfValue(records[i]))
  }

  function TextPairs(records: seq<TextRecord>): (p: seq<Pair<Text>>)
    ensures |p| == |records|
  {
    seq(|records|, i requires 0 <= i < |records| => OfText(records[i]))
  }

  method InsertAll(records: seq<Pair<Text>>) returns (m: map<Uuid, Text>)
    ensures m == ByUuid(records)
  {
    m := map[];
    for i := 0 to |records|
      invariant m == ByUuid(records[..i])
    {
      assert records[..i + 1][..i] == records[..i];
      m := m[records[i].uuid := records[i].value];
    }
    assert records[..|records|] == records;
  }

  method InsertAllByName(records: seq<Pair<Text>>) returns (m: map<Text, Text>)
    ensures m == ByName(records)
  {
    hide LoxoneUuid.Format;
    m := map[];
    for i := 0 to |records|
      invariant m == ByName(records[..i])
    {
      assert records[..i + 1][..i] == records[..i];
      var key := LoxoneUuid.FormatLoxoneBytes(records[i].uuid);
      m := m[key[..] := records[i].value];
    }
    assert records[..|records|] == records;
  }

  method CollectValues(payload: Text) returns (m: map<Uuid, Text>)
    ensures m == ByUuid(ValuePairs(Values(payload)))
  {
    var records := WalkValues(payload);
    m := InsertAll(ValuePairs(records));
  }

  method CollectTexts(payload: Text) returns (m: map<Uuid, Text>)
    ensures m == ByUuid(TextPairs(Texts(payload)))
  {
    var records := WalkTexts(payload);
    m := InsertAll(TextPairs(records));
  }

  method CollectValuesByName(payload: Text) returns (m: map<Text, Text>)
    ensures m == ByName(ValuePairs(Values(payload)))
  {
    var records := WalkValues(payload);
    m := InsertAllByName(ValuePairs(records));
  }

  method CollectTextsByName(payload: Text) returns (m: map<Text, Text>)
    ensures m == ByName(TextPairs(Texts(payload)))
  {
    var records := WalkTexts(payload);
    m := InsertAllByName(TextPairs(records));
  }
}
