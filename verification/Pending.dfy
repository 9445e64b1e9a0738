/** The FIFO of commands awaiting their type-0 answers (src/client/pending.rs). */
module Pending {
  import opened Bytes
  import Cbc
  import ControlEcho

  /** One command awaiting its answer; `resp` names the waiter, `None` for fire-and-forget commands. */
  datatype Entry = Entry(plaintext: Text, wire: Text, resp: Option<nat>, deadline: nat)

  /** A type-0 answer of the Miniserver: the command it answers, its `LL.control` and its payload. */
  datatype Answer = Answer(request: Entry, control: Option<Text>, payload: Text)

  datatype Outcome = Answered(answer: Answer) | TimedOut | Refused | EncryptionFailed | SessionEnded

  /** What a waiter is sent, once. */
  datatype Completion = Completion(waiter: nat, outcome: Outcome)

  datatype Resolved = Resolved(plaintext: Text, resp: Option<nat>, matched: bool, actual: Option<Text>)

  /** The queue and its counters as a value. */
  datatype Queue = Queue(entries: seq<Entry>, mismatches: nat, unsolicited: nat, timeouts: nat) {
    function Push(e: Entry): (q: Queue) { this.(entries := entries + [e]) }

    predicate Mismatch(control: Option<Text>, keys: Cbc.SessionKeys)
      requires entries != []
    {
      control.Some? && !ControlEcho.Matches(control.value, entries[0].wire, keys, entries[0].plaintext)
    }

    /** Popping the head for an answer, or counting an answer nobody waits for. */
    function Resolve(control: Option<Text>, keys: Cbc.SessionKeys): (q: Queue)
    {
      if entries == [] then this.(unsolicited := unsolicited + 1)
      else this.(entries := entries[1..],
                 mismatches := if Mismatch(control, keys) then mismatches + 1 else mismatches)
    }

    function Expire(now: nat): (q: Queue)
    {
      var n := DueCount(entries, now);
      this.(entries := entries[n..], timeouts := timeouts + n)
    }
  }

  const EMPTY := Queue([], 0, 0, 0)

  /** How many entries at the front are due; the front-only loop stops at the first that is not. */
  function DueCount(entries: seq<Entry>, now: nat): (n: nat)
    ensures n <= |entries|
    ensures forall i | 0 <= i < n :: entries[i].deadline <= now
    ensures n < |entries| ==> entries[n].deadline > now
  {
    if entries == [] || entries[0].deadline > now then 0 else 1 + DueCount(entries[1..], now)
  }

  /** The waiters among `entries`, in order, all sent the same outcome. */
  function Completions(entries: seq<Entry>, outcome: Outcome): (c: seq<Completion>)
  {
    if entries == [] then []
    else (if entries[0].resp.Some? then [Completion(entries[0].resp.value, outcome)] else [])
         + Completions(entries[1..], outcome)
  }

  lemma {:induction false} CompletionsAppend(entries: seq<Entry>, e: Entry, outcome: Outcome)
    ensures Completions(entries + [e], outcome)
         == Completions(entries, outcome) + (if e.resp.Some? then [Completion(e.resp.value, outcome)] else [])
  {
    if entries != [] {
      assert (entries + [e])[1..] == entries[1..] + [e];
      CompletionsAppend(entries[1..], e, outcome);
    }
  }

  predicate Sorted(entries: seq<Entry>) {
    forall i, j | 0 <= i <= j < |entries| :: entries[i].deadline <= entries[j].deadline
  }

  /** On a queue in deadline order the front-only expiry drops exactly the due entries, and the head is due first. */
  lemma ExpireExact(entries: seq<Entry>, now: nat)
    requires Sorted(entries)
    ensures forall i | 0 <= i < |entries| :: i < DueCount(entries, now) <==> entries[i].deadline <= now
    ensures forall i | 0 <= i < |entries| :: entries[0].deadline <= entries[i].deadline
  {
    var n := DueCount(entries, now);
    forall i | n <= i < |entries| ensures entries[i].deadline > now {
      assert entries[n].deadline <= entries[i].deadline;
    }
  }

  class PendingQueue {
    var entries: seq<Entry>
    var mismatches: nat
    var unsolicited: nat
    var timeouts: nat

    function View(): (q: Queue)
      reads this
    {
      Queue(entries, mismatches, unsolicited, timeouts)
    }

    constructor ()
      ensures View() == EMPTY
    {
      entries, mismatches, unsolicited, timeouts := [], 0, 0, 0;
    }

    function NextDeadline(): (d: Option<nat>)
      reads this
      ensures d.Some? && Sorted(entries) ==> forall e | e in entries :: d.value <= e.deadline
    {
      if entries == [] then None else Some(entries[0].deadline)
    }

    method Push(plaintext: Text, wire: Text, resp: Option<nat>, deadline: nat)
      modifies this
      ensures View() == old(View()).Push(Entry(plaintext, wire, resp, deadline))
    {
      entries := entries + [Entry(plaintext, wire, resp, deadline)];
    }

    /** `resolve`; the caller counts an answer without a waiter with `NoteUnsolicited`. */
    method Resolve(control: Option<Text>, keys: Cbc.SessionKeys) returns (r: Option<Resolved>)
      modifies this
      ensures r.Some? <==> old(entries) != []
      ensures r.None? ==> View() == old(View())
      ensures r.Some? ==>
                && View() == old(View().Resolve(control, keys))
                && r.value.plaintext == old(entries)[0].plaintext
                && r.value.resp == old(entries)[0].resp
                && r.value.matched == !old(View().Mismatch(control, keys))
      ensures r.Some? ==>
                && (r.value.actual.Some? ==> control.Some?)
                && (control.Some? ==>
                      var echo := ControlEcho.Canonical(control.value);
                      var sent := ControlEcho.Canonical(old(entries)[0].wire);
                      r.value.actual == if echo != sent then ControlEcho.DecodeControl(control.value, keys) else None)
    {
      if entries == [] {
        return None;
      }
      var entry := entries[0];
      entries := entries[1..];
      var matched, actual := true, None;
      if control.Some? && ControlEcho.Canonical(control.value) != ControlEcho.Canonical(entry.wire) {
        actual := ControlEcho.DecodeControl(control.value, keys);
        matched := actual.Some? && ControlEcho.ControlMatches(actual.value, entry.plaintext);
        if !matched {
          mismatches := mismatches + 1;
        }
      }
      r := Some(Resolved(entry.plaintext, entry.resp, matched, actual));
    }

    method NoteUnsolicited()
      modifies this
      ensures View() == old(View()).(unsolicited := old(unsolicited) + 1)
    {
      unsolicited := unsolicited + 1;
    }

    method Expire(now: nat) returns (expired: nat, sent: seq<Completion>)
      modifies this
      ensures View() == old(View()).Expire(now)
      ensures expired == DueCount(old(entries), now)
      ensures sent == Completions(old(entries)[..expired], TimedOut)
    {
      expired, sent := 0, [];
      while entries != [] && entries[0].deadline <= now
        invariant expired <= |old(entries)|
        invariant View() == old(View()).(entries := old(entries)[expired..])
        invariant DueCount(old(entries), now) == expired + DueCount(entries, now)
        invariant sent == Completions(old(entries)[..expired], TimedOut)
        decreases |entries|
      {
        var entry := entries[0];
        entries := entries[1..];
        CompletionsAppend(old(entries)[..expired], entry, TimedOut);
        assert old(entries)[..expired + 1] == old(entries)[..expired] + [entry];
        if entry.resp.Some? {
          sent := sent + [Completion(entry.resp.value, TimedOut)];
        }
        expired := expired + 1;
      }
      timeouts := timeouts + expired;
    }

    method FailAll() returns (drained: nat, sent: seq<Completion>)
      modifies this
      ensures View() == old(View()).(entries := [])
      ensures drained == |old(entries)| && sent == Completions(old(entries), SessionEnded)
    {
      drained := |entries|;
      sent := [];
      var i := 0;
      while i < drained
        invariant i <= drained == |entries|
        invariant View() == old(View())
        invariant sent == Completions(entries[..i], SessionEnded)
      {
        CompletionsAppend(entries[..i], entries[i], SessionEnded);
        assert entries[..i + 1] == entries[..i] + [entries[i]];
        if entries[i].resp.Some? {
          sent := sent + [Completion(entries[i].resp.value, SessionEnded)];
        }
        i := i + 1;
      }
      assert entries[..drained] == entries;
      entries := [];
    }
  }
}
