/** Keepalive bookkeeping shared by the writer and the reader (src/client/state.rs, src/client/writer.rs). */
module Liveness {
  import opened Bytes

  class Counters {
    var sent: nat
    var acked: nat

    constructor ()
      ensures sent == 0 && acked == 0
    {
      sent, acked := 0, 0;
    }

    method RecordSent()
      modifies this
      ensures sent == old(sent) + 1 && acked == old(acked)
    {
      sent := sent + 1;
    }

    /** Counts one answer, capped at `sent`. */
    method RecordAck()
      modifies this
      ensures sent == old(sent) && acked == Acked(old(acked), sent)
    {
      if acked < sent {
        acked := acked + 1;
      }
    }

    function Missed(): (m: nat)
      reads this
      ensures acked <= sent ==> m == sent - acked
    {
      if sent >= acked then sent - acked else 0
    }

    /** `on_keepalive_tick`: stop at the limit, send another keepalive below it. */
    method OnKeepaliveTick(maxMissed: nat) returns (stop: bool)
      modifies this
      ensures stop <==> old(Missed()) >= maxMissed
      ensures acked == old(acked) && sent == if stop then old(sent) else old(sent) + 1
    {
      stop := Missed() >= maxMissed;
      if !stop {
        RecordSent();
      }
    }
  }

  /** The atomic update of `acked` for an answer that loaded `bound` from `sent`. */
  function Acked(acked: nat, bound: nat): (r: nat) { if acked < bound then acked + 1 else acked }

  // Writer and reader interleaved: the tick's check and its send, the answer's load and its update, are separate steps.

  datatype Writer = Waiting | Sending | Stopped

  /** `loaded` is what an answer being counted has read from `sent`. */
  datatype State = State(sent: nat, acked: nat, loaded: Option<nat>, writer: Writer)

  const START := State(0, 0, None, Waiting)

  datatype Action = TickCheck | TickSend | AckLoad | AckStore

  predicate Enabled(s: State, a: Action) {
    match a
    case TickCheck => s.writer.Waiting?
    case TickSend => s.writer.Sending?
    case AckLoad => s.loaded.None?
    case AckStore => s.loaded.Some?
  }

  function Missed(s: State): (m: nat) { if s.sent >= s.acked then s.sent - s.acked else 0 }

  function Step(maxMissed: nat, s: State, a: Action): (t: State)
    requires Enabled(s, a)
  {
    match a
    case TickCheck => s.(writer := if Missed(s) >= maxMissed then Stopped else Sending)
    case TickSend => s.(sent := s.sent + 1, writer := Waiting)
    case AckLoad => s.(loaded := Some(s.sent))
    case AckStore => s.(acked := Acked(s.acked, s.loaded.value), loaded := None)
  }

  function Run(maxMissed: nat, from: State, run: seq<Action>): (r: Option<State>)
  {
    if run == [] then Some(from)
    else match Run(maxMissed, from, run[..|run| - 1])
         case None => None
         case Some(s) => if Enabled(s, run[|run| - 1]) then Some(Step(maxMissed, s, run[|run| - 1])) else None
  }

  /** What is missed once an answer being counted has been counted. */
  function Settled(s: State): (m: int) { s.sent - (if s.loaded.Some? then Acked(s.acked, s.loaded.value) else s.acked) }

  predicate Inv(maxMissed: nat, s: State) {
    && s.acked <= s.sent
    && (s.loaded.Some? ==> s.acked <= s.loaded.value <= s.sent)
    && Missed(s) + (if s.writer.Sending? then 1 else 0) <= maxMissed
  }

  lemma {:induction false} RunInv(maxMissed: nat, from: State, run: seq<Action>)
    requires Inv(maxMissed, from) && Run(maxMissed, from, run).Some?
    ensures Inv(maxMissed, Run(maxMissed, from, run).value)
  {
    if run != [] {
      RunInv(maxMissed, from, run[..|run| - 1]);
    }
  }

  /** Never more answers than keepalives, and never more misses than tolerated. */
  lemma AlwaysBounded(maxMissed: nat, run: seq<Action>)
    requires Run(maxMissed, START, run).Some?
    ensures var s := Run(maxMissed, START, run).value;
            s.acked <= s.sent && Missed(s) == s.sent - s.acked <= maxMissed
  {
    RunInv(maxMissed, START, run);
  }

  // What `missed` means: the worst balance of sends over answers of any recent stretch of the run.

  /** Keepalives sent minus answers received; an answer is received when it reads `sent`. */
  function Balance(run: seq<Action>): (b: int)
  {
    if run == [] then 0
    else Balance(run[..|run| - 1]) + match run[|run| - 1] case TickSend => 1 case AckLoad => -1 case _ => 0
  }

  lemma {:induction false} BalanceSuffix(run: seq<Action>, a: Action, k: nat)
    requires k <= |run|
    ensures Balance((run + [a])[k..]) == Balance(run[k..]) + match a case TickSend => 1 case AckLoad => -1 case _ => 0
  {
    var suffix := (run + [a])[k..];
    assert suffix[..|suffix| - 1] == run[k..] && suffix[|suffix| - 1] == a;
  }

  /** `m` is the greatest balance of any suffix of the run. */
  ghost predicate WorstSuffix(run: seq<Action>, m: int) {
    && (forall k | 0 <= k <= |run| :: Balance(run[k..]) <= m)
    && exists k | 0 <= k <= |run| :: Balance(run[k..]) == m
  }

  lemma WorstStep(run: seq<Action>, a: Action, m: int)
    requires WorstSuffix(run, m)
    ensures m >= 0
    ensures WorstSuffix(run + [a], match a
                                   case TickSend => m + 1
                                   case AckLoad => (if m > 0 then m - 1 else 0)
                                   case _ => m)
  {
    var next := run + [a];
    var d := match a case TickSend => 1 case AckLoad => -1 case _ => 0;
    var m' := match a case TickSend => m + 1 case AckLoad => (if m > 0 then m - 1 else 0) case _ => m;
    assert run[|run|..] == [] && next[|next|..] == [];
    assert Balance(run[|run|..]) == 0 <= m;
    var best :| 0 <= best <= |run| && Balance(run[best..]) == m;
    BalanceSuffix(run, a, best);
    forall k | 0 <= k <= |next| ensures Balance(next[k..]) <= m' {
      if k <= |run| {
        BalanceSuffix(run, a, k);
      }
    }
    if m' == m + d {
      assert Balance(next[best..]) == m';
    } else {
      assert Balance(next[|next|..]) == m';
    }
  }

  lemma {:induction false} SettledIsWorst(maxMissed: nat, run: seq<Action>)
    requires Run(maxMissed, START, run).Some?
    ensures WorstSuffix(run, Settled(Run(maxMissed, START, run).value))
  {
    if run == [] {
      assert Balance(run[0..]) == 0;
    } else {
      var before := run[..|run| - 1];
      RunInv(maxMissed, START, before);
      SettledIsWorst(maxMissed, before);
      assert run == before + [run[|run| - 1]];
      WorstStep(before, run[|run| - 1], Settled(Run(maxMissed, START, before).value));
    }
  }

  /** No banked credit and no forgiveness: with no answer half counted, `missed` is the worst suffix balance. */
  lemma MissedIsWorst(maxMissed: nat, run: seq<Action>)
    requires Run(maxMissed, START, run).Some? && Run(maxMissed, START, run).value.loaded.None?
    ensures WorstSuffix(run, Missed(Run(maxMissed, START, run).value))
  {
    RunInv(maxMissed, START, run);
    SettledIsWorst(maxMissed, run);
  }

  // A Miniserver that stops answering.

  function Ticks(run: seq<Action>): (n: nat)
  {
    if run == [] then 0 else Ticks(run[..|run| - 1]) + if run[|run| - 1].TickCheck? then 1 else 0
  }

  function Going(s: State): (m: int) { Settled(s) + if s.writer.Sending? then 1 else 0 }

  lemma {:induction false} SilentTicks(maxMissed: nat, from: State, run: seq<Action>)
    requires Inv(maxMissed, from) && Run(maxMissed, from, run).Some? && AckLoad !in run
    requires !Run(maxMissed, from, run).value.writer.Stopped?
    ensures Going(Run(maxMissed, from, run).value) == Going(from) + Ticks(run)
  {
    if run != [] {
      RunInv(maxMissed, from, run[..|run| - 1]);
      SilentTicks(maxMissed, from, run[..|run| - 1]);
    }
  }

  /** Whatever is going on when the answers stop, the session is over after `maxMissed + 1` further ticks. */
  lemma SilentEnds(maxMissed: nat, run: seq<Action>, silent: seq<Action>)
    requires Run(maxMissed, START, run).Some? && AckLoad !in silent
    requires Run(maxMissed, Run(maxMissed, START, run).value, silent).Some? && Ticks(silent) >= maxMissed + 1
    ensures Run(maxMissed, Run(maxMissed, START, run).value, silent).value.writer.Stopped?
  {
    var from := Run(maxMissed, START, run).value;
    RunInv(maxMissed, START, run);
    RunInv(maxMissed, from, silent);
    if !Run(maxMissed, from, silent).value.writer.Stopped? {
      SilentTicks(maxMissed, from, silent);
    }
  }
}
