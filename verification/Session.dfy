/**
 * The writer and reader code of one session as imperative code on the shared queue. Every method is a composition of
 * the steps of `Correlation`, which the ghost trace records; the interleavings between those steps are treated there.
 */
module Session {
  import opened Bytes
  import opened Pending
  import opened Correlation
  import ControlEcho

  datatype IoCommand =
    | Encrypted(cmd: Text)
    | Control(uuid: Text, value: Text)
    | VisuControl(item: VisuPending)
    | DropSession
    | StopClient

  datatype Outgoing = OutText(text: Text) | OutStop | OutClose | OutIdle

  /** `prepare_command` without anything in between: encrypt, and register what was encrypted. */
  function Prepared(cfg: Config, s: State, text: Option<Text>): (t: State)
    requires s.writer.Preparing?
  {
    if text.None? then Step(cfg, s, Encrypt(text)) else Step(cfg, Step(cfg, s, Encrypt(text)), Register)
  }

  /** `on_io_command`: the steps one command from the facade causes. */
  function Decided(cfg: Config, s: State, c: IoCommand, text: Option<Text>): (t: State)
    requires s.writer == Deciding
  {
    match c
    case Encrypted(cmd) =>
      var t := Step(cfg, s, TakeCommand(cmd));
      if |s.link.queue.entries| >= cfg.maxPending then t else Prepared(cfg, t, text)
    case Control(uuid, value) => Prepared(cfg, Step(cfg, s, TakeControl(uuid, value)), text)
    case VisuControl(item) => Prepared(cfg, Step(cfg, s, TakeVisu(item)), text)
    case DropSession => Step(cfg, s, Stop)
    case StopClient => s
  }

  /** `on_text_message` without anything in between. */
  function Received(cfg: Config, s: State, secured: Option<Text>): (t: State)
    requires Enabled(s, Deliver)
  {
    var t := Step(cfg, s, Deliver);
    if s.link.queue.entries == [] then t
    else
      var t := Step(cfg, t, CheckVisu);
      var t := if t.reader.phase.Draining? then Step(cfg, t, Drain(secured)) else t;
      Step(cfg, t, Complete)
  }

  /** What the writer puts on the wire in a state. */
  function ToWrite(s: State, text: Option<Text>): (out: Outgoing)
  {
    if s.writer.Writing? && text.Some? then OutText(text.value) else OutIdle
  }

  class SessionTask {
    const cfg: Config
    const pending: PendingQueue
    var visu: seq<VisuPending>
    var stopped: bool
    var taken: nat
    var sent: seq<Completion>
    var outbox: seq<Text>
    ghost var s: State
    ghost var trace: seq<Action>

    ghost predicate Valid()
      reads this, pending
    {
      && s.link.queue == pending.View() && s.visu == visu && s.stopped == stopped && s.issued == taken && s.log == sent
      && s.outbox == outbox
      && Run(cfg, trace) == Some(s)
    }

    constructor (cfg: Config)
      ensures Valid() && fresh(pending) && this.cfg == cfg && s == START && trace == []
    {
      this.cfg := cfg;
      pending := new PendingQueue();
      visu, stopped, taken, sent, outbox := [], false, 0, [], [];
      s, trace := START, [];
    }

    /** The ghost state follows the code. */
    ghost method Advance(a: Action)
      requires Enabled(s, a) && Run(cfg, trace) == Some(s)
      modifies this`s, this`trace
      ensures s == Step(cfg, old(s), a) && trace == old(trace) + [a] && Run(cfg, trace) == Some(s)
    {
      Extend(cfg, trace, a);
      s, trace := Step(cfg, s, a), trace + [a];
    }

    method PrepareCommand(cmd: Text, resp: Option<nat>, text: Option<Text>, now: nat) returns (out: Outgoing)
      requires Valid() && s.writer.Preparing? && s.writer.cmd == cmd && s.writer.resp == resp && now == s.clock
      modifies this, pending
      ensures Valid() && old(trace) <= trace
      ensures s == Prepared(cfg, old(s), text) && out == ToWrite(s, text)
    {
      hide Run, ControlEcho.Matches, ControlEcho.Canonical, Completions, DueCount;
      Advance(Encrypt(text));
      match text {
        case Some(encrypted) =>
          pending.Push(cmd, encrypted, resp, now + cfg.timeout);
          Advance(Register);
          out := OutText(encrypted);
        case None =>
          if resp.Some? {
            sent := sent + [Completion(resp.value, EncryptionFailed)];
          }
          out := OutIdle;
      }
    }

    method OnIoCommand(c: IoCommand, text: Option<Text>, now: nat) returns (out: Outgoing)
      requires Valid() && s.writer == Deciding && now == s.clock
      modifies this, pending
      ensures Valid() && old(trace) <= trace
      ensures s == Decided(cfg, old(s), c, text)
      ensures out == match c case DropSession => OutStop case StopClient => OutClose case _ => ToWrite(s, text)
    {
      hide Run, ControlEcho.Matches, ControlEcho.Canonical, Completions, DueCount, Prepared, Ascii;
      match c {
        case StopClient => out := OutClose;
        case DropSession =>
          Advance(Stop);
          out := OutStop;
        case Encrypted(cmd) =>
          Advance(TakeCommand(cmd));
          taken := taken + 1;
          if |pending.entries| >= cfg.maxPending {
            sent := sent + [Completion(taken - 1, Refused)];
            return OutIdle;
          }
          out := PrepareCommand(cmd, Some(taken - 1), text, now);
        case Control(uuid, value) =>
          Advance(TakeControl(uuid, value));
          out := PrepareCommand(CMD_CONTROL + uuid + [SLASH] + value, None, text, now);
        case VisuControl(item) =>
          Advance(TakeVisu(item));
          visu := VisuPush(visu, item);
          out := PrepareCommand(CMD_GET_VISUAL_PASSWD + cfg.username, None, text, now);
      }
    }

    method ExpirePending(now: nat) returns (expired: nat)
      requires Valid() && s.writer == Expiring && now == s.clock
      modifies this, pending
      ensures Valid() && old(trace) <= trace
      ensures s == Step(cfg, old(s), ExpireDue) && expired == s.link.queue.timeouts - old(s.link.queue.timeouts)
    {
      hide Run, ControlEcho.Matches, ControlEcho.Canonical, Completions, DueCount;
      Advance(ExpireDue);
      var told;
      expired, told := pending.Expire(now);
      sent := sent + told;
    }

    /** `finish`: afterwards no waiter is left and each was told exactly once. */
    method Finish()
      requires Valid() && s.writer == Ending
      modifies this, pending
      ensures Valid() && old(trace) <= trace && s == Step(cfg, old(s), Correlation.Finish)
      ensures pending.entries == [] && visu == []
      ensures s.reader.Listening? ==> forall w: nat :: InLog(sent, w) == if w < taken then 1 else 0
    {
      hide Run, ControlEcho.Matches, ControlEcho.Canonical, Completions, DueCount, InLog;
      Advance(Correlation.Finish);
      var drained, told := pending.FailAll();
      sent := sent + told;
      visu := [];
      forall w: nat ensures s.reader.Listening? ==> InLog(sent, w) == if w < taken then 1 else 0 {
        ExactlyOnce(cfg, trace, w);
      }
    }

    /** The locked part of `on_text_message`: the head of the queue, or an answer counted as unsolicited. */
    method Correlate(answer: Answer) returns (resolved: Option<Resolved>)
      requires Valid() && Enabled(s, Deliver) && s.link.answers[0] == answer
      modifies this, pending
      ensures Valid() && old(trace) <= trace && s == Step(cfg, old(s), Deliver)
      ensures resolved.Some? <==> s.reader.Holding?
      ensures resolved.None? <==> old(s).link.queue.entries == []
      ensures resolved.Some? ==>
                && s.reader.answer == answer && s.reader.phase.Checking?
                && resolved.value.plaintext == s.reader.entry.plaintext && resolved.value.resp == s.reader.entry.resp
    {
      hide Run, ControlEcho.Matches, ControlEcho.Canonical, ControlEcho.DecodeControl, Completions, DueCount;
      Advance(Deliver);
      resolved := pending.Resolve(answer.control, cfg.keys);
      if resolved.None? {
        pending.NoteUnsolicited();
      }
    }

    /** The guard of `flush_visu`; the queue is unlocked again afterwards. */
    method VisuWaits(plaintext: Text) returns (waits: bool)
      requires Valid() && s.reader.Holding? && s.reader.phase.Checking? && s.reader.entry.plaintext == plaintext
      modifies this
      ensures Valid() && old(trace) <= trace && s == Step(cfg, old(s), CheckVisu)
      ensures waits <==> CMD_GET_VISUAL_PASSWD <= plaintext && visu != []
      ensures s.reader == Holding(old(s).reader.entry, old(s).reader.answer, if waits then Draining else Telling)
    {
      hide Run, ControlEcho.Matches, ControlEcho.Canonical, Completions, DueCount, Ascii;
      Advance(CheckVisu);
      waits := CMD_GET_VISUAL_PASSWD <= plaintext && visu != [];
    }

    /**
     * `flush_visu`: whatever waits by now is drained; `secured` is the command hashed from the payload, if it could be.
     */
    method FlushVisu(secured: Option<Text>)
      requires Valid() && s.reader.Holding? && s.reader.phase.Draining?
      modifies this
      ensures Valid() && old(trace) <= trace && s == Step(cfg, old(s), Drain(secured))
      ensures visu == [] && s.reader == Holding(old(s).reader.entry, old(s).reader.answer, Telling)
      ensures outbox == old(outbox) + if old(visu) != [] && secured.Some? then [secured.value] else []
    {
      hide Run, ControlEcho.Matches, ControlEcho.Canonical, Completions, DueCount, Ascii;
      Advance(Drain(secured));
      if visu != [] {
        visu := [];
        if secured.Some? {
          outbox := outbox + [secured.value];
        }
      }
    }

    method CompleteWaiter(resp: Option<nat>, answer: Answer)
      requires Valid() && s.reader.Holding? && s.reader.phase.Telling? && s.reader.entry.resp == resp
               && s.reader.answer == answer
      modifies this
      ensures Valid() && old(trace) <= trace && s == Step(cfg, old(s), Complete)
    {
      hide Run, ControlEcho.Matches, ControlEcho.Canonical, Completions, DueCount, Ascii;
      Advance(Complete);
      if resp.Some? {
        sent := sent + [Completion(resp.value, Answered(answer))];
      }
    }

    method OnTextMessage(answer: Answer, secured: Option<Text>)
      requires Valid() && Enabled(s, Deliver) && s.link.answers[0] == answer
      modifies this, pending
      ensures Valid() && old(trace) <= trace && s == Received(cfg, old(s), secured)
    {
      hide Run, Step, Enabled;
      var resolved := Correlate(answer);
      if resolved.Some? {
        var waits := VisuWaits(resolved.value.plaintext);
        if waits {
          FlushVisu(secured);
        }
        CompleteWaiter(resolved.value.resp, answer);
      }
    }
  }
}
