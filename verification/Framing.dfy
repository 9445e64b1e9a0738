/** Message framing: header frames, the reader's frame loop and the handshake's (reader.rs, handshake.rs, header.rs). */
module Framing {
  import opened Bytes

  const HEADER_SIZE := 8
  const MAGIC: byte := 0x03
  const TEXT: byte := 0
  const OUT_OF_SERVICE: byte := 5
  const MAX_INTERLEAVED_FRAMES := 64
  const U32_LIMIT := 0x1_0000_0000

  datatype Header = Header(identifier: byte, info: byte, len: nat) {
    /** Bit 0 of the info byte: an exact header follows. */
    predicate Estimated() { info % 2 == 1 }
  }

  datatype Message = Message(identifier: byte, payload: Text)

  /** Message types `dispatch_event` hands to the handler. */
  predicate IsEvent(identifier: byte) { 1 <= identifier <= 4 || identifier == 7 }

  /** `parse_header`: `None` unless the frame has the size and the magic of a header. */
  function ParseHeader(buf: Text): (h: Option<Header>)
  {
    if |buf| != HEADER_SIZE || buf[0] != MAGIC then None
    else Some(Header(buf[1], buf[2], LeU32(buf[4..8])))
  }

  function EncodeHeader(h: Header): (buf: Text)
    requires h.len < U32_LIMIT
    ensures ParseHeader(buf) == Some(h)
  {
    var buf := [MAGIC, h.identifier, h.info, 0] + U32Le(h.len);
    assert buf[4..8] == U32Le(h.len);
    buf
  }

  /** What the socket delivers; a close frame carries its code in the payload. */
  datatype Frame = Data(bytes: Text) | Close(bytes: Text)

  /** The frames still to come, until the stream falls silent for too long or breaks off. */
  datatype Stream = Silent | Broken | Next(frame: Frame, rest: Stream)

  function CloseCode(payload: Text): (c: Option<nat>)
  {
    if |payload| >= 2 then Some(0x100 * (payload[0] as int) + payload[1]) else None
  }

  // The reader.

  datatype FrameExpect = ExpectHeader(announced: nat) | ExpectPayload(identifier: byte, len: nat)

  const FRAME_START := ExpectHeader(0)

  datatype ReadOutcome = Closed(code: Option<nat>) | IdleTimeout | StreamFailed | HandlerPanic

  datatype Reaction = Reaction(awaits: FrameExpect, dispatched: seq<Message>, outcome: Option<ReadOutcome>)

  /** `on_data_frame`. */
  function OnData(awaits: FrameExpect, payload: Text): (r: Reaction)
  {
    match awaits
    case ExpectPayload(identifier, _) => Reaction(FRAME_START, [Message(identifier, payload)], None)
    case ExpectHeader(_) =>
      match ParseHeader(payload)
      case None => Reaction(awaits, [], None)
      case Some(h) =>
        if h.Estimated() then Reaction(ExpectHeader(h.len), [], None)
        else if h.identifier == OUT_OF_SERVICE then Reaction(awaits, [], Some(Closed(Some(1012))))
        else if h.len == 0 then Reaction(FRAME_START, [Message(h.identifier, [])], None)
        else Reaction(ExpectPayload(h.identifier, h.len), [], None)
  }

  datatype Reading = Reading(dispatched: seq<Message>, outcome: ReadOutcome)

  /** What the reader dispatches from a stream to a handler that survives `calm` messages, and why it stops. */
  function Read(awaits: FrameExpect, stream: Stream, calm: nat): (r: Reading)
    decreases stream
  {
    match stream
    case Silent => Reading([], IdleTimeout)
    case Broken => Reading([], StreamFailed)
    case Next(Close(bytes), _) => Reading([], Closed(CloseCode(bytes)))
    case Next(Data(bytes), rest) =>
      var step := OnData(awaits, bytes);
      if step.outcome.Some? then Reading(step.dispatched, step.outcome.value)
      else if step.dispatched == [] then Read(step.awaits, rest, calm)
      else if calm == 0 then Reading(step.dispatched, HandlerPanic)
      else Before(step.dispatched, Read(step.awaits, rest, calm - 1))
  }

  function Before(dispatched: seq<Message>, r: Reading): (t: Reading) { r.(dispatched := dispatched + r.dispatched) }

  class Reader {
    var awaits: FrameExpect
    var dispatched: seq<Message>
    /** How many more messages the handler survives. */
    var calm: nat

    constructor (calm: nat)
      ensures awaits == FRAME_START && dispatched == [] && this.calm == calm
    {
      awaits, dispatched, this.calm := FRAME_START, [], calm;
    }

    method Dispatch(m: Message) returns (panics: bool)
      modifies this`dispatched, this`calm
      ensures dispatched == old(dispatched) + [m] && panics == (old(calm) == 0)
      ensures calm == if panics then 0 else old(calm) - 1
    {
      dispatched := dispatched + [m];
      panics := calm == 0;
      calm := if panics then 0 else calm - 1;
    }

    method OnDataFrame(payload: Text) returns (outcome: Option<ReadOutcome>)
      modifies this
      ensures var step := OnData(old(awaits), payload);
              var panics := step.dispatched != [] && old(calm) == 0;
              && dispatched == old(dispatched) + step.dispatched
              && outcome == (if panics then Some(HandlerPanic) else step.outcome)
              && (!panics ==> awaits == step.awaits && calm == old(calm) - |step.dispatched|)
    {
      outcome := None;
      match awaits {
        case ExpectHeader(_) =>
          match ParseHeader(payload) {
            case None =>
            case Some(h) =>
              if h.Estimated() {
                awaits := ExpectHeader(h.len);
              } else if h.identifier == OUT_OF_SERVICE {
                outcome := Some(Closed(Some(1012)));
              } else if h.len == 0 {
                var panics := Dispatch(Message(h.identifier, []));
                if panics {
                  return Some(HandlerPanic);
                }
                awaits := FRAME_START;
              } else {
                awaits := ExpectPayload(h.identifier, h.len);
              }
          }
        case ExpectPayload(identifier, _) =>
          var panics := Dispatch(Message(identifier, payload));
          if panics {
            return Some(HandlerPanic);
          }
          awaits := FRAME_START;
      }
    }

    method Run(stream: Stream) returns (outcome: ReadOutcome)
      requires awaits == FRAME_START && dispatched == []
      modifies this
      ensures Reading(dispatched, outcome) == Read(FRAME_START, stream, old(calm))
    {
      hide OnData, Read;
      var left := stream;
      assert Before([], Read(awaits, left, calm)) == Read(awaits, left, calm);
      while left.Next?
        invariant Read(FRAME_START, stream, old(calm)) == Before(dispatched, Read(awaits, left, calm))
        decreases left
      {
        if left.frame.Close? {
          ReadEnd(dispatched, awaits, left, calm);
          return Closed(CloseCode(left.frame.bytes));
        }
        AtMostOne(awaits, left.frame.bytes);
        ReadData(dispatched, awaits, left.frame.bytes, left.rest, calm);
        var stop := OnDataFrame(left.frame.bytes);
        if stop.Some? {
          return stop.value;
        }
        left := left.rest;
      }
      ReadEnd(dispatched, awaits, left, calm);
      outcome := if left.Silent? then IdleTimeout else StreamFailed;
    }
  }

  lemma AtMostOne(awaits: FrameExpect, payload: Text)
    ensures var step := OnData(awaits, payload);
            |step.dispatched| <= 1 && (step.outcome.Some? ==> step.dispatched == [])
  {
  }

  /** A data frame behind what was dispatched so far. */
  lemma ReadData(seen: seq<Message>, awaits: FrameExpect, bytes: Text, rest: Stream, calm: nat)
    requires |OnData(awaits, bytes).dispatched| <= 1
    ensures var step := OnData(awaits, bytes);
            Before(seen, Read(awaits, Next(Data(bytes), rest), calm))
            == if step.outcome.Some? then Reading(seen + step.dispatched, step.outcome.value)
               else if step.dispatched != [] && calm == 0 then Reading(seen + step.dispatched, HandlerPanic)
               else Before(seen + step.dispatched, Read(step.awaits, rest, calm - |step.dispatched|))
  {
    hide OnData;
    var step := OnData(awaits, bytes);
    if step.outcome.None? && |step.dispatched| <= calm {
      var later := Read(step.awaits, rest, calm - |step.dispatched|).dispatched;
      assert seen + (step.dispatched + later) == seen + step.dispatched + later;
    }
  }

  /** The end of the stream, or a close frame. */
  lemma ReadEnd(seen: seq<Message>, awaits: FrameExpect, stream: Stream, calm: nat)
    requires stream.Next? ==> stream.frame.Close?
    ensures Before(seen, Read(awaits, stream, calm))
         == Reading(seen, if stream.Next? then Closed(CloseCode(stream.frame.bytes))
                          else if stream.Silent? then IdleTimeout else StreamFailed)
  {
  }

  // Message streams as the Miniserver sends them.

  /** A message behind any number of estimated headers; the estimates may announce anything. */
  datatype Item = Item(estimates: seq<Header>, info: byte, message: Message)

  predicate IsEstimate(h: Header) { h.Estimated() && h.len < U32_LIMIT }

  predicate WellFormed(item: Item) {
    && (forall i | 0 <= i < |item.estimates| :: IsEstimate(item.estimates[i]))
    && item.info % 2 == 0
    && |item.message.payload| < U32_LIMIT
  }

  predicate AllWellFormed(items: seq<Item>) { forall i | 0 <= i < |items| :: WellFormed(items[i]) }

  predicate InService(items: seq<Item>) { forall i | 0 <= i < |items| :: items[i].message.identifier != OUT_OF_SERVICE }

  function Estimates(headers: seq<Header>, tail: Stream): (s: Stream)
    requires forall i | 0 <= i < |headers| :: IsEstimate(headers[i])
  {
    if headers == [] then tail
    else
      assert IsEstimate(headers[0]);
      Next(Data(EncodeHeader(headers[0])), Estimates(headers[1..], tail))
  }

  /** The exact header, and a payload frame unless the message is empty. */
  function Body(item: Item, tail: Stream): (s: Stream)
    requires WellFormed(item)
  {
    var m := item.message;
    Next(Data(EncodeHeader(Header(m.identifier, item.info, |m.payload|))),
         if m.payload == [] then tail else Next(Data(m.payload), tail))
  }

  /** The frames of a list of messages, followed by `tail`. */
  function Encode(items: seq<Item>, tail: Stream): (s: Stream)
    requires AllWellFormed(items)
  {
    if items == [] then tail else Estimates(items[0].estimates, Body(items[0], Encode(items[1..], tail)))
  }

  function Messages(items: seq<Item>): (m: seq<Message>)
    ensures |m| == |items|
  {
    if items == [] then [] else [items[0].message] + Messages(items[1..])
  }

  /** The last estimate only widens the wait for the exact header. */
  function AfterEstimates(awaits: FrameExpect, headers: seq<Header>): (r: FrameExpect)
    requires awaits.ExpectHeader?
    ensures r.ExpectHeader?
    decreases headers
  {
    if headers == [] then awaits else AfterEstimates(ExpectHeader(headers[0].len), headers[1..])
  }

  lemma {:induction false} ReadEstimates(awaits: FrameExpect, headers: seq<Header>, tail: Stream, calm: nat)
    requires awaits.ExpectHeader? && forall i | 0 <= i < |headers| :: IsEstimate(headers[i])
    ensures Read(awaits, Estimates(headers, tail), calm) == Read(AfterEstimates(awaits, headers), tail, calm)
    decreases headers
  {
    hide EncodeHeader, ParseHeader;
    if headers != [] {
      ReadEstimates(ExpectHeader(headers[0].len), headers[1..], tail, calm);
    }
  }

  lemma ReadBody(awaits: FrameExpect, item: Item, tail: Stream, calm: nat)
    requires awaits.ExpectHeader? && WellFormed(item)
    ensures Read(awaits, Body(item, tail), calm)
         == if item.message.identifier == OUT_OF_SERVICE then Reading([], Closed(Some(1012)))
            else if calm == 0 then Reading([item.message], HandlerPanic)
            else Before([item.message], Read(FRAME_START, tail, calm - 1))
  {
    hide EncodeHeader, ParseHeader;
  }

  lemma TailOk(items: seq<Item>)
    requires items != [] && AllWellFormed(items) && InService(items)
    ensures WellFormed(items[0]) && items[0].message.identifier != OUT_OF_SERVICE
    ensures AllWellFormed(items[1..]) && InService(items[1..])
  {
  }

  lemma ReadItem(awaits: FrameExpect, item: Item, tail: Stream, calm: nat)
    requires awaits.ExpectHeader? && WellFormed(item) && item.message.identifier != OUT_OF_SERVICE
    ensures Read(awaits, Estimates(item.estimates, Body(item, tail)), calm)
         == if calm == 0 then Reading([item.message], HandlerPanic)
            else Before([item.message], Read(FRAME_START, tail, calm - 1))
  {
    hide Read, Estimates, Body, AfterEstimates;
    ReadEstimates(awaits, item.estimates, Body(item, tail), calm);
    ReadBody(AfterEstimates(awaits, item.estimates), item, tail, calm);
  }

  /** How many calls the handler still survives behind `n` of them. */
  function Left(calm: nat, n: nat): (r: nat) { if n <= calm then calm - n else 0 }

  /** What the reader has read of a stream of messages in front of `rest`. */
  function Dispatching(messages: seq<Message>, rest: Reading, calm: nat): (r: Reading)
  {
    if calm < |messages| then Reading(messages[..calm + 1], HandlerPanic) else Before(messages, rest)
  }

  lemma DispatchingBehind(message: Message, messages: seq<Message>, rest: Reading, calm: nat)
    ensures Dispatching([message] + messages, rest, calm + 1) == Before([message], Dispatching(messages, rest, calm))
  {
    if calm < |messages| {
      assert ([message] + messages)[..calm + 2] == [message] + messages[..calm + 1];
    } else {
      assert ([message] + messages) + rest.dispatched == [message] + (messages + rest.dispatched);
    }
  }

  /**
   * The reader dispatches exactly the messages of the stream, whatever was estimated and whatever the payloads look
   * like; a handler that panics ends it with the message that caused that.
   */
  lemma {:induction false} ReaderDispatches(awaits: FrameExpect, items: seq<Item>, tail: Stream, calm: nat)
    requires awaits.ExpectHeader? && AllWellFormed(items) && InService(items)
    ensures var rest := Read(if items == [] then awaits else FRAME_START, tail, Left(calm, |items|));
            Read(awaits, Encode(items, tail), calm) == Dispatching(Messages(items), rest, calm)
    decreases |items|
  {
    hide Read, Estimates, Body, AllWellFormed, InService, WellFormed;
    if items == [] {
      assert [] + Read(awaits, tail, calm).dispatched == Read(awaits, tail, calm).dispatched;
    } else {
      TailOk(items);
      ReadItem(awaits, items[0], Encode(items[1..], tail), calm);
      if calm == 0 {
        assert Messages(items)[..1] == [items[0].message];
      } else {
        ReaderDispatches(FRAME_START, items[1..], tail, calm - 1);
        DispatchingBehind(items[0].message, Messages(items[1..]), Read(FRAME_START, tail, Left(calm, |items|)),
                          calm - 1);
      }
    }
  }

  /** An out-of-service message ends the session as a close with code 1012; what follows it is not dispatched. */
  lemma OutOfServiceCloses(items: seq<Item>, last: Item, tail: Stream, calm: nat)
    requires AllWellFormed(items) && InService(items) && WellFormed(last) && last.message.identifier == OUT_OF_SERVICE
    requires |items| <= calm
    ensures Read(FRAME_START, Encode(items, Encode([last], tail)), calm) == Reading(Messages(items), Closed(Some(1012)))
  {
    hide Read, Estimates, Body, AfterEstimates;
    ReadEstimates(FRAME_START, last.estimates, Body(last, tail), calm - |items|);
    ReadBody(AfterEstimates(FRAME_START, last.estimates), last, tail, calm - |items|);
    ReaderDispatches(FRAME_START, items, Encode([last], tail), calm);
  }

  // The handshake's reader.

  datatype Failure = BudgetSpent | NotAHeader | OutOfService | ClosedEarly | TimedOut | StreamBroke | HandlerPanicked

  /**
   * An answer's payload, or why there is none; the events handed on meanwhile; the frames and the handler's calm left.
   */
  datatype Answer = Answer(payload: Option<Text>, failure: Option<Failure>, events: seq<Message>, rest: Stream,
                           calm: nat)

  function Fail(f: Failure, rest: Stream, calm: nat): (a: Answer) { Answer(None, Some(f), [], rest, calm) }

  function Deliver(events: seq<Message>, a: Answer): (r: Answer) { a.(events := events + a.events) }

  function EventsOf(m: Message): (r: seq<Message>) { if IsEvent(m.identifier) then [m] else [] }

  /** Why no frame comes. */
  function NoFrame(stream: Stream): (f: Failure)
    requires !stream.Next?
  {
    if stream.Silent? then TimedOut else StreamBroke
  }

  /** `read_payload` with `budget` headers left to read and a handler that survives `calm` messages. */
  function ReadAnswer(budget: nat, stream: Stream, calm: nat): (a: Answer)
    decreases budget
  {
    if budget == 0 then Fail(BudgetSpent, stream, calm)
    else
      match stream
      case Silent => Fail(TimedOut, stream, calm)
      case Broken => Fail(StreamBroke, stream, calm)
      case Next(Close(_), rest) => Fail(ClosedEarly, rest, calm)
      case Next(Data(bytes), rest) =>
        match ParseHeader(bytes)
        case None => Fail(NotAHeader, rest, calm)
        case Some(h) =>
          if h.Estimated() then ReadAnswer(budget - 1, rest, calm)
          else if h.identifier == OUT_OF_SERVICE then Fail(OutOfService, rest, calm)
          else if h.len == 0 then ReadMessage(budget, Message(h.identifier, []), rest, calm)
          else if !rest.Next? then Fail(NoFrame(rest), rest, calm)
          else if rest.frame.Close? then Fail(ClosedEarly, rest.rest, calm)
          else ReadMessage(budget, Message(h.identifier, rest.frame.bytes), rest.rest, calm)
  }

  /** A whole message: it is shown to the handler, and returned or handed on by its type. */
  function ReadMessage(budget: nat, m: Message, rest: Stream, calm: nat): (a: Answer)
    requires budget > 0
    decreases budget, 0
  {
    if calm == 0 then Deliver(EventsOf(m), Fail(HandlerPanicked, rest, 0))
    else if m.identifier == TEXT then Answer(Some(m.payload), None, [], rest, calm - 1)
    else Deliver(EventsOf(m), ReadAnswer(budget - 1, rest, calm - 1))
  }

  lemma DeliverNone(a: Answer)
    ensures Deliver([], a) == a
  {
  }

  lemma DeliverConcat(events: seq<Message>, more: seq<Message>, a: Answer)
    ensures Deliver(events, Deliver(more, a)) == Deliver(events + more, a)
  {
  }

  /** The bounded loop of `read_payload`. */
  method ReadPayload(stream: Stream, survives: nat) returns (a: Answer)
    ensures a == ReadAnswer(MAX_INTERLEAVED_FRAMES, stream, survives)
  {
    hide ParseHeader, Deliver, EventsOf;
    var rest, events, calm, n := stream, [], survives, 0;
    DeliverNone(ReadAnswer(MAX_INTERLEAVED_FRAMES, stream, survives));
    while n < MAX_INTERLEAVED_FRAMES
      invariant 0 <= n <= MAX_INTERLEAVED_FRAMES
      invariant ReadAnswer(MAX_INTERLEAVED_FRAMES, stream, survives)
             == Deliver(events, ReadAnswer(MAX_INTERLEAVED_FRAMES - n, rest, calm))
    {
      if !rest.Next? {
        return Deliver(events, Fail(NoFrame(rest), rest, calm));
      }
      var first := rest.frame;
      rest := rest.rest;
      if first.Close? {
        return Deliver(events, Fail(ClosedEarly, rest, calm));
      }
      var header := ParseHeader(first.bytes);
      if header.None? {
        return Deliver(events, Fail(NotAHeader, rest, calm));
      }
      var h := header.value;
      if !h.Estimated() {
        if h.identifier == OUT_OF_SERVICE {
          return Deliver(events, Fail(OutOfService, rest, calm));
        }
        var payload := [];
        if h.len != 0 {
          if !rest.Next? {
            return Deliver(events, Fail(NoFrame(rest), rest, calm));
          }
          var second := rest.frame;
          rest := rest.rest;
          if second.Close? {
            return Deliver(events, Fail(ClosedEarly, rest, calm));
          }
          payload := second.bytes;
        }
        var handed := EventsOf(Message(h.identifier, payload));
        if calm == 0 {
          return Deliver(events, Deliver(handed, Fail(HandlerPanicked, rest, 0)));
        }
        calm := calm - 1;
        if h.identifier == TEXT {
          return Deliver(events, Answer(Some(payload), None, [], rest, calm));
        }
        DeliverConcat(events, handed, ReadAnswer(MAX_INTERLEAVED_FRAMES - n - 1, rest, calm));
        events := events + handed;
      }
      n := n + 1;
    }
    return Deliver(events, Fail(BudgetSpent, rest, calm));
  }

  // The handshake's reader on a message stream.

  /** Headers a stream makes the handshake read: each message's estimates and its exact one. */
  function HeaderCount(items: seq<Item>): (n: nat)
  {
    if items == [] then 0 else |items[0].estimates| + 1 + HeaderCount(items[1..])
  }

  function Events(messages: seq<Message>): (r: seq<Message>)
  {
    if messages == [] then [] else EventsOf(messages[0]) + Events(messages[1..])
  }

  function AnswersOf(m: Message): (r: seq<Text>) { if m.identifier == TEXT then [m.payload] else [] }

  function Answers(messages: seq<Message>): (r: seq<Text>)
  {
    if messages == [] then [] else AnswersOf(messages[0]) + Answers(messages[1..])
  }

  datatype Split = Split(before: seq<Item>, answer: Item, after: seq<Item>)

  /** The messages up to the first type-0 one; `None` when there is none, or an out-of-service message comes first. */
  function AtAnswer(items: seq<Item>): (r: Option<Split>)
    ensures r.Some? && AllWellFormed(items) ==> AllWellFormed(r.value.after)
  {
    if items == [] || items[0].message.identifier == OUT_OF_SERVICE then None
    else if items[0].message.identifier == TEXT then Some(Split([], items[0], items[1..]))
    else match AtAnswer(items[1..])
         case None => None
         case Some(s) => Some(Split([items[0]] + s.before, s.answer, s.after))
  }

  predicate NoText(items: seq<Item>) { forall i | 0 <= i < |items| :: items[i].message.identifier != TEXT }

  /** It is the first type-0 message, if there is one with nothing out of service before it. */
  lemma {:induction false} AtAnswerIs(items: seq<Item>)
    ensures match AtAnswer(items)
            case None => forall i | 0 <= i < |items| && items[i].message.identifier == TEXT :: !InService(items[..i])
            case Some(s) =>
              && items == s.before + [s.answer] + s.after
              && s.answer.message.identifier == TEXT
              && NoText(s.before) && InService(s.before)
  {
    if items != [] && items[0].message.identifier == OUT_OF_SERVICE {
      assert forall i | 0 < i < |items| :: items[..i][0] == items[0];
    } else if items != [] && items[0].message.identifier != TEXT {
      AtAnswerIs(items[1..]);
      if AtAnswer(items[1..]).None? {
        forall i | 0 < i < |items| && items[i].message.identifier == TEXT ensures !InService(items[..i]) {
          assert items[1..][i - 1] == items[i];
          assert items[1..][..i - 1] == items[..i][1..];
        }
      }
    }
  }

  /** Every estimated header costs one of the budget. */
  lemma {:induction false} AnswerEstimates(budget: nat, headers: seq<Header>, tail: Stream, calm: nat)
    requires forall i | 0 <= i < |headers| :: IsEstimate(headers[i])
    ensures var a := ReadAnswer(budget, Estimates(headers, tail), calm);
            if |headers| < budget then a == ReadAnswer(budget - |headers|, tail, calm) else a.payload.None?
  {
    hide EncodeHeader, ParseHeader, ReadMessage;
    if headers != [] && budget > 0 {
      AnswerEstimates(budget - 1, headers[1..], tail, calm);
    }
  }

  lemma AnswerBody(budget: nat, item: Item, tail: Stream, calm: nat)
    requires budget > 0 && WellFormed(item) && item.message.identifier != OUT_OF_SERVICE
    ensures ReadAnswer(budget, Body(item, tail), calm) == ReadMessage(budget, item.message, tail, calm)
  {
    hide EncodeHeader, ParseHeader, ReadMessage;
  }

  lemma AnswerBodyOut(budget: nat, item: Item, tail: Stream, calm: nat)
    requires budget > 0 && WellFormed(item) && item.message.identifier == OUT_OF_SERVICE
    ensures ReadAnswer(budget, Body(item, tail), calm).payload.None?
  {
    hide EncodeHeader, ParseHeader, ReadMessage;
  }

  lemma AnswerItem(budget: nat, item: Item, tail: Stream, calm: nat)
    requires WellFormed(item)
    ensures var a := ReadAnswer(budget, Estimates(item.estimates, Body(item, tail)), calm);
            if |item.estimates| < budget && item.message.identifier != OUT_OF_SERVICE
            then a == ReadMessage(budget - |item.estimates|, item.message, tail, calm)
            else a.payload.None?
  {
    hide ReadAnswer, ReadMessage, Estimates, Body;
    AnswerEstimates(budget, item.estimates, Body(item, tail), calm);
    if |item.estimates| < budget {
      if item.message.identifier == OUT_OF_SERVICE {
        AnswerBodyOut(budget - |item.estimates|, item, tail, calm);
      } else {
        AnswerBody(budget - |item.estimates|, item, tail, calm);
      }
    }
  }

  lemma RestWellFormed(items: seq<Item>)
    requires items != [] && AllWellFormed(items)
    ensures WellFormed(items[0]) && AllWellFormed(items[1..])
  {
  }

  /** The handshake's reader at the first message of a stream. */
  lemma AnswerHead(budget: nat, items: seq<Item>, tail: Stream, calm: nat)
    requires items != [] && AllWellFormed(items)
    ensures var a, e := ReadAnswer(budget, Encode(items, tail), calm), |items[0].estimates|;
            var more := Encode(items[1..], tail);
            if e >= budget || calm == 0 || items[0].message.identifier == OUT_OF_SERVICE then a.payload.None?
            else if items[0].message.identifier == TEXT
            then a == Answer(Some(items[0].message.payload), None, [], more, calm - 1)
            else a == Deliver(EventsOf(items[0].message), ReadAnswer(budget - e - 1, more, calm - 1))
  {
    RestWellFormed(items);
    AnswerItem(budget, items[0], Encode(items[1..], tail), calm);
    hide AllWellFormed, WellFormed, ReadAnswer, Estimates, Body, EventsOf;
  }

  /** No data frame follows: silence, a broken stream or a close frame. */
  predicate Ends(stream: Stream) { stream.Next? ==> stream.frame.Close? }

  /** The answer is within reach: few enough headers for the budget, few enough messages for the handler. */
  predicate Reached(at: Option<Split>, budget: nat, calm: nat) {
    at.Some? && HeaderCount(at.value.before) + |at.value.answer.estimates| < budget && |at.value.before| < calm
  }

  /** What `read_payload` answers on a stream, in terms of its first type-0 message. */
  predicate AnswersAs(a: Answer, at: Option<Split>, tail: Stream, budget: nat, calm: nat)
    requires at.Some? ==> AllWellFormed(at.value.after)
  {
    if Reached(at, budget, calm)
    then a == Answer(Some(at.value.answer.message.payload), None, Events(Messages(at.value.before)),
                     Encode(at.value.after, tail), calm - |at.value.before| - 1)
    else a.payload.None?
  }

  lemma AtAnswerLater(items: seq<Item>)
    requires items != [] && items[0].message.identifier !in {TEXT, OUT_OF_SERVICE}
    ensures AtAnswer(items) == match AtAnswer(items[1..])
                               case None => None
                               case Some(at) => Some(Split([items[0]] + at.before, at.answer, at.after))
    ensures InService(items) <==> InService(items[1..])
  {
    hide AllWellFormed;
    if !InService(items) {
      var i :| 0 <= i < |items| && items[i].message.identifier == OUT_OF_SERVICE;
      assert items[1..][i - 1] == items[i];
    }
  }

  lemma AnswerNothing(budget: nat, tail: Stream, calm: nat)
    requires Ends(tail)
    ensures AnswersAs(ReadAnswer(budget, Encode([], tail), calm), AtAnswer([]), tail, budget, calm)
  {
  }

  lemma AnswerFirst(budget: nat, items: seq<Item>, tail: Stream, calm: nat)
    requires items != [] && AllWellFormed(items) && items[0].message.identifier in {TEXT, OUT_OF_SERVICE}
    ensures AnswersAs(ReadAnswer(budget, Encode(items, tail), calm), AtAnswer(items), tail, budget, calm)
  {
    AnswerHead(budget, items, tail, calm);
    hide AllWellFormed, ReadAnswer, Encode;
  }

  /** A message in front of a stream that is answered as described. */
  lemma AnswerBehind(item: Item, a: Answer, at: Option<Split>, tail: Stream, budget: nat, calm: nat)
    requires (at.Some? ==> AllWellFormed(at.value.after)) && AnswersAs(a, at, tail, budget, calm)
    ensures var later := if at.None? then None
                         else Some(Split([item] + at.value.before, at.value.answer, at.value.after));
            AnswersAs(Deliver(EventsOf(item.message), a), later, tail, budget + |item.estimates| + 1, calm + 1)
  {
    hide AllWellFormed, Encode, Events, Messages, HeaderCount, EventsOf;
    if at.Some? {
      InFront(item, at.value.before);
    }
  }

  /** Out of headers or of calm at the first message, nothing behind it is reached. */
  lemma AnswerNever(item: Item, a: Answer, at: Option<Split>, tail: Stream, budget: nat, calm: nat)
    requires (at.Some? ==> AllWellFormed(at.value.after)) && a.payload.None?
    requires |item.estimates| >= budget || calm == 0
    ensures var later := if at.None? then None
                         else Some(Split([item] + at.value.before, at.value.answer, at.value.after));
            AnswersAs(a, later, tail, budget, calm)
  {
    hide AllWellFormed, Encode, Events, Messages, HeaderCount;
    if at.Some? {
      InFront(item, at.value.before);
    }
  }

  /**
   * `read_payload` succeeds if and only if the stream has a type-0 message within the header budget with nothing out of
   * service before it, and no callback panics up to it. It then returns that message's payload, has handed on exactly
   * the events before it, and leaves the stream right behind it, whatever follows. Without such a message the stream is
   * one that goes out of service or that ends.
   */
  lemma {:induction false} AnswerIff(budget: nat, items: seq<Item>, tail: Stream, calm: nat)
    requires AllWellFormed(items) && (AtAnswer(items).None? && InService(items) ==> Ends(tail))
    ensures AnswersAs(ReadAnswer(budget, Encode(items, tail), calm), AtAnswer(items), tail, budget, calm)
  {
    hide AllWellFormed, InService, WellFormed, ReadAnswer, Encode, EventsOf, AnswersAs, AtAnswer, Deliver, Ends;
    if items == [] {
      NothingAsked();
      AnswerNothing(budget, tail, calm);
    } else if items[0].message.identifier in {TEXT, OUT_OF_SERVICE} {
      AnswerFirst(budget, items, tail, calm);
    } else {
      RestWellFormed(items);
      AnswerHead(budget, items, tail, calm);
      AtAnswerLater(items);
      var e, at := |items[0].estimates|, AtAnswer(items[1..]);
      if e < budget && calm > 0 {
        AnswerIff(budget - e - 1, items[1..], tail, calm - 1);
        AnswerBehind(items[0], ReadAnswer(budget - e - 1, Encode(items[1..], tail), calm - 1), at, tail,
                     budget - e - 1, calm - 1);
      } else {
        AnswerNever(items[0], ReadAnswer(budget, Encode(items, tail), calm), at, tail, budget, calm);
      }
    }
  }

  lemma NothingAsked()
    ensures AtAnswer([]).None? && InService([])
  {
  }

  lemma InFront(item: Item, items: seq<Item>)
    ensures HeaderCount([item] + items) == |item.estimates| + 1 + HeaderCount(items)
    ensures Events(Messages([item] + items)) == EventsOf(item.message) + Events(Messages(items))
    ensures Answers(Messages([item] + items)) == AnswersOf(item.message) + Answers(Messages(items))
  {
  }

  // Handshake and reader together.

  datatype Exchange = Exchange(answers: seq<Text>, events: seq<Message>, rest: Stream, calm: nat)

  /** `n` handshake commands in a row, each reading its answer; `None` when one of them fails. */
  function Handshake(n: nat, stream: Stream, calm: nat): (r: Option<Exchange>)
  {
    if n == 0 then Some(Exchange([], [], stream, calm))
    else
      var a := ReadAnswer(MAX_INTERLEAVED_FRAMES, stream, calm);
      if a.payload.None? then None
      else match Handshake(n - 1, a.rest, a.calm)
           case None => None
           case Some(x) => Some(x.(answers := [a.payload.value] + x.answers, events := a.events + x.events))
  }

  /** The first `n` of the items. */
  function Front(items: seq<Item>, n: nat): (r: seq<Item>) { items[..Min(n, |items|)] }

  /** The messages before the first that says the Miniserver is out of service. */
  function Served(items: seq<Item>): (r: seq<Item>)
    ensures |r| <= |items| && r == items[..|r|] && InService(r)
    ensures |r| < |items| ==> items[|r|].message.identifier == OUT_OF_SERVICE
  {
    if items == [] || items[0].message.identifier == OUT_OF_SERVICE then []
    else [items[0]] + Served(items[1..])
  }

  /** A stream cut at its first out-of-service message is split at its answer as before. */
  lemma {:induction false} ServedSplit(items: seq<Item>)
    requires AtAnswer(items).Some?
    ensures var at := AtAnswer(items).value;
            AtAnswer(Served(items)) == Some(Split(at.before, at.answer, Served(at.after)))
  {
    hide AllWellFormed, InService;
    assert Served(items)[1..] == Served(items[1..]);
    if items[0].message.identifier != TEXT {
      ServedSplit(items[1..]);
    }
  }

  lemma {:induction false} EncodeAppend(items: seq<Item>, more: seq<Item>, tail: Stream)
    requires AllWellFormed(items) && AllWellFormed(more)
    ensures Encode(items + more, tail) == Encode(items, Encode(more, tail))
  {
    hide WellFormed, Estimates, Body;
    if items == [] {
      assert items + more == more;
    } else {
      EncodeAppend(items[1..], more, tail);
      assert (items + more)[1..] == items[1..] + more;
    }
  }

  /** A stream cut behind its first answer is split there too. */
  lemma {:induction false} CutSplit(items: seq<Item>, n: nat)
    requires AtAnswer(items).Some? && |AtAnswer(items).value.before| < n
    ensures var at := AtAnswer(items).value;
            AtAnswer(Front(items, n)) == Some(Split(at.before, at.answer, Front(at.after, n - |at.before| - 1)))
  {
    hide AllWellFormed;
    if items[0].message.identifier == TEXT {
      assert Front(items, n)[1..] == Front(items[1..], n - 1);
    } else {
      CutSplit(items[1..], n - 1);
      assert Front(items, n)[1..] == Front(items[1..], n - 1);
    }
  }

  predicate SplitsAt(items: seq<Item>, at: Split) {
    && Events(Messages(items)) == Events(Messages(at.before)) + Events(Messages(at.after))
    && Answers(Messages(items)) == [at.answer.message.payload] + Answers(Messages(at.after))
  }

  lemma SplitBehind(item: Item, items: seq<Item>, at: Split)
    requires SplitsAt(items, at) && item.message.identifier != TEXT
    ensures SplitsAt([item] + items, Split([item] + at.before, at.answer, at.after))
  {
    hide Events, Answers, Messages, EventsOf;
    InFront(item, items);
    InFront(item, at.before);
  }

  lemma SplitFirst(item: Item, items: seq<Item>)
    requires item.message.identifier == TEXT
    ensures SplitsAt([item] + items, Split([], item, items))
  {
    InFront(item, items);
  }

  /** Events and answers of a stream split at its first answer. */
  lemma {:induction false} SplitAtAnswer(items: seq<Item>)
    requires AtAnswer(items).Some?
    ensures SplitsAt(items, AtAnswer(items).value)
  {
    hide SplitsAt, AllWellFormed;
    assert [items[0]] + items[1..] == items;
    if items[0].message.identifier == TEXT {
      SplitFirst(items[0], items[1..]);
    } else {
      SplitAtAnswer(items[1..]);
      SplitBehind(items[0], items[1..], AtAnswer(items[1..]).value);
    }
  }

  /** What the reader dispatches of any stream of messages that ends: those before it goes out of service or panics. */
  lemma ReadServed(items: seq<Item>, tail: Stream, calm: nat)
    requires AllWellFormed(items) && (InService(items) ==> Ends(tail))
    ensures Read(FRAME_START, Encode(items, tail), calm).dispatched == Messages(Front(Served(items), calm + 1))
  {
    hide Read, Encode, Served, InService, WellFormed;
    var n := |Served(items)|;
    assert items == items[..n] + items[n..];
    EncodeAppend(items[..n], items[n..], tail);
    ReaderDispatches(FRAME_START, Served(items), Encode(items[n..], tail), calm);
    ReadUnserved(items, tail, Left(calm, n));
    FrontMessages(Served(items), calm + 1);
    assert Messages(Served(items)) + [] == Messages(Served(items));
  }

  lemma ReadUnserved(items: seq<Item>, tail: Stream, calm: nat)
    requires AllWellFormed(items) && (InService(items) ==> Ends(tail))
    ensures Read(FRAME_START, Encode(items[|Served(items)|..], tail), calm).dispatched == []
  {
    hide Read, Served, WellFormed;
    var n := |Served(items)|;
    if n == |items| {
      assert items[n..] == [] && Served(items) == items;
      ReadEnd([], FRAME_START, tail, calm);
    } else {
      ReadOut(items[n..], tail, calm);
    }
  }

  lemma ReadOut(items: seq<Item>, tail: Stream, calm: nat)
    requires items != [] && AllWellFormed(items) && items[0].message.identifier == OUT_OF_SERVICE
    ensures Read(FRAME_START, Encode(items, tail), calm) == Reading([], Closed(Some(1012)))
  {
    RestWellFormed(items);
    var more := Encode(items[1..], tail);
    ReadEstimates(FRAME_START, items[0].estimates, Body(items[0], more), calm);
    ReadBody(AfterEstimates(FRAME_START, items[0].estimates), items[0], more, calm);
    hide Read, AllWellFormed, Estimates, Body, AfterEstimates;
  }

  /**
   * However many commands the handshake sends, its events followed by those the reader dispatches are the stream's
   * events, and its answers followed by the reader's type-0 messages are the stream's answers: all of them, or those
   * before an out-of-service message, or up to and including the message whose callback panics.
   */
  lemma {:induction false} NothingLost(n: nat, items: seq<Item>, tail: Stream, calm: nat)
    requires AllWellFormed(items) && (InService(items) ==> Ends(tail)) && Handshake(n, Encode(items, tail), calm).Some?
    ensures var x := Handshake(n, Encode(items, tail), calm).value;
            var read := Read(FRAME_START, x.rest, x.calm);
            var seen := Messages(Front(Served(items), calm + 1));
            && x.events + Events(read.dispatched) == Events(seen)
            && x.answers + Answers(read.dispatched) == Answers(seen)
            && |x.answers| == n
  {
    hide Read, ReadAnswer, Encode, AtAnswer, Events, Answers, Messages, Served, InService, Ends, AllWellFormed;
    if n == 0 {
      ReadServed(items, tail, calm);
    } else {
      AnswerIff(MAX_INTERLEAVED_FRAMES, items, tail, calm);
      var at := AtAnswer(items).value;
      AfterInService(items);
      NothingLost(n - 1, at.after, tail, calm - |at.before| - 1);
      ServedSplit(items);
      CutSplit(Served(items), calm + 1);
      SplitAtAnswer(Front(Served(items), calm + 1));
    }
  }

  lemma AfterInService(items: seq<Item>)
    requires AtAnswer(items).Some?
    ensures InService(AtAnswer(items).value.after) ==> InService(items)
  {
    AtAnswerIs(items);
  }

  lemma {:induction false} FrontMessages(items: seq<Item>, n: nat)
    ensures Messages(Front(items, n)) == Messages(items)[..Min(n, |items|)]
  {
    if items != [] && n > 0 {
      FrontMessages(items[1..], n - 1);
      assert Front(items, n)[1..] == Front(items[1..], n - 1);
    }
  }
}
