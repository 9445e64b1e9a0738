/** Writer, Miniserver and reader of one session as a step relation: which waiter gets which answer. */
module Correlation {
  import opened Bytes
  import opened Pending
  import Cbc
  import ControlEcho

  const CMD_CONTROL: Text := Ascii("jdev/sps/io/")
  const CMD_GET_KEY: Text := Ascii("jdev/sys/getkey")
  const CMD_KILL_TOKEN: Text := Ascii("jdev/sys/killtoken/")
  const CMD_GET_VISUAL_PASSWD: Text := Ascii("jdev/sys/getvisusalt/")

  datatype Config = Config(timeout: nat, maxPending: nat, username: Text, keys: Cbc.SessionKeys)

  datatype VisuPending = VisuPending(uuid: Text, value: Text, visuPw: Text)

  /** Why the writer sends a command: on behalf of a caller, or as one of the two requests of a graceful close. */
  datatype Purpose = Normal | KeyRequest | KillRequest

  /** Where the writer is between two locked regions. */
  datatype Writer =
    | Deciding
    | Preparing(cmd: Text, resp: Option<nat>, purpose: Purpose)
    | Stamped(entry: Entry, purpose: Purpose)
    | Writing(resp: Option<nat>, purpose: Purpose)
    | Awaiting(waiter: nat, purpose: Purpose)
    | Expiring
    | Ending
    | Done

  /** An entry popped for an answer. */
  datatype Pair = Pair(entry: Entry, answer: Answer)

  /** What is left to do with an answer: look whether a visu command waits, drain that queue, or tell the waiter. */
  datatype Phase = Checking | Draining | Telling

  datatype Reader = Listening | Holding(entry: Entry, answer: Answer, phase: Phase)

  /**
   * The shared queue and the two directions of the socket. `unsent` is a command registered but not written, `wire`
   * what the Miniserver has yet to answer, `answers` what the reader has yet to read, `paired` which entry took which
   * answer; `dropped` counts the entries `finish` failed.
   */
  datatype Link = Link(queue: Queue, dropped: nat, unsent: seq<Entry>, wire: seq<Entry>, answers: seq<Answer>,
                       paired: seq<Pair>)
  {
    function Register(e: Entry): (l: Link) { this.(queue := queue.Push(e), unsent := unsent + [e]) }

    function Send(): (l: Link) { this.(wire := wire + unsent, unsent := []) }

    function Serve(control: Option<Text>, payload: Text): (l: Link)
      requires wire != []
    {
      this.(wire := wire[1..], answers := answers + [Answer(wire[0], control, payload)])
    }

    function Deliver(keys: Cbc.SessionKeys): (l: Link)
      requires answers != []
    {
      this.(answers := answers[1..], queue := queue.Resolve(answers[0].control, keys),
            paired := if queue.entries == [] then paired else paired + [Pair(queue.entries[0], answers[0])])
    }

    function Expire(now: nat): (l: Link) { this.(queue := queue.Expire(now)) }

    function Finish(): (l: Link) { this.(queue := queue.(entries := []), dropped := dropped + |queue.entries|) }

    /** The commands whose answer has not been read, in wire order. */
    function Outstanding(): (r: seq<Entry>) { Requests(answers) + wire + unsent }

    /** How many of the outstanding commands have lost their entry. */
    function Shift(): (d: int) { queue.timeouts + dropped - queue.unsolicited }

    /** The queue holds the outstanding commands except the oldest `Shift()`. */
    predicate Fifo() { Aligned(queue.entries, Outstanding(), Shift()) }
  }

  /**
   * `issued` counts the waiters taken so far, `log` what they were sent, `fed` the answers hashed for a visu command.
   */
  datatype State = State(
    clock: nat, stopped: bool, writer: Writer, reader: Reader, link: Link, visu: seq<VisuPending>, outbox: seq<Text>,
    issued: nat, log: seq<Completion>, fed: seq<Answer>)

  const START := State(0, false, Deciding, Listening, Link(EMPTY, 0, [], [], [], []), [], [], 0, [], [])

  datatype Action =
    | Tick(elapsed: nat)
    // writer
    | TakeCommand(cmd: Text)
    | TakeControl(uuid: Text, value: Text)
    | TakeVisu(item: VisuPending)
    | TakeOut
    | Encrypt(text: Option<Text>)
    | Register
    | Write(ok: bool, reached: bool)
    | OtherFrame(ok: bool)
    | Wake
    | Stop
    | Close(kill: bool)
    | Proceed(hash: Option<Text>)
    | GiveUp
    | ExpireDue
    | Finish
    // Miniserver
    | Serve(control: Option<Text>, payload: Text)
    // reader
    | Deliver
    | CheckVisu
    | Drain(secured: Option<Text>)
    | Complete

  /** `VisuQueue::push`: at most one command waits, and the newest wins. */
  function VisuPush(queue: seq<VisuPending>, item: VisuPending): (r: seq<VisuPending>)
    ensures |queue| <= 1 ==> r == [item]
  {
    (if queue == [] then queue else queue[1..]) + [item]
  }

  predicate IsAnswered(log: seq<Completion>, waiter: nat) {
    exists i | 0 <= i < |log| :: log[i].waiter == waiter && log[i].outcome.Answered?
  }

  function Told(resp: Option<nat>, outcome: Outcome): (c: seq<Completion>)
  {
    if resp.Some? then [Completion(resp.value, outcome)] else []
  }

  /** Whether a party stands where it can take the step. The Miniserver answers in order, with any control or none. */
  predicate Enabled(s: State, a: Action)
  {
    match a
    case Tick(_) => true
    case TakeOut => s.writer.Deciding? && s.outbox != []
    case Encrypt(_) => s.writer.Preparing?
    case Register => s.writer.Stamped?
    case Write(_, _) => s.writer.Writing?
    case Proceed(_) => s.writer.Awaiting? && IsAnswered(s.log, s.writer.waiter)
    case GiveUp => s.writer.Awaiting?
    case ExpireDue => s.writer.Expiring?
    case Finish => s.writer.Ending?
    case Serve(_, _) => s.link.wire != []
    case Deliver => s.reader.Listening? && s.link.answers != []
    case CheckVisu => s.reader.Holding? && s.reader.phase.Checking?
    case Drain(_) => s.reader.Holding? && s.reader.phase.Draining?
    case Complete => s.reader.Holding? && s.reader.phase.Telling?
    case _ => s.writer.Deciding?
  }

  function Step(cfg: Config, s: State, a: Action): (t: State)
    requires Enabled(s, a)
  {
    match a
    case Tick(elapsed) => s.(clock := s.clock + elapsed)
    case TakeCommand(cmd) =>
      if |s.link.queue.entries| >= cfg.maxPending
      then s.(issued := s.issued + 1, log := s.log + [Completion(s.issued, Refused)], writer := Expiring)
      else s.(issued := s.issued + 1, writer := Preparing(cmd, Some(s.issued), Normal))
    case TakeControl(uuid, value) => s.(writer := Preparing(CMD_CONTROL + uuid + [SLASH] + value, None, Normal))
    case TakeVisu(item) =>
      s.(visu := VisuPush(s.visu, item), writer := Preparing(CMD_GET_VISUAL_PASSWD + cfg.username, None, Normal))
    case TakeOut => s.(outbox := s.outbox[1..], writer := Preparing(s.outbox[0], None, Normal))
    case Encrypt(Some(text)) =>
      s.(writer := Stamped(Entry(s.writer.cmd, text, s.writer.resp, s.clock + cfg.timeout), s.writer.purpose))
    case Encrypt(None) =>
      s.(log := s.log + Told(s.writer.resp, EncryptionFailed),
         writer := if s.writer.purpose == Normal then Expiring else Ending)
    case Register => s.(link := s.link.Register(s.writer.entry),
                        writer := Writing(s.writer.entry.resp, s.writer.purpose))
    case Write(ok, reached) =>
      s.(link := if ok || reached then s.link.Send() else s.link,
         writer := if !ok then Ending
                   else if s.writer.purpose == Normal || s.writer.resp.None? then Expiring
                   else Awaiting(s.writer.resp.value, s.writer.purpose))
    case OtherFrame(ok) => s.(writer := if ok then Expiring else Ending)
    case Wake => s.(writer := Expiring)
    case Stop => s.(writer := Ending)
    case Close(kill) =>
      if kill then s.(stopped := true, issued := s.issued + 1,
                      writer := Preparing(CMD_GET_KEY, Some(s.issued), KeyRequest))
      else s.(stopped := true, writer := Ending)
    case Proceed(hash) =>
      if s.writer.purpose == KeyRequest && hash.Some?
      then s.(issued := s.issued + 1,
              writer := Preparing(CMD_KILL_TOKEN + hash.value + [SLASH] + cfg.username, Some(s.issued), KillRequest))
      else s.(writer := Ending)
    case GiveUp => s.(writer := Ending)
    case ExpireDue =>
      var due := s.link.queue.entries[..DueCount(s.link.queue.entries, s.clock)];
      s.(link := s.link.Expire(s.clock), log := s.log + Completions(due, TimedOut), writer := Deciding)
    case Finish =>
      s.(link := s.link.Finish(), visu := [], log := s.log + Completions(s.link.queue.entries, SessionEnded),
         writer := Done)
    case Serve(control, payload) => s.(link := s.link.Serve(control, payload))
    case Deliver =>
      s.(link := s.link.Deliver(cfg.keys),
         reader := if s.link.queue.entries == [] then Listening
                   else Holding(s.link.queue.entries[0], s.link.answers[0], Checking))
    case CheckVisu =>
      var wanted := CMD_GET_VISUAL_PASSWD <= s.reader.entry.plaintext && s.visu != [];
      s.(reader := Holding(s.reader.entry, s.reader.answer, if wanted then Draining else Telling))
    case Drain(secured) =>
      var held := s.(reader := Holding(s.reader.entry, s.reader.answer, Telling));
      if s.visu == [] then held
      else held.(visu := [], fed := s.fed + [s.reader.answer],
                 outbox := if secured.Some? then s.outbox + [secured.value] else s.outbox)
    case Complete =>
      s.(reader := Listening, log := s.log + Told(s.reader.entry.resp, Answered(s.reader.answer)))
  }

  /** The state after a run; `None` when a step of it is not possible. */
  function Run(cfg: Config, run: seq<Action>): (r: Option<State>)
  {
    if run == [] then Some(START)
    else match Run(cfg, run[..|run| - 1])
         case None => None
         case Some(s) => if Enabled(s, run[|run| - 1]) then Some(Step(cfg, s, run[|run| - 1])) else None
  }

  // FIFO order and the answers still owed.

  function Requests(answers: seq<Answer>): (r: seq<Entry>)
    ensures |r| == |answers| && forall i | 0 <= i < |r| :: r[i] == answers[i].request
  {
    seq(|answers|, i requires 0 <= i < |answers| => answers[i].request)
  }

  predicate Aligned(queue: seq<Entry>, outstanding: seq<Entry>, shift: int) {
    0 <= shift <= |outstanding| && queue == outstanding[shift..]
  }

  /** An answer answers the oldest outstanding command; it is taken by the oldest entry, if there is one. */
  lemma AlignedAnswer(q: seq<Entry>, o: seq<Entry>, d: int)
    requires Aligned(q, o, d) && o != []
    ensures if q == [] then d > 0 && Aligned([], o[1..], d - 1) else Aligned(q[1..], o[1..], d) && q[0] == o[d]
  {
  }

  lemma RegisterFifo(l: Link, e: Entry)
    requires l.Fifo()
    ensures l.Register(e).Fifo()
  {
  }

  lemma SendFifo(l: Link)
    requires l.Fifo()
    ensures l.Send().Fifo()
  {
  }

  lemma ServeFifo(l: Link, control: Option<Text>, payload: Text)
    requires l.Fifo() && l.wire != []
    ensures l.Serve(control, payload).Fifo()
  {
  }

  /** Reading an answer: it goes to the entry `Shift()` places behind the command it answers. */
  lemma DeliverFifo(l: Link, keys: Cbc.SessionKeys)
    requires l.Fifo() && l.answers != []
    ensures l.Deliver(keys).Fifo()
    ensures l.answers[0].request == l.Outstanding()[0]
    ensures l.queue.entries != [] ==> l.Shift() < |l.Outstanding()| && l.queue.entries[0] == l.Outstanding()[l.Shift()]
    ensures l.queue.entries == [] ==> l.Shift() > 0
  {
    hide ControlEcho.Matches;
    AlignedAnswer(l.queue.entries, l.Outstanding(), l.Shift());
    assert l.Deliver(keys).Outstanding() == l.Outstanding()[1..];
  }

  lemma ExpireFifo(l: Link, now: nat)
    requires l.Fifo()
    ensures l.Expire(now).Fifo()
  {
  }

  lemma FinishFifo(l: Link)
    requires l.Fifo()
    ensures l.Finish().Fifo()
  {
  }

  lemma StepFifo(cfg: Config, s: State, a: Action)
    requires s.link.Fifo() && Enabled(s, a)
    ensures Step(cfg, s, a).link.Fifo()
  {
    hide Completions, VisuPush, IsAnswered, DueCount, Aligned, Requests, Ascii, ControlEcho.Canonical,
         ControlEcho.Matches;
    hide Link.Fifo, Link.Register, Link.Send, Link.Serve, Link.Deliver, Link.Expire, Link.Finish;
    match a
    case Register => RegisterFifo(s.link, s.writer.entry);
    case Write(_, _) => SendFifo(s.link);
    case Serve(control, payload) => ServeFifo(s.link, control, payload);
    case Deliver => DeliverFifo(s.link, cfg.keys);
    case ExpireDue => ExpireFifo(s.link, s.clock);
    case Finish => FinishFifo(s.link);
    case _ =>
  }

  // What the parties' positions say about the rest of the state.

  predicate Phases(s: State) {
    && (if s.writer.Done? then s.link.queue.entries == [] else s.link.dropped == 0)
    && (if s.writer.Writing? then |s.link.unsent| == 1
        else !s.writer.Ending? && !s.writer.Done? ==> s.link.unsent == [])
    && (s.writer.Preparing? || s.writer.Stamped? || s.writer.Writing? ==> (s.writer.purpose != Normal ==> s.stopped))
    && (s.writer.Awaiting? ==> s.stopped)
    && |s.visu| <= 1
  }

  lemma StepPhases(cfg: Config, s: State, a: Action)
    requires Phases(s) && Enabled(s, a)
    ensures Phases(Step(cfg, s, a))
  {
    hide Completions, IsAnswered, Ascii, DueCount, ControlEcho.Canonical, ControlEcho.Matches;
  }

  // Every waiter is sent exactly one outcome.

  function Has(resp: Option<nat>, w: nat): (n: nat) { if resp == Some(w) then 1 else 0 }

  function InEntries(entries: seq<Entry>, w: nat): (n: nat)
  {
    if entries == [] then 0 else Has(entries[0].resp, w) + InEntries(entries[1..], w)
  }

  function InLog(log: seq<Completion>, w: nat): (n: nat)
  {
    if log == [] then 0 else Has(Some(log[0].waiter), w) + InLog(log[1..], w)
  }

  /** The waiter a party carries between two of its steps. */
  function Hand(w: Writer): (r: Option<nat>)
  {
    match w
    case Preparing(_, resp, _) => resp
    case Stamped(entry, _) => entry.resp
    case _ => None
  }

  function ReaderHand(r: Reader): (h: Option<nat>) { if r.Holding? then r.entry.resp else None }

  /** A waiter taken from the channel is in exactly one place: queued, in a party's hand, or told. */
  predicate OnceFor(s: State, w: nat) {
    InEntries(s.link.queue.entries, w) + InLog(s.log, w) + Has(Hand(s.writer), w) + Has(ReaderHand(s.reader), w)
    == if w < s.issued then 1 else 0
  }

  lemma {:induction false} InEntriesConcat(a: seq<Entry>, b: seq<Entry>, w: nat)
    ensures InEntries(a + b, w) == InEntries(a, w) + InEntries(b, w)
  {
    if a == [] {
      assert a + b == b;
    } else {
      assert (a + b)[1..] == a[1..] + b;
      InEntriesConcat(a[1..], b, w);
    }
  }

  lemma {:induction false} InLogConcat(a: seq<Completion>, b: seq<Completion>, w: nat)
    ensures InLog(a + b, w) == InLog(a, w) + InLog(b, w)
  {
    if a == [] {
      assert a + b == b;
    } else {
      assert (a + b)[1..] == a[1..] + b;
      InLogConcat(a[1..], b, w);
    }
  }

  lemma LogOne(log: seq<Completion>, resp: Option<nat>, outcome: Outcome, w: nat)
    ensures InLog(log + Told(resp, outcome), w) == InLog(log, w) + Has(resp, w)
  {
    InLogConcat(log, Told(resp, outcome), w);
  }

  /** Completing entries accounts for exactly their waiters. */
  lemma {:induction false} InCompletions(entries: seq<Entry>, outcome: Outcome, w: nat)
    ensures InLog(Completions(entries, outcome), w) == InEntries(entries, w)
  {
    if entries != [] {
      InCompletions(entries[1..], outcome, w);
      InLogConcat(Told(entries[0].resp, outcome), Completions(entries[1..], outcome), w);
    }
  }

  /** Completing the first `n` entries moves their waiters from the queue to the log. */
  lemma FailFront(entries: seq<Entry>, n: nat, log: seq<Completion>, outcome: Outcome, w: nat)
    requires n <= |entries|
    ensures InEntries(entries[n..], w) + InLog(log + Completions(entries[..n], outcome), w)
         == InEntries(entries, w) + InLog(log, w)
  {
    InCompletions(entries[..n], outcome, w);
    InLogConcat(log, Completions(entries[..n], outcome), w);
    assert entries == entries[..n] + entries[n..];
    InEntriesConcat(entries[..n], entries[n..], w);
  }

  lemma OnceTold(cfg: Config, s: State, a: Action, w: nat)
    requires OnceFor(s, w) && Enabled(s, a) && (a.TakeCommand? || a.Encrypt? || a.Complete?)
    ensures OnceFor(Step(cfg, s, a), w)
  {
    hide Completions, VisuPush, IsAnswered, Ascii, DueCount, ControlEcho.Canonical, ControlEcho.Matches, InLog,
         InEntries;
    match a
    case TakeCommand(_) => LogOne(s.log, Some(s.issued), Refused, w);
    case Encrypt(_) => LogOne(s.log, s.writer.resp, EncryptionFailed, w);
    case Complete => LogOne(s.log, s.reader.entry.resp, Answered(s.reader.answer), w);
  }

  lemma OnceQueued(cfg: Config, s: State, a: Action, w: nat)
    requires OnceFor(s, w) && Enabled(s, a) && (a.Register? || a.Deliver?)
    ensures OnceFor(Step(cfg, s, a), w)
  {
    hide Completions, VisuPush, IsAnswered, Ascii, DueCount, ControlEcho.Canonical, ControlEcho.Matches, InLog;
    if a.Register? {
      InEntriesConcat(s.link.queue.entries, [s.writer.entry], w);
    }
  }

  lemma OnceFailed(cfg: Config, s: State, a: Action, w: nat)
    requires OnceFor(s, w) && Enabled(s, a) && (a.ExpireDue? || a.Finish?)
    ensures OnceFor(Step(cfg, s, a), w)
  {
    hide Completions, VisuPush, IsAnswered, Ascii, DueCount, ControlEcho.Canonical, ControlEcho.Matches, InLog;
    var q := s.link.queue.entries;
    if a.ExpireDue? {
      FailFront(q, DueCount(q, s.clock), s.log, TimedOut, w);
    } else {
      FailFront(q, |q|, s.log, SessionEnded, w);
      assert q[..|q|] == q && q[|q|..] == [];
    }
  }

  lemma StepOnce(cfg: Config, s: State, a: Action, w: nat)
    requires OnceFor(s, w) && Enabled(s, a)
    ensures OnceFor(Step(cfg, s, a), w)
  {
    hide Completions, VisuPush, IsAnswered, Ascii, DueCount, ControlEcho.Canonical, ControlEcho.Matches, InLog,
         InEntries;
    if a.TakeCommand? || a.Encrypt? || a.Complete? {
      OnceTold(cfg, s, a, w);
    } else if a.Register? || a.Deliver? {
      OnceQueued(cfg, s, a, w);
    } else if a.ExpireDue? || a.Finish? {
      OnceFailed(cfg, s, a, w);
    }
  }

  // Waiters are numbered in wire order, so an answer is its waiter's own only where nothing is shifted.

  predicate Ascending(entries: seq<Entry>, bound: nat) {
    && (forall i | 0 <= i < |entries| :: entries[i].resp.Some? ==> entries[i].resp.value < bound)
    && forall i, j | 0 <= i < j < |entries| :: entries[i].resp.Some? && entries[j].resp.Some? ==>
         entries[i].resp.value < entries[j].resp.value
  }

  /** The next waiter to be registered: the one in the writer's hand, or the next to be taken. */
  function NextWaiter(s: State): (w: nat) { if Hand(s.writer).Some? then Hand(s.writer).value else s.issued }

  predicate Numbered(s: State) {
    && (Hand(s.writer).Some? ==> Hand(s.writer).value < s.issued)
    && Ascending(s.link.Outstanding(), NextWaiter(s))
  }

  lemma AscendingBelow(o: seq<Entry>, bound: nat, higher: nat)
    requires Ascending(o, bound) && bound <= higher
    ensures Ascending(o, higher)
  {
  }

  lemma AscendingPush(o: seq<Entry>, bound: nat, e: Entry)
    requires Ascending(o, bound) && (e.resp.Some? ==> bound <= e.resp.value)
    ensures Ascending(o + [e], if e.resp.Some? then e.resp.value + 1 else bound)
  {
  }

  lemma AscendingTail(o: seq<Entry>, bound: nat)
    requires Ascending(o, bound) && o != []
    ensures Ascending(o[1..], bound)
  {
  }

  /** What each operation does to the outstanding commands. */
  lemma LinkOutstanding(l: Link, e: Entry, keys: Cbc.SessionKeys, now: nat)
    ensures l.Register(e).Outstanding() == l.Outstanding() + [e]
    ensures l.Send().Outstanding() == l.Outstanding()
    ensures l.answers != [] ==> l.Deliver(keys).Outstanding() == l.Outstanding()[1..]
    ensures l.Expire(now).Outstanding() == l.Finish().Outstanding() == l.Outstanding()
  {
  }

  lemma ServeOutstanding(l: Link, control: Option<Text>, payload: Text)
    requires l.wire != []
    ensures l.Serve(control, payload).Outstanding() == l.Outstanding()
  {
  }

  lemma DeliverNonempty(l: Link)
    requires l.answers != []
    ensures l.Outstanding() != [] && l.Outstanding()[0] == l.answers[0].request
  {
  }

  lemma NumberedLink(cfg: Config, s: State, a: Action)
    requires Numbered(s) && Enabled(s, a)
    requires a.Register? || a.Write? || a.Serve? || a.Deliver? || a.ExpireDue? || a.Finish?
    ensures Numbered(Step(cfg, s, a))
  {
    hide Completions, VisuPush, IsAnswered, Ascii, DueCount, ControlEcho.Canonical, ControlEcho.Matches;
    hide Link.Register, Link.Send, Link.Serve, Link.Deliver, Link.Expire, Link.Finish, Link.Outstanding;
    var e := if a.Register? then s.writer.entry else Entry([], [], None, 0);
    LinkOutstanding(s.link, e, cfg.keys, s.clock);
    match a
    case Register => AscendingPush(s.link.Outstanding(), if e.resp.Some? then e.resp.value else s.issued, e);
    case Serve(control, payload) => ServeOutstanding(s.link, control, payload);
    case Deliver =>
      assert s.link.Outstanding() != [] by { DeliverNonempty(s.link); }
      AscendingTail(s.link.Outstanding(), NextWaiter(s));
    case _ =>
  }

  lemma StepNumbered(cfg: Config, s: State, a: Action)
    requires Numbered(s) && Enabled(s, a)
    ensures Numbered(Step(cfg, s, a))
  {
    hide Completions, VisuPush, IsAnswered, Ascii, DueCount, ControlEcho.Canonical, ControlEcho.Matches, Ascending;
    if a.Register? || a.Write? || a.Serve? || a.Deliver? || a.ExpireDue? || a.Finish? {
      NumberedLink(cfg, s, a);
    } else {
      hide Link.Outstanding;
      AscendingBelow(s.link.Outstanding(), NextWaiter(s), NextWaiter(Step(cfg, s, a)));
    }
  }

  // Deadlines.

  predicate Ordered(cfg: Config, s: State) {
    var q := s.link.queue.entries;
    && Sorted(q)
    && (forall e | e in q :: e.deadline <= s.clock + cfg.timeout)
    && (s.writer.Stamped? ==> s.writer.entry.deadline <= s.clock + cfg.timeout)
    && (s.writer.Stamped? ==> forall e | e in q :: e.deadline <= s.writer.entry.deadline)
  }

  lemma SortedPush(q: seq<Entry>, e: Entry)
    requires Sorted(q) && forall x | x in q :: x.deadline <= e.deadline
    ensures Sorted(q + [e])
  {
  }

  lemma SortedDrop(q: seq<Entry>, n: nat)
    requires Sorted(q) && n <= |q|
    ensures Sorted(q[n..]) && forall x | x in q[n..] :: x in q
  {
  }

  lemma OrderedQueue(cfg: Config, s: State, a: Action)
    requires Ordered(cfg, s) && Enabled(s, a) && (a.Register? || a.Deliver? || a.ExpireDue? || a.Finish?)
    ensures Ordered(cfg, Step(cfg, s, a))
  {
    hide Completions, VisuPush, IsAnswered, Ascii, DueCount, ControlEcho.Canonical, ControlEcho.Matches, Sorted;
    var q := s.link.queue.entries;
    match a
    case Register => SortedPush(q, s.writer.entry);
    case Deliver => SortedDrop(q, Min(1, |q|));
    case ExpireDue => SortedDrop(q, DueCount(q, s.clock));
    case Finish =>
      SortedDrop(q, |q|);
      assert q[|q|..] == [];
  }

  lemma StepOrdered(cfg: Config, s: State, a: Action)
    requires Ordered(cfg, s) && Enabled(s, a)
    ensures Ordered(cfg, Step(cfg, s, a))
  {
    if a.Register? || a.Deliver? || a.ExpireDue? || a.Finish? {
      hide *;
      OrderedQueue(cfg, s, a);
    } else {
      hide Completions, VisuPush, IsAnswered, Ascii, DueCount, ControlEcho.Canonical, ControlEcho.Matches, Sorted;
    }
  }

  // How many entries carry a waiter.

  function WaiterCount(entries: seq<Entry>): (n: nat)
    ensures n <= |entries|
  {
    if entries == [] then 0 else (if entries[0].resp.Some? then 1 else 0) + WaiterCount(entries[1..])
  }

  lemma {:induction false} WaiterCountConcat(a: seq<Entry>, b: seq<Entry>)
    ensures WaiterCount(a + b) == WaiterCount(a) + WaiterCount(b)
  {
    if a == [] {
      assert a + b == b;
    } else {
      assert (a + b)[1..] == a[1..] + b;
      WaiterCountConcat(a[1..], b);
    }
  }

  /** The waiter of a request of the graceful close, once registered. */
  function OwnRequest(w: Writer): (r: Option<nat>)
  {
    match w
    case Writing(resp, purpose) => if purpose == Normal then None else resp
    case Awaiting(waiter, _) => Some(waiter)
    case _ => None
  }

  predicate Bounded(cfg: Config, s: State) {
    var count, own := WaiterCount(s.link.queue.entries), OwnRequest(s.writer);
    if s.writer.Ending? then count <= cfg.maxPending + (if s.stopped then 1 else 0)
    else if own.Some? then count <= cfg.maxPending + InEntries(s.link.queue.entries, own.value)
    else if Hand(s.writer).Some? && s.writer.purpose == Normal then count < cfg.maxPending
    else count <= cfg.maxPending
  }

  lemma BoundedQueued(cfg: Config, s: State, a: Action)
    requires Bounded(cfg, s) && Enabled(s, a) && (a.Register? || a.Deliver?)
    ensures Bounded(cfg, Step(cfg, s, a))
  {
    hide Completions, VisuPush, IsAnswered, Ascii, DueCount, ControlEcho.Canonical, ControlEcho.Matches;
    if a.Register? {
      var e := s.writer.entry;
      WaiterCountConcat(s.link.queue.entries, [e]);
      if e.resp.Some? {
        InEntriesConcat(s.link.queue.entries, [e], e.resp.value);
      }
    }
  }

  lemma {:induction false} Answered1(log: seq<Completion>, w: nat)
    requires IsAnswered(log, w)
    ensures InLog(log, w) >= 1
  {
    if log[0].waiter != w || !log[0].outcome.Answered? {
      var i :| 0 <= i < |log| && log[i].waiter == w && log[i].outcome.Answered?;
      assert log[1..][i - 1] == log[i];
      Answered1(log[1..], w);
    }
  }

  lemma NoWaiters()
    ensures WaiterCount([]) == 0
  {
  }

  /** A request of the graceful close leaves the queue before the next one is made. */
  lemma BoundedClosing(cfg: Config, s: State, a: Action)
    requires Bounded(cfg, s) && Enabled(s, a) && Phases(s) && (a.Write? || a.Proceed? || a.GiveUp?)
    requires OwnRequest(s.writer).Some? ==> OnceFor(s, OwnRequest(s.writer).value)
    ensures Bounded(cfg, Step(cfg, s, a))
  {
    hide Completions, VisuPush, IsAnswered, Ascii, DueCount, ControlEcho.Canonical, ControlEcho.Matches, InLog,
         InEntries, WaiterCount;
    if a.Proceed? {
      Answered1(s.log, s.writer.waiter);
    }
  }

  lemma BoundedExpire(cfg: Config, s: State)
    requires Bounded(cfg, s) && Enabled(s, ExpireDue)
    ensures Bounded(cfg, Step(cfg, s, ExpireDue))
  {
    hide Completions, VisuPush, IsAnswered, Ascii, DueCount, ControlEcho.Canonical, ControlEcho.Matches, InLog,
         InEntries, WaiterCount;
    var q, n := s.link.queue.entries, DueCount(s.link.queue.entries, s.clock);
    assert q == q[..n] + q[n..];
    WaiterCountConcat(q[..n], q[n..]);
  }

  lemma StepBounded(cfg: Config, s: State, a: Action)
    requires Bounded(cfg, s) && Enabled(s, a) && Phases(s)
    requires OwnRequest(s.writer).Some? ==> OnceFor(s, OwnRequest(s.writer).value)
    ensures Bounded(cfg, Step(cfg, s, a))
  {
    if a.Register? || a.Deliver? {
      hide *;
      BoundedQueued(cfg, s, a);
    } else if a.ExpireDue? {
      hide *;
      BoundedExpire(cfg, s);
    } else if a.Write? || a.Proceed? || a.GiveUp? {
      hide *;
      BoundedClosing(cfg, s, a);
    } else {
      hide Completions, VisuPush, IsAnswered, Ascii, DueCount, ControlEcho.Canonical, ControlEcho.Matches, InLog,
           InEntries, OnceFor, WaiterCount;
      NoWaiters();
    }
  }

  // Whose answer a waiter gets.

  predicate OwnLog(log: seq<Completion>) {
    forall c | c in log :: c.outcome.Answered? ==> c.outcome.answer.request.resp == Some(c.waiter)
  }

  predicate VisuFed(fed: seq<Answer>) { forall a | a in fed :: CMD_GET_VISUAL_PASSWD <= a.request.plaintext }

  predicate OwnPairs(paired: seq<Pair>) { forall p | p in paired :: p.answer.request == p.entry }

  predicate Own(s: State) {
    s.link.queue.timeouts == 0 ==>
      && OwnLog(s.log)
      && VisuFed(s.fed)
      && OwnPairs(s.link.paired)
      && (s.reader.Holding? ==> s.reader.answer.request == s.reader.entry)
      && (s.reader.Holding? && s.reader.phase.Draining? ==> CMD_GET_VISUAL_PASSWD <= s.reader.entry.plaintext)
  }

  lemma {:induction false} NoAnswers(entries: seq<Entry>, outcome: Outcome)
    requires !outcome.Answered?
    ensures OwnLog(Completions(entries, outcome))
  {
    if entries != [] {
      NoAnswers(entries[1..], outcome);
    }
  }

  lemma OwnDeliver(cfg: Config, s: State)
    requires Own(s) && Enabled(s, Deliver) && s.link.Fifo() && Phases(s)
    ensures Own(Step(cfg, s, Deliver))
  {
    hide Completions, VisuPush, IsAnswered, Ascii, DueCount, ControlEcho.Canonical, ControlEcho.Matches, OwnLog,
         VisuFed;
    DeliverFifo(s.link, cfg.keys);
  }

  lemma OwnFailed(cfg: Config, s: State, a: Action)
    requires Own(s) && Enabled(s, a) && (a.ExpireDue? || a.Finish?)
    ensures Own(Step(cfg, s, a))
  {
    hide Completions, VisuPush, IsAnswered, Ascii, DueCount, ControlEcho.Canonical, ControlEcho.Matches, VisuFed,
         OwnPairs;
    var q := s.link.queue.entries;
    NoAnswers(q[..DueCount(q, s.clock)], TimedOut);
    NoAnswers(q, SessionEnded);
  }

  lemma OwnTold(cfg: Config, s: State, a: Action)
    requires Own(s) && Enabled(s, a) && (a.TakeCommand? || a.Encrypt? || a.CheckVisu? || a.Drain? || a.Complete?)
    ensures Own(Step(cfg, s, a))
  {
    hide Completions, VisuPush, IsAnswered, Ascii, DueCount, ControlEcho.Canonical, ControlEcho.Matches, OwnPairs;
  }

  lemma StepOwn(cfg: Config, s: State, a: Action)
    requires Own(s) && Enabled(s, a) && s.link.Fifo() && Phases(s)
    ensures Own(Step(cfg, s, a))
  {
    if a.Deliver? {
      hide *;
      OwnDeliver(cfg, s);
    } else if a.ExpireDue? || a.Finish? {
      hide *;
      OwnFailed(cfg, s, a);
    } else if a.TakeCommand? || a.Encrypt? || a.CheckVisu? || a.Drain? || a.Complete? {
      hide *;
      OwnTold(cfg, s, a);
    } else {
      hide Completions, VisuPush, IsAnswered, Ascii, DueCount, ControlEcho.Canonical, ControlEcho.Matches, OwnLog;
      hide VisuFed, OwnPairs, Link.Fifo, Phases;
    }
  }

  // The verdicts.

  /** The answer's control is neither the text of the entry that took it nor of the same kind. */
  predicate Disagrees(p: Pair, keys: Cbc.SessionKeys) {
    p.answer.control.Some? && !ControlEcho.Matches(p.answer.control.value, p.entry.wire, keys, p.entry.plaintext)
  }

  function Disagreements(paired: seq<Pair>, keys: Cbc.SessionKeys): (n: nat)
  {
    if paired == [] then 0
    else Disagreements(paired[..|paired| - 1], keys) + if Disagrees(paired[|paired| - 1], keys) then 1 else 0
  }

  predicate Counted(cfg: Config, s: State) {
    s.link.queue.mismatches == Disagreements(s.link.paired, cfg.keys)
  }

  lemma StepCounted(cfg: Config, s: State, a: Action)
    requires Counted(cfg, s) && Enabled(s, a)
    ensures Counted(cfg, Step(cfg, s, a))
  {
    hide Completions, VisuPush, IsAnswered, Ascii, DueCount, ControlEcho.Canonical, ControlEcho.Matches;
    if a.Deliver? && s.link.queue.entries != [] {
      var p := Pair(s.link.queue.entries[0], s.link.answers[0]);
      assert (s.link.paired + [p])[..|s.link.paired|] == s.link.paired;
    }
  }

  lemma {:induction false} NoDisagreement(paired: seq<Pair>, keys: Cbc.SessionKeys)
    ensures Disagreements(paired, keys) == 0 <==> forall i | 0 <= i < |paired| :: !Disagrees(paired[i], keys)
  {
    hide Disagrees;
    if paired != [] {
      var n := |paired| - 1;
      NoDisagreement(paired[..n], keys);
      assert forall i | 0 <= i < n :: paired[..n][i] == paired[i];
    }
  }

  // Whole runs.

  ghost predicate Inv(cfg: Config, s: State) {
    && s.link.Fifo()
    && Phases(s)
    && (forall w: nat :: OnceFor(s, w))
    && Numbered(s)
    && Ordered(cfg, s)
    && Bounded(cfg, s)
    && Own(s)
    && Counted(cfg, s)
  }

  lemma StepKeeps(cfg: Config, s: State, a: Action)
    requires Inv(cfg, s) && Enabled(s, a)
    ensures Inv(cfg, Step(cfg, s, a))
  {
    hide Step, Enabled, Phases, OnceFor, Numbered, Ordered, Bounded, Own, Counted, Link.Fifo;
    StepFifo(cfg, s, a);
    StepPhases(cfg, s, a);
    forall w: nat ensures OnceFor(Step(cfg, s, a), w) {
      StepOnce(cfg, s, a, w);
    }
    StepNumbered(cfg, s, a);
    StepOrdered(cfg, s, a);
    StepBounded(cfg, s, a);
    StepOwn(cfg, s, a);
    StepCounted(cfg, s, a);
  }

  lemma EmptyLink(l: Link)
    requires l.unsent == [] && l.wire == [] && l.answers == [] && l.queue.entries == [] && l.Shift() == 0
    ensures l.Fifo() && l.Outstanding() == []
  {
  }

  lemma StartAligned()
    ensures START.link.Fifo() && Numbered(START)
  {
    hide *;
    var l := Link(EMPTY, 0, [], [], [], []);
    assert START.link == l by { StartIs(); }
    assert EMPTY.entries == [] && l.Shift() == 0 by { StartIs(); }
    EmptyLink(l);
    assert Hand(START.writer) == None by { StartIs(); }
    NumberedEmpty(START);
  }

  lemma StartIs()
    ensures START.link == Link(EMPTY, 0, [], [], [], []) && EMPTY.entries == [] && START.link.Shift() == 0
            && Hand(START.writer) == None
  {
  }

  lemma NumberedEmpty(s: State)
    requires s.link.Outstanding() == [] && Hand(s.writer).None?
    ensures Numbered(s)
  {
  }

  lemma StartPhases()
    ensures Phases(START)
  {
  }

  lemma StartOwn(cfg: Config)
    ensures Ordered(cfg, START) && Bounded(cfg, START) && Own(START) && Counted(cfg, START)
  {
  }

  lemma StartOnce(w: nat)
    ensures OnceFor(START, w)
  {
  }

  lemma StartInv(cfg: Config)
    ensures Inv(cfg, START)
  {
    hide Phases, OnceFor, Numbered, Ordered, Bounded, Own, Counted, Link.Fifo;
    StartAligned();
    StartPhases();
    StartOwn(cfg);
    forall w: nat ensures OnceFor(START, w) {
      StartOnce(w);
    }
  }

  /** Every state of every interleaving keeps the invariant. */
  lemma {:induction false} RunKeeps(cfg: Config, run: seq<Action>)
    requires Run(cfg, run).Some?
    ensures Inv(cfg, Run(cfg, run).value)
  {
    hide Step, Enabled, Inv;
    if run == [] {
      StartInv(cfg);
    } else {
      RunKeeps(cfg, run[..|run| - 1]);
      StepKeeps(cfg, Run(cfg, run[..|run| - 1]).value, run[|run| - 1]);
    }
  }

  /** Answers still owed: the queue, plus what lost its entry, minus what was read without one. */
  lemma AnswersOwed(cfg: Config, run: seq<Action>)
    requires Run(cfg, run).Some?
    ensures var s := Run(cfg, run).value;
            && |s.link.Outstanding()|
            == |s.link.queue.entries| + s.link.queue.timeouts + s.link.dropped - s.link.queue.unsolicited
            && (!s.writer.Done? ==> s.link.dropped == 0)
  {
    hide Run;
    RunKeeps(cfg, run);
  }

  /**
   * As long as nothing expired, the queue is the unanswered commands and every answer reaches the command it answers.
   */
  lemma OwnAnswers(cfg: Config, run: seq<Action>)
    requires Run(cfg, run).Some? && Run(cfg, run).value.link.queue.timeouts == 0
    ensures var s := Run(cfg, run).value;
            && (!s.writer.Done? ==> s.link.queue.entries == s.link.Outstanding() && s.link.queue.unsolicited == 0)
            && OwnPairs(s.link.paired)
            && OwnLog(s.log)
            && VisuFed(s.fed)
  {
    hide Run;
    RunKeeps(cfg, run);
  }

  /** Mismatches are exactly the answers whose control disagrees with the entry that took them. */
  lemma MismatchesCounted(cfg: Config, run: seq<Action>)
    requires Run(cfg, run).Some?
    ensures Run(cfg, run).value.link.queue.mismatches == Disagreements(Run(cfg, run).value.link.paired, cfg.keys)
  {
    hide Run, Disagreements;
    RunKeeps(cfg, run);
  }

  /** Without expiry, none is counted if and only if every control read matches the command it answers. */
  lemma NoMismatchIff(cfg: Config, run: seq<Action>)
    requires Run(cfg, run).Some? && Run(cfg, run).value.link.queue.timeouts == 0
    ensures var s := Run(cfg, run).value;
            s.link.queue.mismatches == 0 <==>
            forall i | 0 <= i < |s.link.paired| ::
              !Disagrees(Pair(s.link.paired[i].answer.request, s.link.paired[i].answer), cfg.keys)
  {
    hide Run, Disagrees, Disagreements;
    var paired := Run(cfg, run).value.link.paired;
    MismatchesCounted(cfg, run);
    OwnAnswers(cfg, run);
    NoDisagreement(paired, cfg.keys);
    assert forall i | 0 <= i < |paired| :: Pair(paired[i].answer.request, paired[i].answer) == paired[i];
  }

  // Encrypted commands and the echoes a Miniserver makes of them.

  /** The client encrypts what it sends, and the Miniserver echoes what it answers. */
  ghost predicate HonestStep(cfg: Config, s: State, a: Action)
    requires Enabled(s, a)
  {
    match a
    case Encrypt(Some(text)) => ControlEcho.Encrypts(text, s.writer.cmd, cfg.keys)
    case Serve(Some(control), _) => ControlEcho.Echoes(control, s.link.wire[0].wire, s.link.wire[0].plaintext, cfg.keys)
    case _ => true
  }

  ghost predicate Honest(cfg: Config, run: seq<Action>)
    requires Run(cfg, run).Some?
  {
    run != [] ==>
      && Honest(cfg, run[..|run| - 1])
      && HonestStep(cfg, Run(cfg, run[..|run| - 1]).value, run[|run| - 1])
  }

  ghost predicate AllEncrypted(entries: seq<Entry>, keys: Cbc.SessionKeys) {
    forall i | 0 <= i < |entries| :: ControlEcho.Encrypts(entries[i].wire, entries[i].plaintext, keys)
  }

  predicate AllEchoed(answers: seq<Answer>, keys: Cbc.SessionKeys) {
    forall i | 0 <= i < |answers| :: !Disagrees(Pair(answers[i].request, answers[i]), keys)
  }

  predicate TakenEchoed(paired: seq<Pair>, keys: Cbc.SessionKeys) {
    forall i | 0 <= i < |paired| :: !Disagrees(Pair(paired[i].answer.request, paired[i].answer), keys)
  }

  /** Every command on its way is encrypted, and every answer on its way or taken echoes its command. */
  ghost predicate Echoed(cfg: Config, s: State) {
    && (s.writer.Stamped? ==> AllEncrypted([s.writer.entry], cfg.keys))
    && AllEncrypted(s.link.unsent, cfg.keys)
    && AllEncrypted(s.link.wire, cfg.keys)
    && AllEchoed(s.link.answers, cfg.keys)
    && TakenEchoed(s.link.paired, cfg.keys)
  }

  lemma EchoedSent(cfg: Config, s: State, a: Action)
    requires Enabled(s, a) && Echoed(cfg, s) && (a.Register? || a.Write?)
    ensures Echoed(cfg, Step(cfg, s, a))
  {
    hide ControlEcho.Encrypts, Disagrees, AllEchoed, TakenEchoed;
  }

  lemma EchoedServed(cfg: Config, s: State, control: Option<Text>, payload: Text)
    requires cfg.keys.Inverse() && s.link.wire != [] && Echoed(cfg, s) && HonestStep(cfg, s, Serve(control, payload))
    ensures Echoed(cfg, Step(cfg, s, Serve(control, payload)))
  {
    var e := s.link.wire[0];
    if control.Some? {
      ControlEcho.EchoMatches(control.value, e.wire, e.plaintext, cfg.keys);
    }
    assert !Disagrees(Pair(e, Answer(e, control, payload)), cfg.keys);
    hide ControlEcho.Encrypts, Disagrees, TakenEchoed;
  }

  lemma EchoedTaken(cfg: Config, s: State)
    requires Enabled(s, Deliver) && Echoed(cfg, s)
    ensures Echoed(cfg, Step(cfg, s, Deliver))
  {
    hide ControlEcho.Encrypts, Disagrees, AllEncrypted, Queue.Resolve;
  }

  lemma StepEchoed(cfg: Config, s: State, a: Action)
    requires cfg.keys.Inverse() && Enabled(s, a) && Echoed(cfg, s) && HonestStep(cfg, s, a)
    ensures Echoed(cfg, Step(cfg, s, a))
  {
    hide Completions, VisuPush, IsAnswered, Ascii, DueCount, ControlEcho.Canonical, ControlEcho.Matches;
    hide ControlEcho.Encrypts, ControlEcho.Echoes;
    hide AllEchoed, TakenEchoed;
    if a.Register? || a.Write? {
      EchoedSent(cfg, s, a);
    } else if a.Serve? {
      EchoedServed(cfg, s, a.control, a.payload);
    } else if a.Deliver? {
      EchoedTaken(cfg, s);
    }
  }

  lemma {:induction false} RunEchoed(cfg: Config, run: seq<Action>)
    requires cfg.keys.Inverse() && Run(cfg, run).Some? && Honest(cfg, run)
    ensures Echoed(cfg, Run(cfg, run).value)
  {
    hide Step, Enabled;
    if run != [] {
      hide Echoed, HonestStep;
      RunEchoed(cfg, run[..|run| - 1]);
      StepEchoed(cfg, Run(cfg, run[..|run| - 1]).value, run[|run| - 1]);
    }
  }

  /**
   * Without expiry no mismatch is counted in a run whose commands are encrypted under the session key and whose answers
   * carry no control, a respelling of the text they answer, or the same command encrypted anew.
   */
  lemma EchoedRun(cfg: Config, run: seq<Action>)
    requires cfg.keys.Inverse() && Run(cfg, run).Some? && Honest(cfg, run)
    requires Run(cfg, run).value.link.queue.timeouts == 0
    ensures Run(cfg, run).value.link.queue.mismatches == 0
  {
    hide Run, Honest, Disagrees;
    RunEchoed(cfg, run);
    NoMismatchIff(cfg, run);
  }

  /** With or without expiry: the answer taken by a waiter is its own if and only if nothing is shifted. */
  lemma AnswerGoesTo(cfg: Config, run: seq<Action>)
    requires Run(cfg, run).Some? && Enabled(Run(cfg, run).value, Deliver)
             && Run(cfg, run).value.link.queue.entries != []
    ensures var s := Run(cfg, run).value;
            var t := Step(cfg, s, Deliver);
            && 0 <= s.link.Shift() < |s.link.Outstanding()|
            && t.reader.Holding?
            && t.reader.answer.request == s.link.Outstanding()[0]
            && t.reader.entry == s.link.Outstanding()[s.link.Shift()]
            && (t.reader.entry.resp.Some? ==>
                  (t.reader.answer.request.resp == t.reader.entry.resp <==> s.link.Shift() == 0))
  {
    hide Run, ControlEcho.Canonical, ControlEcho.Matches;
    RunKeeps(cfg, run);
    var s := Run(cfg, run).value;
    DeliverFifo(s.link, cfg.keys);
  }

  /** No waiter is told twice, and after `finish` every waiter taken has been told once. */
  lemma ExactlyOnce(cfg: Config, run: seq<Action>, w: nat)
    requires Run(cfg, run).Some?
    ensures var s := Run(cfg, run).value;
            && InLog(s.log, w) <= (if w < s.issued then 1 else 0)
            && (s.writer.Done? && s.reader.Listening? ==> InLog(s.log, w) == if w < s.issued then 1 else 0)
  {
    hide Run;
    RunKeeps(cfg, run);
    var s := Run(cfg, run).value;
    assert OnceFor(s, w);
  }

  lemma ExpireDueIs(cfg: Config, s: State)
    requires s.writer.Expiring?
    ensures var q := s.link.queue.entries; Step(cfg, s, ExpireDue).link.queue.entries == q[DueCount(q, s.clock)..]
  {
    hide Completions, DueCount, ControlEcho.Matches;
  }

  /** The queue is in deadline order, so the front-only expiry drops exactly the due entries. */
  lemma ExpiryExact(cfg: Config, run: seq<Action>)
    requires Run(cfg, run).Some? && Run(cfg, run).value.writer.Expiring?
    ensures var s := Run(cfg, run).value;
            var q, kept := s.link.queue.entries, Step(cfg, s, ExpireDue).link.queue.entries;
            && Sorted(q) && |kept| <= |q| && kept == q[|q| - |kept|..]
            && forall i | 0 <= i < |q| :: q[i].deadline <= s.clock <==> i < |q| - |kept|
  {
    hide Run, Step, Sorted, Phases, OnceFor, Numbered, Bounded, Own, Counted, Link.Fifo;
    RunKeeps(cfg, run);
    var s := Run(cfg, run).value;
    ExpireDueIs(cfg, s);
    ExpireExact(s.link.queue.entries, s.clock);
  }

  /** Entries carrying a waiter stay within the limit, plus one during a graceful close. */
  lemma WaitersBounded(cfg: Config, run: seq<Action>)
    requires Run(cfg, run).Some?
    ensures var s := Run(cfg, run).value;
            WaiterCount(s.link.queue.entries) <= cfg.maxPending + if s.stopped then 1 else 0
  {
    hide Run;
    RunKeeps(cfg, run);
    var s := Run(cfg, run).value;
    var own := OwnRequest(s.writer);
    if own.Some? {
      assert OnceFor(s, own.value);
    }
  }

  function VisuTaken(run: seq<Action>): (n: nat)
  {
    if run == [] then 0 else VisuTaken(run[..|run| - 1]) + if run[|run| - 1].TakeVisu? then 1 else 0
  }

  lemma VisuStep(cfg: Config, s: State, a: Action)
    requires Enabled(s, a)
    ensures var t := Step(cfg, s, a); |t.fed| + |t.visu| <= |s.fed| + |s.visu| + if a.TakeVisu? then 1 else 0
  {
    hide Completions, IsAnswered, Ascii, DueCount, ControlEcho.Canonical, ControlEcho.Matches;
    hide Link.Register, Link.Send, Link.Serve, Link.Deliver, Link.Expire, Link.Finish;
  }

  /** No more answers are hashed than secured commands were taken: a queued one is sent at most once. */
  lemma {:induction false} VisuOnce(cfg: Config, run: seq<Action>)
    requires Run(cfg, run).Some?
    ensures |Run(cfg, run).value.fed| + |Run(cfg, run).value.visu| <= VisuTaken(run)
  {
    hide Step, Enabled;
    if run != [] {
      VisuOnce(cfg, run[..|run| - 1]);
      VisuStep(cfg, Run(cfg, run[..|run| - 1]).value, run[|run| - 1]);
    }
  }

  // What an expiry does to the commands behind it.

  lemma Extend(cfg: Config, run: seq<Action>, a: Action)
    requires Run(cfg, run).Some? && Enabled(Run(cfg, run).value, a)
    ensures Run(cfg, run + [a]) == Some(Step(cfg, Run(cfg, run).value, a))
  {
    hide Step, Enabled;
    assert (run + [a])[..|run|] == run;
  }

  function SendSteps(cmd: Text, text: Text): (r: seq<Action>)
  {
    [TakeCommand(cmd), Encrypt(Some(text)), Register, Write(true, true)]
  }

  /** Registering and writing one command, with nothing in between. */
  lemma SendOne(cfg: Config, run: seq<Action>, s: State, cmd: Text, text: Text)
    requires Run(cfg, run) == Some(s) && s.writer == Deciding && |s.link.queue.entries| < cfg.maxPending
    ensures var e := Entry(cmd, text, Some(s.issued), s.clock + cfg.timeout);
            && Run(cfg, run + SendSteps(cmd, text)).Some?
            && Run(cfg, run + SendSteps(cmd, text)).value
               == s.(link := s.link.Register(e).Send(), issued := s.issued + 1, writer := Expiring)
  {
    hide Completions, VisuPush, IsAnswered, Ascii, DueCount, ControlEcho.Canonical, ControlEcho.Matches;
    hide Run, Link.Register, Link.Send;
    Extend(cfg, run, TakeCommand(cmd));
    var run1 := run + [TakeCommand(cmd)];
    Extend(cfg, run1, Encrypt(Some(text)));
    var run2 := run1 + [Encrypt(Some(text))];
    Extend(cfg, run2, Register);
    var run3 := run2 + [Register];
    Extend(cfg, run3, Write(true, true));
    assert run + SendSteps(cmd, text) == run3 + [Write(true, true)];
  }

  function ReadSteps(control: Option<Text>, payload: Text): (r: seq<Action>)
  {
    [Serve(control, payload), Deliver, CheckVisu, Complete]
  }

  /** The answer reaches the reader, which takes the oldest entry for it. */
  lemma TakeOne(cfg: Config, run: seq<Action>, s: State, control: Option<Text>, payload: Text)
    requires Run(cfg, run) == Some(s) && s.reader == Listening
    requires s.link.answers == [] && s.link.wire != [] && s.link.queue.entries != []
    ensures var r := Run(cfg, run + [Serve(control, payload), Deliver]);
            && r.Some? && r.value.log == s.log && r.value.visu == s.visu
            && r.value.reader == Holding(s.link.queue.entries[0], Answer(s.link.wire[0], control, payload), Checking)
  {
    Extend(cfg, run, Serve(control, payload));
    var run1 := run + [Serve(control, payload)];
    Extend(cfg, run1, Deliver);
    assert run + [Serve(control, payload), Deliver] == run1 + [Deliver];
    hide Run, Completions, DueCount;
  }

  /** The reader passes on the answer it holds. */
  lemma PassOne(cfg: Config, run: seq<Action>, s: State)
    requires Run(cfg, run) == Some(s) && s.reader.Holding? && s.reader.phase.Checking? && s.visu == []
    ensures var r := Run(cfg, run + [CheckVisu, Complete]);
            r.Some? && r.value.log == s.log + Told(s.reader.entry.resp, Answered(s.reader.answer))
  {
    Extend(cfg, run, CheckVisu);
    var run1 := run + [CheckVisu];
    Extend(cfg, run1, Complete);
    assert run + [CheckVisu, Complete] == run1 + [Complete];
    hide Run, Completions, DueCount;
  }

  /** The Miniserver answers its oldest command and the reader passes the answer on. */
  lemma ReadOne(cfg: Config, run: seq<Action>, s: State, control: Option<Text>, payload: Text)
    requires Run(cfg, run) == Some(s) && s.reader == Listening && s.visu == []
    requires s.link.answers == [] && s.link.wire != [] && s.link.queue.entries != []
    ensures var r := Run(cfg, run + ReadSteps(control, payload));
            && r.Some?
            && r.value.log == s.log + Told(s.link.queue.entries[0].resp,
                                           Answered(Answer(s.link.wire[0], control, payload)))
  {
    hide Run;
    TakeOne(cfg, run, s, control, payload);
    var taken := run + [Serve(control, payload), Deliver];
    PassOne(cfg, taken, Run(cfg, taken).value);
    assert run + ReadSteps(control, payload) == taken + [CheckVisu, Complete];
  }

  function IdleSteps(cfg: Config): (r: seq<Action>) { [Tick(cfg.timeout), ExpireDue] }

  /** One timeout later the writer expires what it sent. */
  lemma ExpireOne(cfg: Config, run: seq<Action>, s: State, e: Entry)
    requires Run(cfg, run) == Some(s) && s.writer == Expiring && s.link.queue.entries == [e]
    requires e.resp.Some? && e.deadline == s.clock + cfg.timeout
    ensures var r := Run(cfg, run + IdleSteps(cfg));
            && r.Some?
            && r.value == s.(clock := s.clock + cfg.timeout, writer := Deciding,
                             log := s.log + [Completion(e.resp.value, TimedOut)],
                             link := s.link.(queue := s.link.queue.(entries := [],
                                                                    timeouts := s.link.queue.timeouts + 1)))
  {
    hide VisuPush, IsAnswered, Ascii, ControlEcho.Canonical, ControlEcho.Matches, Run;
    Extend(cfg, run, Tick(cfg.timeout));
    var run1 := run + [Tick(cfg.timeout)];
    Extend(cfg, run1, ExpireDue);
    assert run + IdleSteps(cfg) == run1 + [ExpireDue];
    assert [e][1..] == [];
    assert DueCount([e], e.deadline) == 1;
    assert [e][..1] == [e];
    assert Completions([e], TimedOut) == [Completion(e.resp.value, TimedOut)];
  }

  /**
   * For any two commands: the first expires, the second is sent, the late answer to the first arrives.
   * The second waiter is told the answer to the first.
   */
  lemma LateAnswerMisattributed(cfg: Config, cmd: Text, text: Text, cmd': Text, text': Text, control: Option<Text>,
                                payload: Text)
    requires cfg.maxPending > 0
    ensures var r := Run(cfg, SendSteps(cmd, text) + IdleSteps(cfg) + SendSteps(cmd', text')
                         + ReadSteps(control, payload));
            var first := Entry(cmd, text, Some(0), cfg.timeout);
            && r.Some?
            && r.value.log == [Completion(0, TimedOut), Completion(1, Answered(Answer(first, control, payload)))]
  {
    hide Step, Enabled, Run, ControlEcho.Canonical, ControlEcho.Matches, Completions, DueCount;
    assert Run(cfg, []) == Some(START) by { EmptyRun(cfg); }
    SendOne(cfg, [], START, cmd, text);
    var run1 := [] + SendSteps(cmd, text);
    assert run1 == SendSteps(cmd, text);
    var s1 := Run(cfg, run1).value;
    ExpireOne(cfg, run1, s1, Entry(cmd, text, Some(0), cfg.timeout));
    var run2 := run1 + IdleSteps(cfg);
    var s2 := Run(cfg, run2).value;
    SendOne(cfg, run2, s2, cmd', text');
    var run3 := run2 + SendSteps(cmd', text');
    ReadOne(cfg, run3, Run(cfg, run3).value, control, payload);
  }

  lemma EmptyRun(cfg: Config)
    ensures Run(cfg, []) == Some(START)
  {
  }
}
