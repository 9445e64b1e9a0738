/**
 * Which tokens are presented and which are dropped, over all sessions of a run (handshake.rs, flow.rs, io.rs,
 * refresh.rs).
 */
module TokenLife {
  import opened Bytes
  import Supervisor

  type Error = Supervisor.Error

  const TOKEN_MIN_REMAINING_SECS := 300

  /** `ll_status_invalidates_token`: every code except those that say something else than "not with this token". */
  predicate StatusInvalidates(code: string) { code !in {"200", "423", "500", "503", "901"} }

  /** `ll_status_error`. */
  function StatusError(code: string): (e: Error)
  {
    if code == "423" then Supervisor.UserDisabled
    else if code == "901" then Supervisor.TooManyConnections
    else Supervisor.Auth
  }

  /** `token_survives_close`. */
  predicate SurvivesClose(code: Option<nat>) { code != Some(4004) && code != Some(4005) && code != Some(4006) }

  /** A token by its issue number; a token string the Miniserver sends is a new issue. */
  datatype Token = Token(id: nat, expiry: int)

  /** A new expiry, with or without a new token string. */
  datatype Renewal = Renewal(expiry: int, reissued: bool)

  /** Why a handshake request got no answer: a close frame came instead, or something broke. */
  datatype Loss = Closed(code: Option<nat>) | Broke(cause: Error) {
    /** A close frame becomes a plain error; its code is not looked at. */
    function Error(): (e: Error) { if Closed? then Supervisor.ConnectionLost else cause }
  }

  /** An answer: none arrived, not an LL envelope, or a status with the renewal it may carry. */
  datatype Reply = Lost(loss: Loss) | Unreadable | Status(code: string, renewal: Option<Renewal>)

  datatype Verdict = Accepted | Rejected(code: string) | Failed(error: Error)

  /** `classify`. */
  function Classify(r: Reply): (v: Verdict)
  {
    match r
    case Lost(loss) => Failed(loss.Error())
    case Unreadable => Failed(Supervisor.Protocol)
    case Status(code, _) =>
      if code == "200" then Accepted else if StatusInvalidates(code) then Rejected(code) else Failed(StatusError(code))
  }

  datatype Grant = Granted(expiry: int) | NotGranted(loss: Loss)

  /**
   * What `authenticate` meets: whether killing a displaced token worked, whether getkey failed, the answer to
   * authwithtoken, and how the acquisition of a token ended.
   */
  datatype Attempt = Attempt(kill: Option<Loss>, key: Option<Loss>, auth: Reply, grant: Grant)

  datatype Event =
    | Presented(id: nat, now: int)
    | Refused(id: nat, status: string)
    | Killed(id: nat, now: int)
    | ClosedWith(id: nat, code: Option<nat>, connected: bool)

  /** The token held, the next issue number, and what happened to tokens so far. */
  datatype Keeper = Keeper(held: Option<Token>, next: nat, log: seq<Event>)

  function Note(k: Keeper, e: Event): (t: Keeper) { k.(log := k.log + [e]) }

  /** A handshake request is lost while the held token is in use. */
  function Meet(k: Keeper, loss: Loss): (t: Keeper)
  {
    if loss.Closed? && k.held.Some? then Note(k, ClosedWith(k.held.value.id, loss.code, false)) else k
  }

  datatype Handshaken = Handshaken(keeper: Keeper, error: Option<Error>)

  function Acquire(k: Keeper, g: Grant): (h: Handshaken)
  {
    match g
    case Granted(expiry) => Handshaken(k.(held := Some(Token(k.next, expiry)), next := k.next + 1), None)
    case NotGranted(loss) => Handshaken(Meet(k, loss), Some(if loss.Closed? then loss.Error().InStep() else loss.cause))
  }

  /** A displaced token is killed first, whatever comes of it; but behind a close frame nothing is granted. */
  function Displace(k: Keeper, token: Token, now: int, a: Attempt): (h: Handshaken)
  {
    match a.kill
    case None => Acquire(Note(k, Killed(token.id, now)), a.grant)
    case Some(Broke(_)) => Acquire(k, a.grant)
    case Some(Closed(code)) => Handshaken(Meet(k, Closed(code)), Some(Supervisor.Error.WebSocket.InStep()))
  }

  /** `apply_valid_until` on the held token. */
  function Renew(k: Keeper, t: Token, r: Renewal): (s: Keeper)
  {
    if r.reissued then k.(held := Some(Token(k.next, r.expiry)), next := k.next + 1)
    else k.(held := Some(Token(t.id, r.expiry)))
  }

  /** `reuse_token`, and the acquisition that follows a refusal. */
  function Reuse(k: Keeper, token: Token, now: int, a: Attempt): (h: Handshaken)
  {
    if a.key.Some? then Handshaken(Meet(k, a.key.value), Some(a.key.value.Error().InStep()))
    else
      var shown := Note(k, Presented(token.id, now));
      match Classify(a.auth)
      case Accepted =>
        if a.auth.renewal.Some? then Handshaken(Renew(shown, token, a.auth.renewal.value), None)
        else Handshaken(shown, Some(Supervisor.Auth))
      case Rejected(code) => Acquire(Note(shown.(held := None), Refused(token.id, code)), a.grant)
      case Failed(e) => Handshaken(if a.auth.Lost? then Meet(shown, a.auth.loss) else shown, Some(e.InStep()))
  }

  /** `authenticate`. */
  function AfterHandshake(k: Keeper, now: int, a: Attempt): (h: Handshaken)
  {
    match k.held
    case None => Acquire(k, a.grant)
    case Some(token) =>
      if token.expiry - now < TOKEN_MIN_REMAINING_SECS then Displace(k, token, now, a) else Reuse(k, token, now, a)
  }

  /** `refresh_once` from its second read on: the answer is applied only to the token it was asked for. */
  datatype Refresh = Refresh(snapshot: nat, reply: Reply)

  function AfterRefresh(k: Keeper, r: Refresh): (t: Keeper)
  {
    if k.held.None? || k.held.value.id != r.snapshot then k
    else if r.reply.Status? && r.reply.code == "200" && r.reply.renewal.Some?
    then Renew(k, k.held.value, r.reply.renewal.value)
    else k
  }

  function Refreshed(k: Keeper, refreshes: seq<Refresh>): (t: Keeper)
  {
    if refreshes == [] then k else AfterRefresh(Refreshed(k, refreshes[..|refreshes| - 1]), refreshes[|refreshes| - 1])
  }

  /** How a connected session ends: a close frame is read, the connection drops, or a stop discards the token or not. */
  datatype End = CloseRead(code: Option<nat>) | Dropped | Stopped(discard: bool)

  function AfterEnd(k: Keeper, end: End): (t: Keeper)
  {
    match end
    case CloseRead(code) =>
      if k.held.None? then k
      else
        var k := Note(k, ClosedWith(k.held.value.id, code, true));
        if SurvivesClose(code) then k else k.(held := None)
    case Dropped => k
    case Stopped(discard) => if discard then k.(held := None) else k
  }

  /**
   * One session: when it authenticates, whether the key exchange and the subscription to updates are lost, what the
   * authentication meets, and, once connected, the refreshes and the end.
   */
  datatype Session = Session(now: int, exchange: Option<Loss>, attempt: Attempt, updates: Option<Loss>,
                             refreshes: seq<Refresh>, end: End)

  /** The handshake succeeds. */
  predicate Connects(k: Keeper, s: Session) {
    s.exchange.None? && AfterHandshake(k, s.now, s.attempt).error.None? && s.updates.None?
  }

  function Play(k: Keeper, s: Session): (t: Keeper)
  {
    if s.exchange.Some? then Meet(k, s.exchange.value)
    else
      var h := AfterHandshake(k, s.now, s.attempt);
      if h.error.Some? then h.keeper
      else if s.updates.Some? then Meet(h.keeper, s.updates.value)
      else AfterEnd(Refreshed(h.keeper, s.refreshes), s.end)
  }

  /** A run that starts without a token, or with one restored from the store. */
  function Start(restored: Option<int>): (k: Keeper)
  {
    match restored
    case None => Keeper(None, 0, [])
    case Some(expiry) => Keeper(Some(Token(0, expiry)), 1, [])
  }

  function Run(restored: Option<int>, run: seq<Session>): (k: Keeper)
  {
    if run == [] then Start(restored) else Play(Run(restored, run[..|run| - 1]), run[|run| - 1])
  }

  // Spent tokens.

  /** The token is spent: refused with a status that invalidates it, or its session closed with 4004, 4005 or 4006. */
  predicate Dead(e: Event) { e.Refused? || (e.ClosedWith? && e.connected && !SurvivesClose(e.code)) }

  predicate Sound(k: Keeper) {
    && (k.held.Some? ==> k.held.value.id < k.next)
    && (forall i | 0 <= i < |k.log| :: k.log[i].id < k.next)
    && (k.held.Some? ==> forall i | 0 <= i < |k.log| :: Dead(k.log[i]) ==> k.log[i].id != k.held.value.id)
    && (forall i, j | 0 <= i < j < |k.log| :: Dead(k.log[i]) && k.log[j].Presented? ==> k.log[i].id != k.log[j].id)
  }

  /** An event about the held token that does not spend it. */
  lemma NoteSound(k: Keeper, e: Event)
    requires Sound(k) && k.held.Some? && e.id == k.held.value.id && !Dead(e)
    ensures Sound(Note(k, e))
  {
  }

  /** An event that spends the held token, which is let go. */
  lemma SpendSound(k: Keeper, e: Event)
    requires Sound(k) && k.held.Some? && e.id == k.held.value.id && !e.Presented?
    ensures Sound(Note(k.(held := None), e)) && Sound(Note(k, e).(held := None))
  {
  }

  lemma AcquireSound(k: Keeper, g: Grant)
    requires Sound(k)
    ensures Sound(Acquire(k, g).keeper)
  {
  }

  lemma AuthenticateSound(k: Keeper, now: int, a: Attempt)
    requires Sound(k)
    ensures Sound(AfterHandshake(k, now, a).keeper)
  {
    hide Sound, Acquire, Note, StatusInvalidates;
    if k.held.None? {
      AcquireSound(k, a.grant);
    } else if k.held.value.expiry - now < TOKEN_MIN_REMAINING_SECS {
      DisplaceSound(k, k.held.value, now, a);
    } else {
      ReuseSound(k, k.held.value, now, a);
    }
  }

  lemma MeetSound(k: Keeper, loss: Loss)
    requires Sound(k)
    ensures Sound(Meet(k, loss))
  {
    hide Sound, Note;
    if loss.Closed? && k.held.Some? {
      NoteSound(k, ClosedWith(k.held.value.id, loss.code, false));
    }
  }

  lemma DisplaceSound(k: Keeper, token: Token, now: int, a: Attempt)
    requires Sound(k) && k.held == Some(token)
    ensures Sound(Displace(k, token, now, a).keeper)
  {
    hide Sound, Acquire, Note, Meet;
    NoteSound(k, Killed(token.id, now));
    AcquireSound(Note(k, Killed(token.id, now)), a.grant);
    AcquireSound(k, a.grant);
    if a.kill.Some? {
      MeetSound(k, a.kill.value);
    }
  }

  lemma RenewSound(k: Keeper, r: Renewal)
    requires Sound(k) && k.held.Some?
    ensures Sound(Renew(k, k.held.value, r))
  {
  }

  lemma ReuseSound(k: Keeper, token: Token, now: int, a: Attempt)
    requires Sound(k) && k.held == Some(token)
    ensures Sound(Reuse(k, token, now, a).keeper)
  {
    var shown := Note(k, Presented(token.id, now));
    NoteSound(k, Presented(token.id, now));
    assert shown.held == k.held;
    hide Sound, Acquire, Note, Meet, Renew, StatusInvalidates;
    if a.key.Some? {
      MeetSound(k, a.key.value);
    } else {
      match Classify(a.auth)
      case Accepted =>
        if a.auth.renewal.Some? {
          RenewSound(shown, a.auth.renewal.value);
        }
      case Rejected(code) =>
        SpendSound(shown, Refused(token.id, code));
        AcquireSound(Note(shown.(held := None), Refused(token.id, code)), a.grant);
      case Failed(_) =>
        if a.auth.Lost? {
          MeetSound(shown, a.auth.loss);
        }
    }
  }

  lemma {:induction false} RefreshedSound(k: Keeper, refreshes: seq<Refresh>)
    requires Sound(k)
    ensures Sound(Refreshed(k, refreshes))
  {
    hide Sound, Renew;
    if refreshes != [] {
      var before := Refreshed(k, refreshes[..|refreshes| - 1]);
      RefreshedSound(k, refreshes[..|refreshes| - 1]);
      var r := refreshes[|refreshes| - 1];
      if before.held.Some? && r.reply.Status? && r.reply.renewal.Some? {
        RenewSound(before, r.reply.renewal.value);
      }
    }
  }

  lemma EndSound(k: Keeper, end: End)
    requires Sound(k)
    ensures Sound(AfterEnd(k, end))
  {
    if end.CloseRead? && k.held.Some? {
      var e := ClosedWith(k.held.value.id, end.code, true);
      if SurvivesClose(end.code) {
        NoteSound(k, e);
      } else {
        SpendSound(k, e);
      }
    }
  }

  lemma PlaySound(k: Keeper, s: Session)
    requires Sound(k)
    ensures Sound(Play(k, s))
  {
    hide Sound, AfterHandshake, Meet, Refreshed, AfterEnd;
    AuthenticateSound(k, s.now, s.attempt);
    var h := AfterHandshake(k, s.now, s.attempt).keeper;
    RefreshedSound(h, s.refreshes);
    EndSound(Refreshed(h, s.refreshes), s.end);
    if s.exchange.Some? {
      MeetSound(k, s.exchange.value);
    }
    if s.updates.Some? {
      MeetSound(h, s.updates.value);
    }
  }

  lemma {:induction false} RunSound(restored: Option<int>, run: seq<Session>)
    ensures Sound(Run(restored, run))
  {
    hide Play;
    if run != [] {
      hide Sound;
      RunSound(restored, run[..|run| - 1]);
      PlaySound(Run(restored, run[..|run| - 1]), run[|run| - 1]);
    }
  }

  /** A spent token is never presented again, whatever the handshakes after it meet. */
  lemma NeverPresentedAgain(restored: Option<int>, run: seq<Session>)
    ensures var log := Run(restored, run).log;
            forall i, j | 0 <= i < j < |log| && Dead(log[i]) && log[j].Presented? :: log[i].id != log[j].id
  {
    hide Run;
    RunSound(restored, run);
  }

  // Where the events of a session come from.

  predicate Timed(e: Event) { e.Presented? || e.Killed? }

  /** `log` continues `before`; what it adds is of session time `now`, and its closes are `connected` or not. */
  predicate Adds(before: seq<Event>, log: seq<Event>, now: int, connected: bool) {
    && before <= log
    && forall i | |before| <= i < |log| ::
         && (log[i].ClosedWith? ==> log[i].connected == connected)
         && (Timed(log[i]) ==> log[i].now == now)
  }

  predicate AddsNoClose(before: seq<Event>, log: seq<Event>) { forall i | |before| <= i < |log| :: !log[i].ClosedWith? }

  lemma AuthenticateAdds(k: Keeper, now: int, a: Attempt)
    ensures var h := AfterHandshake(k, now, a);
            && Adds(k.log, h.keeper.log, now, false)
            && (h.error.None? ==> AddsNoClose(k.log, h.keeper.log))
  {
    hide StatusInvalidates, Supervisor.Error.InStep;
  }

  lemma {:induction false} RefreshedLog(k: Keeper, refreshes: seq<Refresh>)
    ensures Refreshed(k, refreshes).log == k.log
  {
    if refreshes != [] {
      RefreshedLog(k, refreshes[..|refreshes| - 1]);
    }
  }

  /** Every close a session meets is noted as read by the reader if and only if its handshake succeeded. */
  lemma PlayAdds(k: Keeper, s: Session)
    ensures Adds(k.log, Play(k, s).log, s.now, Connects(k, s))
  {
    hide AfterHandshake;
    AuthenticateAdds(k, s.now, s.attempt);
    RefreshedLog(AfterHandshake(k, s.now, s.attempt).keeper, s.refreshes);
  }

  /** The session that noted an event. */
  lemma {:induction false} Origin(restored: Option<int>, run: seq<Session>, i: nat) returns (n: nat)
    requires i < |Run(restored, run).log|
    ensures n < |run|
    ensures var before := Run(restored, run[..n]);
            && |before.log| <= i < |Play(before, run[n]).log|
            && Play(before, run[n]).log <= Run(restored, run).log
  {
    hide Play;
    n := |run| - 1;
    var before := Run(restored, run[..n]);
    PlayAdds(before, run[n]);
    if i < |before.log| {
      n := Origin(restored, run[..n], i);
      assert run[..|run| - 1][..n] == run[..n] && run[..|run| - 1][n] == run[n];
    }
  }

  /** A close met while authenticating leaves the token held, and it was one whose handshake failed. */
  lemma AuthenticateCloses(k: Keeper, now: int, a: Attempt, i: nat)
    requires var log := AfterHandshake(k, now, a).keeper.log; |k.log| <= i < |log| && log[i].ClosedWith?
    ensures var h := AfterHandshake(k, now, a);
            h.error.Some? && h.keeper.held.Some? && h.keeper.held.value.id == h.keeper.log[i].id
  {
    hide StatusInvalidates, Supervisor.Error.InStep;
  }

  /** `t` holds the token the event is about. */
  predicate Holds(t: Keeper, e: Event) { t.held.Some? && t.held.value.id == e.id }

  /** A close with 4004, 4005 or 4006 leaves its token held if and only if the handshake did not succeed. */
  lemma ClosedHeldIff(k: Keeper, s: Session, i: nat)
    requires var log := Play(k, s).log; |k.log| <= i < |log| && log[i].ClosedWith? && !SurvivesClose(log[i].code)
    ensures Holds(Play(k, s), Play(k, s).log[i]) <==> !Connects(k, s)
  {
    var h := AfterHandshake(k, s.now, s.attempt);
    AuthenticateAdds(k, s.now, s.attempt);
    RefreshedLog(h.keeper, s.refreshes);
    if s.exchange.None? && i < |h.keeper.log| {
      AuthenticateCloses(k, s.now, s.attempt, i);
    }
    hide AfterHandshake, Refreshed;
  }

  /** The session shows the Miniserver the token with this number. */
  predicate Shows(k: Keeper, s: Session, id: nat) {
    var log := Play(k, s).log;
    exists i | |k.log| <= i < |log| :: log[i].Presented? && log[i].id == id
  }

  /** The handshake gets as far as authwithtoken with the held token. */
  predicate ReachesAuth(k: Keeper, s: Session) {
    && s.exchange.None? && s.attempt.key.None?
    && k.held.Some? && k.held.value.expiry - s.now >= TOKEN_MIN_REMAINING_SECS
  }

  lemma AuthenticateShowsOnly(k: Keeper, now: int, a: Attempt, i: nat)
    requires var log := AfterHandshake(k, now, a).keeper.log; |k.log| <= i < |log| && log[i].Presented?
    ensures k.held.Some? && k.held.value.expiry - now >= TOKEN_MIN_REMAINING_SECS && a.key.None?
    ensures AfterHandshake(k, now, a).keeper.log[i].id == k.held.value.id
  {
    hide StatusInvalidates, Supervisor.Error.InStep;
  }

  /** A session shows exactly the token held before it, and exactly if it gets as far as that. */
  lemma ShowsIff(k: Keeper, s: Session, id: nat)
    ensures Shows(k, s, id) <==> ReachesAuth(k, s) && k.held.value.id == id
  {
    var h := AfterHandshake(k, s.now, s.attempt);
    var log := Play(k, s).log;
    RefreshedLog(h.keeper, s.refreshes);
    AuthenticateAdds(k, s.now, s.attempt);
    forall i | s.exchange.None? && |k.log| <= i < |h.keeper.log| && h.keeper.log[i].Presented?
      ensures ReachesAuth(k, s) && h.keeper.log[i].id == k.held.value.id
    {
      AuthenticateShowsOnly(k, s.now, s.attempt, i);
    }
    if ReachesAuth(k, s) {
      AuthenticateShows(k, s.now, s.attempt);
      PlayContinues(k, s);
      assert log[|k.log|] == Presented(k.held.value.id, s.now);
    }
    hide AfterHandshake, Refreshed;
  }

  /**
   * The session after a close with 4004, 4005 or 4006 presents the closed token if and only if the handshake that met
   * the close did not succeed and its own gets as far as authwithtoken.
   */
  lemma PresentedNextIff(k: Keeper, s: Session, next: Session, i: nat)
    requires var log := Play(k, s).log; |k.log| <= i < |log| && log[i].ClosedWith? && !SurvivesClose(log[i].code)
    ensures var t := Play(k, s);
            Shows(t, next, t.log[i].id) <==> !Connects(k, s) && ReachesAuth(t, next)
  {
    hide Play, Connects, Shows;
    ClosedHeldIff(k, s, i);
    ShowsIff(Play(k, s), next, Play(k, s).log[i].id);
  }

  /** A token closed with 4004, 4005 or 4006 is presented again only if an unfinished handshake met the close. */
  lemma PresentedAfterClose(restored: Option<int>, run: seq<Session>, i: nat, j: nat) returns (n: nat)
    requires var log := Run(restored, run).log;
             i < j < |log| && log[i].ClosedWith? && !SurvivesClose(log[i].code)
    requires var log := Run(restored, run).log; log[j].Presented? && log[j].id == log[i].id
    ensures n < |run|
    ensures var before := Run(restored, run[..n]);
            |before.log| <= i < |Play(before, run[n]).log| && !Connects(before, run[n])
  {
    hide Play, Run, Connects;
    NeverPresentedAgain(restored, run);
    n := Origin(restored, run, i);
    PlayAdds(Run(restored, run[..n]), run[n]);
  }

  /** That does happen, with every code: a close during the key exchange, then a handshake that presents the token. */
  lemma EarlyCloseRun(expiry: int, code: Option<nat>, closed: Session, next: Session)
    requires closed.exchange == Some(Closed(code))
    requires next.exchange.None? && next.attempt.key.None? && expiry - next.now >= TOKEN_MIN_REMAINING_SECS
    ensures [ClosedWith(0, code, false), Presented(0, next.now)] <= Run(Some(expiry), [closed, next]).log
  {
    hide Classify, Acquire, Supervisor.Error.InStep;
    var k := Start(Some(expiry));
    assert [closed, next][..1] == [closed] && [closed][..0] == [];
    assert Run(Some(expiry), [closed]) == Play(k, closed);
    var k1 := Play(k, closed);
    assert k1.log == [ClosedWith(0, code, false)] && k1.held == k.held;
    AuthenticateShows(k1, next.now, next.attempt);
    PlayContinues(k1, next);
  }

  lemma AuthenticateShows(k: Keeper, now: int, a: Attempt)
    requires k.held.Some? && k.held.value.expiry - now >= TOKEN_MIN_REMAINING_SECS && a.key.None?
    ensures k.log + [Presented(k.held.value.id, now)] <= AfterHandshake(k, now, a).keeper.log
  {
    hide StatusInvalidates, Supervisor.Error.InStep;
  }

  lemma PlayContinues(k: Keeper, s: Session)
    requires s.exchange.None?
    ensures AfterHandshake(k, s.now, s.attempt).keeper.log <= Play(k, s).log
  {
    hide AfterHandshake;
    RefreshedLog(AfterHandshake(k, s.now, s.attempt).keeper, s.refreshes);
  }

  // Killed tokens: a token is killed because it is about to expire, and stays held if no other is granted.

  /**
   * After the kill at `i` and before `end` the token was presented at an earlier clock reading than that of the kill.
   */
  predicate ShownEarlier(log: seq<Event>, i: nat, end: nat)
    requires i < |log| && end <= |log| && log[i].Killed?
  {
    exists m | i < m < end :: log[m].Presented? && log[m].id == log[i].id && log[m].now < log[i].now
  }

  /** The held token was not killed, or was presented after that at an earlier clock reading. */
  predicate AllShown(k: Keeper) {
    forall i | 0 <= i < |k.log| && k.log[i].Killed? && k.held.Some? && k.log[i].id == k.held.value.id ::
      ShownEarlier(k.log, i, |k.log|)
  }

  predicate KillRule(k: Keeper) {
    && (forall i | 0 <= i < |k.log| && k.log[i].Killed? && k.held.Some? && k.log[i].id == k.held.value.id ::
          ShownEarlier(k.log, i, |k.log|) || k.held.value.expiry - k.log[i].now < TOKEN_MIN_REMAINING_SECS)
    && (forall i, j | 0 <= i < j < |k.log| && k.log[i].Killed? && k.log[j].Presented? && k.log[j].id == k.log[i].id ::
          ShownEarlier(k.log, i, j + 1))
  }

  lemma ShownLater(log: seq<Event>, e: Event, i: nat, end: nat)
    requires i < |log| && end <= |log| && log[i].Killed? && ShownEarlier(log, i, end)
    ensures ShownEarlier(log + [e], i, end) && ShownEarlier(log + [e], i, |log| + 1)
  {
    var m :| i < m < end && log[m].Presented? && log[m].id == log[i].id && log[m].now < log[i].now;
    assert (log + [e])[m] == log[m];
  }

  /** Any event about the held token, if it is presented with time left and killed without. */
  lemma KillNote(k: Keeper, e: Event)
    requires KillRule(k) && k.held.Some? && e.id == k.held.value.id
    requires Timed(e) ==> (e.Presented? <==> k.held.value.expiry - e.now >= TOKEN_MIN_REMAINING_SECS)
    ensures KillRule(Note(k, e)) && (e.Presented? ==> AllShown(Note(k, e)))
  {
    var t, n := Note(k, e), |k.log|;
    forall i | 0 <= i < n && k.log[i].Killed? && k.log[i].id == e.id
      ensures ShownEarlier(k.log, i, n) || e.Presented? ==> ShownEarlier(t.log, i, n + 1)
    {
      if ShownEarlier(k.log, i, n) {
        ShownLater(k.log, e, i, n);
      } else if e.Presented? {
        assert t.log[n] == e;
      }
    }
    forall i, j | 0 <= i < j < n && k.log[i].Killed? && k.log[j].Presented? && k.log[j].id == k.log[i].id
      ensures ShownEarlier(t.log, i, j + 1)
    {
      ShownLater(k.log, e, i, j + 1);
    }
  }

  /** Letting go, or taking a new issue, leaves nothing to show. */
  lemma KillReplaced(k: Keeper, held: Option<Token>, next: nat)
    requires KillRule(k) && Sound(k) && (held.Some? ==> held.value.id >= k.next)
    ensures KillRule(k.(held := held, next := next)) && AllShown(k.(held := held, next := next))
  {
  }

  lemma KillRenew(k: Keeper, r: Renewal)
    requires KillRule(k) && Sound(k) && AllShown(k) && k.held.Some?
    ensures KillRule(Renew(k, k.held.value, r)) && AllShown(Renew(k, k.held.value, r))
  {
    hide ShownEarlier;
  }

  lemma KillMeet(k: Keeper, loss: Loss)
    requires KillRule(k)
    ensures KillRule(Meet(k, loss))
  {
    hide KillRule, AllShown;
    if loss.Closed? && k.held.Some? {
      KillNote(k, ClosedWith(k.held.value.id, loss.code, false));
    }
  }

  lemma KillAcquire(k: Keeper, g: Grant)
    requires KillRule(k) && Sound(k)
    ensures KillRule(Acquire(k, g).keeper) && (g.Granted? ==> AllShown(Acquire(k, g).keeper))
  {
    hide KillRule, AllShown, Sound, Meet;
    match g
    case Granted(expiry) => KillReplaced(k, Some(Token(k.next, expiry)), k.next + 1);
    case NotGranted(loss) => KillMeet(k, loss);
  }

  lemma KillDisplace(k: Keeper, token: Token, now: int, a: Attempt)
    requires KillRule(k) && Sound(k) && k.held == Some(token) && token.expiry - now < TOKEN_MIN_REMAINING_SECS
    ensures var h := Displace(k, token, now, a); KillRule(h.keeper) && (h.error.None? ==> AllShown(h.keeper))
  {
    hide KillRule, AllShown, Sound, Meet, Note;
    KillNote(k, Killed(token.id, now));
    NoteSound(k, Killed(token.id, now));
    KillAcquire(Note(k, Killed(token.id, now)), a.grant);
    KillAcquire(k, a.grant);
    if a.kill.Some? {
      KillMeet(k, a.kill.value);
    }
  }

  lemma KillReuse(k: Keeper, token: Token, now: int, a: Attempt)
    requires KillRule(k) && Sound(k) && k.held == Some(token) && token.expiry - now >= TOKEN_MIN_REMAINING_SECS
    ensures var h := Reuse(k, token, now, a); KillRule(h.keeper) && (h.error.None? ==> AllShown(h.keeper))
  {
    var shown := Note(k, Presented(token.id, now));
    KillNote(k, Presented(token.id, now));
    NoteSound(k, Presented(token.id, now));
    assert shown.held == k.held;
    hide KillRule, AllShown, Sound, Meet, Note, Acquire, Renew, StatusInvalidates, Supervisor.Error.InStep;
    if a.key.Some? {
      KillMeet(k, a.key.value);
    } else {
      match Classify(a.auth)
      case Accepted =>
        if a.auth.renewal.Some? {
          KillRenew(shown, a.auth.renewal.value);
        }
      case Rejected(code) =>
        KillSpend(shown, Refused(token.id, code));
        SpendSound(shown, Refused(token.id, code));
        KillAcquire(Note(shown.(held := None), Refused(token.id, code)), a.grant);
        AcquireErrs(Note(shown.(held := None), Refused(token.id, code)), a.grant);
      case Failed(_) =>
        if a.auth.Lost? {
          KillMeet(shown, a.auth.loss);
        }
    }
  }

  lemma AcquireErrs(k: Keeper, g: Grant)
    ensures Acquire(k, g).error.None? <==> g.Granted?
  {
  }

  lemma KillSpend(k: Keeper, e: Event)
    requires KillRule(k) && Sound(k) && k.held.Some? && e.id == k.held.value.id && !Timed(e)
    ensures KillRule(Note(k.(held := None), e)) && KillRule(Note(k, e).(held := None))
  {
    KillNote(k, e);
    assert Note(k.(held := None), e) == Note(k, e).(held := None);
    hide ShownEarlier;
  }

  lemma KillAuthenticate(k: Keeper, now: int, a: Attempt)
    requires KillRule(k) && Sound(k)
    ensures var h := AfterHandshake(k, now, a); KillRule(h.keeper) && (h.error.None? ==> AllShown(h.keeper))
  {
    hide KillRule, AllShown, Sound, Displace, Reuse, Acquire;
    if k.held.None? {
      KillAcquire(k, a.grant);
      AcquireErrs(k, a.grant);
    } else if k.held.value.expiry - now < TOKEN_MIN_REMAINING_SECS {
      KillDisplace(k, k.held.value, now, a);
    } else {
      KillReuse(k, k.held.value, now, a);
    }
  }

  lemma {:induction false} KillRefreshed(k: Keeper, refreshes: seq<Refresh>)
    requires KillRule(k) && Sound(k) && AllShown(k)
    ensures KillRule(Refreshed(k, refreshes)) && AllShown(Refreshed(k, refreshes))
  {
    hide KillRule, AllShown, Sound, Renew;
    if refreshes != [] {
      var before, r := Refreshed(k, refreshes[..|refreshes| - 1]), refreshes[|refreshes| - 1];
      KillRefreshed(k, refreshes[..|refreshes| - 1]);
      RefreshedSound(k, refreshes[..|refreshes| - 1]);
      if before.held.Some? && r.reply.Status? && r.reply.renewal.Some? {
        KillRenew(before, r.reply.renewal.value);
      }
    }
  }

  lemma KillEnd(k: Keeper, end: End)
    requires KillRule(k) && Sound(k)
    ensures KillRule(AfterEnd(k, end))
  {
    hide KillRule, AllShown, Sound, Note;
    match end
    case CloseRead(code) =>
      if k.held.Some? {
        KillNote(k, ClosedWith(k.held.value.id, code, true));
        KillSpend(k, ClosedWith(k.held.value.id, code, true));
      }
    case Dropped =>
    case Stopped(_) => KillReplaced(k, None, k.next);
  }

  lemma KillPlay(k: Keeper, s: Session)
    requires KillRule(k) && Sound(k)
    ensures KillRule(Play(k, s))
  {
    hide KillRule, AllShown, Sound, AfterHandshake, Meet, Refreshed, AfterEnd;
    KillAuthenticate(k, s.now, s.attempt);
    AuthenticateSound(k, s.now, s.attempt);
    var h := AfterHandshake(k, s.now, s.attempt);
    if s.exchange.Some? {
      KillMeet(k, s.exchange.value);
    } else if h.error.None? {
      if s.updates.Some? {
        KillMeet(h.keeper, s.updates.value);
      } else {
        KillRefreshed(h.keeper, s.refreshes);
        RefreshedSound(h.keeper, s.refreshes);
        KillEnd(Refreshed(h.keeper, s.refreshes), s.end);
      }
    }
  }

  lemma {:induction false} KillRun(restored: Option<int>, run: seq<Session>)
    ensures KillRule(Run(restored, run))
  {
    hide Play;
    if run != [] {
      hide KillRule;
      KillRun(restored, run[..|run| - 1]);
      RunSound(restored, run[..|run| - 1]);
      KillPlay(Run(restored, run[..|run| - 1]), run[|run| - 1]);
    }
  }

  /** A killed token that is presented again was first presented at an earlier clock reading than that of the kill. */
  lemma PresentedAfterKill(restored: Option<int>, run: seq<Session>, i: nat, j: nat)
    requires var log := Run(restored, run).log; i < j < |log| && log[i].Killed? && log[j].Presented?
    ensures var log := Run(restored, run).log; log[j].id == log[i].id ==> ShownEarlier(log, i, j + 1)
  {
    hide Run, ShownEarlier;
    KillRun(restored, run);
  }

  predicate Monotone(run: seq<Session>) { forall a, b | 0 <= a <= b < |run| :: run[a].now <= run[b].now }

  /** Events carry the clock readings of their sessions, in order. */
  predicate InOrder(log: seq<Event>, bound: int) {
    && (forall i | 0 <= i < |log| && Timed(log[i]) :: log[i].now <= bound)
    && (forall i, j | 0 <= i < j < |log| && Timed(log[i]) && Timed(log[j]) :: log[i].now <= log[j].now)
  }

  lemma {:induction false} RunInOrder(restored: Option<int>, run: seq<Session>, bound: int)
    requires Monotone(run) && (run != [] ==> run[|run| - 1].now <= bound)
    ensures InOrder(Run(restored, run).log, bound)
  {
    hide Play;
    if run != [] {
      var before, last := Run(restored, run[..|run| - 1]), run[|run| - 1];
      RunInOrder(restored, run[..|run| - 1], last.now);
      PlayAdds(before, last);
    }
  }

  /** Under a clock that does not run backwards a killed token is never presented. */
  lemma KilledNeverPresented(restored: Option<int>, run: seq<Session>, i: nat, j: nat)
    requires Monotone(run)
    requires var log := Run(restored, run).log; i < j < |log| && log[i].Killed? && log[j].Presented?
    ensures var log := Run(restored, run).log; log[i].id != log[j].id
  {
    hide Run;
    RunInOrder(restored, run, if run == [] then 0 else run[|run| - 1].now);
    PresentedAfterKill(restored, run, i, j);
  }

  lemma AuthenticateKills(k: Keeper, now: int, a: Attempt, i: nat)
    requires Sound(k)
    requires var log := AfterHandshake(k, now, a).keeper.log; |k.log| <= i < |log| && log[i].Killed?
    ensures k.held.Some? && k.held.value.expiry - now < TOKEN_MIN_REMAINING_SECS
    ensures var h := AfterHandshake(k, now, a);
            && h.keeper.log[i].id == k.held.value.id < k.next
            && (if a.grant.NotGranted? then h.error.Some? && h.keeper.held == k.held
                else h.error.None? && h.keeper.held == Some(Token(k.next, a.grant.expiry)) && h.keeper.next > k.next)
  {
    hide StatusInvalidates, Supervisor.Error.InStep;
  }

  /** Refreshes and the end of a session leave the issue held, a newer one, or none. */
  lemma {:induction false} RefreshedHolds(k: Keeper, refreshes: seq<Refresh>, id: nat)
    requires k.held.Some? && id < k.held.value.id < k.next
    ensures var t := Refreshed(k, refreshes); t.held.Some? && id < t.held.value.id < t.next
  {
    if refreshes != [] {
      RefreshedHolds(k, refreshes[..|refreshes| - 1], id);
    }
  }

  /**
   * The session after a kill presents the killed token if and only if no new one was granted and the next handshake
   * gets to authwithtoken by a clock that gives the token time again, which is an earlier one.
   */
  lemma KilledNextIff(k: Keeper, s: Session, next: Session, i: nat)
    requires Sound(k)
    requires var log := Play(k, s).log; |k.log| <= i < |log| && log[i].Killed?
    ensures k.held.Some?
    ensures var t := Play(k, s);
            Shows(t, next, t.log[i].id) <==>
            && s.attempt.grant.NotGranted? && next.exchange.None? && next.attempt.key.None?
            && k.held.value.expiry - next.now >= TOKEN_MIN_REMAINING_SECS
    ensures Shows(Play(k, s), next, Play(k, s).log[i].id) ==> next.now < s.now
  {
    var h := AfterHandshake(k, s.now, s.attempt);
    AuthenticateAdds(k, s.now, s.attempt);
    RefreshedLog(h.keeper, s.refreshes);
    AuthenticateKills(k, s.now, s.attempt, i);
    ShowsIff(Play(k, s), next, Play(k, s).log[i].id);
    hide AfterHandshake, Refreshed, Sound, Shows;
    if s.attempt.grant.Granted? {
      RefreshedHolds(h.keeper, s.refreshes, k.held.value.id);
    }
  }

  /** Under one that does, it is: killed shortly before its expiry, not replaced, and presented by an earlier clock. */
  lemma BackwardClockRun(expiry: int, killing: Session, next: Session)
    requires killing.exchange.None? && killing.attempt.kill.None? && killing.attempt.grant.NotGranted?
    requires expiry - killing.now < TOKEN_MIN_REMAINING_SECS <= expiry - next.now
    requires killing.attempt.grant.loss.Broke? && next.exchange.None? && next.attempt.key.None?
    ensures [Killed(0, killing.now), Presented(0, next.now)] <= Run(Some(expiry), [killing, next]).log
  {
    hide Classify, Supervisor.Error.InStep;
    var k := Start(Some(expiry));
    assert [killing, next][..1] == [killing] && [killing][..0] == [];
    assert Run(Some(expiry), [killing]) == Play(k, killing);
    var k1 := Play(k, killing);
    assert k1.log == [Killed(0, killing.now)] && k1.held == k.held;
    AuthenticateShows(k1, next.now, next.attempt);
    PlayContinues(k1, next);
  }

  // What an answer to authwithtoken costs.

  /** An answered authwithtoken costs the token if and only if its status says so, even if getjwt then fails. */
  lemma KeptIff(k: Keeper, now: int, a: Attempt)
    requires Sound(k) && k.held.Some? && k.held.value.expiry - now >= TOKEN_MIN_REMAINING_SECS
    requires a.key.None? && a.auth.Status?
    ensures var t, had := AfterHandshake(k, now, a).keeper, k.held.value;
            var kept := a.auth.code in {"200", "423", "500", "503", "901"};
            && (Refused(had.id, a.auth.code) in t.log[|k.log|..] <==> !kept)
            && (kept ==> t.held.Some? && (t.held.value.id == had.id
                                          || (a.auth.code == "200" && t.held.value.id == k.next)))
            && (!kept ==> t.held == if a.grant.Granted? then Some(Token(k.next, a.grant.expiry)) else None)
  {
    hide Supervisor.Error.InStep;
    var shown := k.log + [Presented(k.held.value.id, now)];
    if Classify(a.auth).Rejected? {
      assert (shown + [Refused(k.held.value.id, a.auth.code)])[|k.log| + 1] == Refused(k.held.value.id, a.auth.code);
    } else {
      assert shown[|k.log|..] == [Presented(k.held.value.id, now)];
    }
  }

  /**
   * A status about the Miniserver or the account leaves the very same token; the supervisor still sees what kind it
   * was.
   */
  lemma OtherTroubleKeeps(k: Keeper, now: int, a: Attempt)
    requires k.held.Some? && k.held.value.expiry - now >= TOKEN_MIN_REMAINING_SECS
    requires a.key.None? && a.auth.Status? && a.auth.code in {"423", "500", "503", "901"}
    ensures var h := AfterHandshake(k, now, a);
            && h.keeper.held == k.held
            && h.error.Some?
            && (h.error.value.IsTerminal() <==> a.auth.code == "423")
            && (h.error.value.NeedsLongBackoff() <==> a.auth.code == "901")
  {
  }

  lemma ReuseRefused(k: Keeper, token: Token, now: int, a: Attempt)
    requires a.key.None? && Classify(a.auth).Rejected?
    ensures Reuse(k, token, now, a)
         == Acquire(Keeper(None, k.next, k.log + [Presented(token.id, now), Refused(token.id, a.auth.code)]), a.grant)
  {
    hide Acquire, StatusInvalidates;
    assert k.log + [Presented(token.id, now)] + [Refused(token.id, a.auth.code)]
        == k.log + [Presented(token.id, now), Refused(token.id, a.auth.code)];
  }

  lemma SoundHeld(k: Keeper)
    requires Sound(k)
    ensures k.held.Some? ==> forall i | 0 <= i < |k.log| && Dead(k.log[i]) :: k.log[i].id != k.held.value.id
  {
  }

  /** The shared token and what happened to tokens. */
  class TokenOwner {
    var held: Option<Token>
    var next: nat
    var log: seq<Event>

    function View(): (k: Keeper)
      reads this
    {
      Keeper(held, next, log)
    }

    constructor (restored: Option<int>)
      ensures View() == Start(restored)
    {
      log := [];
      held := if restored.Some? then Some(Token(0, restored.value)) else None;
      next := if restored.Some? then 1 else 0;
    }

    method NoteClose(loss: Loss)
      modifies this`log
      ensures View() == Meet(old(View()), loss)
    {
      if loss.Closed? && held.Some? {
        log := log + [ClosedWith(held.value.id, loss.code, false)];
      }
    }

    /** `acquire_token`: a displaced token is killed first. */
    method AcquireToken(displaced: Option<Token>, now: int, a: Attempt) returns (e: Option<Error>)
      modifies this
      ensures Handshaken(View(), e)
           == if displaced.Some? then Displace(old(View()), displaced.value, now, a) else Acquire(old(View()), a.grant)
    {
      hide Supervisor.Error.InStep;
      if displaced.Some? {
        match a.kill {
          case None => log := log + [Killed(displaced.value.id, now)];
          case Some(Broke(_)) =>
          case Some(Closed(code)) =>
            NoteClose(Closed(code));
            return Some(Supervisor.Error.WebSocket.InStep());
        }
      }
      match a.grant {
        case Granted(expiry) =>
          held, next, e := Some(Token(next, expiry)), next + 1, None;
        case NotGranted(loss) =>
          NoteClose(loss);
          e := Some(if loss.Closed? then loss.Error().InStep() else loss.cause);
      }
    }

    method ReuseToken(token: Token, now: int, a: Attempt) returns (refused: bool, e: Option<Error>)
      requires held == Some(token)
      modifies this
      ensures refused <==> a.key.None? && Classify(a.auth).Rejected?
      ensures refused ==> held.None? && log == old(log) + [Presented(token.id, now), Refused(token.id, a.auth.code)]
      ensures refused ==> next == old(next)
      ensures !refused ==> Handshaken(View(), e) == Reuse(old(View()), token, now, a)
    {
      hide StatusInvalidates, Supervisor.Error.InStep;
      refused, e := false, None;
      if a.key.Some? {
        NoteClose(a.key.value);
        return false, Some(a.key.value.Error().InStep());
      }
      log := log + [Presented(token.id, now)];
      match Classify(a.auth) {
        case Accepted =>
          if a.auth.renewal.None? {
            return false, Some(Supervisor.Auth);
          }
          var r := a.auth.renewal.value;
          held, next := Some(Token(if r.reissued then next else token.id, r.expiry)),
                        if r.reissued then next + 1 else next;
        case Rejected(code) =>
          held, log, refused := None, log + [Refused(token.id, code)], true;
        case Failed(error) =>
          if a.auth.Lost? {
            NoteClose(a.auth.loss);
          }
          e := Some(error.InStep());
      }
    }

    /** `authenticate`: no spent token is held afterwards, and a refused one is gone before another is asked for. */
    method Authenticate(now: int, a: Attempt) returns (e: Option<Error>)
      requires Sound(View())
      modifies this
      ensures Handshaken(View(), e) == AfterHandshake(old(View()), now, a)
      ensures Sound(View())
      ensures held.Some? ==> forall i | 0 <= i < |log| && Dead(log[i]) :: log[i].id != held.value.id
    {
      AuthenticateSound(View(), now, a);
      hide Acquire, Reuse, Meet, Sound, Supervisor.Error.InStep;
      if held.None? {
        e := AcquireToken(None, now, a);
      } else if held.value.expiry - now < TOKEN_MIN_REMAINING_SECS {
        e := AcquireToken(held, now, a);
      } else {
        if a.key.None? && Classify(a.auth).Rejected? {
          ReuseRefused(View(), held.value, now, a);
        }
        var refused;
        refused, e := ReuseToken(held.value, now, a);
        if refused {
          e := AcquireToken(None, now, a);
        }
      }
      SoundHeld(View());
    }
  }

  // The refresher.

  const MAX_REFRESH_ATTEMPTS := 3

  /** Failures in a row at the end of `results`. */
  function InARow(results: seq<bool>): (n: nat)
  {
    if results == [] || results[|results| - 1] then 0 else 1 + InARow(results[..|results| - 1])
  }

  lemma {:induction false} InARowIs(results: seq<bool>, n: nat)
    requires n <= |results|
    ensures InARow(results) >= n <==> forall i | |results| - n <= i < |results| :: !results[i]
  {
    if n > 0 && !results[|results| - 1] {
      InARowIs(results[..|results| - 1], n - 1);
      assert forall i | 0 <= i < |results| - 1 :: results[..|results| - 1][i] == results[i];
    }
  }

  predicate ThreeFailures(results: seq<bool>, at: nat) {
    at + 3 <= |results| && !results[at] && !results[at + 1] && !results[at + 2]
  }

  /** `run_refresher`: the session is dropped at the first three failures in a row, and only then. */
  method RunRefresher(results: seq<bool>) returns (dropped: bool, used: nat)
    ensures used <= |results|
    ensures dropped ==> used >= 3 && ThreeFailures(results, used - 3)
    ensures !dropped ==> used == |results|
    ensures forall at: nat | at + 3 < used || (!dropped && at + 3 <= used) :: !ThreeFailures(results, at)
  {
    var failures := 0;
    dropped, used := false, 0;
    while used < |results|
      invariant used <= |results| && failures == InARow(results[..used]) && failures < MAX_REFRESH_ATTEMPTS
      invariant forall at: nat | at + 3 <= used :: !ThreeFailures(results, at)
    {
      assert results[..used + 1][..used] == results[..used];
      failures := if results[used] then 0 else failures + 1;
      used := used + 1;
      if used >= 3 {
        InARowIs(results[..used], 3);
        assert InARow(results[..used]) >= 3 <==> ThreeFailures(results, used - 3);
      }
      if failures >= MAX_REFRESH_ATTEMPTS {
        InARowShort(results[..used]);
        return true, used;
      }
    }
  }

  lemma {:induction false} InARowShort(results: seq<bool>)
    ensures InARow(results) <= |results|
  {
    if results != [] && !results[|results| - 1] {
      InARowShort(results[..|results| - 1]);
    }
  }
}
