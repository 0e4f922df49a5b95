// What every run of a session keeps (`src/agents/streamJsonSession.ts`).
module AgentSession {
  import opened Options
  import opened Space
  import opened AgentStream

  datatype Event = Start | SendMessage | KillNow | Chunk(text: string) | ExitWith(code: int) | TimerFires

  predicate Enabled(t: Stream, e: Event) {
    match e
    case Start => !t.session.started
    case SendMessage => t.session.started
    case KillNow => true
    case Chunk(_) => t.session.started
    case ExitWith(_) => t.session.started && !t.session.exited
    case TimerFires => t.session.armed
  }

  function Apply(t: Stream, r: Reader, e: Event): Stream
    requires Enabled(t, e)
  {
    var s := t.session;
    match e
    case Start => t.(session := SetStatus(s.(started := true), Running))
    case SendMessage => t.(session := Send(s))
    case KillNow => t.(session := Kill(s))
    case Chunk(text) => OnStdout(t, r, text)
    case ExitWith(code) => t.(session := OnExit(s, code))
    case TimerFires => t.(session := Emit(s.(armed := false), Silent(s.silenceMs)))
  }

  function Fresh(silenceMs: int): Stream {
    Stream(Session(silenceMs, false, false, Starting, "", 0, None, false, false, [], 0), "")
  }

  ghost predicate RunOf(states: seq<Stream>, r: Reader, events: seq<Event>) {
    && |states| == |events| + 1 && states[0] == Fresh(states[0].session.silenceMs)
    && forall k :: 0 <= k < |events| ==>
       Enabled(states[k], events[k]) && states[k + 1] == Apply(states[k], r, events[k])
  }

  // The log of what was emitted

  predicate IsDone(signal: Signal) {
    signal == Finished(Done)
  }

  predicate IsFailed(signal: Signal) {
    signal == Finished(Failed)
  }

  predicate IsLimited(signal: Signal) {
    signal.Limited?
  }

  predicate IsWait(signal: Signal) {
    signal.WaitingFor? || signal.Stalled?
  }

  function Times(log: seq<Emission>, p: Signal -> bool): nat {
    if log == [] then 0 else Times(log[..|log| - 1], p) + if p(log[|log| - 1].signal) then 1 else 0
  }

  lemma OnceMore(log: seq<Emission>, x: Emission, p: Signal -> bool)
    ensures Times(log + [x], p) == Times(log, p) + if p(x.signal) then 1 else 0
  {
    assert (log + [x])[..|log|] == log;
  }

  ghost predicate Waits(log: seq<Emission>) {
    forall k :: 0 <= k < |log| && IsWait(log[k].signal) ==> log[k].pending == 0
  }

  /**
   * The timer runs only while the session does; a wait is told with no message unanswered; `done` is told once, when
   * the session is done; `failed` only by the exit; and a limit at most once before the first message and once after
   * each.
   */
  ghost predicate Good(s: Session) {
    && (s.armed ==> s.silenceMs > 0 && s.status.Running?)
    && (!s.started ==> s.status.Starting?)
    && Waits(s.emitted)
    && Times(s.emitted, IsDone) == (if s.status.Done? then 1 else 0)
    && Times(s.emitted, IsFailed) <= (if s.exited then 1 else 0)
    && Times(s.emitted, IsLimited) + (if s.limitParked then 0 else 1) <= s.sends + 1
  }

  predicate Plain(signal: Signal) {
    !signal.Finished? && !signal.Limited? && !IsWait(signal)
  }

  lemma EmitPlain(s: Session, signal: Signal)
    requires Good(s) && Plain(signal)
    ensures Good(Emit(s, signal))
  {
    hide Times;
    OnceMore(s.emitted, Emission(signal, s.pending), IsDone);
    OnceMore(s.emitted, Emission(signal, s.pending), IsFailed);
    OnceMore(s.emitted, Emission(signal, s.pending), IsLimited);
  }

  lemma SetStatusGood(s: Session, status: Status)
    requires Good(s) && s.started && !s.status.Done? && !status.Done?
    ensures Good(SetStatus(s, status))
  {
    hide Times;
    if s.status != status {
      EmitPlain(s.(status := status, armed := false), StatusIs(status));
    }
  }

  lemma FinishGood(s: Session, status: Status)
    requires Good(s) && s.started && (status.Done? || (status.Failed? && s.exited && Times(s.emitted, IsFailed) == 0))
    ensures Good(Finish(s, status))
  {
    hide Times;
    if !s.status.Done? && !s.status.Failed? {
      var x, y := Emission(StatusIs(status), s.pending), Emission(Finished(status), s.pending);
      OnceMore(s.emitted, x, IsDone);
      OnceMore(s.emitted, x, IsFailed);
      OnceMore(s.emitted, x, IsLimited);
      OnceMore(s.emitted + [x], y, IsDone);
      OnceMore(s.emitted + [x], y, IsFailed);
      OnceMore(s.emitted + [x], y, IsLimited);
    }
  }

  lemma WaitingGood(s: Session, signal: Signal)
    requires Good(s) && s.started && s.pending == 0 && IsWait(signal)
    ensures Good(SetWaiting(s, signal))
  {
    hide Times;
    if !s.status.Waiting? && !s.status.Done? {
      SetStatusGood(s, Waiting);
      var t := SetStatus(s, Waiting);
      OnceMore(t.emitted, Emission(signal, t.pending), IsDone);
      OnceMore(t.emitted, Emission(signal, t.pending), IsFailed);
      OnceMore(t.emitted, Emission(signal, t.pending), IsLimited);
    }
  }

  lemma ParkGood(s: Session, park: Park)
    requires Good(s) && s.started
    ensures Good(ParkOnLimit(s, park))
  {
    hide Times;
    if !s.limitParked && !s.status.Done? && !s.status.Killed? {
      SetStatusGood(s, Waiting);
      var t := SetStatus(s.(limitParked := true), Waiting);
      assert t == SetStatus(s, Waiting).(limitParked := true);
      OnceMore(t.emitted, Emission(Limited(park), t.pending), IsDone);
      OnceMore(t.emitted, Emission(Limited(park), t.pending), IsFailed);
      OnceMore(t.emitted, Emission(Limited(park), t.pending), IsLimited);
    }
  }

  lemma TurnGood(s: Session, turnText: string)
    requires Good(s) && s.started
    ensures Good(TurnEnd(s, turnText))
  {
    hide Good;
    hide SaysDone;
    hide WaitingReason;
    hide Finish;
    hide SetWaiting;
    hide ParkOnLimit;
    if SaysDone(turnText) {
      FinishGood(s, Done);
    } else if s.pending == 0 {
      if s.limit.Some? {
        ParkGood(s, s.limit.value);
      } else {
        var reason := WaitingReason(turnText);
        WaitingGood(s, if reason.Some? then WaitingFor(reason.value) else Stalled(turnText));
      }
    }
  }

  lemma {:induction false} SomeGood(s: Session, signals: seq<Signal>)
    requires Good(s) && forall k :: 0 <= k < |signals| ==> Plain(signals[k])
    ensures Good(EmitSome(s, signals))
    ensures var t := EmitSome(s, signals); t == s.(emitted := t.emitted)
  {
    hide Good;
    if signals != [] {
      var n := |signals| - 1;
      SomeGood(s, signals[..n]);
      EmitPlain(EmitSome(s, signals[..n]), signals[n]);
    }
  }

  lemma ReportedGood(s: Session, r: Reader, usage: Option<string>, result: Option<string>)
    requires Good(s)
    ensures Good(Reported(s, r, usage, result)) && Reported(s, r, usage, result).started == s.started
  {
    if usage.Some? {
      EmitPlain(s, Usage(usage.value));
    }
    var counted := if usage.Some? then Emit(s, Usage(usage.value)) else s;
    var error := r.apiError(if result.Some? then result.value else s.turnText);
    if error.Some? {
      EmitPlain(counted.(turnText := ""), ApiError(error.value));
    }
  }

  lemma AssistantGood(s: Session, text: string, flags: seq<string>, usesTools: bool, display: Option<string>)
    requires Good(s)
    ensures Good(OnAssistant(s, text, flags, usesTools, display))
        && OnAssistant(s, text, flags, usesTools, display).started == s.started
  {
    var turn := s.(turnText := s.turnText + text);
    assert Good(turn);
    hide Good;
    hide EmitSome;
    SomeGood(turn, Flags(flags));
    var flagged := EmitSome(turn, Flags(flags));
    EmitPlain(flagged, Activity);
    var active := if usesTools then Emit(flagged, Activity) else flagged;
    if display.Some? {
      EmitPlain(active, Output(display.value));
    }
  }

  lemma TurnStarted(s: Session, turnText: string)
    ensures TurnEnd(s, turnText).started == s.started
  {
    hide SaysDone;
    hide WaitingReason;
  }

  lemma ResultGood(s: Session, r: Reader, usage: Option<string>, result: Option<string>)
    requires Good(s) && s.started
    ensures Good(OnResult(s, r, usage, result)) && OnResult(s, r, usage, result).started
  {
    hide Times;
    hide Reported;
    hide TurnEnd;
    ReportedGood(s, r, usage, result);
    var told := Reported(s, r, usage, result);
    var left := told.(pending := if told.pending > 0 then told.pending - 1 else 0);
    assert Good(left);
    hide Good;
    TurnGood(left, s.turnText);
    TurnStarted(left, s.turnText);
  }

  lemma LimitGood(s: Session, reading: Option<string>, park: Option<Park>)
    requires Good(s)
    ensures Good((if reading.Some? then Emit(s, Limits(reading.value)) else s).(limit := park))
  {
    hide Times;
    if reading.Some? {
      EmitPlain(s, Limits(reading.value));
    }
  }

  lemma LineGood(s: Session, r: Reader, line: string)
    requires Good(s) && s.started
    ensures Good(HandleLine(s, r, line)) && HandleLine(s, r, line).started
  {
    hide Good;
    hide OnResult;
    hide OnAssistant;
    match r.parse(line)
    case Assistant(text, flags, usesTools, display) =>
      AssistantGood(s, text, flags, usesTools, display);
    case ToolResults(display) =>
      if display.Some? {
        EmitPlain(s, Output(display.value));
      }
    case RateLimit(reading, park) =>
      LimitGood(s, reading, park);
    case Result(usage, result) =>
      ResultGood(s, r, usage, result);
    case _ =>
  }

  lemma {:induction false} FeedGood(s: Session, r: Reader, text: string)
    requires Good(s) && s.started
    ensures Good(Feed(s, r, text).session)
    decreases |text|
  {
    hide Good;
    hide HandleLine;
    var n := Newline(text);
    if n < |text| {
      LineGood(s, r, text[..n]);
      FeedGood(HandleLine(s, r, text[..n]), r, text[n + 1..]);
    }
  }

  lemma SendGood(s: Session)
    requires Good(s) && s.started
    ensures Good(Send(s))
  {
    hide Times;
    var sent := s.(pending := s.pending + 1, limitParked := false, sends := s.sends + 1);
    assert Good(sent);
    if sent.status.Waiting? {
      SetStatusGood(sent, Running);
    }
  }

  lemma KillGood(s: Session)
    requires Good(s)
    ensures Good(Kill(s))
  {
    hide Times;
    if s.started && !s.status.Done? {
      SetStatusGood(s.(armed := false), Killed);
    }
  }

  lemma ExitGood(s: Session, code: int)
    requires Good(s) && s.started && !s.exited
    ensures Good(OnExit(s, code))
  {
    hide Times;
    EmitPlain(s.(exited := true), Exit(code));
    OnceMore(s.emitted, Emission(Exit(code), s.pending), IsFailed);
    var told := Emit(s.(exited := true), Exit(code));
    if s.limit.Some? {
      ParkGood(told, s.limit.value);
    }
    FinishGood(told, if code == 0 then Done else Failed);
  }

  lemma StepGood(t: Stream, r: Reader, e: Event)
    requires Good(t.session) && Enabled(t, e)
    ensures Good(Apply(t, r, e).session)
  {
    var s := t.session;
    match e
    case Start =>
      assert Good(s.(started := true));
      SetStatusGood(s.(started := true), Running);
    case SendMessage => SendGood(s);
    case KillNow => KillGood(s);
    case Chunk(text) =>
      assert Good(Arm(s));
      FeedGood(Arm(s), r, t.buffer + text);
    case ExitWith(code) => ExitGood(s, code);
    case TimerFires => EmitPlain(s.(armed := false), Silent(s.silenceMs));
  }

  lemma FreshGood(silenceMs: int)
    ensures Good(Fresh(silenceMs).session)
  {
  }

  /**
   * Every run, however the process, its output, the messages, the kills and the timer interleave, keeps the session
   * good.
   */
  lemma {:induction false} Reachable(states: seq<Stream>, r: Reader, events: seq<Event>, k: nat)
    requires RunOf(states, r, events) && k <= |events|
    ensures Good(states[k].session)
  {
    hide Apply;
    hide Enabled;
    hide Good;
    if k == 0 {
      FreshGood(states[0].session.silenceMs);
    } else {
      Reachable(states, r, events, k - 1);
      StepGood(states[k - 1], r, events[k - 1]);
    }
  }

  // What ends a session

  lemma TurnStaysDone(s: Session, turnText: string)
    requires s.status.Done?
    ensures TurnEnd(s, turnText).status.Done?
  {
    hide SaysDone;
    hide WaitingReason;
  }

  lemma {:induction false} SomeStay(s: Session, signals: seq<Signal>)
    ensures var t := EmitSome(s, signals); t == s.(emitted := t.emitted)
  {
    if signals != [] {
      SomeStay(s, signals[..|signals| - 1]);
    }
  }

  lemma LineStaysDone(s: Session, r: Reader, line: string)
    requires s.status.Done?
    ensures HandleLine(s, r, line).status.Done?
  {
    hide TurnEnd;
    hide EmitSome;
    hide Reported;
    match r.parse(line)
    case Assistant(text, flags, _, _) => SomeStay(s.(turnText := s.turnText + text), Flags(flags));
    case Result(usage, result) =>
      var told := Reported(s, r, usage, result);
      ReportedOnly(s, r, usage, result);
      TurnStaysDone(told.(pending := if told.pending > 0 then told.pending - 1 else 0), s.turnText);
    case _ =>
  }

  lemma {:induction false} FeedStaysDone(s: Session, r: Reader, text: string)
    requires s.status.Done?
    ensures Feed(s, r, text).session.status.Done?
    decreases |text|
  {
    hide HandleLine;
    var n := Newline(text);
    if n < |text| {
      LineStaysDone(s, r, text[..n]);
      FeedStaysDone(HandleLine(s, r, text[..n]), r, text[n + 1..]);
    }
  }

  lemma StepStaysDone(t: Stream, r: Reader, e: Event)
    requires t.session.status.Done? && t.session.started && Enabled(t, e)
    ensures Apply(t, r, e).session.status.Done?
  {
    if e.Chunk? {
      FeedStaysDone(Arm(t.session), r, t.buffer + e.text);
    }
  }

  /** A session that is done stays done, and has said so once. */
  lemma {:induction false} DoneForGood(states: seq<Stream>, r: Reader, events: seq<Event>, i: nat, k: nat)
    requires RunOf(states, r, events) && i <= k <= |events| && states[i].session.status.Done?
    ensures states[k].session.status.Done? && Times(states[k].session.emitted, IsDone) == 1
  {
    hide Apply;
    hide Enabled;
    hide Times;
    if i < k {
      DoneForGood(states, r, events, i, k - 1);
      Reachable(states, r, events, k - 1);
      StepStaysDone(states[k - 1], r, events[k - 1]);
    }
    Reachable(states, r, events, k);
  }

  /** The messages left unanswered once a result has come. */
  function Left(s: Session): nat {
    if s.pending > 0 then s.pending - 1 else 0
  }

  lemma OnlyResults(s: Session, r: Reader, line: string)
    requires Trimmed(line) == "" || !r.parse(line).Result?
    ensures HandleLine(s, r, line).status == s.status
  {
    hide EmitSome;
    match r.parse(line)
    case Assistant(text, flags, _, _) => SomeStay(s.(turnText := s.turnText + text), Flags(flags));
    case _ =>
  }

  lemma ReportKeeps(s: Session, r: Reader, usage: Option<string>, result: Option<string>)
    ensures var told := Reported(s, r, usage, result);
            told.status == s.status && told.pending == s.pending && told.limit == s.limit
              && told.limitParked == s.limitParked
  {
  }

  /** The status a line leaves is its turn's, where it ends one. */
  lemma LineStatus(s: Session, r: Reader, line: string) returns (left: Session)
    ensures left.status == s.status && left.pending == Left(s) && left.limit == s.limit
        && left.limitParked == s.limitParked
    ensures HandleLine(s, r, line).status ==
              if Trimmed(line) != "" && r.parse(line).Result? then TurnEnd(left, s.turnText).status else s.status
  {
    hide TurnEnd;
    hide Reported;
    hide OnAssistant;
    left := s.(pending := Left(s));
    if Trimmed(line) == "" || !r.parse(line).Result? {
      OnlyResults(s, r, line);
    } else {
      var said := r.parse(line);
      ReportKeeps(s, r, said.usage, said.result);
      var told := Reported(s, r, said.usage, said.result);
      left := told.(pending := if told.pending > 0 then told.pending - 1 else 0);
    }
  }

  lemma TurnStatus(s: Session, turnText: string)
    ensures s.status.Failed? ==>
              (TurnEnd(s, turnText).status == if !SaysDone(turnText) && s.pending == 0
                && (s.limit.Some? ==> !s.limitParked) then Waiting else Failed)
    ensures s.status.Killed? ==>
              (TurnEnd(s, turnText).status == if SaysDone(turnText) then Done
                else if s.pending == 0 && s.limit.None? then Waiting else Killed)
  {
    hide SaysDone;
    hide WaitingReason;
  }

  /**
   * A session that failed is not closed to its output: the end of a last turn that does not say `done` sets it
   * waiting.
   */
  lemma FailedRevives(s: Session, r: Reader, line: string)
    requires s.status.Failed?
    ensures HandleLine(s, r, line).status != Failed <==>
              && Trimmed(line) != "" && r.parse(line).Result?
              && !SaysDone(s.turnText) && Left(s) == 0 && (s.limit.Some? ==> !s.limitParked)
    ensures HandleLine(s, r, line).status in {Failed, Waiting}
  {
    hide HandleLine;
    hide TurnEnd;
    var left := LineStatus(s, r, line);
    TurnStatus(left, s.turnText);
  }

  /**
   * Nor is one that was killed: a turn that says `done` finishes it, and one that does not sets it waiting, short of
   * a limit.
   */
  lemma KilledRevives(s: Session, r: Reader, line: string)
    requires s.status.Killed?
    ensures HandleLine(s, r, line).status != Killed <==>
              && Trimmed(line) != "" && r.parse(line).Result?
              && (SaysDone(s.turnText) || (Left(s) == 0 && s.limit.None?))
    ensures HandleLine(s, r, line).status in {Killed, Done, Waiting}
  {
    hide HandleLine;
    hide TurnEnd;
    var left := LineStatus(s, r, line);
    TurnStatus(left, s.turnText);
  }

  lemma NothingSaid()
    ensures !SaysDone("")
  {
  }

  lemma ReportedLimit(s: Session, r: Reader, reading: Option<string>, park: Option<Park>, line: string)
    requires Trimmed(line) != "" && r.parse(line) == RateLimit(reading, park)
    ensures var t := HandleLine(s, r, line);
            t.status == s.status && t.pending == s.pending && t.limit == park && t.limitParked == s.limitParked
              && t.turnText == s.turnText
  {
  }

  /** The turn a result ends, its usage and errors told. */
  lemma ResultTurn(s: Session, r: Reader, line: string) returns (left: Session)
    requires Trimmed(line) != "" && r.parse(line).Result?
    ensures left.status == s.status && left.pending == Left(s) && left.limit == s.limit
        && left.limitParked == s.limitParked && left.turnText == ""
    ensures HandleLine(s, r, line) == TurnEnd(left, s.turnText)
  {
    hide TurnEnd;
    hide Reported;
    var said := r.parse(line);
    var told := Reported(s, r, said.usage, said.result);
    ReportedOnly(s, r, said.usage, said.result);
    left := told.(pending := if told.pending > 0 then told.pending - 1 else 0);
  }

  /**
   * So a session that was killed, but goes on to print two results and a spent limit between them, declares the
   * limit.
   */
  lemma KilledDeclares(s: Session, r: Reader, one: string, two: string, three: string, reading: Option<string>,
      park: Park)
    requires s.status.Killed? && s.limit.None? && !s.limitParked && Left(s) == 0 && !SaysDone(s.turnText)
    requires Trimmed(one) != "" && Trimmed(two) != "" && Trimmed(three) != ""
    requires r.parse(one).Result? && r.parse(two) == RateLimit(reading, Some(park)) && r.parse(three).Result?
    ensures var log := HandleLine(HandleLine(HandleLine(s, r, one), r, two), r, three).emitted;
            log != [] && log[|log| - 1].signal == Limited(park)
  {
    hide HandleLine;
    hide SaysDone;
    hide WaitingReason;
    var left := ResultTurn(s, r, one);
    var a := HandleLine(s, r, one);
    ReportedLimit(a, r, reading, Some(park), two);
    var b := HandleLine(a, r, two);
    NothingSaid();
    var last := ResultTurn(b, r, three);
  }
}
