// An agent's session over a stream of JSON lines (`src/agents/streamJsonSession.ts`).
module AgentStream {
  import opened Options
  import opened Space
  import opened Text

  datatype Status = Starting | Running | Waiting | Done | Failed | Killed

  datatype Park = Park(limitType: Option<string>, resetsAt: Option<int>, overage: bool)

  /** What one line of output says. Reading it out of the JSON is left to `Reader`. */
  datatype Said =
    | Unreadable
    | Assistant(text: string, flags: seq<string>, usesTools: bool, display: Option<string>)
    | ToolResults(display: Option<string>)
    | RateLimit(reading: Option<string>, park: Option<Park>)
    | Result(usage: Option<string>, result: Option<string>)
    | Other

  datatype Reader = Reader(parse: string -> Said, apiError: string -> Option<string>)

  datatype Signal =
    | StatusIs(status: Status)
    | Output(text: string) | Flag(flag: string) | Activity | Limits(reading: string) | Usage(usage: string)
      | ApiError(message: string)
    | Finished(status: Status)
    | WaitingFor(reason: string)
    | Stalled(text: string)
    | Limited(park: Park)
    | Exit(code: int)
    | Silent(ms: int)

  /** A signal with how many messages were unanswered when it was given. */
  datatype Emission = Emission(signal: Signal, pending: nat)

  datatype Session = Session(silenceMs: int, started: bool, exited: bool, status: Status, turnText: string,
      pending: nat,
                             limit: Option<Park>, limitParked: bool, armed: bool, emitted: seq<Emission>, sends: nat)

  // The markers an agent ends a turn with

  const DONE_SENTINEL := "@@LUBBDUBB_DONE@@"
  const WAIT_PREFIX := "@@LUBBDUBB_WAITING:"
  const WAIT_SUFFIX := "@@"

  function IndexOf(text: string, word: string, from: nat): (at: Option<nat>)
    requires from <= |text|
    ensures at.Some? ==> from <= at.value <= |text| && word <= text[at.value..]
    decreases |text| - from
  {
    if word <= text[from..] then Some(from) else if from == |text| then None else IndexOf(text, word, from + 1)
  }

  predicate SaysDone(text: string) {
    IndexOf(text, DONE_SENTINEL, 0).Some?
  }

  function WaitingReason(text: string): Option<string> {
    var start :- IndexOf(text, WAIT_PREFIX, 0);
    var from := start + |WAIT_PREFIX|;
    var end :- IndexOf(text, WAIT_SUFFIX, from);
    Some(Trimmed(text[from..end]))
  }

  // Steps

  function Emit(s: Session, signal: Signal): Session {
    s.(emitted := s.emitted + [Emission(signal, s.pending)])
  }

  function Arm(s: Session): Session {
    s.(armed := s.silenceMs > 0 && s.status.Running?)
  }

  function SetStatus(s: Session, status: Status): Session {
    if s.status == status then s else Arm(Emit(s.(status := status), StatusIs(status)))
  }

  function Finish(s: Session, status: Status): Session {
    if s.status.Done? || s.status.Failed? then s else Emit(SetStatus(s, status), Finished(status))
  }

  function SetWaiting(s: Session, signal: Signal): Session {
    if s.status.Waiting? || s.status.Done? then s else Emit(SetStatus(s, Waiting), signal)
  }

  function ParkOnLimit(s: Session, park: Park): Session {
    if s.limitParked || s.status.Done? || s.status.Killed? then s
    else Emit(SetStatus(s.(limitParked := true), Waiting), Limited(park))
  }

  function EmitSome(s: Session, signals: seq<Signal>): Session {
    if signals == [] then s else Emit(EmitSome(s, signals[..|signals| - 1]), signals[|signals| - 1])
  }

  function Flags(flags: seq<string>): (r: seq<Signal>)
    ensures |r| == |flags| && forall k :: 0 <= k < |r| ==> r[k] == Flag(flags[k])
  {
    if flags == [] then [] else [Flag(flags[0])] + Flags(flags[1..])
  }

  /** What a turn's text and the words of its result come to once the turn is over. */
  function TurnEnd(s: Session, turnText: string): Session {
    if SaysDone(turnText) then Finish(s, Done)
    else if s.pending > 0 then s
    else if s.limit.Some? then ParkOnLimit(s, s.limit.value)
    else
      var reason := WaitingReason(turnText);
      SetWaiting(s, if reason.Some? then WaitingFor(reason.value) else Stalled(turnText))
  }

  /** What a result reports before the turn is counted answered. */
  function Reported(s: Session, r: Reader, usage: Option<string>, result: Option<string>): Session {
    var counted := if usage.Some? then Emit(s, Usage(usage.value)) else s;
    var error := r.apiError(if result.Some? then result.value else s.turnText);
    var told := counted.(turnText := "");
    if error.Some? then Emit(told, ApiError(error.value)) else told
  }

  function OnResult(s: Session, r: Reader, usage: Option<string>, result: Option<string>): Session {
    var told := Reported(s, r, usage, result);
    TurnEnd(told.(pending := if told.pending > 0 then told.pending - 1 else 0), s.turnText)
  }

  function OnAssistant(s: Session, text: string, flags: seq<string>, usesTools: bool,
      display: Option<string>): Session {
    var flagged := EmitSome(s.(turnText := s.turnText + text), Flags(flags));
    var active := if usesTools then Emit(flagged, Activity) else flagged;
    if display.Some? then Emit(active, Output(display.value)) else active
  }

  function Handle(s: Session, r: Reader, said: Said): Session {
    match said
    case Unreadable => s
    case Assistant(text, flags, usesTools, display) => OnAssistant(s, text, flags, usesTools, display)
    case ToolResults(display) => if display.Some? then Emit(s, Output(display.value)) else s
    case RateLimit(reading, park) => (if reading.Some? then Emit(s, Limits(reading.value)) else s).(limit := park)
    case Result(usage, result) => OnResult(s, r, usage, result)
    case Other => s
  }

  function HandleLine(s: Session, r: Reader, line: string): Session {
    if Trimmed(line) == "" then s else Handle(s, r, r.parse(line))
  }

  function OnExit(s: Session, code: int): Session {
    var told := Emit(s.(exited := true), Exit(code));
    if s.status.Killed? || s.status.Done? then told
    else if s.limit.Some? then ParkOnLimit(told, s.limit.value)
    else Finish(told, if code == 0 then Done else Failed)
  }

  function Send(s: Session): Session {
    var sent := s.(pending := s.pending + 1, limitParked := false, sends := s.sends + 1);
    Arm(if sent.status.Waiting? then SetStatus(sent, Running) else sent)
  }

  function Kill(s: Session): Session {
    var quiet := s.(armed := false);
    if s.started && (s.status.Starting? || s.status.Running? || s.status.Waiting?) then SetStatus(quiet, Killed)
        else quiet
  }

  // Framing

  function Newline(text: string): (n: nat)
    ensures n <= |text| && OneLine(text[..(n)])
    ensures n < |text| ==> text[n] == '\n'
  {
    if text == "" || text[0] == '\n' then 0
    else
      var n := Newline(text[1..]);
      assert text[..n + 1] == [text[0]] + text[1..][..n];
      n + 1
  }

  /** The session with the lines read so far handled, and the start of the next. */
  datatype Stream = Stream(session: Session, buffer: string)

  function Feed(s: Session, r: Reader, text: string): Stream
    decreases |text|
  {
    var n := Newline(text);
    if n == |text| then Stream(s, text) else Feed(HandleLine(s, r, text[..n]), r, text[n + 1..])
  }

  function OnStdout(t: Stream, r: Reader, chunk: string): Stream {
    Feed(Arm(t.session), r, t.buffer + chunk)
  }

  function HandleAll(s: Session, r: Reader, lines: seq<string>): Session
    decreases |lines|
  {
    if lines == [] then s else HandleAll(HandleLine(s, r, lines[0]), r, lines[1..])
  }

  /** However it came, the text is handled line by line: every line that has ended, and none that has not. */
  lemma {:induction false} FeedLines(s: Session, r: Reader, text: string)
    ensures var lines := Split(text);
            Feed(s, r, text) == Stream(HandleAll(s, r, lines[..|lines| - 1]), lines[|lines| - 1])
    decreases |text|
  {
    hide HandleLine;
    var n := Newline(text);
    if n == |text| {
      assert text[..n] == text;
      SplitOneLine(text);
    } else {
      var rest := text[n + 1..];
      assert text == text[..n] + "\n" + rest;
      SplitPrefix(text[..n], rest);
      FeedLines(HandleLine(s, r, text[..n]), r, rest);
      assert ([text[..n]] + Split(rest))[1..] == Split(rest);
      var lines := Split(text);
      assert lines[..|lines| - 1][1..] == Split(rest)[..|lines| - 2];
    }
  }

  lemma NewlineBefore(a: string, b: string)
    ensures Newline(a) < |a| ==> Newline(a + b) == Newline(a)
  {
    if Newline(a) < |a| {
      if a[0] != '\n' {
        assert (a + b)[1..] == a[1..] + b;
        NewlineBefore(a[1..], b);
      }
    }
  }

  lemma {:induction false} FeedTwice(s: Session, r: Reader, a: string, b: string)
    ensures var t := Feed(s, r, a); Feed(s, r, a + b) == Feed(t.session, r, t.buffer + b)
    decreases |a|
  {
    hide HandleLine;
    var n := Newline(a);
    if n < |a| {
      NewlineBefore(a, b);
      hide Newline;
      assert (a + b)[..n] == a[..n];
      assert (a + b)[n + 1..] == a[n + 1..] + b;
      FeedTwice(HandleLine(s, r, a[..n]), r, a[n + 1..], b);
    }
  }

  /** The timer is as the last status or output left it. */
  predicate Settled(s: Session) {
    s.armed == (s.silenceMs > 0 && s.status.Running?)
  }

  lemma {:induction false} SomeSettled(s: Session, signals: seq<Signal>)
    requires Settled(s)
    ensures Settled(EmitSome(s, signals))
  {
    if signals != [] {
      SomeSettled(s, signals[..|signals| - 1]);
    }
  }

  lemma TurnSettled(s: Session, turnText: string)
    requires Settled(s)
    ensures Settled(TurnEnd(s, turnText))
  {
    hide SaysDone;
    hide WaitingReason;
  }

  lemma ReportedOnly(s: Session, r: Reader, usage: Option<string>, result: Option<string>)
    ensures var told := Reported(s, r, usage, result); told == s.(emitted := told.emitted, turnText := "")
  {
  }

  lemma LineSettled(s: Session, r: Reader, line: string)
    requires Settled(s)
    ensures Settled(HandleLine(s, r, line))
  {
    hide TurnEnd;
    hide EmitSome;
    hide Reported;
    var said := r.parse(line);
    match said
    case Assistant(text, flags, _, _) => SomeSettled(s.(turnText := s.turnText + text), Flags(flags));
    case Result(usage, result) =>
      var told := Reported(s, r, usage, result);
      ReportedOnly(s, r, usage, result);
      TurnSettled(told.(pending := if told.pending > 0 then told.pending - 1 else 0), s.turnText);
    case _ =>
  }

  lemma {:induction false} FeedSettled(s: Session, r: Reader, text: string)
    requires Settled(s)
    ensures Settled(Feed(s, r, text).session)
    decreases |text|
  {
    hide HandleLine;
    var n := Newline(text);
    if n < |text| {
      LineSettled(s, r, text[..n]);
      hide Settled;
      FeedSettled(HandleLine(s, r, text[..n]), r, text[n + 1..]);
    }
  }

  lemma TwoChunks(t: Stream, r: Reader, a: string, b: string)
    ensures OnStdout(OnStdout(t, r, a), r, b) == OnStdout(t, r, a + b)
  {
    hide Feed;
    var s := Arm(t.session);
    FeedTwice(s, r, t.buffer + a, b);
    FeedSettled(s, r, t.buffer + a);
    assert t.buffer + a + b == t.buffer + (a + b);
    var u := Feed(s, r, t.buffer + a);
    assert Arm(u.session) == u.session;
  }

  function Concat(chunks: seq<string>): string {
    if chunks == [] then "" else chunks[0] + Concat(chunks[1..])
  }

  function OnAll(t: Stream, r: Reader, chunks: seq<string>): Stream
    decreases |chunks|
  {
    if chunks == [] then t else OnAll(OnStdout(t, r, chunks[0]), r, chunks[1..])
  }

  /** The events handled do not depend on how the text was cut into chunks. */
  lemma {:induction false} Chunking(t: Stream, r: Reader, chunks: seq<string>)
    requires chunks != []
    ensures OnAll(t, r, chunks) == OnStdout(t, r, Concat(chunks))
    decreases |chunks|
  {
    hide OnStdout;
    if |chunks| == 1 {
      assert Concat(chunks) == chunks[0];
    } else {
      Chunking(OnStdout(t, r, chunks[0]), r, chunks[1..]);
      TwoChunks(t, r, chunks[0], Concat(chunks[1..]));
    }
  }
}
