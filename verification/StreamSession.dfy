// The session's own fields and methods (`src/agents/streamJsonSession.ts`), each doing what its step says.
module StreamSession {
  import opened Options
  import opened Space
  import opened AgentStream
  import opened AgentSession

  class StreamJsonSession {
    const silenceMs: int
    const reader: Reader
    var child: bool
    var status: Status
    var stdoutBuf: string
    var turnText: string
    var pendingTurns: nat
    var limit: Option<Park>
    var limitParked: bool
    var silenceTimer: bool
    ghost var exited: bool
    ghost var sends: nat
    ghost var emitted: seq<Emission>

    ghost function Self(): Session
      reads this
    {
      Session(silenceMs, child, exited, status, turnText, pendingTurns, limit, limitParked, silenceTimer, emitted,
        sends)
    }

    ghost function Model(): Stream
      reads this
    {
      Stream(Self(), stdoutBuf)
    }

    constructor (silenceMs: int, reader: Reader)
      ensures Model() == Fresh(silenceMs) && this.reader == reader
    {
      this.silenceMs, this.reader := silenceMs, reader;
      child, status, stdoutBuf, turnText, pendingTurns := false, Starting, "", "", 0;
      limit, limitParked, silenceTimer := None, false, false;
      exited, sends, emitted := false, 0, [];
    }

    ghost method Tell(signal: Signal)
      modifies this`emitted
      ensures Self() == Emit(old(Self()), signal)
    {
      emitted := emitted + [Emission(signal, pendingTurns)];
    }

    method ArmSilence()
      modifies this`silenceTimer
      ensures Self() == Arm(old(Self()))
    {
      silenceTimer := false;
      if silenceMs <= 0 || status != Running {
        return;
      }
      silenceTimer := true;
    }

    method SetStatusTo(next: Status)
      modifies this`status, this`emitted, this`silenceTimer
      ensures Self() == SetStatus(old(Self()), next)
    {
      if status == next {
        return;
      }
      status := next;
      Tell(StatusIs(next));
      ArmSilence();
    }

    method StartChild()
      requires Enabled(Model(), Start)
      modifies this
      ensures Model() == Apply(old(Model()), reader, Start)
    {
      child := true;
      SetStatusTo(Running);
    }

    method SendText()
      requires Enabled(Model(), SendMessage)
      modifies this
      ensures Model() == Apply(old(Model()), reader, SendMessage)
    {
      pendingTurns := pendingTurns + 1;
      sends := sends + 1;
      limitParked := false;
      if status == Waiting {
        SetStatusTo(Running);
      }
      ArmSilence();
    }

    method KillChild()
      modifies this
      ensures Model() == Apply(old(Model()), reader, KillNow)
    {
      silenceTimer := false;
      if child && (status == Starting || status == Running || status == Waiting) {
        SetStatusTo(Killed);
      }
    }

    method FinishAs(next: Status)
      modifies this`status, this`emitted, this`silenceTimer
      ensures Self() == Finish(old(Self()), next)
    {
      if status == Done || status == Failed {
        return;
      }
      SetStatusTo(next);
      Tell(Finished(next));
    }

    method WaitOn(signal: Signal)
      modifies this`status, this`emitted, this`silenceTimer
      ensures Self() == SetWaiting(old(Self()), signal)
    {
      if status == Waiting || status == Done {
        return;
      }
      SetStatusTo(Waiting);
      Tell(signal);
    }

    method ParkOnItsLimit()
      requires limit.Some?
      modifies this`status, this`emitted, this`silenceTimer, this`limitParked
      ensures Self() == ParkOnLimit(old(Self()), limit.value)
    {
      if limitParked || status == Done || status == Killed {
        return;
      }
      limitParked := true;
      SetStatusTo(Waiting);
      Tell(Limited(limit.value));
    }

    method EndTurn(text: string)
      modifies this`status, this`emitted, this`silenceTimer, this`limitParked
      ensures Self() == TurnEnd(old(Self()), text)
    {
      hide SaysDone;
      hide WaitingReason;
      hide Finish;
      hide SetWaiting;
      hide ParkOnLimit;
      if SaysDone(text) {
        FinishAs(Done);
        return;
      }
      if pendingTurns > 0 {
        return;
      }
      if limit.Some? {
        ParkOnItsLimit();
      } else {
        var reason := WaitingReason(text);
        WaitOn(if reason.Some? then WaitingFor(reason.value) else Stalled(text));
      }
    }

    method OnResultEvent(usage: Option<string>, result: Option<string>)
      modifies this`status, this`emitted, this`silenceTimer, this`limitParked, this`turnText, this`pendingTurns
      ensures Self() == OnResult(old(Self()), reader, usage, result)
    {
      hide TurnEnd;
      if usage.Some? {
        Tell(Usage(usage.value));
      }
      var text := turnText;
      turnText := "";
      var apiError := reader.apiError(if result.Some? then result.value else text);
      if apiError.Some? {
        Tell(ApiError(apiError.value));
      }
      assert Self() == Reported(old(Self()), reader, usage, result);
      hide Reported;
      if pendingTurns > 0 {
        pendingTurns := pendingTurns - 1;
      }
      EndTurn(text);
    }

    method OnAssistantEvent(text: string, flags: seq<string>, usesTools: bool, display: Option<string>)
      modifies this`emitted, this`turnText
      ensures Self() == OnAssistant(old(Self()), text, flags, usesTools, display)
    {
      turnText := turnText + text;
      ghost var turn := Self();
      for i := 0 to |flags|
        invariant Self() == EmitSome(turn, Flags(flags)[..i])
      {
        assert Flags(flags)[..i + 1][..i] == Flags(flags)[..i];
        Tell(Flag(flags[i]));
      }
      assert Flags(flags)[..|flags|] == Flags(flags);
      hide EmitSome;
      if usesTools {
        Tell(Activity);
      }
      if display.Some? {
        Tell(Output(display.value));
      }
    }

    method HandleEvent(line: string)
      modifies this`status, this`emitted, this`silenceTimer, this`limitParked, this`turnText, this`pendingTurns,
        this`limit
      ensures Self() == Handle(old(Self()), reader, reader.parse(line))
    {
      hide OnResult;
      hide OnAssistant;
      match reader.parse(line)
      case Unreadable =>
      case Assistant(text, flags, usesTools, display) =>
        OnAssistantEvent(text, flags, usesTools, display);
      case ToolResults(display) =>
        if display.Some? {
          Tell(Output(display.value));
        }
      case RateLimit(reading, park) =>
        if reading.Some? {
          Tell(Limits(reading.value));
        }
        limit := park;
      case Result(usage, result) =>
        OnResultEvent(usage, result);
      case Other =>
    }

    method OnStdoutChunk(chunk: string)
      requires Enabled(Model(), Chunk(chunk))
      modifies this
      ensures Model() == Apply(old(Model()), reader, Chunk(chunk))
    {
      hide Handle;
      ArmSilence();
      stdoutBuf := stdoutBuf + chunk;
      ghost var whole := Feed(Self(), reader, stdoutBuf);
      var nl := Newline(stdoutBuf);
      while nl < |stdoutBuf|
        invariant nl == Newline(stdoutBuf) && Feed(Self(), reader, stdoutBuf) == whole
        decreases |stdoutBuf|
      {
        var line := stdoutBuf[..nl];
        stdoutBuf := stdoutBuf[nl + 1..];
        if Trimmed(line) != "" {
          HandleEvent(line);
        }
        nl := Newline(stdoutBuf);
      }
    }

    method OnExitCode(code: int)
      requires Enabled(Model(), ExitWith(code))
      modifies this
      ensures Model() == Apply(old(Model()), reader, ExitWith(code))
    {
      exited := true;
      Tell(Exit(code));
      if status == Killed || status == Done {
        return;
      }
      if limit.Some? {
        ParkOnItsLimit();
        return;
      }
      FinishAs(if code == 0 then Done else Failed);
    }

    method OnSilence()
      requires Enabled(Model(), TimerFires)
      modifies this
      ensures Model() == Apply(old(Model()), reader, TimerFires)
    {
      silenceTimer := false;
      Tell(Silent(silenceMs));
    }
  }
}
