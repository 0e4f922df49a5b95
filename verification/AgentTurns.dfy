// What a session comes to at the end of a turn, of its process, and at a message or a kill.
module AgentTurns {
  import opened Options
  import opened Space
  import opened AgentStream

  // The markers

  predicate At(text: string, word: string, k: int) {
    0 <= k <= |text| && word <= text[k..]
  }

  lemma {:induction false} IndexSays(text: string, word: string, from: nat)
    requires from <= |text|
    ensures var at := IndexOf(text, word, from);
            && (at.Some? ==> At(text, word, at.value) && forall k :: from <= k < at.value ==> !At(text, word, k))
            && (at.None? ==> forall k :: from <= k ==> !At(text, word, k))
    decreases |text| - from
  {
    if !(word <= text[from..]) && from < |text| {
      IndexSays(text, word, from + 1);
    }
  }

  /** A turn says done exactly when the sentinel is anywhere in its text. */
  lemma DoneSays(text: string)
    ensures SaysDone(text) <==> exists k :: At(text, "@@LUBBDUBB_DONE@@", k)
  {
    IndexSays(text, DONE_SENTINEL, 0);
    hide IndexOf;
  }

  /** The first place of a word from a place on. */
  ghost predicate FirstAt(text: string, word: string, from: int, k: int) {
    from <= k && At(text, word, k) && forall m :: from <= m < k ==> !At(text, word, m)
  }

  /** What is waited for stands from `i`, the first waiting mark, to `j`, the next `@@` after it. */
  ghost predicate Marked(text: string, i: int, j: int) {
    FirstAt(text, "@@LUBBDUBB_WAITING:", 0, i) && FirstAt(text, "@@", i + 19, j)
  }

  /** A turn waits for what is between the marks; without both, for nothing. */
  lemma WaitSays(text: string)
    ensures WaitingReason(text).Some? <==> exists i, j :: Marked(text, i, j)
    ensures forall i, j :: Marked(text, i, j) ==> WaitingReason(text) == Some(Trimmed(text[i + 19..j]))
  {
    hide Trimmed;
    IndexSays(text, WAIT_PREFIX, 0);
    var at := IndexOf(text, WAIT_PREFIX, 0);
    if at.Some? {
      var from := at.value + 19;
      IndexSays(text, WAIT_SUFFIX, from);
      var end := IndexOf(text, WAIT_SUFFIX, from);
      hide IndexOf;
      FirstOnly(text, "@@LUBBDUBB_WAITING:", 0);
      FirstOnly(text, "@@", from);
      assert FirstAt(text, "@@LUBBDUBB_WAITING:", 0, at.value);
      if end.Some? {
        assert Marked(text, at.value, end.value);
      }
    }
  }

  lemma FirstOnly(text: string, word: string, from: int)
    ensures forall i, j :: FirstAt(text, word, from, i) && FirstAt(text, word, from, j) ==> i == j
  {
  }

  // A turn's end

  /** A turn that says done finishes a session that has not finished. */
  lemma DoneTurn(s: Session, turnText: string)
    requires SaysDone(turnText)
    ensures var t := TurnEnd(s, turnText);
            if s.status.Done? || s.status.Failed? then t == s
            else
              && t.status == Done && s.emitted < t.emitted && LastOf(t) == Finished(Done)
              && t.pending == s.pending && t.limit == s.limit && t.limitParked == s.limitParked
  {
    hide SaysDone;
  }

  /**
   * One that does not leaves a session on its way while messages are unanswered, and parks it on a spent limit,
   * once.
   */
  lemma LimitTurn(s: Session, turnText: string)
    requires !SaysDone(turnText) && (s.pending > 0 || s.limit.Some?)
    ensures var t := TurnEnd(s, turnText);
            if s.pending > 0 || s.limitParked || s.status.Done? || s.status.Killed? then t == s
            else
              && t.status == Waiting && t.limitParked && s.emitted < t.emitted && LastOf(t) == Limited(s.limit.value)
              && t.pending == s.pending && t.limit == s.limit
  {
    hide SaysDone;
  }

  /** And otherwise it waits, for what it says or as it stalled, unless it waits already or is done. */
  lemma WaitTurn(s: Session, turnText: string)
    requires !SaysDone(turnText) && s.pending == 0 && s.limit.None?
    ensures var t, reason := TurnEnd(s, turnText), WaitingReason(turnText);
            if s.status.Waiting? || s.status.Done? then t == s
            else
              && t.status == Waiting && s.emitted < t.emitted && t.limitParked == s.limitParked
              && LastOf(t) == if reason.Some? then WaitingFor(reason.value) else Stalled(turnText)
  {
    hide SaysDone;
    hide WaitingReason;
  }

  function LastOf(s: Session): Signal {
    if s.emitted == [] then Activity else s.emitted[|s.emitted| - 1].signal
  }

  // A process's end

  /**
   * The end of the process is told first. A session neither killed nor done then parks on a spent limit, once, or
   * else finishes: done on exit code 0 and failed on any other, where it has not failed before.
   */
  lemma ExitSays(s: Session, code: int)
    ensures var t, was := OnExit(s, code), s.status;
            var told := s.emitted + [Emission(Exit(code), s.pending)];
            && t.exited && told <= t.emitted && t.pending == s.pending && t.turnText == s.turnText
            && if was.Killed? || was.Done? || (s.limit.Some? && s.limitParked) || (s.limit.None? && was.Failed?) then
                 t.status == was && t.emitted == told && t.limitParked == s.limitParked
               else if s.limit.Some? then
                 t.status == Waiting && t.limitParked && |t.emitted| > |told| && LastOf(t) == Limited(s.limit.value)
               else
                 && t.status == (if code == 0 then Done else Failed) && t.limitParked == s.limitParked
                 && |t.emitted| > |told| && LastOf(t) == Finished(t.status)
  {
  }

  // Messages, output and kills

  /** A message is one more to answer; it lifts the mark of a limit, and has a waiting session run again. */
  lemma SendSays(s: Session)
    ensures var t := Send(s);
            && t.pending == s.pending + 1 && t.sends == s.sends + 1 && !t.limitParked && t.limit == s.limit
            && t.status == (if s.status.Waiting? then Running else s.status)
            && t.armed == (s.silenceMs > 0 && t.status.Running?)
            && t.emitted == s.emitted + if s.status.Waiting? then [Emission(StatusIs(Running), s.pending + 1)] else []
  {
  }

  /** A kill stops the timer, and a session that runs or waits. */
  lemma KillSays(s: Session)
    ensures var t := Kill(s);
            var stops := s.started && s.status !in {Done, Failed, Killed};
            && !t.armed && t.status == (if stops then Killed else s.status)
            && t.emitted == s.emitted + if stops then [Emission(StatusIs(Killed), s.pending)] else []
  {
  }

  /** The text of a turn is kept to its end; tools used and text shown are told, after the flags in it. */
  lemma AssistantSays(s: Session, r: Reader, line: string, text: string, flags: seq<string>, tools: bool,
                      display: Option<string>)
    requires Trimmed(line) != "" && r.parse(line) == Assistant(text, flags, tools, display)
    ensures var t := HandleLine(s, r, line);
            && t.turnText == s.turnText + text && t.status == s.status && t.pending == s.pending
            && |t.emitted| == |s.emitted| + |flags| + (if tools then 1 else 0) + (if display.Some? then 1 else 0)
            && (forall k :: 0 <= k < |flags| ==> t.emitted[|s.emitted| + k].signal == Flag(flags[k]))
            && (tools ==> t.emitted[|s.emitted| + |flags|].signal == Activity)
            && (display.Some? ==> LastOf(t) == Output(display.value))
  {
    hide Trimmed;
    SomeSays(s.(turnText := s.turnText + text), Flags(flags));
    hide EmitSome;
  }

  lemma {:induction false} SomeSays(s: Session, signals: seq<Signal>)
    ensures var t := EmitSome(s, signals);
            && t == s.(emitted := t.emitted) && |t.emitted| == |s.emitted| + |signals| && s.emitted <= t.emitted
            && forall k :: 0 <= k < |signals| ==> t.emitted[|s.emitted| + k].signal == signals[k]
  {
    if signals != [] {
      SomeSays(s, signals[..|signals| - 1]);
    }
  }
}
