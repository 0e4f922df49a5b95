// The cross-process check lock of `scripts/checkLock.ts`, as steps of any number of processes over one lock file.
module CheckLock {
  import opened Options

  const MAX_AGE := 60 * 60 * 1000
  const GRACE := 5_000

  datatype Holder = Holder(pid: int, startedAt: int)

  /** What the lock file holds: a holder as JSON, or anything else. */
  datatype Raw = Named(holder: Holder) | Other(text: string)

  /** A file at the lock's path. `linker` is the process that linked it there, which the code has no way to know. */
  datatype File = File(raw: Raw, ino: int, mtime: int, linker: Option<nat>)

  datatype Sighting = Sighting(raw: Raw, ino: int, mtime: int)

  predicate Matches(f: File, s: Sighting) {
    f.raw == s.raw && f.ino == s.ino && f.mtime == s.mtime
  }

  function SightingOf(f: File): Sighting {
    Sighting(f.raw, f.ino, f.mtime)
  }

  /** `link(2)` of a staged file: it succeeds only where there is no file yet. */
  function Linked(file: Option<File>, stage: File): Option<File> {
    if file.None? then Some(stage) else file
  }

  /** Compare and unlink, taken as one step. */
  function Cleared(file: Option<File>, judged: Sighting): Option<File> {
    if file.Some? && Matches(file.value, judged) then None else file
  }

  // Processes

  /** Where a process is in its acquisition. */
  datatype Phase =
    | Trying
    | Staged(stage: File)
    | Missed
    | HasRead(raw: Raw)
    | Seen(seen: Sighting)
    | Clearing(judged: Sighting)
    | Armed(mine: Sighting)
    | Released

  /** A run of the program. Its pid may be another run's once that one has died; `waits` counts what it announced. */
  datatype Process = Process(pid: int, born: int, alive: bool, died: int, phase: Phase, announced: bool, waits: nat)

  datatype State = State(clock: int, file: Option<File>, processes: seq<Process>)

  datatype Event =
    | Tick(ms: nat)
    | Spawn(pid: int)
    | Foreign(text: string, ino: int, mtime: int)
    | Die(p: nat)
    | Stage(p: nat, ino: int, mtime: int)
    | Link(p: nat)
    | Read(p: nat)
    | Stat(p: nat)
    | Judge(p: nat, answers: bool)
    | Clear(p: nat)
    | Release(p: nat)

  predicate Runs(s: State, p: nat) {
    p < |s.processes| && s.processes[p].alive
  }

  /** A pid is given out again only after the run that had it has died, and not within the same millisecond. */
  predicate Free(s: State, pid: int) {
    forall i :: 0 <= i < |s.processes| && s.processes[i].pid == pid ==>
        !s.processes[i].alive && s.processes[i].died < s.clock
  }

  /** Signal 0 reaches every run that is alive; where there is none it may reach a stranger with the pid. */
  predicate Answered(s: State, pid: int, answers: bool) {
    answers || forall i :: 0 <= i < |s.processes| && s.processes[i].pid == pid ==> !s.processes[i].alive
  }

  predicate Enabled(s: State, e: Event) {
    match e
    case Tick(_) => true
    case Spawn(pid) => Free(s, pid)
    case Foreign(_, _, _) => s.file.None?
    case Die(p) => Runs(s, p)
    case Stage(p, _, _) => Runs(s, p) && s.processes[p].phase.Trying?
    case Link(p) => Runs(s, p) && s.processes[p].phase.Staged?
    case Read(p) => Runs(s, p) && s.processes[p].phase.Missed?
    case Stat(p) => Runs(s, p) && s.processes[p].phase.HasRead?
    case Judge(p, answers) =>
      Runs(s, p) && s.processes[p].phase.Seen?
      && (s.processes[p].phase.seen.raw.Named? ==> Answered(s, s.processes[p].phase.seen.raw.holder.pid, answers))
    case Clear(p) => Runs(s, p) && s.processes[p].phase.Clearing?
    case Release(p) => Runs(s, p) && s.processes[p].phase.Armed?
  }

  function To(s: State, p: nat, phase: Phase): State
    requires p < |s.processes|
  {
    s.(processes := s.processes[p := s.processes[p].(phase := phase)])
  }

  /** Whether a holder still counts, given whether its pid answers. */
  predicate Holds(clock: int, h: Holder, answers: bool) {
    clock - h.startedAt <= MAX_AGE && answers
  }

  function Judged(clock: int, p: Process, seen: Sighting, answers: bool): Process {
    match seen.raw
    case Other(_) => p.(phase := if clock - seen.mtime >= GRACE then Clearing(seen) else Trying)
    case Named(h) =>
      if !Holds(clock, h, answers) then p.(phase := Clearing(seen))
      else p.(phase := Trying, announced := true, waits := if p.announced then p.waits else p.waits + 1)
  }

  function Apply(s: State, e: Event): State
    requires Enabled(s, e)
  {
    match e
    case Tick(ms) => s.(clock := s.clock + ms)
    case Spawn(pid) => s.(processes := s.processes + [Process(pid, s.clock, true, s.clock, Trying, false, 0)])
    case Foreign(text, ino, mtime) => s.(file := Some(File(Other(text), ino, mtime, None)))
    case Die(p) => s.(processes := s.processes[p := s.processes[p].(alive := false, died := s.clock)])
    case Stage(p, ino, mtime) =>
      To(s, p, Staged(File(Named(Holder(s.processes[p].pid, s.clock)), ino, mtime, Some(p))))
    case Link(p) =>
      var stage := s.processes[p].phase.stage;
      To(s, p, if s.file.None? then Armed(SightingOf(stage)) else Missed).(file := Linked(s.file, stage))
    case Read(p) => To(s, p, if s.file.None? then Trying else HasRead(s.file.value.raw))
    case Stat(p) =>
      To(s, p, if s.file.None? then Trying
               else Seen(Sighting(s.processes[p].phase.raw, s.file.value.ino, s.file.value.mtime)))
    case Judge(p, answers) =>
      s.(processes := s.processes[p := Judged(s.clock, s.processes[p], s.processes[p].phase.seen, answers)])
    case Clear(p) => To(s, p, Trying).(file := Cleared(s.file, s.processes[p].phase.judged))
    case Release(p) => To(s, p, Released).(file := Cleared(s.file, s.processes[p].phase.mine))
  }

  // The invariant

  /** The run wrote the holder: it has the pid, and was alive when it started. */
  predicate Wrote(s: State, h: Holder, p: nat) {
    && p < |s.processes| && s.processes[p].pid == h.pid
    && s.processes[p].born <= h.startedAt <= s.clock
    && (!s.processes[p].alive ==> h.startedAt <= s.processes[p].died)
  }

  ghost predicate Written(s: State, raw: Raw) {
    raw.Named? ==> exists p :: Wrote(s, raw.holder, p)
  }

  predicate Young(s: State, h: Holder) {
    s.clock - h.startedAt <= MAX_AGE
  }

  /** No run that is alive can have written the holder, or it is past the age at which it counts. */
  predicate Stale(s: State, h: Holder) {
    !Young(s, h)
    || forall i :: 0 <= i < |s.processes| && s.processes[i].alive && s.processes[i].pid == h.pid ==>
       s.processes[i].born > h.startedAt
  }

  /** A run holds the lock: it is alive, armed, has not released, and is young enough to count. */
  predicate HoldsLock(s: State, p: nat) {
    && Runs(s, p) && s.processes[p].phase.Armed?
    && s.processes[p].phase.mine.raw.Named? && Young(s, s.processes[p].phase.mine.raw.holder)
  }

  ghost predicate Lives(s: State) {
    forall i :: 0 <= i < |s.processes| ==>
      s.processes[i].born <= s.clock
        && (!s.processes[i].alive ==> s.processes[i].born <= s.processes[i].died <= s.clock)
  }

  ghost predicate PidsApart(s: State) {
    forall i, j :: 0 <= i < j < |s.processes| && s.processes[i].pid == s.processes[j].pid ==>
      !s.processes[i].alive && s.processes[i].died < s.processes[j].born
  }

  ghost predicate PhaseOk(s: State, p: nat)
    requires p < |s.processes|
  {
    match s.processes[p].phase
    case Staged(f) => f.raw.Named? && Wrote(s, f.raw.holder, p) && f.linker == Some(p)
    case HasRead(raw) => Written(s, raw)
    case Seen(seen) => Written(s, seen.raw)
    case Clearing(judged) => Written(s, judged.raw) && (judged.raw.Named? ==> Stale(s, judged.raw.holder))
    case Armed(mine) =>
      && mine.raw.Named? && Wrote(s, mine.raw.holder, p)
      && (HoldsLock(s, p) ==> s.file.Some? && Matches(s.file.value, mine) && s.file.value.linker == Some(p))
    case _ => true
  }

  ghost predicate FileOk(s: State) {
    s.file.Some? && s.file.value.raw.Named? ==>
      s.file.value.linker.Some? && Wrote(s, s.file.value.raw.holder, s.file.value.linker.value)
  }

  ghost predicate PhasesOk(s: State) {
    forall p :: 0 <= p < |s.processes| ==> PhaseOk(s, p)
  }

  ghost predicate Inv(s: State) {
    Lives(s) && PidsApart(s) && PhasesOk(s) && FileOk(s)
  }

  /** Only one run can have written a holder. */
  lemma WriterUnique(s: State, h: Holder, p: nat, q: nat)
    requires Lives(s) && PidsApart(s) && Wrote(s, h, p) && Wrote(s, h, q)
    ensures p == q
  {
  }

  /** A stale holder is no live young run's. */
  lemma StaleNotHeld(s: State, h: Holder, p: nat)
    requires Stale(s, h) && Wrote(s, h, p)
    ensures !(Runs(s, p) && Young(s, h))
  {
  }

  // What every step keeps

  /** Nothing a step leaves alone in one run's past or in the clock unsays what was written. */
  ghost predicate Later(s: State, t: State) {
    && s.clock <= t.clock && |s.processes| <= |t.processes|
    && (forall i :: 0 <= i < |s.processes| ==>
          && t.processes[i].pid == s.processes[i].pid && t.processes[i].born == s.processes[i].born
          && (t.processes[i].alive ==> s.processes[i].alive)
          && (!s.processes[i].alive ==> t.processes[i].died == s.processes[i].died)
          && (s.processes[i].alive && !t.processes[i].alive ==> t.processes[i].died == s.clock))
    && (forall i :: |s.processes| <= i < |t.processes| ==> t.processes[i].born == s.clock && t.processes[i].alive)
    && (forall i, j :: 0 <= i < |s.processes| <= j < |t.processes| && t.processes[i].pid == t.processes[j].pid ==>
          !s.processes[i].alive && s.processes[i].died < s.clock)
  }

  lemma StepLater(s: State, e: Event)
    requires Enabled(s, e)
    ensures Later(s, Apply(s, e))
  {
  }

  lemma WroteLater(s: State, t: State, h: Holder, p: nat)
    requires Later(s, t) && Wrote(s, h, p)
    ensures Wrote(t, h, p)
  {
  }

  lemma WrittenLater(s: State, t: State, raw: Raw)
    requires Later(s, t) && Written(s, raw)
    ensures Written(t, raw)
  {
    if raw.Named? {
      var p: nat :| Wrote(s, raw.holder, p);
      WroteLater(s, t, raw.holder, p);
    }
  }

  /** Once no live run can have written a holder, none ever can. */
  lemma StaleLater(s: State, t: State, h: Holder)
    requires Later(s, t) && Lives(s) && Written(s, Named(h)) && Stale(s, h)
    ensures Stale(t, h)
  {
    if Young(t, h) {
      var p: nat :| Wrote(s, h, p);
      forall i | 0 <= i < |t.processes| && t.processes[i].alive && t.processes[i].pid == h.pid
        ensures t.processes[i].born > h.startedAt
      {
        if i >= |s.processes| {
          assert t.processes[p].pid == t.processes[i].pid;
        }
      }
    }
  }

  /** A step of the protocol itself starts and ends no process. */
  lemma LivesAsBefore(s: State, e: Event)
    requires Enabled(s, e) && !e.Tick? && !e.Spawn? && !e.Die?
    ensures var t := Apply(s, e);
            && t.clock == s.clock && |t.processes| == |s.processes|
            && forall i :: 0 <= i < |s.processes| ==>
                 var p, q := s.processes[i], t.processes[i];
                 p.pid == q.pid && p.born == q.born && p.alive == q.alive && p.died == q.died
  {
  }

  lemma LivesLater(s: State, e: Event)
    requires Enabled(s, e) && Lives(s) && PidsApart(s)
    ensures Lives(Apply(s, e)) && PidsApart(Apply(s, e))
  {
    if !e.Tick? && !e.Spawn? && !e.Die? {
      LivesAsBefore(s, e);
      hide Apply;
      hide Enabled;
    }
  }

  /** A run the step does not name keeps its phase, and what it knows stays true. */
  lemma OtherPhase(s: State, t: State, p: nat)
    requires Inv(s) && Later(s, t) && p < |s.processes|
    requires t.processes[p] == s.processes[p]
        || t.processes[p] == s.processes[p].(alive := false, died := t.processes[p].died)
    requires HoldsLock(t, p) ==> t.file == s.file
    ensures PhaseOk(t, p)
  {
    assert PhaseOk(s, p);
    match s.processes[p].phase {
      case Staged(f) => WroteLater(s, t, f.raw.holder, p);
      case HasRead(raw) => WrittenLater(s, t, raw);
      case Seen(seen) => WrittenLater(s, t, seen.raw);
      case Clearing(judged) =>
        WrittenLater(s, t, judged.raw);
        if judged.raw.Named? {
          StaleLater(s, t, judged.raw.holder);
        }
      case Armed(mine) => WroteLater(s, t, mine.raw.holder, p);
      case _ =>
    }
  }

  lemma FileKept(s: State, t: State)
    requires Inv(s) && Later(s, t) && (t.file == s.file || t.file.None?)
    ensures FileOk(t)
  {
    if t.file.Some? && t.file.value.raw.Named? {
      WroteLater(s, t, t.file.value.raw.holder, t.file.value.linker.value);
    }
  }

  lemma QuietKeeps(s: State, e: Event)
    requires Inv(s) && Enabled(s, e) && (e.Tick? || e.Spawn? || e.Die?)
    ensures Inv(Apply(s, e))
  {
    var t := Apply(s, e);
    StepLater(s, e);
    LivesLater(s, e);
    FileKept(s, t);
    forall p | 0 <= p < |t.processes| ensures PhaseOk(t, p) {
      if p < |s.processes| {
        OtherPhase(s, t, p);
      }
    }
  }

  lemma ForeignKeeps(s: State, e: Event)
    requires Inv(s) && Enabled(s, e) && e.Foreign?
    ensures Inv(Apply(s, e))
  {
    var t := Apply(s, e);
    StepLater(s, e);
    LivesLater(s, e);
    forall p | 0 <= p < |t.processes| ensures PhaseOk(t, p) {
      assert PhaseOk(s, p);
      OtherPhase(s, t, p);
    }
  }

  lemma ReadKeeps(s: State, e: Event)
    requires Inv(s) && Enabled(s, e) && (e.Stage? || e.Read? || e.Stat? || e.Judge?)
    ensures Inv(Apply(s, e))
  {
    var t := Apply(s, e);
    StepLater(s, e);
    LivesLater(s, e);
    FileKept(s, t);
    forall p | 0 <= p < |t.processes| ensures PhaseOk(t, p) {
      if p != e.p {
        OtherPhase(s, t, p);
      } else {
        assert PhaseOk(s, p);
        OwnPhase(s, e);
      }
    }
  }

  lemma OwnPhase(s: State, e: Event)
    requires Inv(s) && Enabled(s, e) && (e.Stage? || e.Read? || e.Stat? || e.Judge?)
    ensures PhaseOk(Apply(s, e), e.p)
  {
    var t := Apply(s, e);
    StepLater(s, e);
    assert PhaseOk(s, e.p);
    match e {
      case Stage(p, _, _) =>
      case Read(p) =>
        if s.file.Some? {
          assert Written(s, s.file.value.raw) by {
            if s.file.value.raw.Named? {
              assert Wrote(s, s.file.value.raw.holder, s.file.value.linker.value);
            }
          }
          WrittenLater(s, t, s.file.value.raw);
        }
      case Stat(p) => WrittenLater(s, t, s.processes[p].phase.raw);
      case Judge(p, answers) => WrittenLater(s, t, s.processes[p].phase.seen.raw);
    }
  }

  lemma LinkKeeps(s: State, e: Event)
    requires Inv(s) && Enabled(s, e) && e.Link?
    ensures Inv(Apply(s, e))
  {
    var t := Apply(s, e);
    StepLater(s, e);
    LivesLater(s, e);
    assert PhaseOk(s, e.p);
    var stage := s.processes[e.p].phase.stage;
    WroteLater(s, t, stage.raw.holder, e.p);
    if s.file.Some? {
      FileKept(s, t);
    }
    forall p | 0 <= p < |t.processes| ensures PhaseOk(t, p) {
      if p != e.p {
        assert PhaseOk(s, p);
        OtherPhase(s, t, p);
      }
    }
  }

  /** Whoever a clear or a release is for, the lock it finds is no other run's that holds it. */
  lemma OnlyJudged(s: State, judged: Sighting, p: nat, q: nat)
    requires Inv(s) && s.file.Some? && Matches(s.file.value, judged)
    requires p < |s.processes|
    requires s.processes[p].phase == Clearing(judged) || (s.processes[p].phase == Armed(judged) && p != q)
    ensures !HoldsLock(s, q)
  {
    assert PhaseOk(s, p);
    if HoldsLock(s, q) {
      assert PhaseOk(s, q);
      var h := s.processes[q].phase.mine.raw.holder;
      if s.processes[p].phase.Clearing? {
        StaleNotHeld(s, h, q);
      } else {
        WriterUnique(s, h, p, q);
      }
    }
  }

  lemma ClearKeeps(s: State, e: Event)
    requires Inv(s) && Enabled(s, e) && (e.Clear? || e.Release?)
    ensures Inv(Apply(s, e))
  {
    var t := Apply(s, e);
    StepLater(s, e);
    LivesLater(s, e);
    FileKept(s, t);
    var judged := if e.Clear? then s.processes[e.p].phase.judged else s.processes[e.p].phase.mine;
    forall p | 0 <= p < |t.processes| ensures PhaseOk(t, p) {
      if p != e.p {
        if s.file.Some? && Matches(s.file.value, judged) {
          OnlyJudged(s, judged, e.p, p);
        }
        OtherPhase(s, t, p);
      }
    }
  }

  lemma StepKeeps(s: State, e: Event)
    requires Inv(s) && Enabled(s, e)
    ensures Inv(Apply(s, e))
  {
    hide Inv;
    hide Enabled;
    hide Apply;
    match e {
      case Tick(_) => QuietKeeps(s, e);
      case Spawn(_) => QuietKeeps(s, e);
      case Die(_) => QuietKeeps(s, e);
      case Foreign(_, _, _) => ForeignKeeps(s, e);
      case Stage(_, _, _) => ReadKeeps(s, e);
      case Read(_) => ReadKeeps(s, e);
      case Stat(_) => ReadKeeps(s, e);
      case Judge(_, _) => ReadKeeps(s, e);
      case Link(_) => LinkKeeps(s, e);
      case Clear(_) => ClearKeeps(s, e);
      case Release(_) => ClearKeeps(s, e);
    }
  }

  // Whole runs

  /** A run of the system from nothing: no process yet, and either no file or one nobody here wrote. */
  ghost predicate Start(s: State) {
    s.processes == [] && (s.file.Some? ==> s.file.value.raw.Other?)
  }

  ghost predicate RunOf(states: seq<State>, events: seq<Event>) {
    && |states| == |events| + 1 && Start(states[0])
    && forall k :: 0 <= k < |events| ==> Enabled(states[k], events[k]) && states[k + 1] == Apply(states[k], events[k])
  }

  lemma {:induction false} Reachable(states: seq<State>, events: seq<Event>, k: nat)
    requires RunOf(states, events) && k <= |events|
    ensures Inv(states[k])
  {
    hide Apply;
    hide Enabled;
    if k > 0 {
      Reachable(states, events, k - 1);
      hide Inv;
      StepKeeps(states[k - 1], events[k - 1]);
    }
  }

  /** In every state of every run at most one run holds the lock, and the lock file is its own. */
  lemma AtMostOneHolds(states: seq<State>, events: seq<Event>, k: nat, p: nat, q: nat)
    requires RunOf(states, events) && k <= |events|
    requires HoldsLock(states[k], p) && HoldsLock(states[k], q)
    ensures p == q
    ensures states[k].file.Some? && Matches(states[k].file.value, states[k].processes[p].phase.mine)
  {
    Reachable(states, events, k);
    assert PhaseOk(states[k], p) && PhaseOk(states[k], q);
  }

  /**
   * A step that takes the lock file away takes one whose text is the one judged, and that no other live young run
   * holds.
   */
  lemma RemovesOnlyJudged(states: seq<State>, events: seq<Event>, k: nat)
    requires RunOf(states, events) && k < |events|
    requires states[k].file.Some? && states[k + 1].file != states[k].file
    ensures events[k].Clear? || events[k].Release?
    ensures states[k + 1].file.None?
    ensures events[k].Release? ==> states[k].file.value.linker == Some(events[k].p)
    ensures events[k].Clear? ==> forall q :: !HoldsLock(states[k], q)
    ensures events[k].Release? ==> forall q :: HoldsLock(states[k], q) ==> q == events[k].p
  {
    var s, e := states[k], events[k];
    Reachable(states, events, k);
    assert Enabled(s, e) && states[k + 1] == Apply(s, e);
    if e.Clear? || e.Release? {
      var p := e.p;
      assert PhaseOk(s, p);
      var judged := if e.Clear? then s.processes[p].phase.judged else s.processes[p].phase.mine;
      assert Matches(s.file.value, judged);
      if e.Release? {
        WriterUnique(s, judged.raw.holder, p, s.file.value.linker.value);
      }
      forall q: nat | e.Clear? || q != p ensures !HoldsLock(s, q) {
        OnlyJudged(s, judged, p, q);
      }
    }
  }

  /** A run says it is waiting at most once. */
  lemma {:induction false} AnnouncedOnce(states: seq<State>, events: seq<Event>, k: nat)
    requires RunOf(states, events) && k <= |events|
    ensures forall p :: 0 <= p < |states[k].processes| ==>
      states[k].processes[p].waits == if states[k].processes[p].announced then 1 else 0
  {
    if k > 0 {
      AnnouncedOnce(states, events, k - 1);
      assert Enabled(states[k - 1], events[k - 1]) && states[k] == Apply(states[k - 1], events[k - 1]);
    }
  }

  /** A run that is alive may die at any moment, and until it holds the lock or has released it may take a step. */
  lemma CanGoOn(s: State, p: nat)
    requires Runs(s, p)
    ensures Enabled(s, Die(p))
    ensures match s.processes[p].phase
            case Trying => forall ino, mtime :: Enabled(s, Stage(p, ino, mtime))
            case Staged(_) => Enabled(s, Link(p))
            case Missed => Enabled(s, Read(p))
            case HasRead(_) => Enabled(s, Stat(p))
            case Seen(_) => Enabled(s, Judge(p, true))
            case Clearing(_) => Enabled(s, Clear(p))
            case Armed(_) => Enabled(s, Release(p))
            case Released => true
  {
  }

  // When a lock is given up on

  /**
   * What was seen no longer holds the lock: its holder started more than an hour ago or does not answer, or it names
   * none and is five seconds old.
   */
  predicate Dead(clock: int, seen: Sighting, answers: bool) {
    match seen.raw
    case Named(h) => clock > h.startedAt + 3_600_000 || !answers
    case Other(_) => clock >= seen.mtime + 5_000
  }

  /** A process goes on to clear what it saw exactly when that is dead; else it tries again, saying once it waits. */
  lemma JudgedDead(s: State, p: nat, answers: bool)
    requires Enabled(s, Judge(p, answers))
    ensures var was, t := s.processes[p], Apply(s, Judge(p, answers));
            var now := t.processes[p];
            && t.file == s.file && now.phase == (if Dead(s.clock, was.phase.seen, answers) then Clearing(was.phase.seen)
                                                 else Trying)
            && (now.waits > was.waits <==> was.phase.seen.raw.Named? && !Dead(s.clock, was.phase.seen, answers)
                                           && !was.announced)
  {
  }

  /** The process does nothing from `i` up to `k`. */
  ghost predicate Idle(events: seq<Event>, p: nat, i: nat, k: nat)
    requires i <= k <= |events|
  {
    forall m :: i <= m < k ==>
      match events[m]
      case Tick(_) => true
      case Spawn(_) => true
      case Foreign(_, _, _) => true
      case Die(q) => q != p
      case Stage(q, _, _) => q != p
      case Link(q) => q != p
      case Read(q) => q != p
      case Stat(q) => q != p
      case Judge(q, _) => q != p
      case Clear(q) => q != p
      case Release(q) => q != p
  }

  lemma {:induction false} IdleStays(states: seq<State>, events: seq<Event>, p: nat, i: nat, k: nat)
    requires RunOf(states, events) && i <= k <= |events| && p < |states[i].processes| && Idle(events, p, i, k)
    ensures p < |states[k].processes| && states[k].processes[p] == states[i].processes[p]
  {
    if i < k {
      IdleStays(states, events, p, i, k - 1);
      assert states[k] == Apply(states[k - 1], events[k - 1]);
    }
  }

  lemma ClearingBefore(s: State, e: Event, p: nat)
    requires Enabled(s, e) && Runs(Apply(s, e), p) && Apply(s, e).processes[p].phase.Clearing?
    ensures if e.Judge? && e.p == p then
              s.processes[p].phase == Seen(Apply(s, e).processes[p].phase.judged)
              && Dead(s.clock, Apply(s, e).processes[p].phase.judged, e.answers)
            else Runs(s, p) && s.processes[p].phase == Apply(s, e).processes[p].phase && Idle([e], p, 0, 1)
  {
  }

  /** Found where the process last was: no lock file is cleared but one the process judged dead and found unchanged. */
  lemma {:induction false} ClearingSince(states: seq<State>, events: seq<Event>, p: nat, k: nat)
      returns (i: nat, answers: bool)
    requires RunOf(states, events) && k <= |events| && Runs(states[k], p) && states[k].processes[p].phase.Clearing?
    ensures i < k && events[i] == Judge(p, answers) && Idle(events, p, i + 1, k)
    ensures p < |states[i].processes| && states[i].processes[p].phase == Seen(states[k].processes[p].phase.judged)
    ensures Dead(states[i].clock, states[k].processes[p].phase.judged, answers)
  {
    assert k > 0;
    var e := events[k - 1];
    assert states[k] == Apply(states[k - 1], e);
    ClearingBefore(states[k - 1], e, p);
    hide Apply;
    hide Enabled;
    if e.Judge? && e.p == p {
      i, answers := k - 1, e.answers;
    } else {
      i, answers := ClearingSince(states, events, p, k - 1);
    }
  }

  /** A lock file goes only when it was judged dead, and is still the one judged, or its own holder releases it. */
  lemma ClearedDead(states: seq<State>, events: seq<Event>, k: nat, p: nat) returns (i: nat, answers: bool)
    requires RunOf(states, events) && k < |events| && events[k] == Clear(p)
    ensures i < k && events[i] == Judge(p, answers)
    ensures p < |states[i].processes| && states[i].processes[p].phase.Seen?
    ensures var seen := states[i].processes[p].phase.seen;
            && Dead(states[i].clock, seen, answers)
            && states[k + 1].file == if states[k].file.Some? && SightingOf(states[k].file.value) == seen then None
                                     else states[k].file
  {
    i, answers := ClearingSince(states, events, p, k);
  }

  ghost predicate Leads(s: State, events: seq<Event>, t: State)
    decreases |events|
  {
    if events == [] then s == t else Enabled(s, events[0]) && Leads(Apply(s, events[0]), events[1..], t)
  }

  lemma LeadsBy(s: State, e: Event, more: seq<Event>, t: State)
    requires Enabled(s, e) && Leads(Apply(s, e), more, t)
    ensures Leads(s, [e] + more, t)
  {
    assert ([e] + more)[1..] == more;
  }

  lemma {:induction false} LeadsJoined(s: State, a: seq<Event>, m: State, b: seq<Event>, t: State)
    requires Leads(s, a, m) && Leads(m, b, t)
    ensures Leads(s, a + b, t)
    decreases |a|
  {
    if a == [] {
      assert a + b == b;
    } else {
      LeadsJoined(Apply(s, a[0]), a[1..], m, b, t);
      assert (a + b)[1..] == a[1..] + b;
    }
  }

  lemma LeadsTwo(s: State, e: Event, f: Event)
    requires Enabled(s, e) && Enabled(Apply(s, e), f)
    ensures Leads(s, [e, f], Apply(Apply(s, e), f))
  {
    hide Enabled;
    hide Apply;
    LeadsBy(Apply(s, e), f, [], Apply(Apply(s, e), f));
    LeadsBy(s, e, [f], Apply(Apply(s, e), f));
    assert [f] + [] == [f] && [e] + [f] == [e, f];
  }

  /** An attempt that finds a file there looks at it. */
  lemma LooksAt(s: State, p: nat, ino: int, mtime: int) returns (t: State)
    requires Runs(s, p) && s.processes[p].phase.Trying? && s.file.Some?
    ensures Leads(s, [Stage(p, ino, mtime), Link(p), Read(p), Stat(p)], t)
    ensures t == To(s, p, Seen(SightingOf(s.file.value)))
  {
    var m := Apply(Apply(s, Stage(p, ino, mtime)), Link(p));
    assert m.processes[p].phase == Missed;
    LeadsTwo(s, Stage(p, ino, mtime), Link(p));
    t := Apply(Apply(m, Read(p)), Stat(p));
    LeadsTwo(m, Read(p), Stat(p));
    LeadsJoined(s, [Stage(p, ino, mtime), Link(p)], m, [Read(p), Stat(p)], t);
    assert [Stage(p, ino, mtime), Link(p)] + [Read(p), Stat(p)] == [Stage(p, ino, mtime), Link(p), Read(p), Stat(p)];
    hide Leads;
    assert t.processes == s.processes[p := t.processes[p]];
  }

  /** Judged dead, and as it was when it was seen, the file goes. */
  lemma ClearsDead(s: State, p: nat, answers: bool) returns (t: State)
    requires Enabled(s, Judge(p, answers)) && s.file.Some?
    requires s.processes[p].phase == Seen(SightingOf(s.file.value)) && Dead(s.clock, SightingOf(s.file.value), answers)
    ensures Leads(s, [Judge(p, answers), Clear(p)], t)
    ensures t == To(s, p, Trying).(file := None)
  {
    JudgedDead(s, p, answers);
    t := Apply(Apply(s, Judge(p, answers)), Clear(p));
    LeadsTwo(s, Judge(p, answers), Clear(p));
  }

  /** Where there is no file an attempt takes the lock. */
  lemma TakesFree(s: State, p: nat, ino: int, mtime: int) returns (t: State)
    requires Runs(s, p) && s.processes[p].phase.Trying? && s.file.None?
    ensures Leads(s, [Stage(p, ino, mtime), Link(p)], t)
    ensures var mine := File(Named(Holder(s.processes[p].pid, s.clock)), ino, mtime, Some(p));
            t == To(s, p, Armed(SightingOf(mine))).(file := Some(mine)) && HoldsLock(t, p)
  {
    t := Apply(Apply(s, Stage(p, ino, mtime)), Link(p));
    LeadsTwo(s, Stage(p, ino, mtime), Link(p));
  }

  /** A dead lock is taken over: a process that is left to itself looks at it, clears it, and takes it. */
  lemma TakenOver(s: State, p: nat, answers: bool, ino: int, mtime: int, ino2: int, mtime2: int) returns (t: State)
    requires Runs(s, p) && s.processes[p].phase.Trying? && s.file.Some?
    requires s.file.value.raw.Named? ==> Answered(s, s.file.value.raw.holder.pid, answers)
    requires Dead(s.clock, SightingOf(s.file.value), answers)
    ensures Leads(s, [Stage(p, ino, mtime), Link(p), Read(p), Stat(p)] + [Judge(p, answers), Clear(p)]
                     + [Stage(p, ino2, mtime2), Link(p)], t)
    ensures t.file == Some(File(Named(Holder(s.processes[p].pid, s.clock)), ino2, mtime2, Some(p))) && HoldsLock(t, p)
  {
    var seen := LooksAt(s, p, ino, mtime);
    var free := ClearsDead(seen, p, answers);
    t := TakesFree(free, p, ino2, mtime2);
    hide Enabled;
    hide Leads;
    LeadsJoined(s, [Stage(p, ino, mtime), Link(p), Read(p), Stat(p)], seen, [Judge(p, answers), Clear(p)], free);
    LeadsJoined(s, [Stage(p, ino, mtime), Link(p), Read(p), Stat(p)] + [Judge(p, answers), Clear(p)], free,
      [Stage(p, ino2, mtime2), Link(p)], t);
  }

  // One process's view

  /** The lock file's path on disk. */
  class Disk {
    var file: Option<File>

    constructor ()
      ensures file.None?
    {
      file := None;
    }

    method Link(stage: File) returns (ok: bool)
      modifies this
      ensures ok == old(file).None? && file == Linked(old(file), stage)
    {
      ok := file.None?;
      if ok {
        file := Some(stage);
      }
    }

    method ClearJudged(judged: Sighting)
      modifies this
      ensures file == Cleared(old(file), judged)
    {
      if file.None? {
        return;
      }
      if file.value.raw != judged.raw || file.value.ino != judged.ino || file.value.mtime != judged.mtime {
        return;
      }
      file := None;
    }
  }

  /** A lock that was taken. Releasing it again, from an exit handler or a signal, does nothing more. */
  class Lock {
    const disk: Disk
    const mine: Sighting
    var released: bool

    constructor (disk: Disk, mine: Sighting)
      ensures this.disk == disk && this.mine == mine && !released
    {
      this.disk := disk;
      this.mine := mine;
      released := false;
    }

    method Release()
      modifies this`released, disk
      ensures released
      ensures disk.file == if old(released) then old(disk.file) else Cleared(old(disk.file), mine)
    {
      if released {
        return;
      }
      released := true;
      disk.ClearJudged(mine);
    }
  }
}
