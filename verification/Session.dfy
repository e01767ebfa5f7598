/** One spawned worker from start to exit: the three-timer event loop of internal/supervisor/loop.go
    (runOneSpawn, classifyOutcome, clampWake) and the exit table of internal/supervisor/exitcode.go. */
module Session {
  import opened Common
  import opened Gate
  import Backoff
  import opened CrashTracker

  datatype Config = Config(startTimeout: Duration, watchdogInterval: Duration, backoff: Backoff.Policy,
                           gateWindow: Duration, gateStableFor: Duration)

  // ------------------------------------------------------------ Exit codes

  datatype ExitInfo = ExitInfo(code: int, signaled: bool)

  datatype Class = Graceful | Unexpected | NoRestart | RollbackAsked

  function Classify(info: ExitInfo): Class {
    if info.signaled then Unexpected
    else if info.code == 0 then Graceful
    else if info.code == 64 then NoRestart
    else if info.code == 65 then RollbackAsked
    else Unexpected
  }

  /** A clean exit nobody asked for counts as unexpected. */
  function Demoted(info: ExitInfo): Class {
    if Classify(info) == Graceful then Unexpected else Classify(info)
  }

  // ---------------------------------------------------------------- Ledger

  datatype Why = CrashLoop | RollbackRequested | SpawnFailed | Blacklisted | HealthFailed(reason: FailReason)

  datatype Note = Plain | Exited(cls: Class, signaled: bool) | FailedToSpawn | GateTimedOut
                | AskedToStop | Because(why: Why) | NoTarget(why: Why)

  datatype Kind = SpawnEvent | CrashEvent | RollbackEvent | StopEvent

  datatype Entry = Entry(kind: Kind, version: Version, code: Option<int>, note: Note)

  predicate Closes(e: Entry) {
    e.kind == CrashEvent || e.kind == StopEvent
  }

  // --------------------------------------------------------------- Session

  /** A Go timer: `Set(at)` from the moment it is armed until it is stopped or its value is received, so
      it also covers "fired but not drained". */
  datatype Timer = Off | Set(at: Time)

  datatype Verdict = CrashExit | NoRestartExit | RollbackExit | Stopped | HealthTimedOut | SpawnFailure

  datatype Sess = Sess(version: Version, running: bool, startTimer: Timer, watchdog: Timer, gateTimer: Timer,
                       gate: GateState, tracker: TrackerState, ledger: seq<Entry>, verdict: Option<Verdict>)

  /** One recognised notify key with the clock readings its handler takes. */
  datatype Notice = Ready(marked: Time, heard: Time, woken: Time) | Watchdog(beat: Time) | Stopping

  /** What one select of the loop can receive, and when. */
  datatype Event = Shutdown(at: Time, info: ExitInfo)
                 | Exit(at: Time, info: ExitInfo)
                 | StartFires(at: Time, info: ExitInfo)
                 | WatchdogFires(at: Time, info: ExitInfo)
                 | GateFires(at: Time, info: ExitInfo)
                 | Message(at: Time, notices: seq<Notice>)
                 | Closed(at: Time)

  function ClampWake(d: Duration): Duration {
    if d < 10 * MILLISECOND then 10 * MILLISECOND else d
  }

  function Start(cfg: Config, version: Version, gate: GateState, tracker: TrackerState, ledger: seq<Entry>,
                 born: Time, woken: Time): Sess {
    Sess(version, false, Set(born + cfg.startTimeout), Off,
         if gate.Active() then Set(woken + gate.NextWake(woken)) else Off,
         gate, tracker, ledger, None)
  }

  /** The session is over: deferred stops turn every timer off. */
  function Finish(s: Sess, e: Entry, v: Verdict): Sess {
    s.(running := false, startTimer := Off, watchdog := Off, gateTimer := Off,
       ledger := s.ledger + [e], verdict := Some(v))
  }

  /** classifyOutcome: one crash entry, then the verdict of the class. */
  function Conclude(s: Sess, info: ExitInfo, cls: Class): Sess {
    Finish(s, CrashOf(s.version, info, cls), VerdictOf(cls))
  }

  function CrashOf(v: Version, info: ExitInfo, cls: Class): Entry {
    Entry(CrashEvent, v, Some(info.code), Exited(cls, info.signaled))
  }

  function VerdictOf(cls: Class): Verdict {
    match cls
    case NoRestart => NoRestartExit
    case RollbackAsked => RollbackExit
    case _ => CrashExit
  }

  function Hear(cfg: Config, s: Sess, n: Notice): Sess {
    match n
    case Ready(marked, heard, woken) =>
      if s.running then s
      else
        var gate := if s.gate.Active() then s.gate.OnReady(heard) else s.gate;
        s.(running := true, tracker := s.tracker.(running := marked), startTimer := Off,
           watchdog := Set(marked + cfg.watchdogInterval), gate := gate,
           gateTimer := if s.gate.Active() then Set(woken + ClampWake(gate.NextWake(woken))) else s.gateTimer)
    case Watchdog(beat) =>
      if s.running then s.(watchdog := Set(beat + cfg.watchdogInterval)) else s
    case Stopping => s
  }

  function HearAll(cfg: Config, s: Sess, ns: seq<Notice>): Sess {
    if ns == [] then s else Hear(cfg, HearAll(cfg, s, Front(ns)), Last(ns))
  }

  /** What the loop does with one received event; an event whose timer is off cannot occur. */
  function React(cfg: Config, s: Sess, ev: Event): Sess {
    if s.verdict.Some? then s
    else match ev
      case Shutdown(_, info) => Finish(s, Entry(StopEvent, s.version, Some(info.code), Plain), Stopped)
      case Exit(_, info) => Conclude(s, info, Demoted(info))
      case StartFires(_, info) =>
        if s.startTimer == Off then s
        else if !s.running then Conclude(s, info, Unexpected)
        else s.(startTimer := Off)
      case WatchdogFires(_, info) =>
        if s.watchdog == Off then s else Conclude(s, info, Unexpected)
      case GateFires(at, info) =>
        if s.gateTimer == Off then s
        else
          var (gate, out) := s.gate.Tick(at);
          if out == Pass then s.(gate := gate.Reset(), gateTimer := Off)
          else if out == TimedOut then
            Finish(s.(gate := gate), Entry(CrashEvent, s.version, Some(info.code), GateTimedOut), HealthTimedOut)
          else s.(gateTimer := if gate.Active() then Set(at + ClampWake(gate.NextWake(at))) else Off)
      case Message(_, ns) => HearAll(cfg, s, ns)
      case Closed(_) => s
  }

  function Play(cfg: Config, s: Sess, evs: seq<Event>): Sess {
    if evs == [] then s else React(cfg, Play(cfg, s, Front(evs)), Last(evs))
  }

  // ----------------------------------------------- What ends a session, and how

  /** The received event ends the session: a shutdown, the worker's exit, a start timer before READY, an armed
      watchdog, or a gate timer that finds the window over and no READY stable. */
  predicate Ends(s: Sess, ev: Event) {
    match ev
    case Shutdown(_, _) => true
    case Exit(_, _) => true
    case StartFires(_, _) => s.startTimer.Set? && !s.running
    case WatchdogFires(_, _) => s.watchdog.Set?
    case GateFires(at, _) =>
      && s.gateTimer.Set? && s.gate.status in {Armed, Stabilizing} && s.gate.deadline <= at
      && !(s.gate.status == Stabilizing && s.gate.readyAt + s.gate.stableFor <= at)
    case Message(_, _) => false
    case Closed(_) => false
  }

  /** The exit table of the protocol: 64 asks for no restart and 65 for a rollback, unless a signal ended the
      worker; any other end that nobody asked for, a clean exit included, is a crash. */
  predicate Causes(ev: Event, v: Verdict) {
    match v
    case NoRestartExit => ev.Exit? && !ev.info.signaled && ev.info.code == 64
    case RollbackExit => ev.Exit? && !ev.info.signaled && ev.info.code == 65
    case CrashExit =>
      ev.StartFires? || ev.WatchdogFires? || (ev.Exit? && (ev.info.signaled || ev.info.code !in {64, 65}))
    case Stopped => ev.Shutdown?
    case HealthTimedOut => ev.GateFires?
    case SpawnFailure => false
  }

  /** The entry that the event leaves in the ledger. */
  predicate Records(ev: Event, v: Version, e: Entry)
    requires !ev.Message? && !ev.Closed?
  {
    && e.version == v && e.code == Some(ev.info.code)
    && e.kind == (if ev.Shutdown? then StopEvent else CrashEvent)
    && match ev
       case Shutdown(_, _) => e.note == Plain
       case GateFires(_, _) => e.note == GateTimedOut
       case Exit(_, info) =>
         && e.note.Exited? && e.note.signaled == info.signaled
         && (e.note.cls == NoRestart <==> !info.signaled && info.code == 64)
         && (e.note.cls == RollbackAsked <==> !info.signaled && info.code == 65)
         && e.note.cls != Graceful
       case _ => e.note == Exited(Unexpected, ev.info.signaled)
  }

  /** The session `t` is `s` ended by the event. */
  predicate EndedWith(s: Sess, ev: Event, t: Sess) {
    && !ev.Message? && !ev.Closed? && t.verdict.Some? && Causes(ev, t.verdict.value)
    && t.version == s.version && t.tracker == s.tracker
    && |t.ledger| == |s.ledger| + 1 && Front(t.ledger) == s.ledger && Records(ev, s.version, Last(t.ledger))
  }

  lemma FinishEnds(s: Sess, ev: Event, g: GateState, e: Entry, v: Verdict)
    requires !ev.Message? && !ev.Closed? && Causes(ev, v) && Records(ev, s.version, e)
    ensures EndedWith(s, ev, Finish(s.(gate := g), e, v))
  {
    hide Causes, Records;
  }

  lemma ExitIsDecided(cfg: Config, s: Sess, ev: Event)
    requires s.verdict.None? && (ev.Shutdown? || ev.Exit? || ev.StartFires? || ev.WatchdogFires?)
    ensures var t := React(cfg, s, ev);
            if Ends(s, ev) then EndedWith(s, ev, t) else t.verdict.None? && t.ledger == s.ledger
  {
    hide EndedWith;
    assert s.(gate := s.gate) == s;
    match ev
    case Shutdown(_, info) => FinishEnds(s, ev, s.gate, Entry(StopEvent, s.version, Some(info.code), Plain), Stopped);
    case Exit(_, info) =>
      FinishEnds(s, ev, s.gate, CrashOf(s.version, info, Demoted(info)), VerdictOf(Demoted(info)));
    case StartFires(_, info) => FinishEnds(s, ev, s.gate, CrashOf(s.version, info, Unexpected), CrashExit);
    case WatchdogFires(_, info) => FinishEnds(s, ev, s.gate, CrashOf(s.version, info, Unexpected), CrashExit);
  }

  lemma GateIsDecided(cfg: Config, s: Sess, ev: Event)
    requires s.verdict.None? && ev.GateFires?
    ensures var t := React(cfg, s, ev);
            if Ends(s, ev) then EndedWith(s, ev, t) else t.verdict.None? && t.ledger == s.ledger
  {
    hide EndedWith;
    FinishEnds(s, ev, s.gate.Tick(ev.at).0, Entry(CrashEvent, s.version, Some(ev.info.code), GateTimedOut),
               HealthTimedOut);
  }

  /** One received event: it ends the session exactly if it is one that does, with the verdict it causes and one
      ledger entry that records it; any other leaves the ledger alone. */
  lemma EndIsDecided(cfg: Config, s: Sess, ev: Event)
    requires s.verdict.None?
    ensures var t := React(cfg, s, ev);
            && (t.verdict.Some? <==> Ends(s, ev)) && (!Ends(s, ev) ==> t.ledger == s.ledger)
            && (Ends(s, ev) ==>
                  && Causes(ev, t.verdict.value) && t.version == s.version && t.tracker == s.tracker
                  && |t.ledger| == |s.ledger| + 1 && Front(t.ledger) == s.ledger
                  && Records(ev, s.version, Last(t.ledger)))
  {
    hide Causes, Records, HearAll;
    match ev
    case Message(_, ns) => HearKeepsLedger(cfg, s, ns);
    case Closed(_) =>
    case GateFires(_, _) =>
      hide React, Ends;
      GateIsDecided(cfg, s, ev);
    case _ =>
      hide React, Ends;
      ExitIsDecided(cfg, s, ev);
  }

  lemma {:induction false} HearKeepsLedger(cfg: Config, s: Sess, ns: seq<Notice>)
    ensures HearAll(cfg, s, ns).ledger == s.ledger && HearAll(cfg, s, ns).verdict == s.verdict
    ensures HearAll(cfg, s, ns).version == s.version
  {
    if ns != [] {
      HearKeepsLedger(cfg, s, Front(ns));
    }
  }

  lemma PlayOn(cfg: Config, s: Sess, evs: seq<Event>, i: nat)
    requires i < |evs|
    ensures Play(cfg, s, evs[..i + 1]) == React(cfg, Play(cfg, s, evs[..i]), evs[i])
  {
    hide React;
    assert Front(evs[..i + 1]) == evs[..i];
  }

  lemma OverIsOver(cfg: Config, s: Sess, ev: Event)
    requires s.verdict.Some?
    ensures React(cfg, s, ev) == s
  {
  }

  lemma {:induction false} VerdictIsFinal(cfg: Config, s: Sess, evs: seq<Event>, i: nat)
    requires i <= |evs| && Play(cfg, s, evs[..i]).verdict.Some?
    ensures Play(cfg, s, evs) == Play(cfg, s, evs[..i])
    decreases |evs| - i
  {
    hide React, Play;
    if i == |evs| {
      assert evs[..i] == evs;
    } else {
      PlayOn(cfg, s, evs, i);
      OverIsOver(cfg, Play(cfg, s, evs[..i]), evs[i]);
      VerdictIsFinal(cfg, s, evs, i + 1);
    }
  }

  /** None of the first `k` events ended the session. */
  predicate GoesOnFor(cfg: Config, s: Sess, evs: seq<Event>, k: nat)
    requires k <= |evs|
  {
    && (forall i :: 0 <= i <= k ==> Play(cfg, s, evs[..i]).verdict.None?)
    && forall i :: 0 <= i < k ==> !Ends(Play(cfg, s, evs[..i]), evs[i])
  }

  lemma {:induction false} FirstEnd(cfg: Config, s: Sess, evs: seq<Event>, i: nat) returns (k: nat)
    requires i <= |evs| && GoesOnFor(cfg, s, evs, i) && Play(cfg, s, evs).verdict.Some?
    ensures k < |evs| && GoesOnFor(cfg, s, evs, k) && Play(cfg, s, evs) == React(cfg, Play(cfg, s, evs[..k]), evs[k])
    decreases |evs| - i
  {
    hide React, Play, Ends, Causes, Records;
    assert evs[..|evs|] == evs;
    if i < |evs| {
      PlayOn(cfg, s, evs, i);
      EndIsDecided(cfg, Play(cfg, s, evs[..i]), evs[i]);
      if Play(cfg, s, evs[..i + 1]).verdict.Some? {
        k := i;
        VerdictIsFinal(cfg, s, evs, i + 1);
      } else {
        k := FirstEnd(cfg, s, evs, i + 1);
      }
    }
  }

  /** A session is ended by the first event that ends one: the verdict is the one this event causes, and its
      ledger entry records it. */
  lemma VerdictHasCause(cfg: Config, s: Sess, evs: seq<Event>) returns (k: nat)
    requires s.verdict.None? && Play(cfg, s, evs).verdict.Some?
    ensures k < |evs| && GoesOnFor(cfg, s, evs, k)
    ensures var before, after := Play(cfg, s, evs[..k]), Play(cfg, s, evs);
            && Ends(before, evs[k]) && Causes(evs[k], after.verdict.value)
            && |after.ledger| == |before.ledger| + 1 && Front(after.ledger) == before.ledger
            && Records(evs[k], before.version, Last(after.ledger))
  {
    hide React, Ends, Causes, Records;
    assert evs[..0] == [];
    k := FirstEnd(cfg, s, evs, 0);
    EndIsDecided(cfg, Play(cfg, s, evs[..k]), evs[k]);
  }

  // ----------------------------------------------- At every select, whatever happened

  predicate TimersMirrorState(s: Sess) {
    && (s.gateTimer.Set? <==> s.gate.Active())
    && (s.startTimer.Set? <==> !s.running)
    && (s.watchdog.Set? <==> s.running)
  }

  /** The gate timer never aims before the instant at which a tick decides. */
  predicate GateTimerNotBeforeDecision(s: Sess) {
    s.gateTimer.Set? ==> s.gateTimer.at >= s.gate.DecisionPoint()
  }

  predicate Begins(cfg: Config, s: Sess, born: Time, woken: Time) {
    s == Start(cfg, s.version, s.gate, s.tracker, s.ledger, born, woken)
  }

  lemma {:induction false} HearKeepsTimers(cfg: Config, s: Sess, ns: seq<Notice>)
    requires s.verdict.None? && TimersMirrorState(s) && GateTimerNotBeforeDecision(s)
    ensures var t := HearAll(cfg, s, ns);
            && t.verdict.None? && TimersMirrorState(t) && GateTimerNotBeforeDecision(t)
            && t.ledger == s.ledger && t.version == s.version && t.gate.deadline == s.gate.deadline
            && t.gate.Active() == s.gate.Active()
  {
    if ns != [] {
      HearKeepsTimers(cfg, s, Front(ns));
    }
  }

  /** As long as the session lasts: the gate timer is armed exactly when the gate is watching, the start
      timer exactly in Starting, the watchdog exactly in Running; and nothing is on the ledger yet. A
      session that is over added exactly one entry, a crash or a stop of its own version. */
  lemma {:induction false} TimersAndLedger(cfg: Config, s: Sess, evs: seq<Event>, born: Time, woken: Time)
    requires Begins(cfg, s, born, woken)
    ensures var t := Play(cfg, s, evs);
            && t.version == s.version
            && (t.verdict.None? ==> TimersMirrorState(t) && GateTimerNotBeforeDecision(t) && t.ledger == s.ledger)
            && (t.verdict.Some? ==> |t.ledger| == |s.ledger| + 1 && Front(t.ledger) == s.ledger
                                    && Closes(Last(t.ledger)) && Last(t.ledger).version == s.version)
  {
    if evs != [] {
      TimersAndLedger(cfg, s, Front(evs), born, woken);
      var t := Play(cfg, s, Front(evs));
      if t.verdict.None? && Last(evs).Message? {
        HearKeepsTimers(cfg, t, Last(evs).notices);
      }
    }
  }

  /** A gate timer that is not early always finds a decision: Tick never answers Pending. */
  lemma PendingIsNeverTaken(cfg: Config, s: Sess, evs: seq<Event>, born: Time, woken: Time, at: Time)
    requires Begins(cfg, s, born, woken)
    requires var t := Play(cfg, s, evs);
             t.verdict.None? && t.gateTimer.Set? && at >= t.gateTimer.at
    ensures Play(cfg, s, evs).gate.Tick(at).1 != Pending
  {
    TimersAndLedger(cfg, s, evs, born, woken);
  }

  // ------------------------------------------------------- With a real clock

  predicate Due(t: Timer, at: Time) {
    t.Set? && t.at <= at
  }

  /** `lag` bounds how late the loop may get to a timer that is due. */
  predicate Prompt(t: Timer, at: Time, lag: nat) {
    t.Set? ==> at <= t.at + lag
  }

  /** Readings inside one handler do not run backwards. */
  predicate Ordered(n: Notice, at: Time) {
    match n
    case Ready(marked, heard, woken) => at <= marked <= heard <= woken
    case Watchdog(beat) => at <= beat
    case Stopping => true
  }

  /** The event can arrive at this point of a run in which timers are never early and at most `lag` late. */
  predicate Arrives(s: Sess, ev: Event, lag: nat) {
    && Prompt(s.startTimer, ev.at, lag) && Prompt(s.watchdog, ev.at, lag) && Prompt(s.gateTimer, ev.at, lag)
    && (ev.StartFires? ==> Due(s.startTimer, ev.at))
    && (ev.WatchdogFires? ==> Due(s.watchdog, ev.at))
    && (ev.GateFires? ==> Due(s.gateTimer, ev.at))
    && (ev.Message? ==> forall i :: 0 <= i < |ev.notices| ==> Ordered(ev.notices[i], ev.at))
  }

  predicate OnTime(cfg: Config, s: Sess, evs: seq<Event>, lag: nat) {
    evs == [] || (OnTime(cfg, s, Front(evs), lag) && Arrives(Play(cfg, s, Front(evs)), Last(evs), lag))
  }

  function Heard(evs: seq<Event>): seq<Notice> {
    if evs == [] then []
    else Heard(Front(evs)) + if Last(evs).Message? then Last(evs).notices else []
  }

  /** The first READY: the one that counts. */
  function FirstReady(ns: seq<Notice>): (r: Option<Notice>)
    ensures r.Some? ==> r.value.Ready?
  {
    if ns == [] then None
    else if FirstReady(Front(ns)).Some? then FirstReady(Front(ns))
    else if Last(ns).Ready? then Some(Last(ns))
    else None
  }

  /** The last sign of life: the first READY, then every WATCHDOG after it. */
  function LastBeat(ns: seq<Notice>): Option<Time> {
    if ns == [] then None
    else if LastBeat(Front(ns)).None? then (if Last(ns).Ready? then Some(Last(ns).marked) else None)
    else if Last(ns).Watchdog? then Some(Last(ns).beat)
    else LastBeat(Front(ns))
  }

  /** max(deadline, session start, READY + 10 ms), by the reading at which the loop re-aimed the gate timer. */
  function GateLimit(deadline: Time, woken: Time, ready: Option<Notice>): Time
    requires ready.Some? ==> ready.value.Ready?
  {
    Max(Max(deadline, woken), if ready.Some? then ready.value.woken + 10 * MILLISECOND else woken)
  }

  predicate ClockTracksNotices(cfg: Config, s: Sess, born: Time, deadline: Time, woken: Time, ns: seq<Notice>) {
    && (s.running <==> LastBeat(ns).Some?) && (s.running <==> FirstReady(ns).Some?)
    && (!s.running ==> s.startTimer == Set(born + cfg.startTimeout))
    && (s.running ==> s.watchdog == Set(LastBeat(ns).value + cfg.watchdogInterval))
    && (s.gate.Active() ==> s.gate.deadline == deadline)
    && (s.gateTimer.Set? ==> s.gateTimer.at <= GateLimit(deadline, woken, FirstReady(ns)))
  }

  lemma {:induction false} HearTracks(cfg: Config, s: Sess, born: Time, deadline: Time, woken: Time,
                                      before: seq<Notice>, ns: seq<Notice>)
    requires s.verdict.None? && TimersMirrorState(s) && GateTimerNotBeforeDecision(s)
    requires ClockTracksNotices(cfg, s, born, deadline, woken, before)
    ensures ClockTracksNotices(cfg, HearAll(cfg, s, ns), born, deadline, woken, before + ns)
  {
    if ns == [] {
      assert before + ns == before;
    } else {
      HearTracks(cfg, s, born, deadline, woken, before, Front(ns));
      HearKeepsTimers(cfg, s, Front(ns));
      assert Front(before + ns) == before + Front(ns) && Last(before + ns) == Last(ns);
    }
  }

  lemma {:induction false} PlayTracks(cfg: Config, s: Sess, evs: seq<Event>, lag: nat, born: Time, woken: Time)
    requires Begins(cfg, s, born, woken) && OnTime(cfg, s, evs, lag)
    ensures var t := Play(cfg, s, evs);
            t.verdict.None? ==> ClockTracksNotices(cfg, t, born, s.gate.deadline, woken, Heard(evs))
  {
    if evs != [] {
      var front, ev := Front(evs), Last(evs);
      PlayTracks(cfg, s, front, lag, born, woken);
      TimersAndLedger(cfg, s, front, born, woken);
      var t := Play(cfg, s, front);
      if t.verdict.None? {
        if ev.Message? {
          HearTracks(cfg, t, born, s.gate.deadline, woken, Heard(front), ev.notices);
        } else {
          assert Heard(evs) == Heard(front);
          if ev.GateFires? {
            PendingIsNeverTaken(cfg, s, front, born, woken, ev.at);
          }
        }
      }
    }
  }

  /** What a session has told tracker and gate by now: the first READY, if there was one, started the steady
      period, and the stability period of a gate that was armed; later ones changed nothing. */
  predicate ToldOf(before: Sess, now: Sess, ready: Option<Notice>)
    requires ready.Some? ==> ready.value.Ready?
  {
    && (now.running <==> ready.Some?)
    && now.tracker == before.tracker.(running := if ready.Some? then ready.value.marked else before.tracker.running)
    && (!before.gate.Active() ==> now.gate == before.gate)
    && (now.gate.Active() ==>
          now.gate == if ready.None? then before.gate
                      else before.gate.(status := Stabilizing, readyAt := ready.value.heard))
    && (before.gate.Active() && !now.gate.Active() ==>
          ready.Some? && now.gate == before.gate.(status := Inactive, readyAt := ready.value.heard))
  }

  lemma {:induction false} HearTells(cfg: Config, before: Sess, s: Sess, heard: seq<Notice>, ns: seq<Notice>)
    requires before.gate.status in {Inactive, Armed}
    requires ToldOf(before, s, FirstReady(heard))
    ensures ToldOf(before, HearAll(cfg, s, ns), FirstReady(heard + ns))
  {
    if ns == [] {
      assert heard + ns == heard;
    } else {
      HearTells(cfg, before, s, heard, Front(ns));
      assert Front(heard + ns) == heard + Front(ns) && Last(heard + ns) == Last(ns);
    }
  }

  lemma OthersTellNothing(cfg: Config, before: Sess, s: Sess, ev: Event, ready: Option<Notice>)
    requires before.gate.status in {Inactive, Armed} && (ready.Some? ==> ready.value.Ready?)
    requires s.verdict.None? && ToldOf(before, s, ready) && !ev.Message? && React(cfg, s, ev).verdict.None?
    ensures ToldOf(before, React(cfg, s, ev), ready)
  {
  }

  /** The first READY counts, once: as long as a session lasts, its steady period is counted from the instant at
      which that READY was marked, its gate's stability from the instant at which the gate heard of it, and a gate
      that has passed is off. */
  lemma {:induction false} FirstReadyCounts(cfg: Config, s: Sess, evs: seq<Event>, born: Time, woken: Time)
    requires Begins(cfg, s, born, woken) && s.gate.status in {Inactive, Armed}
    requires Play(cfg, s, evs).verdict.None?
    ensures ToldOf(s, Play(cfg, s, evs), FirstReady(Heard(evs)))
  {
    if evs != [] {
      hide ToldOf;
      var front, ev := Front(evs), Last(evs);
      var t := Play(cfg, s, front);
      if t.verdict.Some? {
        OverIsOver(cfg, t, ev);
      }
      FirstReadyCounts(cfg, s, front, born, woken);
      if ev.Message? {
        HearTells(cfg, s, t, Heard(front), ev.notices);
      } else {
        assert Heard(evs) == Heard(front);
        OthersTellNothing(cfg, s, t, ev, FirstReady(Heard(front)));
      }
    }
  }

  /** If timers are never early and at most `lag` late, an event that arrives after
      max(deadline, session start, READY + 10 ms) + lag finds the gate decided (or the session over). */
  lemma GateDecidedInTime(cfg: Config, s: Sess, evs: seq<Event>, lag: nat, born: Time, woken: Time)
    requires evs != [] && Begins(cfg, s, born, woken) && OnTime(cfg, s, evs, lag)
    requires Last(evs).at > GateLimit(s.gate.deadline, woken, FirstReady(Heard(Front(evs)))) + lag
    ensures var t := Play(cfg, s, Front(evs));
            t.verdict.Some? || !t.gate.Active()
  {
    PlayTracks(cfg, s, Front(evs), lag, born, woken);
    TimersAndLedger(cfg, s, Front(evs), born, woken);
  }

  /** A worker that never says READY, or stops saying WATCHDOG, does not outlive its timeout. */
  lemma HungWorkerIsCaught(cfg: Config, s: Sess, evs: seq<Event>, lag: nat, born: Time, woken: Time)
    requires evs != [] && Begins(cfg, s, born, woken) && OnTime(cfg, s, evs, lag)
    requires var beat := LastBeat(Heard(Front(evs)));
             Last(evs).at > lag + if beat.None? then born + cfg.startTimeout else beat.value + cfg.watchdogInterval
    ensures Play(cfg, s, Front(evs)).verdict.Some?
  {
    PlayTracks(cfg, s, Front(evs), lag, born, woken);
  }

  /** A health timeout is only ever pronounced at or after the deadline, by a gate that was watching. */
  lemma {:induction false} HealthTimeoutIsLate(cfg: Config, s: Sess, evs: seq<Event>, born: Time, woken: Time)
    requires evs != [] && Begins(cfg, s, born, woken)
    requires Play(cfg, s, Front(evs)).verdict.None? && Play(cfg, s, evs).verdict == Some(HealthTimedOut)
    ensures s.gate.Active() && Last(evs).GateFires? && Last(evs).at >= s.gate.deadline
  {
    TimersAndLedger(cfg, s, Front(evs), born, woken);
    GateOnlyReadies(cfg, s, Front(evs), born, woken);
    var t := Play(cfg, s, Front(evs));
    if Last(evs).Message? {
      HearKeepsTimers(cfg, t, Last(evs).notices);
    }
  }

  /** While the session lasts, its gate is the one it began with, possibly READY, or off. */
  lemma {:induction false} GateOnlyReadies(cfg: Config, s: Sess, evs: seq<Event>, born: Time, woken: Time)
    requires Begins(cfg, s, born, woken)
    ensures var t := Play(cfg, s, evs);
            && t.gate.version == s.gate.version
            && (t.gate.Active() ==> s.gate.Active() && t.gate.deadline == s.gate.deadline)
  {
    if evs != [] {
      GateOnlyReadies(cfg, s, Front(evs), born, woken);
      TimersAndLedger(cfg, s, Front(evs), born, woken);
      var t := Play(cfg, s, Front(evs));
      if Last(evs).Message? && t.verdict.None? {
        HearKeepsGate(cfg, t, Last(evs).notices);
      }
    }
  }

  lemma {:induction false} HearKeepsGate(cfg: Config, s: Sess, ns: seq<Notice>)
    ensures var g := HearAll(cfg, s, ns).gate;
            g.version == s.gate.version && g.deadline == s.gate.deadline && g.Active() == s.gate.Active()
  {
    if ns != [] {
      HearKeepsGate(cfg, s, Front(ns));
    }
  }
}
