/** The supervisor as the source writes it (internal/supervisor/supervisor.go, loop.go): an object that owns
    gate, tracker and ledger, and loops over spawns. Every method is tied to the transition system: the ghost
    `world` is always the run of the choices made so far, and every real field agrees with it. */
module Supervisor {
  import opened Common
  import opened Disk
  import opened Machine
  import B = Backoff
  import L = Blacklist
  import W = Symlinks
  import G = Gate
  import T = CrashTracker
  import S = Session

  // ------------------------------------------ Runs of the helpers inside a run of the machine

  function Ios(faults: seq<bool>): seq<Choice> {
    seq(|faults|, i requires 0 <= i < |faults| => Io(faults[i]))
  }

  lemma SwapAtSteps(cfg: S.Config, w: World, swap: W.SwapPc, l: Links, fault: bool)
    requires w.pc.Swapping? && !swap.SwapDone?
    ensures var (swap', l') := W.SwapStep(swap, l, fault);
            Step(cfg, SwapAt(w, swap, l), Io(fault)) == SwapAt(w, swap', l')
  {
    hide W.SwapStep;
  }

  /** A swap's calls, up to its last one, are steps of the machine from the swap's first point on. */
  lemma {:induction false} SwapInside(cfg: S.Config, w: World, faults: seq<bool>) returns (n: nat)
    requires w.pc.Swapping? && w.pc.swap == W.ReadCurrent
    ensures var (swap, l) := W.RunSwap(w.disk.links, faults);
            && n <= |faults| && (!swap.SwapDone? ==> n == |faults|)
            && Run(cfg, w, Ios(faults[..n])) == SwapAt(w, swap, l)
  {
    hide Step;
    n := |faults|;
    assert faults[..n] == faults;
    if faults == [] {
      assert Ios(faults) == [];
    } else {
      var front := Front(faults);
      var m := SwapInside(cfg, w, front);
      var (swap, l) := W.RunSwap(w.disk.links, front);
      if swap.SwapDone? {
        n := m;
        assert front[..n] == faults[..n];
      } else {
        assert front[..m] == front && Ios(faults) == Ios(front) + [Io(Last(faults))];
        SwapAtSteps(cfg, w, swap, l, Last(faults));
        RunSnoc(cfg, w, Ios(front), Io(Last(faults)));
      }
    }
  }

  /** The world with the supervisor's save at point `save` over the list file `f`. */
  function SaveAt(w: World, save: L.SavePc, f: TmpFile<seq<Record>>): World
    requires w.pc.Blacklisting?
  {
    w.(disk := w.disk.(list := f),
       pc := if save.SaveDone? then Unmarking(w.pc.v, w.pc.reason) else w.pc.(save := save))
  }

  lemma SaveAtSteps(cfg: S.Config, w: World, save: L.SavePc, f: TmpFile<seq<Record>>, fault: bool)
    requires w.pc.Blacklisting? && !save.SaveDone?
    ensures var (save', f') := L.SaveStep(save, w.pc.list, f, fault);
            Step(cfg, SaveAt(w, save, f), Io(fault)) == SaveAt(w, save', f')
  {
    hide L.SaveStep;
  }

  /** The same for the supervisor's save of the blacklist. */
  lemma {:induction false} SaveInside(cfg: S.Config, w: World, faults: seq<bool>) returns (n: nat)
    requires w.pc.Blacklisting? && w.pc.save == L.MakeDir
    ensures var (save, f) := L.RunSave(w.pc.list, w.disk.list, faults);
            && n <= |faults| && (!save.SaveDone? ==> n == |faults|)
            && Run(cfg, w, Ios(faults[..n])) == SaveAt(w, save, f)
  {
    hide Step;
    n := |faults|;
    assert faults[..n] == faults;
    if faults == [] {
      assert Ios(faults) == [];
    } else {
      var front := Front(faults);
      var m := SaveInside(cfg, w, front);
      var (save, f) := L.RunSave(w.pc.list, w.disk.list, front);
      if save.SaveDone? {
        n := m;
        assert front[..n] == faults[..n];
      } else {
        assert front[..m] == front && Ios(faults) == Ios(front) + [Io(Last(faults))];
        SaveAtSteps(cfg, w, save, f, Last(faults));
        RunSnoc(cfg, w, Ios(front), Io(Last(faults)));
      }
    }
  }

  // ------------------------------------------ What the environment has in store

  /** The environment's answers for one iteration of the loop: what the context and the reads say, when clocks
      are read, what the session meets, and which of the calls that write fail. */
  datatype Round = Round(
    cancelled: bool, noCurrent: bool, noLabel: bool, noList: bool,
    noMarker: bool, noDelete: bool, preparedAt: Time,
    spawned: bool, born: Time, woken: Time,
    moves: seq<Choice>,
    endedAt: Time, listedAt: Time, listUnread: bool, saveFaults: seq<bool>, markerFault: bool,
    swapFaults: seq<bool>, sleepCancelled: bool)
  {
    function Resolving(): Choice {
      Resolve(cancelled, noCurrent, noLabel, noList)
    }

    function Preparing(): Choice {
      Prepare(noMarker, noDelete, preparedAt)
    }

    function Starting(): Choice {
      Spawn(spawned, born, woken)
    }

    function Listing(): Choice {
      LoadList(listedAt, listUnread)
    }

    /** The session meets events and moves of its worker; every call has its answer. */
    predicate Fits() {
      && (forall i :: 0 <= i < |moves| ==> IsMove(moves[i]))
      && |saveFaults| >= L.SAVE_CALLS && |swapFaults| >= W.SWAP_CALLS
    }

    /** The choice is one this round has in store. */
    predicate Holds(c: Choice) {
      || c == Resolving() || c == Preparing() || c == Starting() || c in moves || c == Act(endedAt)
      || c == Listing() || c.Io? || c == Wake(sleepCancelled)
    }
  }

  /** None of the first `n` moves is an exit of the worker or a shutdown. */
  predicate NoEndIn(moves: seq<Choice>, n: nat)
    requires n <= |moves|
  {
    forall i :: 0 <= i < n && moves[i].Receive? ==> !moves[i].ev.Exit? && !moves[i].ev.Shutdown?
  }

  /** A session over this script was ended by one of its events, with the verdict this event causes and before
      any later exit or shutdown; or it is still on, and the script holds neither. */
  predicate EndedBy(moves: seq<Choice>, verdict: Option<S.Verdict>) {
    match verdict
    case None => NoEndIn(moves, |moves|)
    case Some(v) =>
      exists k :: 0 <= k < |moves| && moves[k].Receive? && S.Causes(moves[k].ev, v) && NoEndIn(moves, k)
  }

  predicate IsMove(c: Choice) {
    c.Receive? || IsWorkerMove(c)
  }

  predicate IsWorkerMove(c: Choice) {
    c.WorkerAdds? || c.WorkerInstalls? || c.WorkerCall?
  }

  // ------------------------------------------ What an iteration makes of a round

  /** A whole swap. */
  function AfterSwap(w: World, r: Round): World {
    if w.pc.Swapping? then
      var (swap, l) := W.RunSwap(w.disk.links, r.swapFaults);
      SwapAt(w, swap, l)
    else w
  }

  /** What becomes of a rollback: back to the top with the links exchanged, a fresh crash budget and a rollback
      event, exactly when there are two distinct targets and no call fails; out with code 65 and a stop event,
      exactly when the reads find no second target; out with an error otherwise. Nothing else changes. */
  lemma SwapOutcome(w: World, r: Round)
    requires w.pc.Swapping? && w.pc.swap == W.ReadCurrent && r.Fits()
    ensures var w', l := AfterSwap(w, r), w.disk.links;
            && w' == w.(pc := w'.pc, sess := w'.sess, disk := w.disk.(links := w'.disk.links))
            && w'.pc in {Head, Returned(Code65), Returned(SwapError)}
            && (w'.pc == Head <==> W.CanSwap(l) && W.NoneFails(r.swapFaults, W.SWAP_CALLS))
            && (w'.pc == Head ==>
                  && w'.disk.links == W.SwapLinks(l)
                  && w'.sess == w.sess.(tracker := T.FRESH, ledger := w.sess.ledger
                                          + [S.Entry(S.RollbackEvent, w.pc.v, None, S.Because(w.pc.why))]))
            && (w'.pc == Returned(Code65) <==> W.FindsNoTarget(l, r.swapFaults))
            && (w'.pc == Returned(Code65) ==>
                  && w'.disk.links == l
                  && w'.sess == w.sess.(ledger := w.sess.ledger
                                          + [S.Entry(S.StopEvent, w.pc.v, None, S.NoTarget(w.pc.why))]))
            && (w'.pc == Returned(SwapError) ==> w'.sess == w.sess)
            && (!W.CanSwap(l) ==> w'.disk.links == l)
  {
    hide W.RunSwap, W.FindsNoTarget, W.NoneFails, W.SwapLinks;
    W.SwapSucceedsIff(w.disk.links, r.swapFaults);
    W.RefusedIff(w.disk.links, r.swapFaults);
    W.SwapEnds(w.disk.links, r.swapFaults);
    W.SwappedNeedsTargets(w.disk.links, r.swapFaults);
  }

  /** Loading, extending and saving the list. */
  function AfterAdd(w: World, r: Round): World {
    if w.pc.Failing? then
      var w1 := StepFailing(w, r.Listing());
      if w1.pc.Blacklisting? then
        var (save, f) := L.RunSave(w1.pc.list, w1.disk.list, r.saveFaults);
        SaveAt(w1, save, f)
      else w1
    else w
  }

  /** rollbackForInstallHealth. */
  function AfterHealthRollback(w: World, r: Round): World {
    var w1 := AfterAdd(w, r);
    if w1.pc.Unmarking? then AfterSwap(StepUnmarking(w1, r.markerFault), r) else w1
  }

  /** The top of the loop, up to a version to prepare, a rollback or a return. */
  function AfterResolve(w: World, r: Round): World {
    AfterSwap(StepHead(w, r.Resolving()), r)
  }

  /** The switch over the outcome of a spawn. */
  function AfterOutcome(cfg: S.Config, w: World, r: Round): World
    requires w.pc.Ended?
  {
    var w1 := StepOutcome(cfg, w, w.pc.v, w.pc.verdict, Act(r.endedAt));
    if w1.pc.Failing? then AfterHealthRollback(w1, r) else AfterSwap(w1, r)
  }

  /** The same, with the sleep some outcomes ask for. */
  function AfterEnd(cfg: S.Config, w: World, r: Round): World
    requires w.pc.Ended?
  {
    var w1 := AfterOutcome(cfg, w, r);
    if w1.pc.BackingOff? then Step(cfg, w1, Wake(r.sleepCancelled)) else w1
  }

  /** Gate, spawn and session; a session that is over ignores what the round still has in store for it. */
  function AfterSession(cfg: S.Config, w: World, r: Round): World {
    Run(cfg, Step(cfg, Step(cfg, w, r.Preparing()), r.Starting()), r.moves)
  }

  function AfterIteration(cfg: S.Config, w: World, r: Round): World {
    var w1 := AfterResolve(w, r);
    if !w1.pc.Gating? then w1
    else
      var w2 := AfterSession(cfg, w1, r);
      if w2.pc.Ended? then AfterEnd(cfg, w2, r) else w2
  }

  /** The loop over the rounds, until it returns or a session outlasts its round. */
  function AfterRounds(cfg: S.Config, w: World, rounds: seq<Round>): World {
    if rounds == [] then w
    else
      var w1 := AfterRounds(cfg, w, Front(rounds));
      if w1.pc == Head then AfterIteration(cfg, w1, Last(rounds)) else w1
  }

  function ExitOf(w: World): Option<Exit> {
    if w.pc.Returned? then Some(w.pc.exit) else None
  }

  /** A session that is over stays as it ended, whatever else its script holds. */
  lemma {:induction false} EndedSessionIgnores(cfg: S.Config, w: World, moves: seq<Choice>, k: nat)
    requires forall i :: 0 <= i < |moves| ==> IsMove(moves[i])
    requires k <= |moves| && Run(cfg, w, moves[..k]).pc.Ended?
    ensures Run(cfg, w, moves) == Run(cfg, w, moves[..k])
    decreases |moves| - k
  {
    if k == |moves| {
      assert moves[..k] == moves;
    } else {
      assert moves[..k + 1] == moves[..k] + [moves[k]];
      RunSnoc(cfg, w, moves[..k], moves[k]);
      EndedIgnores(cfg, Run(cfg, w, moves[..k]), moves[k]);
      EndedSessionIgnores(cfg, w, moves, k + 1);
    }
  }

  lemma EndedIgnores(cfg: S.Config, w: World, c: Choice)
    requires w.pc.Ended? && IsMove(c)
    ensures Step(cfg, w, c) == w
  {
  }

  /** A crash that no gate watches, counted. */
  lemma CrashCounts(cfg: S.Config, w: World, r: Round)
    requires w.pc.Ended? && w.pc.verdict == S.CrashExit && !w.sess.gate.Active()
    ensures var t := T.Recorded(cfg.backoff, w.sess.tracker, r.endedAt);
            var w1 := Step(cfg, w, Act(r.endedAt));
            && w1 == w.(sess := w.sess.(tracker := t),
                        pc := if T.CapReached(cfg.backoff, t) then Swapping(w.pc.v, S.CrashLoop, W.ReadCurrent)
                              else BackingOff(w.pc.v))
            && AfterOutcome(cfg, w, r) == AfterSwap(w1, r)
  {
    hide AfterSwap, AfterHealthRollback, T.Recorded;
  }

  /** The local variables of the event loop. */
  datatype Locals = Locals(running: bool, startTimer: S.Timer, watchdog: S.Timer, gateTimer: S.Timer)

  function SessOf(v: Version, t: Locals, gate: G.GateState, tracker: T.TrackerState, ledger: seq<S.Entry>): S.Sess {
    S.Sess(v, t.running, t.startTimer, t.watchdog, t.gateTimer, gate, tracker, ledger, None)
  }

  /** A move of the worker depends on disk, worker and its own label only. */
  lemma WorkerStepIsLocal(w: World, u: World, c: Choice)
    requires w.worker.Alive? && u.worker == w.worker && u.disk == w.disk && u.sess.version == w.sess.version
    ensures StepWorker(w, c).disk == StepWorker(u, c).disk && StepWorker(w, c).worker == StepWorker(u, c).worker
    ensures StepWorker(w, c).sess == w.sess && StepWorker(w, c).pc == w.pc
  {
  }

  /** A received event that ends the session. */
  lemma ReceiveEnds(cfg: S.Config, w: World, v: Version, c: Choice, g: G.GateState, e: S.Entry, verdict: S.Verdict)
    requires w.pc == Live(v) && c.Receive? && !GatePasses(w.sess, c.ev)
    requires S.React(cfg, w.sess, c.ev) == S.Finish(w.sess.(gate := g), e, verdict)
    ensures var w' := Step(cfg, w, c);
            && w'.pc == Ended(v, verdict) && w'.disk == w.disk && w'.worker == Gone
            && w'.sess.gate == g && w'.sess.tracker == w.sess.tracker && w'.sess.ledger == w.sess.ledger + [e]
  {
  }

  /** A received event is the session model's business. */
  lemma ReceiveReacts(cfg: S.Config, w: World, v: Version, c: Choice)
    requires w.pc == Live(v) && c.Receive?
    ensures var s, w' := S.React(cfg, w.sess, c.ev), Step(cfg, w, c);
            w'.sess == s && w'.pc == if s.verdict.Some? then Ended(v, s.verdict.value) else Live(v)
  {
    hide S.React;
  }

  /** A received event after which the session goes on. */
  lemma ReceiveStays(cfg: S.Config, w: World, v: Version, c: Choice)
    requires w.pc == Live(v) && c.Receive? && S.React(cfg, w.sess, c.ev).verdict.None?
    ensures var w' := Step(cfg, w, c);
            && w'.pc == w.pc && w'.worker == w.worker && w'.sess == S.React(cfg, w.sess, c.ev)
            && w'.disk == if GatePasses(w.sess, c.ev)
                          then w.disk.(marker := Unlink(w.disk.marker, c.noDelete).0) else w.disk
  {
  }

  // The methods below extend the run one choice at a time and never look into it, so most of them hide `Run`.
  class Supervisor {
    const cfg: S.Config
    const root: InstallRoot
    const gate: G.HealthGate
    const tracker: T.Tracker
    /** The worker process, and what it has in flight on the root. */
    var worker: Worker
    var ledger: seq<S.Entry>
    ghost var birth: World
    ghost var choices: seq<Choice>
    ghost var world: World

    ghost predicate Valid()
      reads this, root, gate, tracker, tracker.buf
    {
      && tracker.Valid() && tracker.policy == cfg.backoff
      && birth == Boot(cfg, birth.disk, birth.sess.ledger)
      && world == Run(cfg, birth, choices) && NoRestarts(choices)
      && world.disk == root.Contents()
      && world.worker == worker
      && world.sess.gate == gate.State()
      && world.sess.tracker == tracker.State()
      && world.sess.ledger == ledger
    }

    /** What every method keeps: the same run, longer, by choices of the round; a restart is the start of another
        object's run. */
    twostate predicate Continues(r: Round)
      reads this, tracker
    {
      && birth == old(birth) && old(choices) <= choices
      && (forall i :: |old(choices)| <= i < |choices| ==> r.Holds(choices[i]))
      && (tracker.buf == old(tracker.buf) || fresh(tracker.buf))
    }

    constructor (c: S.Config, r: InstallRoot, history: seq<S.Entry>)
      ensures Valid() && cfg == c && root == r && fresh(gate) && fresh(tracker) && fresh(tracker.buf)
      ensures birth == world == Boot(c, r.Contents(), history) && choices == []
    {
      cfg, root := c, r;
      gate := new G.HealthGate(c.gateWindow, c.gateStableFor);
      tracker := new T.Tracker(c.backoff);
      worker, ledger := Gone, history;
      birth := Boot(c, r.Contents(), history);
      world := Boot(c, r.Contents(), history);
      choices := [];
    }

    ghost method Chose(c: Choice)
      requires world == Run(cfg, birth, choices) && NoRestarts(choices) && !c.Restart?
      modifies this`world, this`choices
      ensures NoRestarts(choices)
      ensures world == Step(cfg, old(world), c) == Run(cfg, birth, choices)
      ensures choices == old(choices) + [c]
    {
      RunSnoc(cfg, birth, choices, c);
      world := Step(cfg, world, c);
      choices := choices + [c];
    }

    ghost method ChoseAll(cs: seq<Choice>)
      requires world == Run(cfg, birth, choices) && NoRestarts(choices) && NoRestarts(cs)
      modifies this`world, this`choices
      ensures NoRestarts(choices)
      ensures world == Run(cfg, old(world), cs) == Run(cfg, birth, choices)
      ensures choices == old(choices) + cs
    {
      RunConcat(cfg, birth, choices, cs);
      world := Run(cfg, world, cs);
      choices := choices + cs;
    }

    method RecordHistory(e: S.Entry)
      modifies this`ledger
      ensures ledger == old(ledger) + [e]
    {
      ledger := ledger + [e];
    }

    /** Swap the links; on success a fresh budget and a rollback event, otherwise the loop's exit. */
    method Rollback(v: Version, why: S.Why, r: Round) returns (exit: Option<Exit>)
      requires Valid() && world.pc == Swapping(v, why, W.ReadCurrent) && r.Fits()
      modifies this, root, tracker
      ensures Valid() && Continues(r)
      ensures world == AfterSwap(old(world), r) && exit == ExitOf(world)
      ensures world.pc == match exit case None => Head case Some(e) => Returned(e)
      ensures exit == None <==> W.CanSwap(old(root.links)) && W.NoneFails(r.swapFaults, W.SWAP_CALLS)
      ensures exit == None ==>
                && root.links == W.SwapLinks(old(root.links)) && tracker.State() == T.FRESH
                && ledger == old(ledger) + [S.Entry(S.RollbackEvent, v, None, S.Because(why))]
      ensures exit == Some(Code65) <==> W.FindsNoTarget(old(root.links), r.swapFaults)
      ensures exit == Some(Code65) ==>
                && root.links == old(root.links) && tracker.State() == old(tracker.State())
                && ledger == old(ledger) + [S.Entry(S.StopEvent, v, None, S.NoTarget(why))]
      ensures exit in {None, Some(Code65), Some(SwapError)}
      ensures exit == Some(SwapError) ==> tracker.State() == old(tracker.State()) && ledger == old(ledger)
    {
      hide Run, W.FindsNoTarget, W.NoneFails, W.SwapLinks, W.CanSwap;
      SwapOutcome(world, r);
      ghost var w := world;
      var result := W.SwapCurrentPrevious(root, r.swapFaults);
      ghost var n := SwapInside(cfg, w, r.swapFaults);
      ChoseAll(Ios(r.swapFaults[..n]));
      match result {
        case Swapped =>
          tracker.Reset();
          RecordHistory(S.Entry(S.RollbackEvent, v, None, S.Because(why)));
          exit := None;
        case NoRollbackTarget =>
          RecordHistory(S.Entry(S.StopEvent, v, None, S.NoTarget(why)));
          exit := Some(Code65);
        case SwapFailed =>
          exit := Some(SwapError);
      }
    }

    /** Blacklist, drop the marker, reset the gate, roll back; no failed step keeps the next from running. */
    method RollbackForInstallHealth(v: Version, reason: G.FailReason, r: Round) returns (exit: Option<Exit>)
      requires Valid() && world.pc == Failing(v, reason) && r.Fits()
      modifies this, root, gate, tracker
      ensures Valid() && Continues(r)
      ensures world == AfterHealthRollback(old(world), r) && exit == ExitOf(world)
      ensures world.pc == match exit case None => Head case Some(e) => Returned(e)
    {
      hide Run, AfterSwap, AfterAdd;
      AddToBlacklist(v, reason, r);
      DropMarker(v, reason, r);
      exit := Rollback(v, S.HealthFailed(reason), r);
    }

    method DropMarker(v: Version, reason: G.FailReason, r: Round)
      requires Valid() && world.pc == Unmarking(v, reason)
      modifies this`world, this`choices, root`marker, gate
      ensures Valid() && Continues(r) && world == StepUnmarking(old(world), r.markerFault)
      ensures world.pc == Swapping(v, S.HealthFailed(reason), W.ReadCurrent)
    {
      hide Run;
      root.marker := Unlink(root.marker, r.markerFault).0;
      gate.Reset();
      Chose(Io(r.markerFault));
    }

    /** blacklist.Add as the supervisor calls it; an error is logged and forgotten. */
    method AddToBlacklist(v: Version, reason: G.FailReason, r: Round)
      requires Valid() && world.pc == Failing(v, reason) && r.Fits()
      modifies this`world, this`choices, root`list
      ensures Valid() && Continues(r)
      ensures world == AfterAdd(old(world), r) && world.pc == Unmarking(v, reason)
    {
      hide Run;
      var existing := L.Load(root.list, r.listUnread);
      Chose(r.Listing());
      if v == "" || existing == None {
        return;
      }
      var list := L.UpsertScan(existing.value, Record(v, r.listedAt, ReasonText(reason)));
      SaveList(v, reason, list, r);
    }

    method SaveList(v: Version, reason: G.FailReason, list: seq<Record>, r: Round)
      requires Valid() && world.pc == Blacklisting(v, reason, list, L.MakeDir) && r.Fits()
      modifies this`world, this`choices, root`list
      ensures Valid() && Continues(r) && world.pc == Unmarking(v, reason)
      ensures var (save, f) := L.RunSave(list, old(root.list), r.saveFaults); world == SaveAt(old(world), save, f)
    {
      hide Run, Step;
      ghost var w := world;
      var ok := L.Save(root, list, r.saveFaults);
      ghost var n := SaveInside(cfg, w, r.saveFaults);
      ChoseAll(Ios(r.saveFaults[..n]));
    }

    /** The label of the version `current` names; `noLabel` if only the label could not be read. */
    method ReadCurrentLabel(noCurrent: bool, noLabel: bool) returns (v: Option<Version>)
      ensures v == if noCurrent || Current !in root.links then None
                   else Some(if noLabel then UNREADABLE_LABEL else root.links[Current].base)
    {
      if noCurrent || Current !in root.links {
        return None;
      }
      v := Some(if noLabel then UNREADABLE_LABEL else root.links[Current].base);
    }

    /** Whether the list on disk has `v`; a list that cannot be read blocks nothing. */
    method IsBlacklisted(v: Version, noList: bool) returns (blocked: bool)
      ensures var list := L.Load(root.list, noList);
              blocked <==> list.Some? && L.Contains(list.value, v)
    {
      blocked := false;
      var list := L.Load(root.list, noList);
      if v != "" && list.Some? {
        blocked := L.ContainsScan(list.value, v);
      }
    }

    /** Resolve `current` and consult the blacklist. `None` means the iteration ends here, with the loop's exit
        or after a rollback. */
    method ResolveWorker(r: Round) returns (version: Option<Version>, exit: Option<Exit>)
      requires Valid() && world.pc == Head && r.Fits()
      modifies this, root, tracker
      ensures Valid() && Continues(r) && world == AfterResolve(old(world), r)
      ensures version == (if world.pc.Gating? then Some(world.pc.v) else None) && exit == ExitOf(world)
      ensures version.None? ==> world.pc == match exit case None => Head case Some(e) => Returned(e)
    {
      hide Run, AfterSwap;
      var v := ReadCurrentLabel(r.noCurrent, r.noLabel);
      if r.cancelled || v == None {
        Chose(r.Resolving());
        NoSwap(world, r);
        return None, Some(if r.cancelled then Cancelled else NoCurrent);
      }
      version, exit := CheckBlacklist(v.value, r);
    }

    /** A listed version is rolled back; any other is the one to spawn. */
    method CheckBlacklist(v: Version, r: Round) returns (version: Option<Version>, exit: Option<Exit>)
      requires Valid() && world.pc == Head && !r.cancelled && !r.noCurrent && r.Fits()
      requires Current in root.links && v == if r.noLabel then UNREADABLE_LABEL else root.links[Current].base
      modifies this, root, tracker
      ensures Valid() && Continues(r) && world == AfterResolve(old(world), r)
      ensures var list := old(L.Load(root.list, r.noList));
              if list.Some? && L.Contains(list.value, v) then
                version == None && exit == ExitOf(world)
                && root.links == W.RunSwap(old(root.links), r.swapFaults).1
              else version == Some(v) && exit == None && world.pc == Gating(v) && root.links == old(root.links)
      ensures version.None? ==> world.pc == match exit case None => Head case Some(e) => Returned(e)
    {
      hide Run;
      var blocked := IsBlacklisted(v, r.noList);
      Chose(r.Resolving());
      if blocked {
        exit := Rollback(v, S.Blacklisted, r);
        version := None;
      } else {
        version, exit := Some(v), None;
      }
    }

    method PrepareGate(version: Version, r: Round)
      requires Valid() && world.pc == Gating(version)
      modifies this`world, this`choices, root`marker, gate
      ensures Valid() && Continues(r) && world.pc == Spawning(version)
      ensures world == Step(cfg, old(world), r.Preparing())
    {
      hide Run;
      gate.Reset();
      if !r.noMarker && root.marker.file.Whole? && root.marker.file.content.version != "" {
        var m := root.marker.file.content;
        var armed := false;
        if m.version == version {
          armed := gate.Arm(version, m.installedAt, r.preparedAt);
        }
        if !armed {
          root.marker := Unlink(root.marker, r.noDelete).0;
        }
      }
      Chose(r.Preparing());
    }

    /** Act on the outcome of a spawn. `backoff` asks for a sleep before the next iteration. */
    method HandleOutcome(version: Version, verdict: S.Verdict, r: Round)
      returns (exit: Option<Exit>, backoff: Option<nat>)
      requires Valid() && world.pc == Ended(version, verdict) && r.Fits()
      modifies this, root, gate, tracker, tracker.buf
      ensures Valid() && Continues(r) && world == AfterOutcome(cfg, old(world), r) && exit == ExitOf(world)
      ensures backoff.Some? ==> world.pc == BackingOff(version) && backoff.value == |world.sess.tracker.crashes|
      ensures backoff.None? ==> world.pc == match exit case None => Head case Some(e) => Returned(e)
    {
      hide Run, AfterOutcome;
      exit, backoff := None, None;
      match verdict {
        case Stopped => exit := HandleEnd(version, verdict, r);
        case NoRestartExit => exit := HandleEnd(version, verdict, r);
        case RollbackExit => exit := HandleRequest(version, verdict, r);
        case HealthTimedOut => exit := HandleRequest(version, verdict, r);
        case SpawnFailure => exit := HandleSpawnFailure(version, r);
        case CrashExit => exit, backoff := HandleCrash(version, r);
      }
    }

    /** The outcomes that end the loop. */
    method HandleEnd(version: Version, verdict: S.Verdict, r: Round) returns (exit: Option<Exit>)
      requires Valid() && world.pc == Ended(version, verdict) && (verdict == S.Stopped || verdict == S.NoRestartExit)
      modifies this
      ensures Valid() && Continues(r) && world == AfterOutcome(cfg, old(world), r)
      ensures exit == Some(if verdict == S.Stopped then Cancelled else Code64) && world.pc == Returned(exit.value)
    {
      hide Run;
      if verdict == S.NoRestartExit {
        RecordHistory(S.Entry(S.StopEvent, version, Some(64), S.AskedToStop));
      }
      Chose(Act(r.endedAt));
      exit := Some(if verdict == S.Stopped then Cancelled else Code64);
    }

    /** The worker asked for a rollback, or its gate ran out of time. */
    method HandleRequest(version: Version, verdict: S.Verdict, r: Round) returns (exit: Option<Exit>)
      requires Valid() && world.pc == Ended(version, verdict) && r.Fits()
      requires verdict == S.RollbackExit || verdict == S.HealthTimedOut
      modifies this, root, gate, tracker
      ensures Valid() && Continues(r) && world == AfterOutcome(cfg, old(world), r) && exit == ExitOf(world)
      ensures world.pc == match exit case None => Head case Some(e) => Returned(e)
    {
      hide Run, AfterSwap, AfterHealthRollback;
      Chose(Act(r.endedAt));
      if verdict == S.RollbackExit {
        exit := Rollback(version, S.RollbackRequested, r);
      } else {
        exit := RollbackForInstallHealth(version, G.HealthTimeout, r);
      }
    }

    /** A worker that cannot be started is not retried. */
    method HandleSpawnFailure(version: Version, r: Round) returns (exit: Option<Exit>)
      requires Valid() && world.pc == Ended(version, S.SpawnFailure) && r.Fits()
      modifies this, root, gate, tracker
      ensures Valid() && Continues(r) && world == AfterOutcome(cfg, old(world), r) && exit == ExitOf(world)
      ensures world.pc == match exit case None => Head case Some(e) => Returned(e)
    {
      hide Run, AfterSwap, AfterHealthRollback;
      Chose(Act(r.endedAt));
      if gate.IsActive() {
        exit := RollbackForInstallHealth(version, G.HealthSpawnFailed, r);
      } else {
        exit := Rollback(version, S.SpawnFailed, r);
      }
    }

    /** The gate takes precedence over the crash budget. */
    method HandleCrash(version: Version, r: Round) returns (exit: Option<Exit>, backoff: Option<nat>)
      requires Valid() && world.pc == Ended(version, S.CrashExit) && r.Fits()
      modifies this, root, gate, tracker, tracker.buf
      ensures Valid() && Continues(r) && world == AfterOutcome(cfg, old(world), r) && exit == ExitOf(world)
      ensures backoff.Some? ==> world.pc == BackingOff(version) && backoff.value == |world.sess.tracker.crashes|
      ensures backoff.None? ==> world.pc == match exit case None => Head case Some(e) => Returned(e)
    {
      hide Run, AfterSwap, AfterHealthRollback;
      if gate.IsActive() {
        var _ := gate.OnCrash();
        Chose(Act(r.endedAt));
        exit := RollbackForInstallHealth(version, G.HealthCrash, r);
        backoff := None;
      } else {
        exit, backoff := CountCrash(version, r);
      }
    }

    /** A crash with no gate watching: count it, and roll back at the cap. */
    method CountCrash(version: Version, r: Round) returns (exit: Option<Exit>, backoff: Option<nat>)
      requires Valid() && world.pc == Ended(version, S.CrashExit) && !gate.State().Active() && r.Fits()
      modifies this, root, tracker, tracker.buf
      ensures Valid() && Continues(r) && world == AfterOutcome(cfg, old(world), r) && exit == ExitOf(world)
      ensures backoff.Some? ==> world.pc == BackingOff(version) && backoff.value == |world.sess.tracker.crashes|
      ensures backoff.None? ==> world.pc == match exit case None => Head case Some(e) => Returned(e)
    {
      hide Run, AfterSwap, AfterOutcome, Step, T.Recorded;
      CrashCounts(cfg, world, r);
      exit, backoff := None, None;
      tracker.RecordCrash(r.endedAt);
      Chose(Act(r.endedAt));
      if tracker.ShouldRollback() {
        exit := Rollback(version, S.CrashLoop, r);
      } else {
        NoSwap(world, r);
        backoff := Some(tracker.Consecutive());
      }
    }

    // --------------------------------------------------------------- One spawn

    /** The machine is in this session, and its session state is what gate, tracker, ledger and the local
        variables of the event loop hold. */
    ghost predicate InSession(v: Version, t: Locals)
      reads this, root, gate, tracker, tracker.buf
    {
      && Valid() && world.pc == Live(v) && worker.Alive?
      && world.sess == SessOf(v, t, gate.State(), tracker.State(), ledger)
    }

    /** Where an event leaves the object: at the verdict of the session, or still in it. */
    ghost predicate After(v: Version, t: Locals, verdict: Option<S.Verdict>)
      reads this, root, gate, tracker, tracker.buf
    {
      if verdict.Some? then Valid() && world.pc == Ended(v, verdict.value) else InSession(v, t)
    }

    /** The step the machine took last was `c`, and nothing else happened. */
    twostate predicate Took(c: Choice)
      reads this, tracker
    {
      && birth == old(birth) && choices == old(choices) + [c] && world == Step(cfg, old(world), c)
      && tracker.buf == old(tracker.buf)
    }

    method BeginSession(v: Version, r: Round) returns (t: Locals, failed: bool)
      requires Valid() && world.pc == Spawning(v)
      modifies this
      ensures Valid() && Took(r.Starting())
      ensures failed == !r.spawned
      ensures failed ==> ledger == old(ledger) + [S.Entry(S.SpawnEvent, v, None, S.Plain),
                                                  S.Entry(S.CrashEvent, v, Some(71), S.FailedToSpawn)]
      ensures if failed then world.pc == Ended(v, S.SpawnFailure) else InSession(v, t)
    {
      hide Run;
      failed := !r.spawned;
      if failed {
        RecordHistory(SpawnEntry(v));
        RecordHistory(SpawnFailedEntry(v));
        SpawnEffect(cfg, world, r.Starting());
        Chose(r.Starting());
        t := Locals(false, S.Off, S.Off, S.Off);
      } else {
        t := StartWorker(v, r);
      }
    }

    method StartWorker(v: Version, r: Round) returns (t: Locals)
      requires Valid() && world.pc == Spawning(v) && r.spawned
      modifies this
      ensures InSession(v, t) && Took(r.Starting())
    {
      hide Run;
      RecordHistory(SpawnEntry(v));
      worker := Alive(NoAdd, NoInstall);
      t := Locals(false, S.Set(r.born + cfg.startTimeout), S.Off,
                  if gate.IsActive() then S.Set(r.woken + gate.NextWake(r.woken)) else S.Off);
      SpawnEffect(cfg, world, r.Starting());
      Chose(r.Starting());
    }

    /** The session is over: one ledger entry, and the worker is reaped. */
    method EndSession(v: Version, e: S.Entry, ghost g: G.GateState, ghost c: Choice, ghost verdict: S.Verdict)
      requires tracker.Valid() && tracker.policy == cfg.backoff
      requires birth == Boot(cfg, birth.disk, birth.sess.ledger)
      requires world == Run(cfg, birth, choices) && NoRestarts(choices)
      requires world.disk == root.Contents() && world.pc == Live(v)
      requires gate.State() == g && world.sess.tracker == tracker.State() && world.sess.ledger == ledger
      requires c.Receive? && !GatePasses(world.sess, c.ev)
      requires S.React(cfg, world.sess, c.ev) == S.Finish(world.sess.(gate := g), e, verdict)
      modifies this
      ensures Valid() && Took(c) && world.pc == Ended(v, verdict)
      ensures ledger == old(ledger) + [e]
    {
      hide Run;
      RecordHistory(e);
      worker := Gone;
      ReceiveEnds(cfg, world, v, c, g, e, verdict);
      Chose(c);
    }

    /** classifyOutcome, with the deferred end of the session. */
    method ClassifyOutcome(v: Version, t: Locals, info: S.ExitInfo, cls: S.Class, ghost c: Choice)
      returns (verdict: S.Verdict)
      requires InSession(v, t) && c.Receive? && !c.ev.GateFires?
      requires S.React(cfg, world.sess, c.ev) == S.Conclude(world.sess, info, cls)
      modifies this
      ensures Valid() && Took(c) && world.pc == Ended(v, verdict)
      ensures ledger == old(ledger) + [S.CrashOf(v, info, cls)]
      ensures verdict == S.VerdictOf(cls)
    {
      match cls {
        case NoRestart => verdict := S.NoRestartExit;
        case RollbackAsked => verdict := S.RollbackExit;
        case _ => verdict := S.CrashExit;
      }
      var e := S.Entry(S.CrashEvent, v, Some(info.code), S.Exited(cls, info.signaled));
      assert world.sess.(gate := gate.State()) == world.sess;
      EndSession(v, e, gate.State(), c, verdict);
    }

    /** The gate timer fired. `noDelete`: if the gate passes, its marker cannot be deleted. */
    method OnGateTimer(v: Version, t: Locals, at: Time, info: S.ExitInfo, noDelete: bool)
      returns (t': Locals, verdict: Option<S.Verdict>)
      requires InSession(v, t) && t.gateTimer.Set?
      modifies this, gate, root`marker
      ensures After(v, t', verdict) && Took(Receive(S.GateFires(at, info), noDelete))
    {
      var out := gate.Tick(at);
      if out == G.TimedOut {
        var e := S.Entry(S.CrashEvent, v, Some(info.code), S.GateTimedOut);
        EndSession(v, e, gate.State(), Receive(S.GateFires(at, info), noDelete), S.HealthTimedOut);
        t', verdict := t, Some(S.HealthTimedOut);
      } else {
        t' := AfterTick(v, t, at, info, out, noDelete);
        verdict := None;
      }
    }

    /** What the tick changes if the session goes on: a pass drops the marker and turns the gate off. */
    method AfterTick(v: Version, t: Locals, at: Time, info: S.ExitInfo, out: G.Outcome, noDelete: bool)
      returns (t': Locals)
      requires tracker.Valid() && tracker.policy == cfg.backoff && worker.Alive?
      requires birth == Boot(cfg, birth.disk, birth.sess.ledger)
      requires world == Run(cfg, birth, choices) && NoRestarts(choices)
      requires world.disk == root.Contents() && world.worker == worker
      requires world.pc == Live(v) && t.gateTimer.Set? && world.sess.gateTimer.Set?
      requires world.sess == SessOf(v, t, world.sess.gate, tracker.State(), ledger)
      requires (gate.State(), out) == world.sess.gate.Tick(at) && out != G.TimedOut
      modifies this`world, this`choices, gate, root`marker
      ensures InSession(v, t') && Took(Receive(S.GateFires(at, info), noDelete))
    {
      hide Run;
      ghost var ev := S.GateFires(at, info);
      ghost var s := world.sess;
      if out == G.Pass {
        root.marker := Unlink(root.marker, noDelete).0;
        gate.Reset();
        t' := t.(gateTimer := S.Off);
      } else {
        t' := t.(gateTimer := if gate.IsActive() then S.Set(at + S.ClampWake(gate.NextWake(at))) else S.Off);
      }
      assert S.React(cfg, s, ev) == SessOf(v, t', gate.State(), tracker.State(), ledger);
      ReceiveStays(cfg, world, v, Receive(ev, noDelete));
      Chose(Receive(ev, noDelete));
    }

    /** One notify key. `s` is the session state before it. */
    method OnNotice(v: Version, t: Locals, n: S.Notice, ghost s: S.Sess) returns (t': Locals)
      requires tracker.Valid() && s == SessOf(v, t, gate.State(), tracker.State(), ledger)
      modifies gate, tracker`running
      ensures tracker.Valid() && S.Hear(cfg, s, n) == SessOf(v, t', gate.State(), tracker.State(), ledger)
    {
      t' := t;
      match n {
        case Ready(marked, heard, woken) =>
          if !t.running {
            tracker.MarkRunning(marked);
            t' := t.(running := true, startTimer := S.Off, watchdog := S.Set(marked + cfg.watchdogInterval));
            if gate.IsActive() {
              gate.OnReady(heard);
              t' := t'.(gateTimer := S.Set(woken + S.ClampWake(gate.NextWake(woken))));
            }
          }
        case Watchdog(beat) =>
          if t.running {
            t' := t.(watchdog := S.Set(beat + cfg.watchdogInterval));
          }
        case Stopping =>
      }
    }

    method OnMessage(v: Version, t: Locals, ns: seq<S.Notice>, ghost c: Choice) returns (t': Locals)
      requires InSession(v, t) && c.Receive? && c.ev.Message? && c.ev.notices == ns
      modifies this`world, this`choices, gate, tracker`running
      ensures InSession(v, t') && Took(c)
    {
      hide Run;
      ghost var s := world.sess;
      t' := t;
      for i := 0 to |ns|
        invariant tracker.Valid() && tracker.buf == old(tracker.buf)
        invariant world == old(world) && choices == old(choices)
        invariant S.HearAll(cfg, s, ns[..i]) == SessOf(v, t', gate.State(), tracker.State(), ledger)
      {
        assert Front(ns[..i + 1]) == ns[..i];
        t' := OnNotice(v, t', ns[i], S.HearAll(cfg, s, ns[..i]));
      }
      assert ns[..|ns|] == ns;
      ReceiveStays(cfg, world, v, c);
      Chose(c);
    }

    /** The worker makes one move on the shared root. */
    method WorkerMoves(v: Version, t: Locals, c: Choice)
      requires InSession(v, t) && IsWorkerMove(c)
      modifies this, root
      ensures InSession(v, t) && Took(c)
    {
      hide Run;
      var view := World(Live(v), root.Contents(), worker,
                        S.Sess(v, false, S.Off, S.Off, S.Off, G.Fresh(0, 0), T.FRESH, [], None), 0, 0);
      var after := StepWorker(view, c);
      WorkerStepIsLocal(world, view, c);
      root.Become(after.disk);
      worker := after.worker;
      Chose(c);
    }

    /** One receive of the select: it ends the session exactly if the event is one that does, with the verdict
        and the one ledger entry of that event. */
    method Select(v: Version, t: Locals, c: Choice) returns (t': Locals, verdict: Option<S.Verdict>)
      requires InSession(v, t) && c.Receive?
      modifies this, gate, tracker`running, root`marker
      ensures After(v, t', verdict) && Took(c)
      ensures verdict.Some? <==> S.Ends(old(world.sess), c.ev)
      ensures verdict.Some? ==>
                && S.Causes(c.ev, verdict.value)
                && |ledger| == |old(ledger)| + 1 && Front(ledger) == old(ledger) && S.Records(c.ev, v, Last(ledger))
      ensures verdict.None? ==> ledger == old(ledger)
    {
      hide S.Ends, S.Causes, S.Records;
      S.EndIsDecided(cfg, world.sess, c.ev);
      ReceiveReacts(cfg, world, v, c);
      t', verdict := TakeEvent(v, t, c);
    }

    method TakeEvent(v: Version, t: Locals, c: Choice) returns (t': Locals, verdict: Option<S.Verdict>)
      requires InSession(v, t) && c.Receive?
      modifies this, gate, tracker`running, root`marker
      ensures After(v, t', verdict) && Took(c)
    {
      t', verdict := t, None;
      match c.ev {
        case Shutdown(at, info) =>
          var e := S.Entry(S.StopEvent, v, Some(info.code), S.Plain);
          EndSession(v, e, gate.State(), c, S.Stopped);
          verdict := Some(S.Stopped);
        case Exit(at, info) =>
          var cls := S.Classify(info);
          if cls == S.Graceful {
            cls := S.Unexpected;
          }
          var end := ClassifyOutcome(v, t, info, cls, c);
          verdict := Some(end);
        case StartFires(at, info) =>
          t', verdict := OnStartTimer(v, t, info, c);
        case WatchdogFires(at, info) =>
          verdict := OnWatchdog(v, t, info, c);
        case GateFires(at, info) =>
          if t.gateTimer.Set? {
            t', verdict := OnGateTimer(v, t, at, info, c.noDelete);
          } else {
            Ignore(v, t, c);
          }
        case Message(at, ns) =>
          t' := OnMessage(v, t, ns, c);
        case Closed(at) =>
          Ignore(v, t, c);
      }
    }

    /** An event that changes nothing: the closed channel, or a timer that is off. */
    ghost method Ignore(v: Version, t: Locals, c: Choice)
      requires InSession(v, t) && c.Receive? && S.React(cfg, world.sess, c.ev) == world.sess
      requires c.ev.GateFires? ==> !t.gateTimer.Set?
      modifies this`world, this`choices
      ensures InSession(v, t) && Took(c)
    {
      hide Run;
      ReceiveStays(cfg, world, v, c);
      Chose(c);
    }

    method OnStartTimer(v: Version, t: Locals, info: S.ExitInfo, ghost c: Choice)
      returns (t': Locals, verdict: Option<S.Verdict>)
      requires InSession(v, t) && c.Receive? && c.ev.StartFires? && c.ev.info == info
      modifies this
      ensures After(v, t', verdict) && Took(c)
      ensures verdict == if t.startTimer.Set? && !t.running then Some(S.CrashExit) else None
    {
      t', verdict := t, None;
      if !t.startTimer.Set? {
        Ignore(v, t, c);
      } else if !t.running {
        var end := ClassifyOutcome(v, t, info, S.Unexpected, c);
        verdict := Some(end);
      } else {
        t' := t.(startTimer := S.Off);
        Chose(c);
      }
    }

    method OnWatchdog(v: Version, t: Locals, info: S.ExitInfo, ghost c: Choice) returns (verdict: Option<S.Verdict>)
      requires InSession(v, t) && c.Receive? && c.ev.WatchdogFires? && c.ev.info == info
      modifies this
      ensures After(v, t, verdict) && Took(c)
      ensures verdict == if t.watchdog.Set? then Some(S.CrashExit) else None
    {
      if t.watchdog.Set? {
        var end := ClassifyOutcome(v, t, info, S.Unexpected, c);
        verdict := Some(end);
      } else {
        verdict := None;
        Ignore(v, t, c);
      }
    }

    /** One move of the script: an event, or the worker at work. */
    method Meet(v: Version, t: Locals, move: Choice) returns (t': Locals, verdict: Option<S.Verdict>)
      requires InSession(v, t) && IsMove(move)
      modifies this, root, gate, tracker`running
      ensures After(v, t', verdict) && Took(move)
      ensures verdict.Some? <==> move.Receive? && S.Ends(old(world.sess), move.ev)
      ensures verdict.Some? ==> S.Causes(move.ev, verdict.value)
    {
      t', verdict := t, None;
      if move.Receive? {
        t', verdict := Select(v, t, move);
      } else {
        WorkerMoves(v, t, move);
      }
    }

    /** A spawn and its event loop, for as long as the round's script lasts; `None` if the session is still on. The
        verdict is the one that the event which ended the session causes, and no exit and no shutdown goes
        unnoticed. */
    method RunOneSpawn(v: Version, r: Round) returns (verdict: Option<S.Verdict>)
      requires Valid() && world.pc == Spawning(v) && r.Fits()
      modifies this, root, gate, tracker
      ensures Valid() && Continues(r)
      ensures world == Run(cfg, Step(cfg, old(world), r.Starting()), r.moves)
      ensures world.pc == if verdict.Some? then Ended(v, verdict.value) else Live(v)
      ensures !r.spawned ==>
                && verdict == Some(S.SpawnFailure)
                && ledger == old(ledger) + [S.Entry(S.SpawnEvent, v, None, S.Plain),
                                            S.Entry(S.CrashEvent, v, Some(71), S.FailedToSpawn)]
      ensures r.spawned ==> EndedBy(r.moves, verdict)
    {
      hide Run, Step, EndedBy;
      var t, failed := BeginSession(v, r);
      ghost var w := world;
      if failed {
        NothingMet(cfg, w, r.moves);
        EndedSessionIgnores(cfg, w, r.moves, 0);
        return Some(S.SpawnFailure);
      }
      verdict := EventLoop(v, t, r);
    }

    /** The event loop over the round's script. */
    method EventLoop(v: Version, first: Locals, r: Round) returns (verdict: Option<S.Verdict>)
      requires InSession(v, first) && r.Fits()
      modifies this, root, gate, tracker
      ensures Valid() && Continues(r) && world == Run(cfg, old(world), r.moves)
      ensures world.pc == if verdict.Some? then Ended(v, verdict.value) else Live(v)
      ensures EndedBy(r.moves, verdict)
    {
      hide Run, Step, S.Causes;
      ghost var w := world;
      var t := first;
      verdict := None;
      NothingMet(cfg, w, r.moves);
      for i := 0 to |r.moves|
        invariant verdict == None && InSession(v, t) && Continues(r)
        invariant world == Run(cfg, w, r.moves[..i])
        invariant NoEndIn(r.moves, i)
      {
        ghost var before := choices;
        t, verdict := Meet(v, t, r.moves[i]);
        MetOneMore(cfg, w, r.moves, i);
        assert choices == before + [r.moves[i]] && r.Holds(r.moves[i]);
        if verdict.Some? {
          EndedSessionIgnores(cfg, w, r.moves, i + 1);
          return;
        }
      }
      assert r.moves[..|r.moves|] == r.moves;
    }

    /** What follows a spawn: act on its outcome, and sleep if that is what it asks for. */
    method FinishIteration(v: Version, verdict: S.Verdict, r: Round) returns (exit: Option<Exit>)
      requires Valid() && world.pc == Ended(v, verdict) && r.Fits()
      modifies this, root, gate, tracker, tracker.buf
      ensures Valid() && Continues(r) && world == AfterEnd(cfg, old(world), r) && exit == ExitOf(world)
      ensures world.pc == match exit case None => Head case Some(e) => Returned(e)
    {
      hide Run, B.IsDelay, AfterOutcome;
      var backoff;
      exit, backoff := HandleOutcome(v, verdict, r);
      if backoff.Some? {
        ghost var slept;
        exit, slept := BackOff(v, backoff.value, r);
      }
    }

    /** One iteration of the loop over one round. `stillLive`: the script ended before the session did. */
    method Iterate(r: Round) returns (exit: Option<Exit>, stillLive: bool)
      requires Valid() && world.pc == Head && r.Fits()
      modifies this, root, gate, tracker, tracker.buf
      ensures Valid() && Continues(r) && world == AfterIteration(cfg, old(world), r)
      ensures exit == ExitOf(world) && stillLive == world.pc.Live?
      ensures exit.None? && !stillLive ==> world.pc == Head
    {
      hide Run, AfterResolve, AfterEnd, Step;
      stillLive := false;
      var version;
      version, exit := ResolveWorker(r);
      if version.Some? {
        exit, stillLive := RunVersion(version.value, r);
      }
    }

    /** An iteration from the version on: gate, spawn, outcome. */
    method RunVersion(v: Version, r: Round) returns (exit: Option<Exit>, stillLive: bool)
      requires Valid() && world.pc == Gating(v) && r.Fits()
      modifies this, root, gate, tracker, tracker.buf
      ensures Valid() && Continues(r)
      ensures var w := AfterSession(cfg, old(world), r); world == if w.pc.Ended? then AfterEnd(cfg, w, r) else w
      ensures exit == ExitOf(world) && stillLive == world.pc.Live?
      ensures exit.None? && !stillLive ==> world.pc == Head
    {
      hide Run, AfterEnd, Step;
      PrepareGate(v, r);
      var verdict := RunOneSpawn(v, r);
      stillLive := verdict.None?;
      if stillLive {
        exit := None;
      } else {
        exit := FinishIteration(v, verdict.value, r);
      }
    }

    /** The supervisor's loop over any number of rounds. Whatever the environment has in store, the object ends at
        the point of the machine's run that the rounds lead to, and returns as the machine does. */
    method Loop(rounds: seq<Round>) returns (exit: Option<Exit>, stillLive: bool)
      requires Valid() && world.pc == Head && forall i :: 0 <= i < |rounds| ==> rounds[i].Fits()
      modifies this, root, gate, tracker, tracker.buf
      ensures Valid() && birth == old(birth) && old(choices) <= choices
      ensures forall i :: |old(choices)| <= i < |choices| ==> InStore(rounds, choices[i])
      ensures world == AfterRounds(cfg, old(world), rounds)
      ensures exit == ExitOf(world) && stillLive == world.pc.Live?
      ensures exit.None? && !stillLive ==> world.pc == Head
    {
      hide Run, AfterIteration, AfterRounds;
      exit, stillLive := None, false;
      ghost var w := world;
      NoRounds(cfg, w, rounds);
      for i := 0 to |rounds|
        invariant exit == None && !stillLive && Valid() && world.pc == Head
        invariant birth == old(birth) && old(choices) <= choices
        invariant tracker.buf == old(tracker.buf) || fresh(tracker.buf)
        invariant forall k :: |old(choices)| <= k < |choices| ==> InStore(rounds, choices[k])
        invariant world == AfterRounds(cfg, w, rounds[..i])
      {
        exit, stillLive := Iterate(rounds[i]);
        OneMoreRound(cfg, w, rounds, i);
        if exit.Some? || stillLive {
          RoundsAreOver(cfg, w, rounds, i + 1);
          return;
        }
      }
      assert rounds[..|rounds|] == rounds;
    }

    method BackOff(v: Version, crashes: nat, r: Round) returns (exit: Option<Exit>, ghost slept: Duration)
      requires Valid() && world.pc == BackingOff(v) && crashes == |world.sess.tracker.crashes|
      modifies this`world, this`choices
      ensures Valid() && Continues(r) && world == Step(cfg, old(world), Wake(r.sleepCancelled))
      ensures exit == ExitOf(world) && exit == if r.sleepCancelled then Some(Cancelled) else None
      ensures world.pc == match exit case None => Head case Some(e) => Returned(e)
      ensures B.IsDelay(cfg.backoff, |old(world).sess.tracker.crashes|, slept)
    {
      hide Run, B.IsDelay;
      slept := Sleep(cfg.backoff, crashes);
      Chose(Wake(r.sleepCancelled));
      exit := if r.sleepCancelled then Some(Cancelled) else None;
    }
  }

  lemma NoSwap(w: World, r: Round)
    requires !w.pc.Swapping?
    ensures AfterSwap(w, r) == w
  {
  }

  lemma NothingMet(cfg: S.Config, w: World, moves: seq<Choice>)
    ensures Run(cfg, w, moves[..0]) == w
  {
  }

  lemma MetOneMore(cfg: S.Config, w: World, moves: seq<Choice>, i: nat)
    requires i < |moves|
    ensures Run(cfg, w, moves[..i + 1]) == Step(cfg, Run(cfg, w, moves[..i]), moves[i])
  {
    assert moves[..i + 1] == moves[..i] + [moves[i]];
    RunSnoc(cfg, w, moves[..i], moves[i]);
  }

  /** The choice is in store in one of the rounds. */
  predicate InStore(rounds: seq<Round>, c: Choice) {
    exists j :: 0 <= j < |rounds| && rounds[j].Holds(c)
  }

  lemma NoRounds(cfg: S.Config, w: World, rounds: seq<Round>)
    ensures AfterRounds(cfg, w, rounds[..0]) == w
  {
  }

  lemma OneMoreRound(cfg: S.Config, w: World, rounds: seq<Round>, i: nat)
    requires i < |rounds|
    ensures var w1 := AfterRounds(cfg, w, rounds[..i]);
            AfterRounds(cfg, w, rounds[..i + 1]) == if w1.pc == Head then AfterIteration(cfg, w1, rounds[i]) else w1
  {
    hide AfterIteration;
    assert Front(rounds[..i + 1]) == rounds[..i];
  }

  lemma {:induction false} RoundsAreOver(cfg: S.Config, w: World, rounds: seq<Round>, k: nat)
    requires k <= |rounds| && AfterRounds(cfg, w, rounds[..k]).pc != Head
    ensures AfterRounds(cfg, w, rounds) == AfterRounds(cfg, w, rounds[..k])
    decreases |rounds| - k
  {
    if k == |rounds| {
      assert rounds[..k] == rounds;
    } else {
      OneMoreRound(cfg, w, rounds, k);
      RoundsAreOver(cfg, w, rounds, k + 1);
    }
  }

  /** Waits for the jittered delay. */
  method Sleep(p: B.Policy, crashes: nat) returns (ghost slept: Duration)
    ensures B.IsDelay(p, crashes, slept)
  {
    var roll: nat := *;
    var delay := B.Delay(p, crashes, roll % 4);
    slept := delay;
  }
}
