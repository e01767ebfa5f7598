/** What becomes of an install, and when the loop gets to a spawn at all. */
module Rollouts {
  import opened Common
  import opened Disk
  import opened Machine
  import L = Blacklist
  import W = Symlinks
  import U = SelfUpdate
  import G = Gate
  import T = CrashTracker
  import S = Session
  import Safety = SpawnSafety

  // --------------------------------------------------- Reaching a spawn

  predicate Blocked(w: World, t: Target) {
    L.Contains(match w.disk.list.file case Whole(list) => list case _ => [], t.base)
  }

  const OK_RESOLVE := Resolve(false, false, false, false)

  /** Six calls of a swap, none of them failing. */
  const CLEAN_SWAP: seq<Choice> := [Io(false), Io(false), Io(false), Io(false), Io(false), Io(false)]

  /** The two reads and the removal of a stray temporary link. */
  lemma CleanSwapBegins(cfg: S.Config, w: World)
    requires w.pc.Swapping? && w.pc.swap == W.ReadCurrent && W.CanSwap(w.disk.links)
    ensures Step(cfg, Step(cfg, Step(cfg, w, Io(false)), Io(false)), Io(false)) ==
            w.(pc := w.pc.(swap := W.MoveCurrentAside), disk := w.disk.(links := w.disk.links - {SwapTmp}))
  {
  }

  /** A swap without faults from its first call on: links exchanged, tracker cleared, one rollback event. */
  lemma CleanSwapRuns(cfg: S.Config, w: World)
    requires w.pc.Swapping? && w.pc.swap == W.ReadCurrent && W.CanSwap(w.disk.links)
    ensures var w' := Run(cfg, w, CLEAN_SWAP);
            && w'.pc == Head && w'.disk == w.disk.(links := W.SwapLinks(w.disk.links))
            && w'.sess == w.sess.(tracker := T.FRESH, ledger := w.sess.ledger
                                    + [S.Entry(S.RollbackEvent, w.pc.v, None, S.Because(w.pc.why))])
            && w'.worker == w.worker
  {
    hide Run;
    var io := Io(false);
    CleanSwapBegins(cfg, w);
    var w3 := w.(pc := w.pc.(swap := W.MoveCurrentAside), disk := w.disk.(links := w.disk.links - {SwapTmp}));
    var w4 := Step(cfg, w3, io);
    assert w4.pc == w.pc.(swap := W.MovePreviousIn);
    var w5 := Step(cfg, w4, io);
    assert w5.pc == w.pc.(swap := W.MoveOldOut);
    var w6 := Step(cfg, w5, io);
    SameLinks(w6.disk.links, W.SwapLinks(w.disk.links));
    SixSteps(cfg, w, io, io, io, io, io, io);
  }

  lemma SixSteps(cfg: S.Config, w: World, a: Choice, b: Choice, c: Choice, d: Choice, e: Choice, f: Choice)
    ensures Run(cfg, w, [a, b, c, d, e, f]) ==
            Step(cfg, Step(cfg, Step(cfg, Step(cfg, Step(cfg, Step(cfg, w, a), b), c), d), e), f)
  {
    hide Step;
    assert [a, b, c, d, e, f] == [] + [a] + [b] + [c] + [d] + [e] + [f];
    RunSnoc(cfg, w, [], a);
    RunSnoc(cfg, w, [] + [a], b);
    RunSnoc(cfg, w, [] + [a] + [b], c);
    RunSnoc(cfg, w, [] + [a] + [b] + [c], d);
    RunSnoc(cfg, w, [] + [a] + [b] + [c] + [d], e);
    RunSnoc(cfg, w, [] + [a] + [b] + [c] + [d] + [e], f);
  }

  lemma OneStep(cfg: S.Config, w: World, a: Choice)
    ensures Run(cfg, w, [a]) == Step(cfg, w, a)
  {
    assert [a] == [] + [a];
    RunSnoc(cfg, w, [], a);
  }

  /** If `current` or `previous` is allowed, the loop gets past its check with no swap, or with one. */
  lemma OneSwapSuffices(cfg: S.Config, w: World)
    requires w.pc == Head && Safety.FileSound(w.disk.list) && W.CanSwap(w.disk.links)
    requires !Blocked(w, w.disk.links[Current]) || !Blocked(w, w.disk.links[Previous])
    ensures var cur, prev := w.disk.links[Current], w.disk.links[Previous];
            if Blocked(w, cur) then
              var w' := Run(cfg, w, [OK_RESOLVE] + CLEAN_SWAP + [OK_RESOLVE]);
              w'.pc == Gating(prev.base) && |w'.sess.ledger| == |w.sess.ledger| + 1
            else
              var w' := Run(cfg, w, [OK_RESOLVE]);
              w'.pc == Gating(cur.base) && w'.sess.ledger == w.sess.ledger
  {
    OneStep(cfg, w, OK_RESOLVE);
    var w1 := Step(cfg, w, OK_RESOLVE);
    if Blocked(w, w.disk.links[Current]) {
      CleanSwapRuns(cfg, w1);
      RunConcat(cfg, w, [OK_RESOLVE], CLEAN_SWAP);
      RunSnoc(cfg, w, [OK_RESOLVE] + CLEAN_SWAP, OK_RESOLVE);
    }
  }

  /** Both slots are blacklisted: whatever fails or restarts, the loop only ever swaps. */
  predicate OnlySwaps(w: World, cur: Target, prev: Target, f: TmpFile<seq<Record>>) {
    var both := {cur, prev};
    && w.disk.list == f && w.worker == Gone
    && (Current in w.disk.links ==> w.disk.links[Current] in both)
    && (Previous in w.disk.links ==> w.disk.links[Previous] in both)
    && match w.pc
       case Head => true
       case Returned(_) => true
       case Swapping(_, _, swap) =>
         && !swap.SwapDone?
         && (swap in {W.MovePreviousIn, W.PutCurrentBack, W.MoveOldOut} ==>
               SwapTmp in w.disk.links && w.disk.links[SwapTmp] in both)
       case _ => false
  }

  lemma StepOnlySwaps(cfg: S.Config, w: World, c: Choice, cur: Target, prev: Target)
    requires OnlySwaps(w, cur, prev, w.disk.list) && Safety.FileSound(w.disk.list)
    requires Blocked(w, cur) && Blocked(w, prev)
    requires c.Resolve? ==> !c.noList && !c.noLabel
    ensures OnlySwaps(Step(cfg, w, c), cur, prev, w.disk.list)
  {
  }

  lemma {:induction false} NeverPastTheCheck(cfg: S.Config, w: World, cs: seq<Choice>, cur: Target, prev: Target)
    requires OnlySwaps(w, cur, prev, w.disk.list) && Safety.FileSound(w.disk.list)
    requires Blocked(w, cur) && Blocked(w, prev) && Safety.Careful(cs)
    ensures OnlySwaps(Run(cfg, w, cs), cur, prev, w.disk.list)
  {
    if cs != [] {
      NeverPastTheCheck(cfg, w, Front(cs), cur, prev);
      StepOnlySwaps(cfg, Run(cfg, w, Front(cs)), Last(cs), cur, prev);
    }
  }

  const PREPARE_AND_SPAWN: seq<Choice> := [Prepare(true, false, 0)] + [Spawn(true, 0, 0)]

  lemma PreparedIsSpawned(cfg: S.Config, w: World, cs: seq<Choice>)
    requires Run(cfg, w, cs).pc.Gating?
    ensures Run(cfg, w, cs + PREPARE_AND_SPAWN).pc == Live(Run(cfg, w, cs).pc.v)
  {
    hide Run;
    RunSnoc(cfg, w, cs, Prepare(true, false, 0));
    RunSnoc(cfg, w, cs + [Prepare(true, false, 0)], Spawn(true, 0, 0));
    assert cs + [Prepare(true, false, 0)] + [Spawn(true, 0, 0)] == cs + PREPARE_AND_SPAWN;
  }

  /** Some run in which the list and the label can be read has a live worker in the end. */
  ghost predicate CanSpawn(cfg: S.Config, w: World) {
    exists cs :: Safety.Careful(cs) && Run(cfg, w, cs).pc.Live?
  }

  /** From the top of the loop, with a readable list and two distinct slots: some run spawns a worker exactly
      when one of the two is not blacklisted. If both are, no number of iterations, failures or restarts ever
      does. */
  lemma ProgressIff(cfg: S.Config, w: World)
    requires w.pc == Head && w.worker == Gone && Safety.FileSound(w.disk.list) && W.CanSwap(w.disk.links)
    ensures CanSpawn(cfg, w) <==> !Blocked(w, w.disk.links[Current]) || !Blocked(w, w.disk.links[Previous])
  {
    var cur, prev := w.disk.links[Current], w.disk.links[Previous];
    if Blocked(w, cur) && Blocked(w, prev) {
      forall cs | Safety.Careful(cs) ensures !Run(cfg, w, cs).pc.Live? {
        NeverPastTheCheck(cfg, w, cs, cur, prev);
      }
    } else {
      OneSwapSuffices(cfg, w);
      hide Run;
      var cs := if Blocked(w, cur) then [OK_RESOLVE] + CLEAN_SWAP + [OK_RESOLVE] else [OK_RESOLVE];
      PreparedIsSpawned(cfg, w, cs);
      assert Safety.Careful(cs + PREPARE_AND_SPAWN);
    }
  }

  // ----------------------------------------------- The install transaction

  /** Right after Apply(v): `current` is v, `previous` what ran before, the marker waits. */
  predicate Installed(d: Disk, prior: Target, v: Version, at: Time) {
    && prior != VersionTarget(v) && v != ""
    && W.Both(VersionTarget(v), prior, d.links)
    && d.marker.file == Whole(Marker(v, at))
    && Safety.FileSound(d.list) && v !in L.Listed(d.list)
  }

  /** Nobody installs or blacklists v while the worker lives. */
  predicate LeavesAlone(w: World, v: Version) {
    && v !in Safety.ListedIn(w)
    && (w.worker.Alive? ==>
          w.worker.installer == Machine.NoInstall
          && (w.worker.adder.Adding? ==> v !in L.Versions(w.worker.adder.list)))
  }

  /** Anything a session or its worker can do, except installing or blacklisting v. */
  predicate Bystander(c: Choice, v: Version) {
    c.Receive? || (c.WorkerAdds? && c.record.version != v) || c.WorkerCall?
  }

  predicate AllBystanders(cs: seq<Choice>, v: Version) {
    forall i :: 0 <= i < |cs| ==> Bystander(cs[i], v)
  }

  /** During and right after a session: as long as the gate has not passed, the install is as Apply left it. */
  predicate UnderWatch(w: World, prior: Target, v: Version, at: Time) {
    && (w.pc.Live? || w.pc.Ended?)
    && Safety.SessionOpen(w) && Safety.ListInv(w) && LeavesAlone(w, v)
    && (w.pc.Ended? ==> w.worker == Gone)
    && (w.sess.gate.Active() || (w.pc.Ended? && w.pc.verdict == S.HealthTimedOut) ==> Installed(w.disk, prior, v, at))
  }

  lemma WorkerLeavesInstall(w: World, c: Choice, prior: Target, v: Version, at: Time)
    requires w.pc.Live? && w.worker.Alive? && Safety.ListInv(w) && LeavesAlone(w, v) && Bystander(c, v)
    ensures LeavesAlone(StepWorker(w, c), v)
    ensures Installed(w.disk, prior, v, at) ==> Installed(StepWorker(w, c).disk, prior, v, at)
  {
    Safety.WorkerKeepsList(w, c);
    match c
    case WorkerAdds(r, noList) =>
      var list := L.Load(w.disk.list, noList);
      if list.Some? {
        L.UpsertVersions(list.value, r);
      }
    case WorkerCall(adding, fault, now) =>
      if adding && w.worker.adder.Adding? {
        Safety.SaveStepSound(w.disk.list, w.worker.adder.list, w.worker.adder.save, fault);
      }
    case _ =>
  }

  lemma SessionLeavesInstall(cfg: S.Config, w: World, c: Choice, prior: Target, v: Version, at: Time)
    requires w.pc.Live? && c.Receive? && UnderWatch(w, prior, v, at)
    ensures UnderWatch(Step(cfg, w, c), prior, v, at)
    ensures Step(cfg, w, c).sess.gate.Active() ==> w.sess.gate.Active()
    ensures !w.sess.gate.Active() ==> Step(cfg, w, c).disk == w.disk
    ensures Step(cfg, w, c).sess.gate.version == w.sess.gate.version
  {
    Safety.StepKeepsList(cfg, w, c);
    Safety.StepKeepsOpen(cfg, w, c);
    if c.ev.Message? {
      S.HearKeepsGate(cfg, w.sess, c.ev.notices);
      S.HearKeepsLedger(cfg, w.sess, c.ev.notices);
    }
  }

  lemma {:induction false} SessionRunLeavesInstall(cfg: S.Config, w: World, cs: seq<Choice>,
                                                   prior: Target, v: Version, at: Time)
    requires UnderWatch(w, prior, v, at) && AllBystanders(cs, v)
    ensures var w' := Run(cfg, w, cs);
            && UnderWatch(w', prior, v, at)
            && (w'.sess.gate.Active() ==> w.sess.gate.Active())
            && w'.sess.gate.version == w.sess.gate.version
            && (!w.sess.gate.Active() && Installed(w.disk, prior, v, at) ==> Installed(w'.disk, prior, v, at))
  {
    if cs != [] {
      SessionRunLeavesInstall(cfg, w, Front(cs), prior, v, at);
      var mid, c := Run(cfg, w, Front(cs)), Last(cs);
      assert Bystander(cs[|cs| - 1], v);
      if mid.pc.Live? && c.Receive? {
        SessionLeavesInstall(cfg, mid, c, prior, v, at);
      } else if mid.pc.Live? {
        WorkerLeavesInstall(mid, c, prior, v, at);
        Safety.WorkerKeepsList(mid, c);
      }
    }
  }

  /** From the old worker's exit to the new worker's spawn, without faults. */
  function Handover(t1: Time, t2: Time, spawn: Choice): seq<Choice> {
    [Act(t1), Wake(false), OK_RESOLVE, Prepare(false, false, t2), spawn]
  }

  lemma FiveSteps(cfg: S.Config, w: World, a: Choice, b: Choice, c: Choice, d: Choice, e: Choice)
    ensures Run(cfg, w, [a, b, c, d, e]) == Step(cfg, Step(cfg, Step(cfg, Step(cfg, Step(cfg, w, a), b), c), d), e)
  {
    hide Step;
    assert [a, b, c, d, e] == [] + [a] + [b] + [c] + [d] + [e];
    RunSnoc(cfg, w, [], a);
    RunSnoc(cfg, w, [] + [a], b);
    RunSnoc(cfg, w, [] + [a] + [b], c);
    RunSnoc(cfg, w, [] + [a] + [b] + [c], d);
    RunSnoc(cfg, w, [] + [a] + [b] + [c] + [d], e);
  }

  /** A counted crash below the cap, and the sleep after it: back at the top of the loop. */
  lemma CountedCrashGoesOn(cfg: S.Config, w: World, t: Time)
    requires w.pc.Ended? && w.pc.verdict == S.CrashExit && !w.sess.gate.Active()
    requires |T.Recorded(cfg.backoff, w.sess.tracker, t).crashes| < cfg.backoff.crashCap
    ensures var w' := Step(cfg, Step(cfg, w, Act(t)), Wake(false));
            w'.pc == Head && w'.disk == w.disk && w'.sess.gate == w.sess.gate && w'.worker == w.worker
  {
  }

  /** From the top of the loop, a readable marker of `current` with an open window arms the gate. */
  lemma FreshInstallArms(cfg: S.Config, w: World, prior: Target, v: Version, at: Time, t: Time)
    requires w.pc == Head && Installed(w.disk, prior, v, at) && t < at + w.sess.gate.window
    ensures var w' := Step(cfg, Step(cfg, w, OK_RESOLVE), Prepare(false, false, t));
            && w'.pc == Spawning(v) && w'.disk == w.disk && w'.worker == w.worker
            && w'.sess.gate.Active() && w'.sess.gate.version == v
            && w'.sess.gate.deadline == at + w.sess.gate.window
  {
  }

  /** The old worker's exit is counted as a crash. If it does not reach the crash cap and the window is not
      over yet, the next spawn runs v with its gate armed until install time + window. */
  lemma InstallReachesItsGate(cfg: S.Config, w: World, prior: Target, v: Version, at: Time,
                              t1: Time, t2: Time, spawn: Choice)
    requires w.pc.Ended? && w.pc.verdict == S.CrashExit && !w.sess.gate.Active() && w.worker == Gone
    requires Installed(w.disk, prior, v, at) && spawn.Spawn?
    requires |T.Recorded(cfg.backoff, w.sess.tracker, t1).crashes| < cfg.backoff.crashCap
    requires t2 < at + w.sess.gate.window
    ensures var w' := Run(cfg, w, Handover(t1, t2, spawn));
            && UnderWatch(w', prior, v, at) && w'.disk == w.disk
            && w'.pc == (if spawn.ok then Live(v) else Ended(v, S.SpawnFailure))
            && w'.sess.gate.Active() && w'.sess.gate.version == v
            && w'.sess.gate.deadline == at + w.sess.gate.window
  {
    hide Run;
    CountedCrashGoesOn(cfg, w, t1);
    var w2 := Step(cfg, Step(cfg, w, Act(t1)), Wake(false));
    FreshInstallArms(cfg, w2, prior, v, at, t2);
    var w4 := Step(cfg, Step(cfg, w2, OK_RESOLVE), Prepare(false, false, t2));
    SpawnEffect(cfg, w4, spawn);
    FiveSteps(cfg, w, Act(t1), Wake(false), OK_RESOLVE, Prepare(false, false, t2), spawn);
  }

  /** If it does reach the cap, the same exit undoes the install: v becomes `previous` without being
      blacklisted, and its marker stays behind. */
  lemma CrashCapUndoesTheInstall(cfg: S.Config, w: World, prior: Target, v: Version, at: Time, t1: Time)
    requires w.pc.Ended? && w.pc.verdict == S.CrashExit && !w.sess.gate.Active()
    requires Installed(w.disk, prior, v, at)
    requires |T.Recorded(cfg.backoff, w.sess.tracker, t1).crashes| >= cfg.backoff.crashCap
    ensures var w' := Run(cfg, w, [Act(t1)] + CLEAN_SWAP);
            && w'.pc == Head && W.Both(prior, VersionTarget(v), w'.disk.links)
            && v !in L.Listed(w'.disk.list) && w'.disk.marker.file == Whole(Marker(v, at))
  {
    var w1 := Step(cfg, w, Act(t1));
    OneStep(cfg, w, Act(t1));
    CleanSwapRuns(cfg, w1);
    RunConcat(cfg, w, [Act(t1)], CLEAN_SWAP);
  }

  const CLEAN_SAVE: seq<Choice> := [Io(false), Io(false), Io(false), Io(false), Io(false), Io(false), Io(false)]

  /** Blacklist, marker, swap: what the supervisor does once the gate has failed, without faults. */
  function CleanRollback(t: Time): seq<Choice> {
    [Act(t), LoadList(t, false)] + CLEAN_SAVE + [Io(false)] + CLEAN_SWAP
  }

  /** `current` is back at what ran before, v is `previous` and blacklisted, no marker, gate off, tracker empty. */
  predicate RolledBack(w: World, prior: Target, v: Version) {
    && w.pc == Head
    && W.Both(prior, VersionTarget(v), w.disk.links)
    && v in L.Listed(w.disk.list)
    && w.disk.marker.file == Absent
    && w.sess.gate.status == G.Inactive
    && w.sess.tracker == T.FRESH
    && w.sess.ledger != [] && Last(w.sess.ledger).kind == S.RollbackEvent && Last(w.sess.ledger).version == v
  }

  lemma CleanSaveRuns(cfg: S.Config, w: World)
    requires w.pc.Blacklisting? && w.pc.save == L.MakeDir
    ensures var w' := Run(cfg, w, CLEAN_SAVE);
            && w'.pc == Unmarking(w.pc.v, w.pc.reason)
            && w'.disk == w.disk.(list := TmpFile(Whole(w.pc.list), Absent))
            && w'.sess == w.sess && w'.worker == w.worker
  {
    var io := Io(false);
    var w1 := Step(cfg, w, io);
    assert w1 == w.(pc := w.pc.(save := L.ClearStale));
    var w2 := Step(cfg, w1, io);
    assert w2 == w.(pc := w.pc.(save := L.Create), disk := w.disk.(list := w.disk.list.(tmp := Absent)));
    var w3 := Step(cfg, w2, io);
    var w4 := Step(cfg, w3, io);
    assert w4 == w.(pc := w.pc.(save := L.Sync), disk := w.disk.(list := w.disk.list.(tmp := Whole(w.pc.list))));
    var w5 := Step(cfg, w4, io);
    var w6 := Step(cfg, w5, io);
    SixSteps(cfg, w, io, io, io, io, io, io);
    assert CLEAN_SAVE == CLEAN_SWAP + [io];
    RunSnoc(cfg, w, CLEAN_SWAP, io);
  }

  /** From the failed load's success on: the list is saved, the marker dropped, the links swapped. */
  lemma BlacklistingRollsBack(cfg: S.Config, w: World, prior: Target, v: Version, at: Time)
    requires w.pc.Blacklisting? && w.pc.v == v && w.pc.save == L.MakeDir
    requires Installed(w.disk, prior, v, at) && v in L.Versions(w.pc.list)
    ensures RolledBack(Run(cfg, w, CLEAN_SAVE + [Io(false)] + CLEAN_SWAP), prior, v)
  {
    hide Run;
    CleanSaveRuns(cfg, w);
    var w1 := Run(cfg, w, CLEAN_SAVE);
    RunSnoc(cfg, w, CLEAN_SAVE, Io(false));
    var w2 := Step(cfg, w1, Io(false));
    assert w2.pc == Swapping(v, S.HealthFailed(w1.pc.reason), W.ReadCurrent);
    CleanSwapRuns(cfg, w2);
    RunConcat(cfg, w, CLEAN_SAVE + [Io(false)], CLEAN_SWAP);
  }

  /** The outcome of a session that failed its gate leads to the blacklist, with v on the list to be saved. */
  lemma GateFailureIsListed(cfg: S.Config, w: World, v: Version, t: Time)
    requires w.pc.Ended? && w.pc.v == v && v != "" && Safety.FileSound(w.disk.list)
    requires if w.pc.verdict == S.HealthTimedOut then true
             else (w.pc.verdict == S.CrashExit || w.pc.verdict == S.SpawnFailure) && w.sess.gate.Active()
    ensures var w' := Run(cfg, w, [Act(t)] + [LoadList(t, false)]);
            && w'.pc.Blacklisting? && w'.pc.v == v && w'.pc.save == L.MakeDir && w'.disk == w.disk
            && v in L.Versions(w'.pc.list)
  {
    OneStep(cfg, w, Act(t));
    RunSnoc(cfg, w, [Act(t)], LoadList(t, false));
    hide Run;
    var w0 := Step(cfg, w, Act(t));
    assert w0.pc.Failing? && w0.pc.v == v && w0.disk == w.disk;
    L.UpsertVersions(L.Load(w.disk.list, false).value, Record(v, t, ReasonText(w0.pc.reason)));
  }

  /** A crash, timeout or spawn failure under v's gate, and then no faults: the install is rolled back. */
  lemma GateFailureRollsBack(cfg: S.Config, w: World, prior: Target, v: Version, at: Time, t: Time)
    requires w.pc.Ended? && w.pc.v == v && Installed(w.disk, prior, v, at)
    requires if w.pc.verdict == S.HealthTimedOut then true
             else (w.pc.verdict == S.CrashExit || w.pc.verdict == S.SpawnFailure) && w.sess.gate.Active()
    ensures RolledBack(Run(cfg, w, CleanRollback(t)), prior, v)
  {
    hide Run;
    GateFailureIsListed(cfg, w, v, t);
    var begin := [Act(t)] + [LoadList(t, false)];
    BlacklistingRollsBack(cfg, Run(cfg, w, begin), prior, v, at);
    RunConcat(cfg, w, begin, CLEAN_SAVE + [Io(false)] + CLEAN_SWAP);
    assert begin + (CLEAN_SAVE + [Io(false)] + CLEAN_SWAP) == CleanRollback(t);
  }

  // ------------------------------------------------- The same with any faults

  /** Between the failure of a gate and the rollback's swap. */
  predicate Handling(w: World) {
    w.pc.Failing? || w.pc.Blacklisting? || w.pc.Unmarking?
  }

  predicate HandlingSoFar(cfg: S.Config, w: World, cs: seq<Choice>) {
    cs == [] || (HandlingSoFar(cfg, w, Front(cs)) && Handling(Run(cfg, w, Front(cs))))
  }

  /** The rename of the supervisor's save went well somewhere in the run: load and save have succeeded. */
  predicate Committed(cfg: S.Config, w: World, cs: seq<Choice>) {
    cs != [] && (Committed(cfg, w, Front(cs))
                 || (var mid := Run(cfg, w, Front(cs));
                     mid.pc.Blacklisting? && mid.pc.save == L.Commit && Last(cs) == Io(false)))
  }

  /** The marker's delete went well somewhere in the run. */
  predicate Dropped(cfg: S.Config, w: World, cs: seq<Choice>) {
    cs != [] && (Dropped(cfg, w, Front(cs)) || (Run(cfg, w, Front(cs)).pc.Unmarking? && Last(cs) == Io(false)))
  }

  /** Where the handling of v's failure, begun in `w`, has got to in `w'`. */
  predicate HandlingInv(w: World, w': World, v: Version, reason: G.FailReason, committed: bool, dropped: bool) {
    && Safety.ListInv(w') && w'.disk.links == w.disk.links && w'.disk.dirs == w.disk.dirs
    && w'.sess.tracker == w.sess.tracker && w'.sess.ledger == w.sess.ledger
    && Safety.ListedIn(w') == Safety.ListedIn(w) + (if committed then {v} else {})
    && w'.disk.marker.file == (if dropped then Absent else w.disk.marker.file)
    && match w'.pc
       case Failing(x, rs) => x == v && rs == reason && !committed && !dropped
       case Blacklisting(x, rs, _, _) => x == v && rs == reason && !committed && !dropped
       case Unmarking(x, rs) => x == v && rs == reason && !dropped
       case Swapping(x, why, swap) =>
         && x == v && why == S.HealthFailed(reason) && swap == W.ReadCurrent
         && w'.sess.gate.status == G.Inactive
       case _ => false
  }

  lemma HandlingStep(cfg: S.Config, w: World, w': World, c: Choice, v: Version, reason: G.FailReason,
                     committed: bool, dropped: bool)
    requires HandlingInv(w, w', v, reason, committed, dropped) && Handling(w') && !c.Restart?
    ensures HandlingInv(w, Step(cfg, w', c), v, reason,
                        committed || (w'.pc.Blacklisting? && w'.pc.save == L.Commit && c == Io(false)),
                        dropped || (w'.pc.Unmarking? && c == Io(false)))
  {
    hide L.SaveStep, L.Upsert;
    if w'.pc.Failing? && c.LoadList? {
      Safety.LoadKeepsList(w', c);
    } else if w'.pc.Blacklisting? && c.Io? {
      Safety.SaveStepSound(w'.disk.list, w'.pc.list, w'.pc.save, c.fault);
      CommitStep(w'.disk.list, w'.pc.list, w'.pc.save, c.fault);
    }
  }

  lemma CommitStep(f: TmpFile<seq<Record>>, list: seq<Record>, save: L.SavePc, fault: bool)
    requires Safety.SaveSound(f, list, save)
    ensures L.SaveStep(save, list, f, fault).0 == L.SaveDone(true) <==> save == L.Commit && !fault
  {
  }

  lemma {:induction false} HandlingRuns(cfg: S.Config, w: World, cs: seq<Choice>)
    requires w.pc.Failing? && Safety.ListInv(w) && NoRestarts(cs) && HandlingSoFar(cfg, w, cs)
    ensures HandlingInv(w, Run(cfg, w, cs), w.pc.v, w.pc.reason, Committed(cfg, w, cs), Dropped(cfg, w, cs))
  {
    if cs != [] {
      var front := Front(cs);
      assert forall i :: 0 <= i < |front| ==> front[i] == cs[i];
      HandlingRuns(cfg, w, front);
      HandlingStep(cfg, w, Run(cfg, w, front), Last(cs), w.pc.v, w.pc.reason,
                   Committed(cfg, w, front), Dropped(cfg, w, front));
    }
  }

  /** rollbackForInstallHealth with any faults, up to the first call of its swap: the gate is off, links, tracker
      and ledger are untouched, v is listed exactly if it was before or load and save succeeded, and the marker is
      gone exactly if it was absent or its delete succeeded. */
  lemma FailureIsHandled(cfg: S.Config, w: World, cs: seq<Choice>)
    requires w.pc.Failing? && Safety.ListInv(w) && NoRestarts(cs) && HandlingSoFar(cfg, w, cs)
    requires Run(cfg, w, cs).pc.Swapping?
    ensures var w' := Run(cfg, w, cs);
            && w'.pc == Swapping(w.pc.v, S.HealthFailed(w.pc.reason), W.ReadCurrent)
            && w'.sess.gate.status == G.Inactive
            && w'.disk.links == w.disk.links && w'.sess.tracker == w.sess.tracker && w'.sess.ledger == w.sess.ledger
            && (w.pc.v in Safety.ListedIn(w') <==> w.pc.v in Safety.ListedIn(w) || Committed(cfg, w, cs))
            && (w'.disk.marker.file == Absent <==> w.disk.marker.file == Absent || Dropped(cfg, w, cs))
  {
    hide Run, Committed, Dropped;
    HandlingRuns(cfg, w, cs);
  }

  /** The rest of the transaction, from the exit of the old worker on: v is spawned under its gate, and whatever
      its session receives or blacklists (except v, and without another install), any crash, spawn failure or
      timeout that ends it before the gate passes leads back to the old version. */
  lemma FailureUnderGateRollsBack(cfg: S.Config, w: World, prior: Target, v: Version, at: Time,
                                  t1: Time, t2: Time, spawn: Choice, s2: seq<Choice>, t3: Time)
    requires w.pc.Ended? && w.pc.verdict == S.CrashExit && !w.sess.gate.Active() && w.worker == Gone
    requires Installed(w.disk, prior, v, at) && spawn.Spawn? && AllBystanders(s2, v)
    requires |T.Recorded(cfg.backoff, w.sess.tracker, t1).crashes| < cfg.backoff.crashCap
    requires t2 < at + w.sess.gate.window
    requires var e := Run(cfg, w, Handover(t1, t2, spawn) + s2);
             && e.pc.Ended? && e.pc.v == v
             && (e.pc.verdict == S.HealthTimedOut
                 || ((e.pc.verdict == S.CrashExit || e.pc.verdict == S.SpawnFailure) && e.sess.gate.Active()))
    ensures RolledBack(Run(cfg, w, Handover(t1, t2, spawn) + s2 + CleanRollback(t3)), prior, v)
  {
    hide Run;
    InstallReachesItsGate(cfg, w, prior, v, at, t1, t2, spawn);
    var e2 := Run(cfg, w, Handover(t1, t2, spawn));
    RunConcat(cfg, w, Handover(t1, t2, spawn), s2);
    SessionRunLeavesInstall(cfg, e2, s2, prior, v, at);
    GateFailureRollsBack(cfg, Run(cfg, e2, s2), prior, v, at, t3);
    RunConcat(cfg, w, Handover(t1, t2, spawn) + s2, CleanRollback(t3));
  }

  /** A rollback never asks whether the version it goes back to is listed itself. After a failed install some
      run gets to a spawn again exactly when that version is not; otherwise the loop swaps for ever. */
  lemma RecoveryIff(cfg: S.Config, w: World, prior: Target, v: Version)
    requires RolledBack(w, prior, v) && w.worker == Gone && Safety.FileSound(w.disk.list)
    requires v != "" && prior != VersionTarget(v)
    ensures CanSpawn(cfg, w) <==> !Blocked(w, prior)
  {
    ProgressIff(cfg, w);
    assert Blocked(w, VersionTarget(v));
  }

  /** A pass deletes whatever marker is on disk, and prepareGate then arms nothing: an install made while
      another version's gate was active loses its observation window. */
  lemma PassDropsForeignMarker(cfg: S.Config, w: World, c: Choice, p: Choice, next: Version)
    requires w.pc.Live? && c.Receive? && !c.noDelete && GatePasses(w.sess, c.ev) && p.Prepare?
    ensures var w' := Step(cfg, w, c);
            && w'.disk.marker.file == Absent
            && !StepGate(w', next, p).sess.gate.Active()
  {
  }

  /** prepareGate arms exactly when a readable marker names the version about to run and its window is open;
      a marker of another version, or a stale one, is removed, and one that cannot be read is left alone. */
  lemma GateArmsIff(w: World, v: Version, p: Choice)
    requires p.Prepare? && v != ""
    ensures var w' := StepGate(w, v, p);
            var m := w.disk.marker.file;
            && (w'.sess.gate.Active() <==>
                  && !p.noMarker && m.Whole? && m.content.version == v
                  && p.now < m.content.installedAt + w.sess.gate.window)
            && (!p.noMarker && !p.noDelete && m.Whole? && m.content.version != "" && !w'.sess.gate.Active() ==>
                  w'.disk.marker.file == Absent)
            && (w'.sess.gate.Active() ==> w'.disk == w.disk && w'.sess.gate.version == v
                                          && w'.sess.gate.deadline == m.content.installedAt + w.sess.gate.window)
            && (p.noMarker || !m.Whole? || m.content.version == "" ==> w'.disk == w.disk)
            && w' == w.(pc := Spawning(v), sess := w.sess.(gate := w'.sess.gate),
                        disk := w.disk.(marker := w.disk.marker.(file := w'.disk.marker.file)))
  {
  }

  // ------------------------------------------------- From Apply to the transaction

  /** No call of the install fails while it reads `current`. */
  predicate ReadsCurrent(v: Version, d: Disk, calls: seq<U.Call>) {
    calls == [] || (ReadsCurrent(v, d, Front(calls))
                    && (U.RunInstall(v, d, Front(calls)).0 == U.Rotating(U.ReadCur) ==> !Last(calls).fault))
  }

  predicate RotatedAt(v: Version, l: Links, at: U.InstallPc, now: Links)
    requires Current in l
  {
    match at
    case Rotating(rpc) => U.RotateLayout(v, l, rpc, now)
    case MakeState => now == U.RotateLinks(l, v)
    case OpenMarker(_) => now == U.RotateLinks(l, v)
    case FillMarker(_) => now == U.RotateLinks(l, v)
    case PublishMarker(_) => now == U.RotateLinks(l, v)
    case InstallDone(ok) => ok ==> now == U.RotateLinks(l, v)
    case DropMarkerTmp => true
    case _ => now == l
  }

  lemma {:induction false} InstallRotates(v: Version, d: Disk, calls: seq<U.Call>)
    requires Current in d.links && d.links[Current] != VersionTarget(v) && ReadsCurrent(v, d, calls)
    ensures var (at, d') := U.RunInstall(v, d, calls);
            RotatedAt(v, d.links, at, d'.links) && d'.list == d.list
  {
    if calls != [] {
      InstallRotates(v, d, Front(calls));
      var (at, d') := U.RunInstall(v, d, Front(calls));
      if at.Rotating? {
        U.RotateStepLayout(v, d.links, at.pc, d'.links, Last(calls).fault);
      }
    }
  }

  /** An Apply(v) that reports success leaves exactly the layout the transaction starts from, with a marker
      stamped between the first and the last clock reading of its calls. */
  lemma AppliedIsInstalled(v: Version, d: Disk, calls: seq<U.Call>, lo: Time, hi: Time)
    requires Current in d.links && d.links[Current] != VersionTarget(v) && v != ""
    requires Safety.FileSound(d.list) && v !in L.Listed(d.list)
    requires ReadsCurrent(v, d, calls) && U.RunInstall(v, d, calls).0 == U.InstallDone(true)
    requires U.ClocksWithin(calls, lo, hi)
    ensures var d' := U.RunInstall(v, d, calls).1;
            && d'.marker.file.Whole? && lo <= d'.marker.file.content.installedAt <= hi
            && Installed(d', d.links[Current], v, d'.marker.file.content.installedAt)
  {
    InstallRotates(v, d, calls);
    U.MarkerStampedWithin(v, d, calls, lo, hi);
  }

  /** Swapping back after a rotation restores the old `current`, with the new version as `previous`. */
  lemma SwapUndoesRotation(v: Version, l: Links, faults: seq<bool>, back: seq<bool>)
    requires Current in l && l[Current] != VersionTarget(v) && (faults == [] || !faults[0])
    requires U.RunRotate(v, l, faults).0.RotateDone? && U.RunRotate(v, l, faults).0.ok
    requires W.RunSwap(U.RunRotate(v, l, faults).1, back).0 == W.SwapDone(W.Swapped)
    ensures W.Both(l[Current], VersionTarget(v), W.RunSwap(U.RunRotate(v, l, faults).1, back).1)
  {
    U.RotateLayouts(v, l, faults);
    W.CompletedSwap(U.RunRotate(v, l, faults).1, back);
  }
}
