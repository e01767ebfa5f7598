/** Installs inside the running system: the worker's calls interleave with its session's events and with its
    other writes. */
module Installs {
  import opened Common
  import opened Disk
  import opened Machine
  import opened Rollouts
  import L = Blacklist
  import U = SelfUpdate
  import T = CrashTracker
  import S = Session
  import Safety = SpawnSafety

  // ------------------------------------------------- From the first call to the last

  /** The choice does not make an install fail to read `current`. */
  predicate ReadsCurrentHere(w: World, c: Choice) {
    (c.WorkerCall? && !c.adding && w.worker.Alive? && w.worker.installer.Installing?
     && w.worker.installer.at == U.Rotating(U.ReadCur)) ==> !c.fault
  }

  predicate AlwaysReadsCurrent(cfg: S.Config, w: World, cs: seq<Choice>) {
    cs == [] || (AlwaysReadsCurrent(cfg, w, Front(cs)) && ReadsCurrentHere(Run(cfg, w, Front(cs)), Last(cs)))
  }

  /** The choice, if it is a call of an install, reads the clock between `lo` and `hi`. */
  predicate ClockWithin(c: Choice, lo: Time, hi: Time) {
    c.WorkerCall? && !c.adding ==> lo <= c.now <= hi
  }

  predicate ClocksWithin(cs: seq<Choice>, lo: Time, hi: Time) {
    forall i :: 0 <= i < |cs| ==> ClockWithin(cs[i], lo, hi)
  }

  /** How the install of v begins: the links, how many markers have been written so far, and bounds of the clock
      readings of its calls. */
  datatype Begun = Begun(v: Version, links: Links, written: nat, lo: Time, hi: Time)
  {
    predicate OfAnother() {
      v != "" && Current in links && links[Current] != VersionTarget(v)
    }
  }

  predicate Stamped(b: Begun, m: Marker) {
    m.version == b.v && b.lo <= m.installedAt <= b.hi
  }

  predicate MarkerReady(b: Begun, at: U.InstallPc, marker: TmpFile<Marker>) {
    && (at.OpenMarker? || at.FillMarker? || at.PublishMarker? ==> Stamped(b, at.m))
    && (at.PublishMarker? ==> marker.tmp == Whole(at.m))
  }

  /** The install is at some call of it. */
  predicate InFlight(w: World, b: Begun)
    requires b.OfAnother()
  {
    && w.written == b.written
    && w.worker.Alive? && w.worker.installer.Installing? && w.worker.installer.v == b.v
    && RotatedAt(b.v, b.links, w.worker.installer.at, w.disk.links) && !w.worker.installer.at.InstallDone?
    && MarkerReady(b, w.worker.installer.at, w.disk.marker)
  }

  /** It is over: completed, with the layout a rollback can undo, or not. */
  predicate Landed(w: World, b: Begun)
    requires b.OfAnother()
  {
    && (w.worker.Alive? ==> w.worker.installer == Machine.NoInstall)
    && w.written <= b.written + 1
    && (w.written == b.written + 1 ==>
          && w.disk.marker.file.Whole? && Stamped(b, w.disk.marker.file.content)
          && Installed(w.disk, b.links[Current], b.v, w.disk.marker.file.content.installedAt))
  }

  /** Nobody has listed v, or is about to. */
  predicate Unlisted(w: World, v: Version) {
    && v !in Safety.ListedIn(w)
    && (w.worker.Alive? && w.worker.adder.Adding? ==> v !in L.Versions(w.worker.adder.list))
  }

  /** During and right after a session without a gate. */
  predicate InstallInv(w: World, b: Begun)
    requires b.OfAnother()
  {
    && (w.pc.Live? || (w.pc.Ended? && w.worker == Gone))
    && Safety.SessionOpen(w) && Safety.ListInv(w) && Unlisted(w, b.v) && !w.sess.gate.Active()
    && (InFlight(w, b) || Landed(w, b))
  }

  lemma InstallCallLands(w: World, c: Choice, b: Begun)
    requires b.OfAnother() && w.pc.Live? && InstallInv(w, b) && InFlight(w, b)
    requires c.WorkerCall? && !c.adding && ReadsCurrentHere(w, c) && ClockWithin(c, b.lo, b.hi)
    ensures InstallInv(StepWorker(w, c), b)
  {
    var i := w.worker.installer;
    Safety.WorkerKeepsList(w, c);
    if i.at.Rotating? {
      U.RotateStepLayout(b.v, b.links, i.at.pc, w.disk.links, c.fault);
    }
    Safety.InstallKeepsList(b.v, i.at, w.disk, c.fault, c.now);
  }

  lemma AddLeavesInstall(w: World, c: Choice, b: Begun)
    requires b.OfAnother() && w.pc.Live? && InstallInv(w, b)
    requires (c.WorkerAdds? && c.record.version != b.v) || (c.WorkerCall? && c.adding)
             || (c.WorkerCall? && !w.worker.installer.Installing?)
    ensures InstallInv(StepWorker(w, c), b)
  {
    Safety.WorkerKeepsList(w, c);
    if c.WorkerAdds? {
      var list := L.Load(w.disk.list, c.noList);
      if list.Some? {
        L.UpsertVersions(list.value, c.record);
      }
    } else if c.adding && w.worker.adder.Adding? {
      Safety.SaveStepSound(w.disk.list, w.worker.adder.list, w.worker.adder.save, c.fault);
    }
  }

  lemma EventLeavesInstall(cfg: S.Config, w: World, c: Choice, b: Begun)
    requires b.OfAnother() && w.pc.Live? && c.Receive? && InstallInv(w, b)
    ensures InstallInv(Step(cfg, w, c), b)
  {
    Safety.StepKeepsList(cfg, w, c);
    Safety.StepKeepsOpen(cfg, w, c);
    if c.ev.Message? {
      S.HearKeepsGate(cfg, w.sess, c.ev.notices);
      S.HearKeepsLedger(cfg, w.sess, c.ev.notices);
    }
  }

  lemma InstallStepStays(cfg: S.Config, w: World, c: Choice, b: Begun)
    requires b.OfAnother() && InstallInv(w, b)
    requires Bystander(c, b.v) && ReadsCurrentHere(w, c) && ClockWithin(c, b.lo, b.hi)
    ensures InstallInv(Step(cfg, w, c), b)
  {
    if w.pc.Live? {
      if c.Receive? {
        EventLeavesInstall(cfg, w, c, b);
      } else if c.WorkerCall? && !c.adding && w.worker.installer.Installing? {
        InstallCallLands(w, c, b);
      } else {
        AddLeavesInstall(w, c, b);
      }
    }
  }

  /** An install anywhere in a session: wherever it stands, whatever comes between its calls, whichever calls
      fail and wherever the session ends, it is in flight with the layout of its point, or it published its
      marker, stamped by one of its clock readings, and left `current`, `previous` and marker as a rollback
      needs them, or it wrote no marker. */
  lemma {:induction false} InstallRuns(cfg: S.Config, w: World, cs: seq<Choice>, b: Begun)
    requires b.OfAnother() && InstallInv(w, b)
    requires AllBystanders(cs, b.v) && AlwaysReadsCurrent(cfg, w, cs) && ClocksWithin(cs, b.lo, b.hi)
    ensures InstallInv(Run(cfg, w, cs), b)
  {
    if cs != [] {
      InstallRuns(cfg, w, Front(cs), b);
      assert Bystander(cs[|cs| - 1], b.v) && ClockWithin(cs[|cs| - 1], b.lo, b.hi);
      InstallStepStays(cfg, Run(cfg, w, Front(cs)), Last(cs), b);
    }
  }

  /** The worker is free to install v, and v is news to it. */
  predicate CanInstall(w: World, v: Version) {
    && w.pc.Live? && Safety.SessionOpen(w) && Safety.ListInv(w) && Unlisted(w, v) && !w.sess.gate.Active()
    && w.worker.Alive? && w.worker.installer == Machine.NoInstall
    && ValidLabel(v) && v != w.sess.version
    && Current in w.disk.links && w.disk.links[Current] != VersionTarget(v)
  }

  /** The worker starts an install exactly if it has none in flight and v is a label other than its own; that
      touches nothing on disk. */
  lemma InstallBeginsIff(cfg: S.Config, w: World, v: Version)
    requires w.pc.Live? && w.worker.Alive?
    ensures var w' := Step(cfg, w, WorkerInstalls(v));
            if w.worker.installer == Machine.NoInstall && v != "" && v[0] == 'v' && v != w.sess.version then
              w' == w.(worker := w.worker.(installer := Installing(v, U.MakeVersions)))
            else w' == w
  {
  }

  /** An install of v begun in a session and completed in it, with any events, adds and failing calls between
      its calls: when the session is over, `current` is v, `previous` what it was, and the marker waits, stamped
      between the bounds of the install's clock readings. */
  lemma CompletedInstallIsInstalled(cfg: S.Config, w: World, v: Version, s1: seq<Choice>, lo: Time, hi: Time)
    requires CanInstall(w, v) && AllBystanders(s1, v) && ClocksWithin(s1, lo, hi)
    requires AlwaysReadsCurrent(cfg, Step(cfg, w, WorkerInstalls(v)), s1)
    requires var e := Run(cfg, Step(cfg, w, WorkerInstalls(v)), s1); e.pc.Ended? && e.written == w.written + 1
    ensures var e := Run(cfg, Step(cfg, w, WorkerInstalls(v)), s1);
            && e.disk.marker.file.Whole? && e.worker == Gone && !e.sess.gate.Active()
            && lo <= e.disk.marker.file.content.installedAt <= hi
            && Installed(e.disk, w.disk.links[Current], v, e.disk.marker.file.content.installedAt)
  {
    var w1 := Step(cfg, w, WorkerInstalls(v));
    var b := Begun(v, w.disk.links, w.written, lo, hi);
    assert InFlight(w1, b);
    Safety.StepKeepsList(cfg, w, WorkerInstalls(v));
    InstallRuns(cfg, w1, s1, b);
  }

  /** The whole transaction, from the moment a worker without a gate starts to install v. Its session may receive
      and blacklist anything (except v, and without another install), its calls may fail as long as `current`
      can be read, and the install completes before the old worker exits. If that exit stays below the crash
      cap and v is spawned within the window counted from the install's earliest clock reading, then any crash,
      spawn failure or timeout that ends v's session before its gate passes leads back to the old version. */
  lemma InstallTransaction(cfg: S.Config, w: World, v: Version, s1: seq<Choice>, t1: Time, t2: Time,
                           spawn: Choice, s2: seq<Choice>, t3: Time, lo: Time, hi: Time)
    requires CanInstall(w, v) && AllBystanders(s1, v) && AllBystanders(s2, v) && spawn.Spawn?
    requires AlwaysReadsCurrent(cfg, Step(cfg, w, WorkerInstalls(v)), s1) && ClocksWithin(s1, lo, hi)
    requires var e := Run(cfg, Step(cfg, w, WorkerInstalls(v)), s1);
             && e.pc.Ended? && e.pc.verdict == S.CrashExit && e.written == w.written + 1
             && |T.Recorded(cfg.backoff, e.sess.tracker, t1).crashes| < cfg.backoff.crashCap
             && t2 < lo + e.sess.gate.window
    requires var e := Run(cfg, Run(cfg, Step(cfg, w, WorkerInstalls(v)), s1), Handover(t1, t2, spawn) + s2);
             && e.pc.Ended? && e.pc.v == v
             && (e.pc.verdict == S.HealthTimedOut
                 || ((e.pc.verdict == S.CrashExit || e.pc.verdict == S.SpawnFailure) && e.sess.gate.Active()))
    ensures RolledBack(Run(cfg, w, [WorkerInstalls(v)] + s1 + (Handover(t1, t2, spawn) + s2 + CleanRollback(t3))),
                       w.disk.links[Current], v)
  {
    CompletedInstallIsInstalled(cfg, w, v, s1, lo, hi);
    OneStep(cfg, w, WorkerInstalls(v));
    hide Run, Step;
    var e := Run(cfg, Step(cfg, w, WorkerInstalls(v)), s1);
    RunConcat(cfg, w, [WorkerInstalls(v)], s1);
    FailureUnderGateRollsBack(cfg, e, w.disk.links[Current], v, e.disk.marker.file.content.installedAt,
                              t1, t2, spawn, s2, t3);
    RunConcat(cfg, w, [WorkerInstalls(v)] + s1, Handover(t1, t2, spawn) + s2 + CleanRollback(t3));
  }
}
