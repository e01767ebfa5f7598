/** The links over whole runs: whatever is killed or fails, each of them names a version directory that is
    all there, as long as no install is of a version that a link names. */
module LinkSafety {
  import opened Common
  import opened Disk
  import opened Machine
  import W = Symlinks
  import U = SelfUpdate
  import S = Session

  predicate IsComplete(dirs: Dirs, v: Version) {
    Promoted(v) in dirs && dirs[Promoted(v)] == Complete
  }

  /** Every link, the temporary one included, names a fully promoted directory. */
  predicate LinksComplete(d: Disk) {
    forall n :: n in d.links ==> IsComplete(d.dirs, d.links[n].base)
  }

  predicate Unlinked(l: Links, v: Version) {
    forall n :: n in l ==> l[n].base != v
  }

  /** The target a rotation is about to write to `previous`. */
  predicate PriorIsComplete(pc: U.RotatePc, dirs: Dirs) {
    match pc
    case ClearPrev(prior) => IsComplete(dirs, prior.base)
    case WritePrev(prior) => IsComplete(dirs, prior.base)
    case _ => true
  }

  /** An install in flight that cannot break a link any more. */
  predicate InstallIsSafe(v: Version, at: U.InstallPc, d: Disk) {
    && U.AppliedFiles(v, at, d)
    && (U.BeforeRotation(at) ==> Unlinked(d.links, v))
    && (at.Rotating? ==> PriorIsComplete(at.pc, d.dirs))
  }

  lemma InstallStepKeepsLinks(v: Version, at: U.InstallPc, d: Disk, fault: bool, now: Time)
    requires LinksComplete(d) && InstallIsSafe(v, at, d)
    ensures var (at', d') := U.InstallStep(v, at, d, fault, now); LinksComplete(d') && InstallIsSafe(v, at', d')
  {
    hide U.InstallStep;
    if at.Rotating? {
      RotatingKeepsLinks(v, at, d, fault, now);
    } else {
      OtherCallKeepsLinks(v, at, d, fault, now);
    }
  }

  lemma RotatingKeepsLinks(v: Version, at: U.InstallPc, d: Disk, fault: bool, now: Time)
    requires at.Rotating? && LinksComplete(d) && InstallIsSafe(v, at, d)
    ensures var (at', d') := U.InstallStep(v, at, d, fault, now); LinksComplete(d') && InstallIsSafe(v, at', d')
  {
    RotateStepKeepsLinks(v, at.pc, d.links, d.dirs, fault);
  }

  lemma OtherCallKeepsLinks(v: Version, at: U.InstallPc, d: Disk, fault: bool, now: Time)
    requires !at.Rotating? && LinksComplete(d) && InstallIsSafe(v, at, d)
    ensures var (at', d') := U.InstallStep(v, at, d, fault, now); LinksComplete(d') && InstallIsSafe(v, at', d')
  {
  }

  lemma RotateStepKeepsLinks(v: Version, pc: U.RotatePc, l: Links, dirs: Dirs, fault: bool)
    requires forall n :: n in l ==> IsComplete(dirs, l[n].base)
    requires IsComplete(dirs, v) && PriorIsComplete(pc, dirs)
    ensures var (pc', l') := U.RotateStep(v, pc, l, fault);
            (forall n :: n in l' ==> IsComplete(dirs, l'[n].base)) && PriorIsComplete(pc', dirs)
  {
  }

  lemma {:induction false} UnlinkedInstallKeepsLinks(v: Version, d: Disk, calls: seq<U.Call>)
    requires LinksComplete(d) && Unlinked(d.links, v)
    ensures var (at, d') := U.RunInstall(v, d, calls); LinksComplete(d') && InstallIsSafe(v, at, d')
  {
    if calls != [] {
      UnlinkedInstallKeepsLinks(v, d, Front(calls));
      var (at, d') := U.RunInstall(v, d, Front(calls));
      InstallStepKeepsLinks(v, at, d', Last(calls).fault, Last(calls).now);
    }
  }

  /** An install of a version that link `n` names, killed while it removes the old directory. */
  lemma LinkedInstallBreaksLink(v: Version, d: Disk, n: LinkName) returns (calls: seq<U.Call>)
    requires LinksComplete(d) && n in d.links && d.links[n].base == v
    ensures !LinksComplete(U.RunInstall(v, d, calls).1)
  {
    var ok := U.Call(false, 0);
    calls := U.AdvanceInstall(v, d, [], U.MakeVersions, d, ok);
    var d1 := d.(dirs := d.dirs - {Staging(v)});
    calls := U.AdvanceInstall(v, d, calls, U.ClearStaging, d, ok);
    assert U.RunInstall(v, d, calls) == (U.MakeStaging, d1) by {
      if Staging(v) !in d.dirs {
        assert d.dirs - {Staging(v)} == d.dirs;
      }
    }
    var d2 := d1.(dirs := d1.dirs[Staging(v) := Partial]);
    calls := U.AdvanceInstall(v, d, calls, U.MakeStaging, d1, ok);
    var d3 := d2.(dirs := d2.dirs[Staging(v) := Complete]);
    calls := U.AdvanceInstall(v, d, calls, U.Extract, d2, ok);
    calls := U.AdvanceInstall(v, d, calls, U.StatTarget, d3, ok);
    calls := U.AdvanceInstall(v, d, calls, U.StartClearTarget, d3, ok);
    var d4 := U.RunInstall(v, d, calls).1;
    assert n in d4.links && d4.dirs[Promoted(v)] == Partial;
  }

  /** An install may be killed at any call, and any calls of it may fail, without a link ever naming a
      directory that is missing, half built or half removed, exactly when no link names its version. */
  lemma InstallIsSafeIff(v: Version, d: Disk)
    requires LinksComplete(d)
    ensures (forall calls :: LinksComplete(U.RunInstall(v, d, calls).1)) <==> Unlinked(d.links, v)
  {
    if Unlinked(d.links, v) {
      forall calls ensures LinksComplete(U.RunInstall(v, d, calls).1) {
        UnlinkedInstallKeepsLinks(v, d, calls);
      }
    } else {
      var n :| n in d.links && d.links[n].base == v;
      var calls := LinkedInstallBreaksLink(v, d, n);
    }
  }

  // ------------------------------------------------------------- Whole runs

  lemma SwapStepKeepsLinks(pc: W.SwapPc, l: Links, dirs: Dirs, fault: bool)
    requires forall n :: n in l ==> IsComplete(dirs, l[n].base)
    ensures var l' := W.SwapStep(pc, l, fault).1; forall n :: n in l' ==> IsComplete(dirs, l'[n].base)
  {
  }

  predicate LinksInv(w: World) {
    && LinksComplete(w.disk)
    && (w.worker.Alive? <==> w.pc.Live?)
    && (w.worker.Alive? && w.worker.installer.Installing? ==>
          InstallIsSafe(w.worker.installer.v, w.worker.installer.at, w.disk))
    && (w.pc.Gating? || w.pc.Spawning? ==> w.pc.v == UNREADABLE_LABEL || IsComplete(w.disk.dirs, w.pc.v))
  }

  /** If the choice starts an install, then of a version that no link names. */
  predicate StartsUnlinked(w: World, c: Choice) {
    c.WorkerInstalls? ==> Unlinked(w.disk.links, c.version)
  }

  predicate UnlinkedInstalls(cfg: S.Config, w: World, cs: seq<Choice>) {
    cs == [] || (UnlinkedInstalls(cfg, w, Front(cs)) && StartsUnlinked(Run(cfg, w, Front(cs)), Last(cs)))
  }

  lemma WorkerKeepsLinks(w: World, c: Choice)
    requires w.pc.Live? && LinksInv(w) && StartsUnlinked(w, c)
    ensures LinksInv(StepWorker(w, c))
  {
    if c.WorkerCall? && !c.adding && w.worker.installer.Installing? {
      InstallStepKeepsLinks(w.worker.installer.v, w.worker.installer.at, w.disk, c.fault, c.now);
    }
  }

  lemma SwapKeepsLinks(w: World, fault: bool)
    requires w.pc.Swapping? && LinksInv(w)
    ensures LinksInv(StepSwapping(w, fault))
  {
    SwapStepKeepsLinks(w.pc.swap, w.disk.links, w.disk.dirs, fault);
  }

  lemma OtherKeepsLinks(cfg: S.Config, w: World, c: Choice)
    requires LinksInv(w) && (w.pc.Live? ==> c.Receive?) && !(w.pc.Swapping? && c.Io?)
    ensures LinksInv(Step(cfg, w, c))
  {
  }

  lemma {:induction false} RunKeepsLinks(cfg: S.Config, w: World, cs: seq<Choice>)
    requires LinksInv(w) && UnlinkedInstalls(cfg, w, cs)
    ensures LinksInv(Run(cfg, w, cs))
  {
    if cs != [] {
      RunKeepsLinks(cfg, w, Front(cs));
      var mid, c := Run(cfg, w, Front(cs)), Last(cs);
      if mid.pc.Live? && !c.Receive? {
        WorkerKeepsLinks(mid, c);
      } else if mid.pc.Swapping? && c.Io? {
        SwapKeepsLinks(mid, c.fault);
      } else {
        OtherKeepsLinks(cfg, mid, c);
      }
    }
  }

  /** In every run whose installs are of versions no link names, with the worker killed anywhere in an install
      and the supervisor anywhere in a swap: all links name fully promoted directories at every moment, so
      every rollback lands on a whole version and every spawn starts one. */
  lemma LinksAreAlwaysComplete(cfg: S.Config, disk: Disk, ledger: seq<S.Entry>, cs: seq<Choice>)
    requires LinksComplete(disk) && UnlinkedInstalls(cfg, Boot(cfg, disk, ledger), cs)
    ensures var w := Run(cfg, Boot(cfg, disk, ledger), cs);
            && (forall n :: n in w.disk.links ==> IsComplete(w.disk.dirs, w.disk.links[n].base))
            && (w.pc.Spawning? && w.pc.v != UNREADABLE_LABEL ==> IsComplete(w.disk.dirs, w.pc.v))
  {
    RunKeepsLinks(cfg, Boot(cfg, disk, ledger), cs);
  }
}
