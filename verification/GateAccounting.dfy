/** Whole-run bookkeeping of the install gate and of the crash tracker. */
module GateAccounting {
  import opened Common
  import opened Disk
  import opened Machine
  import B = Backoff
  import T = CrashTracker
  import S = Session
  import Safety = SpawnSafety

  // ------------------------------------------------- One decision per marker

  /** A decision has been made and its marker is about to be deleted. */
  predicate Settling(w: World) {
    match w.pc
    case Ended(_, verdict) => verdict == S.HealthTimedOut
    case Failing(_, _) => true
    case Blacklisting(_, _, _, _) => true
    case Unmarking(_, _) => true
    case _ => false
  }

  /** Markers on disk that can still lead to a decision. */
  function Outstanding(w: World): nat {
    if w.disk.marker.file.Whole? && !Settling(w) then 1 else 0
  }

  /** The choice lets every marker delete succeed: no fault, and no restart between a decision and its delete. */
  predicate DeletesSucceed(w: World, c: Choice) {
    match c
    case Prepare(_, noDelete, _) => !noDelete
    case Receive(_, noDelete) => !noDelete
    case Io(fault) => w.pc.Unmarking? ==> !fault
    case Restart => !Settling(w)
    case _ => true
  }

  predicate AllDeletesSucceed(cfg: S.Config, w: World, cs: seq<Choice>) {
    cs == [] || (AllDeletesSucceed(cfg, w, Front(cs)) && DeletesSucceed(Run(cfg, w, Front(cs)), Last(cs)))
  }

  /** The gate watches only while the iteration it was armed in runs its version, and an add of the
      supervisor is for that version. */
  predicate GateOwned(w: World) {
    && (w.sess.gate.Active() ==>
          match w.pc
          case Spawning(v) => w.sess.gate.version == v
          case Live(v) => w.sess.gate.version == v
          case Ended(v, verdict) => w.sess.gate.version == v && verdict != S.HealthTimedOut
          case _ => true)
    && (w.pc.Ended? && w.pc.verdict == S.HealthTimedOut ==> w.sess.gate.version == w.pc.v)
    && (w.pc.Failing? ==> w.sess.gate.version == w.pc.v)
    && (w.pc.Blacklisting? ==> w.sess.gate.version == w.pc.v)
    && (w.pc.Unmarking? ==> w.sess.gate.version == w.pc.v)
  }

  lemma SessionKeepsOwner(cfg: S.Config, w: World, c: Choice)
    requires w.pc.Live? && Safety.SessionOpen(w) && GateOwned(w)
    ensures GateOwned(Step(cfg, w, c))
  {
    if c.Receive? && c.ev.Message? {
      S.HearKeepsGate(cfg, w.sess, c.ev.notices);
      S.HearKeepsLedger(cfg, w.sess, c.ev.notices);
    }
  }

  lemma OtherKeepsOwner(cfg: S.Config, w: World, c: Choice)
    requires !w.pc.Live? && GateOwned(w)
    ensures GateOwned(Step(cfg, w, c))
  {
  }

  lemma {:induction false} RunKeepsOwner(cfg: S.Config, w: World, cs: seq<Choice>)
    requires Safety.SessionOpen(w) && GateOwned(w)
    ensures GateOwned(Run(cfg, w, cs))
  {
    if cs != [] {
      RunKeepsOwner(cfg, w, Front(cs));
      Safety.RunKeepsOpen(cfg, w, Front(cs));
      var mid, c := Run(cfg, w, Front(cs)), Last(cs);
      if mid.pc.Live? {
        SessionKeepsOwner(cfg, mid, c);
      } else {
        OtherKeepsOwner(cfg, mid, c);
      }
    }
  }

  /** The gate is active and the iteration that armed it is still at its spawn. */
  predicate Watching(w: World) {
    w.sess.gate.Active() && (w.pc.Spawning? || w.pc.Live? || w.pc.Ended?)
  }

  predicate Watches(w: World, v: Version) {
    Watching(w) && w.pc.v == v && w.sess.gate.version == v
  }

  predicate SettlesFor(w: World, v: Version) {
    Settling(w) && w.pc.v == v
  }

  /** Step `p` of the run prepared version v; from then on the gate watched v without a break until point `d`,
      and since `d`, in the same iteration, the failure of v is being dealt with. */
  predicate ArmedAndFailed(cfg: S.Config, w: World, cs: seq<Choice>, v: Version, p: nat, d: nat) {
    && p < d <= |cs| && cs[p].Prepare? && Run(cfg, w, cs[..p]).pc == Gating(v)
    && (forall q :: p < q <= d ==> Watches(Run(cfg, w, cs[..q]), v))
    && (forall q :: d < q <= |cs| ==> SettlesFor(Run(cfg, w, cs[..q]), v))
  }

  lemma SessionOrigin(cfg: S.Config, w: World, c: Choice)
    requires w.pc.Live? && Safety.SessionOpen(w)
    ensures var w' := Step(cfg, w, c);
            Watching(w') || Settling(w') ==> Watching(w) && w'.pc.v == w.pc.v
  {
    if c.Receive? && c.ev.Message? {
      S.HearKeepsGate(cfg, w.sess, c.ev.notices);
      S.HearKeepsLedger(cfg, w.sess, c.ev.notices);
    }
  }

  lemma OtherOrigin(cfg: S.Config, w: World, c: Choice)
    requires !w.pc.Live?
    ensures var w' := Step(cfg, w, c);
            && (Watching(w') ==> (w.pc == Gating(w'.pc.v) && c.Prepare?) || (Watching(w) && w'.pc.v == w.pc.v))
            && (Settling(w') ==> (Watching(w) || Settling(w)) && w'.pc.v == w.pc.v)
  {
  }

  /** A gate that is watching, or whose failure is being dealt with, was armed for that version in this very
      iteration, and has watched it without a break. */
  lemma {:induction false} FailureWasWatched(cfg: S.Config, w: World, cs: seq<Choice>) returns (p: nat, d: nat)
    requires w.pc == Head && GateOwned(w) && Safety.SessionOpen(w)
    requires Watching(Run(cfg, w, cs)) || Settling(Run(cfg, w, cs))
    ensures ArmedAndFailed(cfg, w, cs, Run(cfg, w, cs).pc.v, p, d)
    ensures d == |cs| <==> Watching(Run(cfg, w, cs))
  {
    NotYetAtHead(cfg, w, cs);
    hide Run, Step;
    var front, c := Front(cs), Last(cs);
    var mid, now := Run(cfg, w, front), Run(cfg, w, cs);
    Safety.RunKeepsOpen(cfg, w, front);
    RunKeepsOwner(cfg, w, front);
    RunKeepsOwner(cfg, w, cs);
    assert cs == front + [c];
    WatchOrigin(cfg, mid, c);
    assert now == Step(cfg, mid, c) by {
      RunSnoc(cfg, w, front, c);
    }
    if !Watching(mid) && !Settling(mid) {
      p, d := |front|, |cs|;
      ArmedHere(cfg, w, front, c, now.pc.v);
    } else {
      p, d := FailureWasWatched(cfg, w, front);
      if Watching(now) {
        d := |cs|;
      }
      ArmedExtends(cfg, w, front, c, now.pc.v, p, d);
    }
  }

  lemma NotYetAtHead(cfg: S.Config, w: World, cs: seq<Choice>)
    requires w.pc == Head && Run(cfg, w, cs).pc != Head
    ensures cs != []
  {
  }

  lemma WatchOrigin(cfg: S.Config, w: World, c: Choice)
    requires Safety.SessionOpen(w) && GateOwned(w)
    ensures var w' := Step(cfg, w, c);
            && (Watching(w') ==> (w.pc == Gating(w'.pc.v) && c.Prepare?) || (Watching(w) && w'.pc.v == w.pc.v))
            && (Settling(w') ==> (Watching(w) || Settling(w)) && w'.pc.v == w.pc.v)
            && !(Watching(w) && Settling(w))
  {
    if w.pc.Live? {
      SessionOrigin(cfg, w, c);
    } else {
      OtherOrigin(cfg, w, c);
    }
  }

  lemma ArmedHere(cfg: S.Config, w: World, cs: seq<Choice>, c: Choice, v: Version)
    requires c.Prepare? && Run(cfg, w, cs).pc == Gating(v) && Watches(Run(cfg, w, cs + [c]), v)
    ensures ArmedAndFailed(cfg, w, cs + [c], v, |cs|, |cs| + 1)
  {
    hide Run;
    var more := cs + [c];
    assert more[..|cs|] == cs && more[..|cs| + 1] == more;
  }

  /** The watch, or its aftermath, goes on for one more step. */
  lemma ArmedExtends(cfg: S.Config, w: World, cs: seq<Choice>, c: Choice, v: Version, p: nat, d: nat)
    requires ArmedAndFailed(cfg, w, cs, v, p, if d == |cs| + 1 then |cs| else d) && d <= |cs| + 1
    requires if d == |cs| + 1 then Watches(Run(cfg, w, cs + [c]), v) else SettlesFor(Run(cfg, w, cs + [c]), v)
    ensures ArmedAndFailed(cfg, w, cs + [c], v, p, d)
  {
    hide Run;
    var more := cs + [c];
    forall q | 0 <= q <= |more|
      ensures more[..q] == if q <= |cs| then cs[..q] else more
    {
    }
  }

  /** In every run, a step of the supervisor without a worker adds at most one version to the blacklist: one
      whose gate it armed in that same iteration, and which failed while that gate was watching. */
  lemma SupervisorListsOnlyTheGated(cfg: S.Config, disk: Disk, ledger: seq<S.Entry>, cs: seq<Choice>, c: Choice)
    returns (v: Version, p: nat, d: nat)
    requires Safety.FileSound(disk.list)
    requires !Run(cfg, Boot(cfg, disk, ledger), cs).pc.Live?
    ensures var w := Run(cfg, Boot(cfg, disk, ledger), cs);
            || Safety.ListedIn(Step(cfg, w, c)) == Safety.ListedIn(w)
            || (Safety.ListedIn(Step(cfg, w, c)) == Safety.ListedIn(w) + {v}
                && ArmedAndFailed(cfg, Boot(cfg, disk, ledger), cs, v, p, d) && d < |cs|)
  {
    var boot := Boot(cfg, disk, ledger);
    var w := Run(cfg, boot, cs);
    Safety.BootIsSound(cfg, disk, ledger);
    Safety.RunKeepsList(cfg, boot, cs);
    v, p, d := "", 0, 0;
    hide Run;
    if w.pc.Blacklisting? && c.Io? {
      v := w.pc.v;
      p, d := FailureWasWatched(cfg, boot, cs);
      Safety.SaveStepSound(w.disk.list, w.pc.list, w.pc.save, c.fault);
    } else if !(w.pc.Failing? && c.LoadList?) {
      Safety.OtherKeepsList(cfg, w, c);
    }
  }

  /** While the gate watches, its marker is on disk. */
  predicate GateInv(w: World) {
    && GateOwned(w)
    && (w.sess.gate.Active() && (w.pc.Spawning? || w.pc.Live? || w.pc.Ended?) ==> w.disk.marker.file.Whole?)
    && (w.worker.Alive? && w.worker.installer.Installing? && w.worker.installer.at.PublishMarker? ==>
          w.disk.marker.tmp.Whole?)
    && (w.worker.Alive? ==> w.pc.Live?)
  }

  predicate Balanced(w: World, spare: nat) {
    w.decided + Outstanding(w) <= w.written + spare
  }

  lemma SessionBalances(cfg: S.Config, w: World, c: Choice, spare: nat)
    requires w.pc.Live? && c.Receive? && Safety.SessionOpen(w) && GateInv(w) && Balanced(w, spare)
    requires !c.noDelete
    ensures GateInv(Step(cfg, w, c)) && Balanced(Step(cfg, w, c), spare)
  {
    if c.ev.Message? {
      MessageBalances(cfg, w, c, spare);
    }
  }

  lemma MessageBalances(cfg: S.Config, w: World, c: Choice, spare: nat)
    requires w.pc.Live? && c.Receive? && c.ev.Message?
    requires Safety.SessionOpen(w) && GateInv(w) && Balanced(w, spare)
    ensures GateInv(Step(cfg, w, c)) && Balanced(Step(cfg, w, c), spare)
  {
    hide S.HearAll;
    S.HearKeepsGate(cfg, w.sess, c.ev.notices);
    S.HearKeepsLedger(cfg, w.sess, c.ev.notices);
  }

  lemma WorkerBalances(cfg: S.Config, w: World, c: Choice, spare: nat)
    requires w.pc.Live? && !c.Receive? && GateInv(w) && Balanced(w, spare)
    ensures GateInv(Step(cfg, w, c)) && Balanced(Step(cfg, w, c), spare)
  {
  }

  lemma OutcomeBalances(cfg: S.Config, w: World, c: Choice, spare: nat)
    requires w.pc.Ended? && c.Act? && GateInv(w) && Balanced(w, spare)
    ensures GateInv(Step(cfg, w, c)) && Balanced(Step(cfg, w, c), spare)
  {
  }

  lemma GatingBalances(cfg: S.Config, w: World, c: Choice, spare: nat)
    requires w.pc.Gating? && GateInv(w) && Balanced(w, spare) && DeletesSucceed(w, c)
    ensures GateInv(Step(cfg, w, c)) && Balanced(Step(cfg, w, c), spare)
  {
  }

  lemma OtherBalances(cfg: S.Config, w: World, c: Choice, spare: nat)
    requires !w.pc.Live? && !w.pc.Gating? && !(w.pc.Ended? && c.Act?)
    requires GateInv(w) && Balanced(w, spare) && DeletesSucceed(w, c)
    ensures GateInv(Step(cfg, w, c)) && Balanced(Step(cfg, w, c), spare)
  {
  }

  lemma {:induction false} RunBalances(cfg: S.Config, w: World, cs: seq<Choice>, spare: nat)
    requires Safety.SessionOpen(w) && GateInv(w) && Balanced(w, spare) && AllDeletesSucceed(cfg, w, cs)
    ensures GateInv(Run(cfg, w, cs)) && Balanced(Run(cfg, w, cs), spare)
  {
    if cs != [] {
      RunBalances(cfg, w, Front(cs), spare);
      Safety.RunKeepsOpen(cfg, w, Front(cs));
      var mid, c := Run(cfg, w, Front(cs)), Last(cs);
      if mid.pc.Live? && c.Receive? {
        SessionBalances(cfg, mid, c, spare);
      } else if mid.pc.Live? {
        WorkerBalances(cfg, mid, c, spare);
      } else if mid.pc.Ended? && c.Act? {
        OutcomeBalances(cfg, mid, c, spare);
      } else if mid.pc.Gating? {
        GatingBalances(cfg, mid, c, spare);
      } else {
        OtherBalances(cfg, mid, c, spare);
      }
    }
  }

  /** If marker deletes succeed, a run makes at most one gate decision per marker: those the installs wrote,
      plus the one that may have been on disk at the start. */
  lemma DecisionsAreCovered(cfg: S.Config, disk: Disk, ledger: seq<S.Entry>, cs: seq<Choice>)
    requires AllDeletesSucceed(cfg, Boot(cfg, disk, ledger), cs)
    ensures var w := Run(cfg, Boot(cfg, disk, ledger), cs);
            w.decided <= w.written + if disk.marker.file.Whole? then 1 else 0
  {
    RunBalances(cfg, Boot(cfg, disk, ledger), cs, if disk.marker.file.Whole? then 1 else 0);
  }

  // ------------------------------------------------- What becomes of a marker

  /** Since the decision count was `n`: no decision and marker m in place, or a decision and the marker gone
      (or about to be). */
  predicate MarkerFate(w: World, m: Marker, n: nat) {
    && (w.worker.Alive? ==> w.pc.Live? && w.worker.installer == Machine.NoInstall)
    && !w.pc.Spawning?
    && w.decided >= n
    && (w.decided == n ==> w.disk.marker.file == Whole(m) && !Settling(w))
    && (w.decided > n ==> w.disk.marker.file == Absent || Settling(w))
  }

  lemma MarkerFateSteps(cfg: S.Config, w: World, c: Choice, m: Marker, n: nat)
    requires Safety.SessionOpen(w) && MarkerFate(w, m, n) && DeletesSucceed(w, c)
    requires !c.Prepare? && !c.WorkerInstalls?
    ensures MarkerFate(Step(cfg, w, c), m, n)
  {
    if w.pc.Live? && c.Receive? && c.ev.Message? {
      S.HearKeepsLedger(cfg, w.sess, c.ev.notices);
    }
  }

  predicate NoPrepareNoInstall(cs: seq<Choice>) {
    forall i :: 0 <= i < |cs| ==> !cs[i].Prepare? && !cs[i].WorkerInstalls?
  }

  lemma {:induction false} RunKeepsFate(cfg: S.Config, w: World, cs: seq<Choice>, m: Marker, n: nat)
    requires Safety.SessionOpen(w) && MarkerFate(w, m, n) && AllDeletesSucceed(cfg, w, cs) && NoPrepareNoInstall(cs)
    ensures MarkerFate(Run(cfg, w, cs), m, n)
  {
    if cs != [] {
      RunKeepsFate(cfg, w, Front(cs), m, n);
      Safety.RunKeepsOpen(cfg, w, Front(cs));
      assert !cs[|cs| - 1].Prepare? && !cs[|cs| - 1].WorkerInstalls?;
      MarkerFateSteps(cfg, Run(cfg, w, Front(cs)), Last(cs), m, n);
    }
  }

  /** A marker published while the gate of another version (or none) is active is still there at the next
      prepareGate, if deletes succeed, exactly when that gate made no decision in between: a pass drops it, and
      so does a failure, whichever version the marker is of. */
  lemma MarkerKeptIff(cfg: S.Config, w: World, cs: seq<Choice>, m: Marker)
    requires w.pc.Live? && w.worker.Alive? && Safety.SessionOpen(w)
    requires w.worker.installer == Machine.NoInstall && w.disk.marker.file == Whole(m)
    requires AllDeletesSucceed(cfg, w, cs) && NoPrepareNoInstall(cs) && Run(cfg, w, cs).pc.Gating?
    ensures var w' := Run(cfg, w, cs);
            && (w'.disk.marker.file == Whole(m) <==> w'.decided == w.decided)
            && (w'.disk.marker.file != Whole(m) ==> w'.disk.marker.file == Absent)
  {
    RunKeepsFate(cfg, w, cs, m, w.decided);
  }

  // --------------------------------------------------------- The crash budget

  /** Fewer crashes than the cap are on the tracker, except on the way to the rollback that clears it. */
  predicate BudgetLeft(cfg: S.Config, w: World) {
    match w.pc
    case Swapping(_, _, _) => true
    case Returned(_) => true
    case BackingOff(_) =>
      |w.sess.tracker.crashes| < cfg.backoff.crashCap
      && (cfg.backoff.crashWindow >= 0 ==> |w.sess.tracker.crashes| >= 1)
    case _ => |w.sess.tracker.crashes| < cfg.backoff.crashCap
  }

  lemma {:induction false} HearKeepsCrashes(cfg: S.Config, s: S.Sess, ns: seq<S.Notice>)
    ensures S.HearAll(cfg, s, ns).tracker.crashes == s.tracker.crashes
  {
    if ns != [] {
      HearKeepsCrashes(cfg, s, Front(ns));
    }
  }

  lemma NewCrashIsInWindow(p: B.Policy, t: T.TrackerState, now: Time)
    requires p.crashWindow >= 0
    ensures |T.Recorded(p, t, now).crashes| >= 1
  {
    var kept := if T.SteadyExpired(p, t.running, now) then [] else t.crashes;
    assert Last(kept + [now]) == now;
  }

  lemma SessionKeepsBudget(cfg: S.Config, w: World, c: Choice)
    requires w.pc.Live? && BudgetLeft(cfg, w)
    ensures BudgetLeft(cfg, Step(cfg, w, c))
  {
    if c.Receive? && c.ev.Message? {
      HearKeepsCrashes(cfg, w.sess, c.ev.notices);
    }
  }

  lemma OutcomeTracker(cfg: S.Config, w: World, c: Choice)
    requires w.pc.Ended? && c.Act?
    ensures var w' := Step(cfg, w, c);
            var t := T.Recorded(cfg.backoff, w.sess.tracker, c.now);
            || (w'.sess.tracker == w.sess.tracker && !w'.pc.BackingOff?)
            || (w'.sess.tracker == t && w'.pc.Swapping?)
            || (w'.sess.tracker == t && w'.pc.BackingOff? && |t.crashes| < cfg.backoff.crashCap)
  {
  }

  lemma OutcomeKeepsBudget(cfg: S.Config, w: World, c: Choice)
    requires w.pc.Ended? && c.Act? && BudgetLeft(cfg, w)
    ensures BudgetLeft(cfg, Step(cfg, w, c))
  {
    OutcomeTracker(cfg, w, c);
    if cfg.backoff.crashWindow >= 0 {
      NewCrashIsInWindow(cfg.backoff, w.sess.tracker, c.now);
    }
  }

  lemma OtherKeepsBudget(cfg: S.Config, w: World, c: Choice)
    requires cfg.backoff.crashCap >= 1 && BudgetLeft(cfg, w)
    requires !w.pc.Live? && !(w.pc.Ended? && c.Act?)
    ensures BudgetLeft(cfg, Step(cfg, w, c))
  {
  }

  /** With a crash cap of at least one, every loop head has fewer crashes than the cap on the tracker, and
      the delay is only ever computed for a number of crashes in [1, cap). */
  lemma {:induction false} DelayIsBelowCap(cfg: S.Config, disk: Disk, ledger: seq<S.Entry>, cs: seq<Choice>)
    requires cfg.backoff.crashCap >= 1
    ensures var w := Run(cfg, Boot(cfg, disk, ledger), cs);
            && BudgetLeft(cfg, w)
            && (w.pc == Head ==> |w.sess.tracker.crashes| < cfg.backoff.crashCap)
            && (w.pc.BackingOff? && cfg.backoff.crashWindow >= 0 ==>
                  1 <= |w.sess.tracker.crashes| < cfg.backoff.crashCap)
  {
    if cs != [] {
      DelayIsBelowCap(cfg, disk, ledger, Front(cs));
      var mid, c := Run(cfg, Boot(cfg, disk, ledger), Front(cs)), Last(cs);
      if mid.pc.Live? {
        SessionKeepsBudget(cfg, mid, c);
      } else if mid.pc.Ended? && c.Act? {
        OutcomeKeepsBudget(cfg, mid, c);
      } else {
        OtherKeepsBudget(cfg, mid, c);
      }
    }
  }
}
