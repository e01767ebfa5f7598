/** The whole update-and-rollback protocol as one transition system: the supervisor's loop
    (internal/supervisor/loop.go, supervisor.go), the worker that installs and blacklists beside it
    (internal/selfupdate, internal/blacklist), and the disk they share. One step is one system call, one
    received event or one stretch of the loop that touches nothing shared. The environment's part of a step
    is its `Choice`; a choice that does not fit the current point changes nothing. */
module Machine {
  import opened Common
  import opened Disk
  import L = Blacklist
  import W = Symlinks
  import U = SelfUpdate
  import G = Gate
  import T = CrashTracker
  import S = Session

  /** How the loop returned: nil, an error, or a StopError with its code. */
  datatype Exit = Cancelled | NoCurrent | SwapError | Code64 | Code65

  datatype Pc =
    | Head
    | Gating(v: Version)
    | Spawning(v: Version)
    | Live(v: Version)
    | Ended(v: Version, verdict: S.Verdict)
    | Failing(v: Version, reason: G.FailReason)
    | Blacklisting(v: Version, reason: G.FailReason, list: seq<Record>, save: L.SavePc)
    | Unmarking(v: Version, reason: G.FailReason)
    | Swapping(v: Version, why: S.Why, swap: W.SwapPc)
    | BackingOff(v: Version)
    | Returned(exit: Exit)

  datatype Adder = NoAdd | Adding(list: seq<Record>, save: L.SavePc)

  datatype Installer = NoInstall | Installing(v: Version, at: U.InstallPc)

  /** The worker process: at most one add and one install in flight. */
  datatype Worker = Gone | Alive(adder: Adder, installer: Installer)

  /** `written` counts published gate markers, `decided` the gate's decisions. */
  datatype World = World(pc: Pc, disk: Disk, worker: Worker, sess: S.Sess, written: nat, decided: nat)

  datatype Choice =
    | Resolve(cancelled: bool, noCurrent: bool, noLabel: bool, noList: bool)
    | Prepare(noMarker: bool, noDelete: bool, now: Time)
    | Spawn(ok: bool, born: Time, woken: Time)
    | Receive(ev: S.Event, noDelete: bool)
    | WorkerAdds(record: Record, noList: bool)
    | WorkerInstalls(version: Version)
    | WorkerCall(adding: bool, fault: bool, now: Time)
    | Act(now: Time)
    | LoadList(now: Time, noList: bool)
    | Io(fault: bool)
    | Wake(cancelled: bool)
    | Restart

  const UNREADABLE_LABEL: Version := "."

  function FreshSess(cfg: S.Config, ledger: seq<S.Entry>): S.Sess {
    S.Sess("", false, S.Off, S.Off, S.Off, G.Fresh(cfg.gateWindow, cfg.gateStableFor), T.FRESH, ledger, None)
  }

  function Boot(cfg: S.Config, disk: Disk, ledger: seq<S.Entry>): World {
    World(Head, disk, Gone, FreshSess(cfg, ledger), 0, 0)
  }

  function Recorded(w: World, e: S.Entry): World {
    w.(sess := w.sess.(ledger := w.sess.ledger + [e]))
  }

  function WithMarker(w: World, f: TmpFile<Marker>): World {
    w.(disk := w.disk.(marker := f))
  }

  /** Top of the loop: context, `current`, its label, the blacklist. */
  function StepHead(w: World, c: Choice): World
    requires c.Resolve?
  {
    if c.cancelled then w.(pc := Returned(Cancelled))
    else if c.noCurrent || Current !in w.disk.links then w.(pc := Returned(NoCurrent))
    else
      var v := if c.noLabel then UNREADABLE_LABEL else w.disk.links[Current].base;
      var list := L.Load(w.disk.list, c.noList);
      if list.Some? && L.Contains(list.value, v) then w.(pc := Swapping(v, S.Blacklisted, W.ReadCurrent))
      else w.(pc := Gating(v))
  }

  /** prepareGate: the marker, if it names the version about to run and is not stale, arms the gate. */
  function StepGate(w: World, v: Version, c: Choice): World
    requires c.Prepare?
  {
    var off := w.sess.gate.Reset();
    var unarmed := w.(pc := Spawning(v), sess := w.sess.(gate := off));
    if c.noMarker || !w.disk.marker.file.Whole? then unarmed
    else
      var m := w.disk.marker.file.content;
      var discarded := WithMarker(unarmed, Unlink(w.disk.marker, c.noDelete).0);
      if m.version == "" then unarmed
      else if m.version != v then discarded
      else
        var armed := off.Arm(v, m.installedAt, c.now);
        if armed.Active() then unarmed.(sess := w.sess.(gate := armed))
        else discarded.(sess := w.sess.(gate := armed))
  }

  function StepSpawn(cfg: S.Config, w: World, v: Version, c: Choice): World
    requires c.Spawn?
  {
    var w1 := Recorded(w, SpawnEntry(v));
    if c.ok then
      w1.(pc := Live(v), worker := Alive(NoAdd, NoInstall),
          sess := S.Start(cfg, v, w1.sess.gate, w1.sess.tracker, w1.sess.ledger, c.born, c.woken))
    else
      Recorded(w1, SpawnFailedEntry(v)).(pc := Ended(v, S.SpawnFailure))
  }

  /** The event is the gate timer and the gate passes on it. */
  predicate GatePasses(s: S.Sess, ev: S.Event) {
    s.verdict.None? && ev.GateFires? && s.gateTimer.Set? && s.gate.Tick(ev.at).1 == G.Pass
  }

  function StepSession(cfg: S.Config, w: World, v: Version, c: Choice): World
    requires c.Receive?
  {
    var s := S.React(cfg, w.sess, c.ev);
    var passes := GatePasses(w.sess, c.ev);
    var w1 := w.(sess := s);
    var w2 := if passes then WithMarker(w1, Unlink(w.disk.marker, c.noDelete).0) else w1;
    var w3 := if passes || s.verdict == Some(S.HealthTimedOut) then w2.(decided := w.decided + 1) else w2;
    if s.verdict.Some? then w3.(pc := Ended(v, s.verdict.value), worker := Gone) else w3
  }

  /** The manifest check that bears on the label. */
  predicate ValidLabel(v: Version) {
    v != "" && v[0] == 'v'
  }

  function StepWorker(w: World, c: Choice): World
    requires w.worker.Alive?
  {
    match c
    case WorkerAdds(r, noList) =>
      if w.worker.adder != NoAdd || r.version == "" then w
      else
        var list := L.Load(w.disk.list, noList);
        if list.None? then w
        else w.(worker := w.worker.(adder := Adding(L.Upsert(list.value, r), L.MakeDir)))
    case WorkerInstalls(v) =>
      if w.worker.installer != NoInstall || !ValidLabel(v) || v == w.sess.version then w
      else w.(worker := w.worker.(installer := Installing(v, U.MakeVersions)))
    case WorkerCall(adding, fault, now) =>
      if adding && w.worker.adder.Adding? then
        var a := w.worker.adder;
        var (save, f) := L.SaveStep(a.save, a.list, w.disk.list, fault);
        w.(disk := w.disk.(list := f),
           worker := w.worker.(adder := if save.SaveDone? then NoAdd else a.(save := save)))
      else if !adding && w.worker.installer.Installing? then
        var i := w.worker.installer;
        var (at, d) := U.InstallStep(i.v, i.at, w.disk, fault, now);
        w.(disk := d, worker := w.worker.(installer := if at.InstallDone? then NoInstall else i.(at := at)),
           written := if at == U.InstallDone(true) then w.written + 1 else w.written)
      else w
    case _ => w
  }

  function ReasonText(r: G.FailReason): string {
    match r
    case NoReason => ""
    case HealthCrash => "install-health-crash"
    case HealthTimeout => "install-health-timeout"
    case HealthSpawnFailed => "install-health-spawn-failed"
  }

  /** rollbackForInstallHealth up to the first write of the blacklist; a failed load skips to the marker. */
  function StepFailing(w: World, c: Choice): World
    requires w.pc.Failing? && c.LoadList?
  {
    var v, reason := w.pc.v, w.pc.reason;
    var list := L.Load(w.disk.list, c.noList);
    if v == "" || list.None? then w.(pc := Unmarking(v, reason))
    else w.(pc := Blacklisting(v, reason, L.Upsert(list.value, Record(v, c.now, ReasonText(reason))), L.MakeDir))
  }

  /** The switch over a finished spawn's outcome. */
  function StepOutcome(cfg: S.Config, w: World, v: Version, verdict: S.Verdict, c: Choice): World
    requires c.Act?
  {
    match verdict
    case Stopped => w.(pc := Returned(Cancelled))
    case NoRestartExit =>
      Recorded(w, S.Entry(S.StopEvent, v, Some(64), S.AskedToStop)).(pc := Returned(Code64))
    case RollbackExit => w.(pc := Swapping(v, S.RollbackRequested, W.ReadCurrent))
    case HealthTimedOut => w.(pc := Failing(v, G.HealthTimeout))
    case SpawnFailure =>
      if w.sess.gate.Active() then w.(pc := Failing(v, G.HealthSpawnFailed), decided := w.decided + 1)
      else w.(pc := Swapping(v, S.SpawnFailed, W.ReadCurrent))
    case CrashExit =>
      if w.sess.gate.Active() then
        w.(pc := Failing(v, G.HealthCrash), decided := w.decided + 1,
           sess := w.sess.(gate := w.sess.gate.OnCrash().0))
      else
        var t := T.Recorded(cfg.backoff, w.sess.tracker, c.now);
        var w1 := w.(sess := w.sess.(tracker := t));
        if T.CapReached(cfg.backoff, t) then w1.(pc := Swapping(v, S.CrashLoop, W.ReadCurrent))
        else w1.(pc := BackingOff(v))
  }

  function StepBlacklisting(w: World, fault: bool): World
    requires w.pc.Blacklisting?
  {
    var (save, f) := L.SaveStep(w.pc.save, w.pc.list, w.disk.list, fault);
    w.(disk := w.disk.(list := f),
       pc := if save.SaveDone? then Unmarking(w.pc.v, w.pc.reason) else w.pc.(save := save))
  }

  function StepUnmarking(w: World, fault: bool): World
    requires w.pc.Unmarking?
  {
    WithMarker(w, Unlink(w.disk.marker, fault).0).(
      sess := w.sess.(gate := w.sess.gate.Reset()),
      pc := Swapping(w.pc.v, S.HealthFailed(w.pc.reason), W.ReadCurrent))
  }

  /** The world with its swap at point `swap` over the links `l`: on its way, or wrapped up by rollback. */
  function SwapAt(w: World, swap: W.SwapPc, l: Links): World
    requires w.pc.Swapping?
  {
    var w1 := w.(disk := w.disk.(links := l), pc := w.pc.(swap := swap));
    if !swap.SwapDone? then w1
    else match swap.result
      case Swapped =>
        Recorded(w1.(sess := w.sess.(tracker := T.FRESH)),
                 S.Entry(S.RollbackEvent, w.pc.v, None, S.Because(w.pc.why))).(pc := Head)
      case NoRollbackTarget =>
        Recorded(w1, S.Entry(S.StopEvent, w.pc.v, None, S.NoTarget(w.pc.why))).(pc := Returned(Code65))
      case SwapFailed => w1.(pc := Returned(SwapError))
  }

  /** rollback: one call of the swap; after the last one the tracker and the ledger. */
  function StepSwapping(w: World, fault: bool): World
    requires w.pc.Swapping?
  {
    var (swap, l) := W.SwapStep(w.pc.swap, w.disk.links, fault);
    SwapAt(w, swap, l)
  }

  function Step(cfg: S.Config, w: World, c: Choice): World {
    match (w.pc, c)
    case (Head, Resolve(_, _, _, _)) => StepHead(w, c)
    case (Gating(v), Prepare(_, _, _)) => StepGate(w, v, c)
    case (Spawning(v), Spawn(_, _, _)) => StepSpawn(cfg, w, v, c)
    case (Live(v), Receive(_, _)) => StepSession(cfg, w, v, c)
    case (Live(_), _) => if w.worker.Alive? then StepWorker(w, c) else w
    case (Ended(v, verdict), Act(_)) => StepOutcome(cfg, w, v, verdict, c)
    case (Failing(_, _), LoadList(_, _)) => StepFailing(w, c)
    case (Blacklisting(_, _, _, _), Io(fault)) => StepBlacklisting(w, fault)
    case (Unmarking(_, _), Io(fault)) => StepUnmarking(w, fault)
    case (Swapping(_, _, _), Io(fault)) => StepSwapping(w, fault)
    case (BackingOff(_), Wake(cancelled)) => w.(pc := if cancelled then Returned(Cancelled) else Head)
    // The supervisor died or returned and was started again; it outlives its worker, so not from Live.
    case (_, Restart) => w.(pc := Head, worker := Gone, sess := FreshSess(cfg, w.sess.ledger))
    case _ => w
  }

  function SpawnEntry(v: Version): S.Entry {
    S.Entry(S.SpawnEvent, v, None, S.Plain)
  }

  function SpawnFailedEntry(v: Version): S.Entry {
    S.Entry(S.CrashEvent, v, Some(71), S.FailedToSpawn)
  }

  /** A spawn: its event, and then a session, or a crash with no session at all. */
  lemma SpawnEffect(cfg: S.Config, w: World, c: Choice)
    requires w.pc.Spawning? && c.Spawn?
    ensures var w' := Step(cfg, w, c);
            var ledger := w.sess.ledger + [SpawnEntry(w.pc.v)];
            && w'.disk == w.disk
            && if c.ok then
                 && w'.pc == Live(w.pc.v) && w'.worker == Alive(NoAdd, NoInstall)
                 && w'.sess == S.Start(cfg, w.pc.v, w.sess.gate, w.sess.tracker, ledger, c.born, c.woken)
               else
                 && w'.pc == Ended(w.pc.v, S.SpawnFailure) && w'.worker == w.worker
                 && w'.sess == w.sess.(ledger := ledger + [SpawnFailedEntry(w.pc.v)])
  {
  }

  function Run(cfg: S.Config, w: World, cs: seq<Choice>): World {
    if cs == [] then w else Step(cfg, Run(cfg, w, Front(cs)), Last(cs))
  }

  /** The choices of one life of the supervisor. */
  predicate NoRestarts(cs: seq<Choice>) {
    forall i :: 0 <= i < |cs| ==> !cs[i].Restart?
  }

  lemma RunSnoc(cfg: S.Config, w: World, cs: seq<Choice>, c: Choice)
    ensures Run(cfg, w, cs + [c]) == Step(cfg, Run(cfg, w, cs), c)
  {
    assert Front(cs + [c]) == cs;
  }

  lemma {:induction false} RunConcat(cfg: S.Config, w: World, a: seq<Choice>, b: seq<Choice>)
    ensures Run(cfg, w, a + b) == Run(cfg, Run(cfg, w, a), b)
  {
    if b == [] {
      assert a + b == a;
    } else {
      RunConcat(cfg, w, a, Front(b));
      assert Front(a + b) == a + Front(b);
    }
  }
}
