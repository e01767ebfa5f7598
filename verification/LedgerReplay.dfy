/** What the history ledger of one supervisor life says: spawns and their ends alternate, and replaying the
    rollback events tells which version each spawn ran. */
module LedgerReplay {
  import opened Common
  import opened Disk
  import opened Machine
  import L = Blacklist
  import U = SelfUpdate
  import W = Symlinks
  import S = Session
  import Safety = SpawnSafety

  // ------------------------------------------------------- Spawns are closed once

  /** Reading the ledger from the left: nothing running, one spawn open, the loop's last stop, or nonsense. */
  datatype Reading = Between | Open | Over | Nonsense

  function ReadEntry(r: Reading, e: S.Entry): Reading {
    match (r, e.kind)
    case (Between, SpawnEvent) => Open
    case (Between, RollbackEvent) => Between
    case (Between, StopEvent) => Over
    case (Open, CrashEvent) => Between
    case (Open, StopEvent) => Between
    case _ => Nonsense
  }

  function Reads(ledger: seq<S.Entry>): Reading {
    if ledger == [] then Between else ReadEntry(Reads(Front(ledger)), Last(ledger))
  }

  lemma ReadsSnoc(ledger: seq<S.Entry>, e: S.Entry)
    ensures Reads(ledger + [e]) == ReadEntry(Reads(ledger), e)
  {
    assert Front(ledger + [e]) == ledger;
  }

  predicate ReadsLikePc(w: World) {
    match w.pc
    case Live(_) => Reads(w.sess.ledger) == Open
    case Returned(_) => Reads(w.sess.ledger) in {Between, Over}
    case _ => Reads(w.sess.ledger) == Between
  }

  /** The four kinds of step that write to the ledger. */
  predicate Writes(w: World, c: Choice) {
    || (w.pc.Spawning? && c.Spawn?)
    || (w.pc.Live? && c.Receive?)
    || (w.pc.Ended? && c.Act?)
    || (w.pc.Swapping? && c.Io?)
  }

  lemma OtherStepsAreSilent(cfg: S.Config, w: World, c: Choice)
    requires Safety.SessionOpen(w) && !Writes(w, c) && !c.Restart?
    ensures var w' := Step(cfg, w, c);
            && w'.sess.ledger == w.sess.ledger
            && (w'.pc.Live? <==> w.pc.Live?) && (w.pc.Returned? ==> w' == w)
  {
  }

  /** What a received event adds to the ledger: nothing while the session goes on, one closing entry of its
      version when it ends. */
  lemma SessionEntry(cfg: S.Config, s: S.Sess, ev: S.Event)
    requires s.verdict.None?
    ensures var t := S.React(cfg, s, ev);
            && (t.verdict.None? ==> t.ledger == s.ledger)
            && (t.verdict.Some? ==> |t.ledger| == |s.ledger| + 1 && t.ledger == s.ledger + [Last(t.ledger)]
                                    && S.Closes(Last(t.ledger)))
  {
    if ev.Message? {
      S.HearKeepsLedger(cfg, s, ev.notices);
    }
  }

  /** A received event leaves the links alone and keeps the session live or ends it. */
  lemma SessionEffect(cfg: S.Config, w: World, ch: Choice)
    requires w.pc.Live? && ch.Receive? && w.sess.verdict.None?
    ensures var w' := Step(cfg, w, ch);
            && w'.disk.links == w.disk.links
            && (w'.worker == w.worker || w'.worker == Gone)
            && if w'.pc == w.pc then w'.sess.ledger == w.sess.ledger
               else
                 && w'.pc.Ended? && w'.sess.ledger != []
                 && w'.sess.ledger == w.sess.ledger + [Last(w'.sess.ledger)] && S.Closes(Last(w'.sess.ledger))
  {
    SessionEntry(cfg, w.sess, ch.ev);
  }

  /** An outcome decides where to go; it touches neither the disk nor the worker. */
  lemma OutcomeEffect(cfg: S.Config, w: World, ch: Choice)
    requires w.pc.Ended? && ch.Act?
    ensures var w' := Step(cfg, w, ch);
            && w'.disk == w.disk && w'.worker == w.worker
            && (w'.sess.ledger == w.sess.ledger
                || w'.sess.ledger == w.sess.ledger + [S.Entry(S.StopEvent, w.pc.v, Some(64), S.AskedToStop)])
            && (w'.sess.ledger != w.sess.ledger ==> w'.pc.Returned?)
            && (w'.pc.Swapping? ==> w'.pc.swap == W.ReadCurrent)
            && (w'.pc.Swapping? || w'.pc.Failing? || w'.pc.BackingOff? || w'.pc.Returned?)
  {
  }

  /** A call of the swap: on it goes, or a rollback event and back to the top, or the loop returns. */
  lemma SwapEffect(cfg: S.Config, w: World, ch: Choice)
    requires w.pc.Swapping? && ch.Io?
    ensures var w' := Step(cfg, w, ch);
            var (swap, l) := W.SwapStep(w.pc.swap, w.disk.links, ch.fault);
            && w'.disk.links == l && w'.worker == w.worker
            && (if !swap.SwapDone? then w'.pc == w.pc.(swap := swap) && w'.sess == w.sess
                else if swap.result == W.Swapped then
                  w'.pc == Head
                  && w'.sess.ledger == w.sess.ledger + [S.Entry(S.RollbackEvent, w.pc.v, None, S.Because(w.pc.why))]
                else
                  w'.pc.Returned?
                  && if swap.result == W.SwapFailed then w'.sess.ledger == w.sess.ledger
                     else w'.sess.ledger == w.sess.ledger + [S.Entry(S.StopEvent, w.pc.v, None, S.NoTarget(w.pc.why))])
  {
  }

  lemma SpawnReads(cfg: S.Config, w: World, c: Choice)
    requires w.pc.Spawning? && c.Spawn? && ReadsLikePc(w)
    ensures ReadsLikePc(Step(cfg, w, c))
  {
    hide Step, Reads;
    SpawnEffect(cfg, w, c);
    ReadsSnoc(w.sess.ledger, SpawnEntry(w.pc.v));
    ReadsSnoc(w.sess.ledger + [SpawnEntry(w.pc.v)], SpawnFailedEntry(w.pc.v));
  }

  lemma SessionReads(cfg: S.Config, w: World, c: Choice)
    requires w.pc.Live? && c.Receive? && w.sess.verdict.None? && ReadsLikePc(w)
    ensures ReadsLikePc(Step(cfg, w, c))
  {
    hide Step, Reads;
    SessionEffect(cfg, w, c);
    var after := Step(cfg, w, c).sess.ledger;
    if after != w.sess.ledger {
      ReadsSnoc(w.sess.ledger, Last(after));
    }
  }

  lemma OutcomeReads(cfg: S.Config, w: World, c: Choice)
    requires w.pc.Ended? && c.Act? && ReadsLikePc(w)
    ensures ReadsLikePc(Step(cfg, w, c))
  {
    hide Step, Reads;
    OutcomeEffect(cfg, w, c);
    ReadsSnoc(w.sess.ledger, S.Entry(S.StopEvent, w.pc.v, Some(64), S.AskedToStop));
  }

  lemma SwapReads(cfg: S.Config, w: World, c: Choice)
    requires w.pc.Swapping? && c.Io? && ReadsLikePc(w)
    ensures ReadsLikePc(Step(cfg, w, c))
  {
    hide Step, Reads;
    hide W.SwapStep;
    SwapEffect(cfg, w, c);
    ReadsSnoc(w.sess.ledger, S.Entry(S.RollbackEvent, w.pc.v, None, S.Because(w.pc.why)));
    ReadsSnoc(w.sess.ledger, S.Entry(S.StopEvent, w.pc.v, None, S.NoTarget(w.pc.why)));
  }

  lemma StepReads(cfg: S.Config, w: World, c: Choice)
    requires Safety.SessionOpen(w) && ReadsLikePc(w) && !c.Restart?
    ensures ReadsLikePc(Step(cfg, w, c))
  {
    if w.pc.Spawning? && c.Spawn? {
      SpawnReads(cfg, w, c);
    } else if w.pc.Live? && c.Receive? {
      SessionReads(cfg, w, c);
    } else if w.pc.Ended? && c.Act? {
      OutcomeReads(cfg, w, c);
    } else if w.pc.Swapping? && c.Io? {
      SwapReads(cfg, w, c);
    } else {
      OtherStepsAreSilent(cfg, w, c);
    }
  }

  lemma {:induction false} RunReads(cfg: S.Config, w: World, cs: seq<Choice>)
    requires Safety.SessionOpen(w) && ReadsLikePc(w) && NoRestarts(cs)
    ensures ReadsLikePc(Run(cfg, w, cs))
  {
    if cs != [] {
      RunReads(cfg, w, Front(cs));
      Safety.RunKeepsOpen(cfg, w, Front(cs));
      StepReads(cfg, Run(cfg, w, Front(cs)), Last(cs));
    }
  }

  function Closers(ledger: seq<S.Entry>): nat {
    if ledger == [] then 0 else Closers(Front(ledger)) + if S.Closes(Last(ledger)) then 1 else 0
  }

  predicate NoSpawnIn(ledger: seq<S.Entry>) {
    forall k :: 0 <= k < |ledger| ==> ledger[k].kind != S.SpawnEvent
  }

  lemma PrefixStep(ledger: seq<S.Entry>, k: nat)
    requires k < |ledger|
    ensures Reads(ledger[..k + 1]) == ReadEntry(Reads(ledger[..k]), ledger[k])
  {
    assert ledger[..k + 1] == ledger[..k] + [ledger[k]];
    ReadsSnoc(ledger[..k], ledger[k]);
  }

  lemma {:induction false} PrefixReads(ledger: seq<S.Entry>, k: nat)
    requires k <= |ledger| && Reads(ledger) != Nonsense
    ensures Reads(ledger[..k]) != Nonsense
    decreases |ledger| - k
  {
    if k == |ledger| {
      assert ledger[..k] == ledger;
    } else {
      PrefixReads(ledger, k + 1);
      PrefixStep(ledger, k);
    }
  }

  /** How many closers a reading stands for, counted from the last spawn. */
  predicate Counts(r: Reading, n: nat) {
    match r
    case Open => n == 0
    case Between => n == 1
    case Over => n == 2
    case Nonsense => false
  }

  lemma CountsStep(r: Reading, e: S.Entry, n: nat)
    requires Counts(r, n) && e.kind != S.SpawnEvent && ReadEntry(r, e) != Nonsense
    ensures Counts(ReadEntry(r, e), n + if S.Closes(e) then 1 else 0)
  {
  }

  lemma ClosersSnoc(ledger: seq<S.Entry>, e: S.Entry)
    ensures Closers(ledger + [e]) == Closers(ledger) + if S.Closes(e) then 1 else 0
  {
    assert Front(ledger + [e]) == ledger;
  }

  lemma SplitLast(ledger: seq<S.Entry>, i: nat, k: nat)
    requires i < k < |ledger|
    ensures ledger[..k + 1] == ledger[..k] + [ledger[k]]
    ensures ledger[i + 1..k + 1] == ledger[i + 1..k] + [ledger[k]]
    ensures NoSpawnIn(ledger[i + 1..k + 1]) ==> NoSpawnIn(ledger[i + 1..k]) && ledger[k].kind != S.SpawnEvent
  {
    var longer, shorter := ledger[i + 1..k + 1], ledger[i + 1..k];
    assert longer == shorter + [ledger[k]];
    assert longer[|shorter|] == ledger[k];
    assert forall j :: 0 <= j < |shorter| ==> shorter[j] == longer[j];
  }

  /** After spawn `i`, as long as no other spawn follows: open with no closer yet, or closed by exactly one
      (a second one only as the loop's last word). */
  lemma {:induction false} CountClosers(ledger: seq<S.Entry>, i: nat, k: nat)
    requires i < k <= |ledger| && Reads(ledger) != Nonsense
    requires ledger[i].kind == S.SpawnEvent && NoSpawnIn(ledger[i + 1..k])
    ensures Counts(Reads(ledger[..k]), Closers(ledger[i + 1..k]))
    decreases k
  {
    PrefixReads(ledger, k);
    if k == i + 1 {
      PrefixReads(ledger, i);
      assert ledger[..k] == ledger[..i] + [ledger[i]];
      ReadsSnoc(ledger[..i], ledger[i]);
      assert ledger[i + 1..k] == [];
    } else {
      SplitLast(ledger, i, k - 1);
      CountClosers(ledger, i, k - 1);
      ReadsSnoc(ledger[..k - 1], ledger[k - 1]);
      ClosersSnoc(ledger[i + 1..k - 1], ledger[k - 1]);
      CountsStep(Reads(ledger[..k - 1]), ledger[k - 1], Closers(ledger[i + 1..k - 1]));
    }
  }

  /** In a ledger that makes sense, consecutive spawn events have exactly one crash or stop between them. */
  lemma ClosedOnce(ledger: seq<S.Entry>, i: nat, j: nat)
    requires i < j < |ledger| && Reads(ledger) != Nonsense
    requires ledger[i].kind == S.SpawnEvent && ledger[j].kind == S.SpawnEvent && NoSpawnIn(ledger[i + 1..j])
    ensures Closers(ledger[i + 1..j]) == 1
  {
    hide Reads, Closers;
    CountClosers(ledger, i, j);
    PrefixReads(ledger, j + 1);
    PrefixStep(ledger, j);
  }

  // ------------------------------------------------- The history file outlives the supervisor

  /** The same world over a history file that already held `h`. */
  function WithHistory(w: World, h: seq<S.Entry>): World {
    w.(sess := w.sess.(ledger := h + w.sess.ledger))
  }

  lemma Assoc(h: seq<S.Entry>, a: seq<S.Entry>, b: seq<S.Entry>)
    ensures h + (a + b) == (h + a) + b
  {
  }

  lemma {:induction false} HearFrame(cfg: S.Config, s: S.Sess, h: seq<S.Entry>, ns: seq<S.Notice>)
    ensures S.HearAll(cfg, s.(ledger := h + s.ledger), ns) ==
            S.HearAll(cfg, s, ns).(ledger := h + S.HearAll(cfg, s, ns).ledger)
  {
    if ns != [] {
      HearFrame(cfg, s, h, Front(ns));
    }
  }

  lemma ReactFrame(cfg: S.Config, s: S.Sess, h: seq<S.Entry>, ev: S.Event)
    ensures S.React(cfg, s.(ledger := h + s.ledger), ev) ==
            S.React(cfg, s, ev).(ledger := h + S.React(cfg, s, ev).ledger)
  {
    if ev.Message? {
      HearFrame(cfg, s, h, ev.notices);
    } else {
      var t := S.React(cfg, s, ev);
      if |t.ledger| > |s.ledger| {
        Assoc(h, s.ledger, [Last(t.ledger)]);
      }
    }
  }

  lemma SessionFrame(cfg: S.Config, w: World, h: seq<S.Entry>, c: Choice)
    requires w.pc.Live? && c.Receive?
    ensures Step(cfg, WithHistory(w, h), c) == WithHistory(Step(cfg, w, c), h)
  {
    hide S.React;
    ReactFrame(cfg, w.sess, h, c.ev);
  }

  lemma SpawnFrame(cfg: S.Config, w: World, h: seq<S.Entry>, c: Choice)
    requires w.pc.Spawning? && c.Spawn?
    ensures Step(cfg, WithHistory(w, h), c) == WithHistory(Step(cfg, w, c), h)
  {
    var v := w.pc.v;
    Assoc(h, w.sess.ledger, [SpawnEntry(v)]);
    Assoc(h, w.sess.ledger + [SpawnEntry(v)], [SpawnFailedEntry(v)]);
  }

  lemma SwapFrame(cfg: S.Config, w: World, h: seq<S.Entry>, c: Choice)
    requires w.pc.Swapping? && c.Io?
    ensures Step(cfg, WithHistory(w, h), c) == WithHistory(Step(cfg, w, c), h)
  {
    hide W.SwapStep;
    Assoc(h, w.sess.ledger, [S.Entry(S.RollbackEvent, w.pc.v, None, S.Because(w.pc.why))]);
    Assoc(h, w.sess.ledger, [S.Entry(S.StopEvent, w.pc.v, None, S.NoTarget(w.pc.why))]);
  }

  lemma OutcomeFrame(cfg: S.Config, w: World, h: seq<S.Entry>, c: Choice)
    requires w.pc.Ended? && c.Act?
    ensures Step(cfg, WithHistory(w, h), c) == WithHistory(Step(cfg, w, c), h)
  {
    Assoc(h, w.sess.ledger, [S.Entry(S.StopEvent, w.pc.v, Some(64), S.AskedToStop)]);
  }

  lemma WorkerFrame(cfg: S.Config, w: World, h: seq<S.Entry>, c: Choice)
    requires w.pc.Live? && !c.Receive?
    ensures Step(cfg, WithHistory(w, h), c) == WithHistory(Step(cfg, w, c), h)
  {
    hide L.SaveStep, U.InstallStep;
  }

  lemma TopFrame(cfg: S.Config, w: World, h: seq<S.Entry>, c: Choice)
    requires w.pc == Head || w.pc.Gating?
    ensures Step(cfg, WithHistory(w, h), c) == WithHistory(Step(cfg, w, c), h)
  {
    hide StepWorker, StepSession, StepSpawn, StepOutcome, StepSwapping, StepFailing, StepBlacklisting, StepUnmarking;
  }

  lemma OtherFrame(cfg: S.Config, w: World, h: seq<S.Entry>, c: Choice)
    requires !Writes(w, c) && !w.pc.Live? && w.pc != Head && !w.pc.Gating?
    ensures Step(cfg, WithHistory(w, h), c) == WithHistory(Step(cfg, w, c), h)
  {
    hide L.SaveStep, StepHead, StepGate, StepWorker, StepSession, StepSpawn, StepOutcome, StepSwapping;
  }

  /** The machine never reads what the history file held before. */
  lemma StepFrame(cfg: S.Config, w: World, h: seq<S.Entry>, c: Choice)
    ensures Step(cfg, WithHistory(w, h), c) == WithHistory(Step(cfg, w, c), h)
  {
    hide Step, WithHistory;
    if w.pc.Live? && c.Receive? {
      SessionFrame(cfg, w, h, c);
    } else if w.pc.Spawning? && c.Spawn? {
      SpawnFrame(cfg, w, h, c);
    } else if w.pc.Swapping? && c.Io? {
      SwapFrame(cfg, w, h, c);
    } else if w.pc.Ended? && c.Act? {
      OutcomeFrame(cfg, w, h, c);
    } else if w.pc.Live? {
      WorkerFrame(cfg, w, h, c);
    } else if w.pc == Head || w.pc.Gating? {
      TopFrame(cfg, w, h, c);
    } else {
      OtherFrame(cfg, w, h, c);
    }
  }

  lemma {:induction false} RunFrame(cfg: S.Config, w: World, h: seq<S.Entry>, cs: seq<Choice>)
    ensures Run(cfg, WithHistory(w, h), cs) == WithHistory(Run(cfg, w, cs), h)
  {
    if cs != [] {
      RunFrame(cfg, w, h, Front(cs));
      StepFrame(cfg, Run(cfg, w, Front(cs)), h, Last(cs));
    }
  }

  /** A life over a history file `h` leaves `h` alone and adds what it would have written over an empty one. */
  lemma HistoryIsKept(cfg: S.Config, disk: Disk, h: seq<S.Entry>, cs: seq<Choice>)
    ensures Run(cfg, Boot(cfg, disk, h), cs) == WithHistory(Run(cfg, Boot(cfg, disk, []), cs), h)
    ensures var ledger := Run(cfg, Boot(cfg, disk, h), cs).sess.ledger;
            && h <= ledger && ledger[|h|..] == Run(cfg, Boot(cfg, disk, []), cs).sess.ledger
  {
    assert h + [] == h;
    RunFrame(cfg, Boot(cfg, disk, []), h, cs);
  }

  /** Whatever the history file held, at every point of a life its own entries read as spawns and ends in turn,
      open exactly while a session is live. */
  lemma LifeReads(cfg: S.Config, disk: Disk, h: seq<S.Entry>, cs: seq<Choice>)
    requires NoRestarts(cs)
    ensures var w := Run(cfg, Boot(cfg, disk, h), cs);
            && h <= w.sess.ledger
            && match w.pc
               case Live(_) => Reads(w.sess.ledger[|h|..]) == Open
               case Returned(_) => Reads(w.sess.ledger[|h|..]) in {Between, Over}
               case _ => Reads(w.sess.ledger[|h|..]) == Between
  {
    var boot := Boot(cfg, disk, []);
    assert Safety.SessionOpen(boot) && ReadsLikePc(boot);
    hide Run, Reads;
    HistoryIsKept(cfg, disk, h, cs);
    RunReads(cfg, boot, cs);
  }

  /** Between any two consecutive spawn events of one supervisor life there is exactly one crash or stop. */
  lemma SpawnsAreClosedOnce(cfg: S.Config, disk: Disk, h: seq<S.Entry>, cs: seq<Choice>, i: nat, j: nat)
    requires NoRestarts(cs)
    requires var ledger := Run(cfg, Boot(cfg, disk, h), cs).sess.ledger;
             && |h| <= i < j < |ledger| && ledger[i].kind == S.SpawnEvent && ledger[j].kind == S.SpawnEvent
             && NoSpawnIn(ledger[i + 1..j])
    ensures Closers(Run(cfg, Boot(cfg, disk, h), cs).sess.ledger[i + 1..j]) == 1
  {
    hide Run, Reads, Closers;
    var ledger := Run(cfg, Boot(cfg, disk, h), cs).sess.ledger;
    LifeReads(cfg, disk, h, cs);
    var own := ledger[|h|..];
    assert own[i - |h|] == ledger[i] && own[j - |h|] == ledger[j];
    assert own[i - |h| + 1..j - |h|] == ledger[i + 1..j];
    ClosedOnce(own, i - |h|, j - |h|);
  }

  // ----------------------------------------------------- Rollbacks tell the version

  function Rollbacks(ledger: seq<S.Entry>): nat {
    if ledger == [] then 0 else Rollbacks(Front(ledger)) + if Last(ledger).kind == S.RollbackEvent then 1 else 0
  }

  lemma RollbacksSnoc(ledger: seq<S.Entry>, e: S.Entry)
    ensures Rollbacks(ledger + [e]) == Rollbacks(ledger) + if e.kind == S.RollbackEvent then 1 else 0
  {
    assert Front(ledger + [e]) == ledger;
  }

  /** The target `current` had at first if `n` is even, the one `previous` had otherwise. */
  function Turn(c: Target, p: Target, n: nat): Target {
    if n % 2 == 0 then c else p
  }

  /** Every spawn event so far carries the version its preceding rollbacks call for. */
  predicate Replays(ledger: seq<S.Entry>, c: Target, p: Target) {
    forall k :: 0 <= k < |ledger| && ledger[k].kind == S.SpawnEvent ==>
                  ledger[k].version == Turn(c, p, Rollbacks(ledger[..k])).base
  }

  lemma ReplaysSnoc(ledger: seq<S.Entry>, e: S.Entry, c: Target, p: Target)
    requires Replays(ledger, c, p)
    requires e.kind == S.SpawnEvent ==> e.version == Turn(c, p, Rollbacks(ledger)).base
    ensures Replays(ledger + [e], c, p)
  {
    var more := ledger + [e];
    forall k | 0 <= k < |more| && more[k].kind == S.SpawnEvent
      ensures more[k].version == Turn(c, p, Rollbacks(more[..k])).base
    {
      if k < |ledger| {
        assert more[..k] == ledger[..k];
      } else {
        assert more[..k] == ledger;
      }
    }
  }

  /** The choice neither installs anything nor makes the label unreadable. */
  predicate NoInstall(cs: seq<Choice>) {
    forall i :: 0 <= i < |cs| ==> Quiet(cs[i])
  }

  predicate Quiet(c: Choice) {
    !c.WorkerInstalls? && (c.Resolve? ==> !c.noLabel)
  }

  predicate LinksFollow(w: World, c: Target, p: Target) {
    var n := Rollbacks(w.sess.ledger);
    var now, other := Turn(c, p, n), Turn(c, p, n + 1);
    && Replays(w.sess.ledger, c, p)
    && (w.worker.Alive? ==> w.worker.installer == Machine.NoInstall)
    && match w.pc
       case Swapping(_, _, swap) => W.SwapLayout(now, other, swap, w.disk.links) && !swap.SwapDone?
       case Returned(_) => true
       case Gating(v) => W.Both(now, other, w.disk.links) && v == now.base
       case Spawning(v) => W.Both(now, other, w.disk.links) && v == now.base
       case _ => W.Both(now, other, w.disk.links)
  }

  /** One entry that is neither a spawn nor a rollback leaves the count and the replay alone. */
  lemma PlainEntry(ledger: seq<S.Entry>, e: S.Entry, c: Target, p: Target)
    requires Replays(ledger, c, p) && e.kind != S.SpawnEvent && e.kind != S.RollbackEvent
    ensures Replays(ledger + [e], c, p) && Rollbacks(ledger + [e]) == Rollbacks(ledger)
  {
    hide Rollbacks, Replays;
    RollbacksSnoc(ledger, e);
    ReplaysSnoc(ledger, e, c, p);
  }

  /** Whatever world has a spawn's entries on its ledger, and the links as they were. */
  lemma SpawnEntriesFollow(w: World, w': World, c: Target, p: Target)
    requires w.pc.Spawning? && LinksFollow(w, c, p) && w'.disk.links == w.disk.links
    requires w'.worker.Alive? ==> w'.worker.installer == Machine.NoInstall
    requires || (w'.pc.Live? && w'.sess.ledger == w.sess.ledger + [SpawnEntry(w.pc.v)])
             || (w'.pc.Ended? && w'.sess.ledger == w.sess.ledger + [SpawnEntry(w.pc.v)] + [SpawnFailedEntry(w.pc.v)])
    ensures LinksFollow(w', c, p)
  {
    hide Rollbacks, Replays;
    var ledger, v := w.sess.ledger, w.pc.v;
    RollbacksSnoc(ledger, SpawnEntry(v));
    ReplaysSnoc(ledger, SpawnEntry(v), c, p);
    PlainEntry(ledger + [SpawnEntry(v)], SpawnFailedEntry(v), c, p);
  }

  lemma SpawnFollows(cfg: S.Config, w: World, ch: Choice, c: Target, p: Target)
    requires w.pc.Spawning? && ch.Spawn? && LinksFollow(w, c, p)
    ensures LinksFollow(Step(cfg, w, ch), c, p)
  {
    SpawnEffect(cfg, w, ch);
    SpawnEntriesFollow(w, Step(cfg, w, ch), c, p);
  }

  /** Whatever world has the links as they were, and at most the plain entry `e` more on its ledger. */
  lemma OneEntryFollows(w: World, w': World, e: S.Entry, c: Target, p: Target)
    requires (w.pc.Live? || w.pc.Ended?) && LinksFollow(w, c, p) && w'.disk.links == w.disk.links
    requires w'.worker == w.worker || w'.worker == Gone
    requires w'.sess.ledger == w.sess.ledger || w'.sess.ledger == w.sess.ledger + [e]
    requires e.kind != S.SpawnEvent && e.kind != S.RollbackEvent
    requires w'.pc.Swapping? ==> w'.pc.swap == W.ReadCurrent
    requires !w'.pc.Gating? && !w'.pc.Spawning?
    ensures LinksFollow(w', c, p)
  {
    hide Rollbacks, Replays;
    PlainEntry(w.sess.ledger, e, c, p);
  }

  lemma SessionFollows(cfg: S.Config, w: World, ch: Choice, c: Target, p: Target)
    requires w.pc.Live? && ch.Receive? && w.sess.verdict.None? && LinksFollow(w, c, p)
    ensures LinksFollow(Step(cfg, w, ch), c, p)
  {
    hide Step, LinksFollow;
    SessionEffect(cfg, w, ch);
    var w' := Step(cfg, w, ch);
    var silent := w'.sess.ledger == w.sess.ledger;
    var e := if silent then S.Entry(S.StopEvent, w.pc.v, None, S.Plain) else Last(w'.sess.ledger);
    OneEntryFollows(w, w', e, c, p);
  }

  lemma OutcomeFollows(cfg: S.Config, w: World, ch: Choice, c: Target, p: Target)
    requires w.pc.Ended? && ch.Act? && LinksFollow(w, c, p)
    ensures LinksFollow(Step(cfg, w, ch), c, p)
  {
    hide Step, LinksFollow;
    OutcomeEffect(cfg, w, ch);
    OneEntryFollows(w, Step(cfg, w, ch), S.Entry(S.StopEvent, w.pc.v, Some(64), S.AskedToStop), c, p);
  }

  /** A completed swap: the links have changed places, and the rollback event says so. */
  lemma RollbackFollows(w: World, w': World, e: S.Entry, c: Target, p: Target)
    requires w.pc.Swapping? && LinksFollow(w, c, p) && w'.pc == Head && w'.worker == w.worker
    requires e.kind == S.RollbackEvent && w'.sess.ledger == w.sess.ledger + [e]
    requires var n := Rollbacks(w.sess.ledger); W.Both(Turn(c, p, n + 1), Turn(c, p, n), w'.disk.links)
    ensures LinksFollow(w', c, p)
  {
    hide Rollbacks, Replays;
    RollbacksSnoc(w.sess.ledger, e);
    ReplaysSnoc(w.sess.ledger, e, c, p);
  }

  lemma SwapFollows(cfg: S.Config, w: World, ch: Choice, c: Target, p: Target)
    requires c != p && w.pc.Swapping? && ch.Io? && LinksFollow(w, c, p)
    ensures LinksFollow(Step(cfg, w, ch), c, p)
  {
    hide Step, Rollbacks, Replays;
    hide W.SwapStep;
    var n := Rollbacks(w.sess.ledger);
    SwapEffect(cfg, w, ch);
    W.SwapStepLayout(Turn(c, p, n), Turn(c, p, n + 1), w.pc.swap, w.disk.links, ch.fault);
    if Step(cfg, w, ch).pc == Head {
      RollbackFollows(w, Step(cfg, w, ch), S.Entry(S.RollbackEvent, w.pc.v, None, S.Because(w.pc.why)), c, p);
    }
  }

  /** Every other step leaves ledger, links and installer alone, or only looks at `current`. */
  lemma OtherStepFollows(cfg: S.Config, w: World, ch: Choice, c: Target, p: Target)
    requires Safety.SessionOpen(w) && LinksFollow(w, c, p) && Quiet(ch) && !ch.Restart? && !Writes(w, ch)
    ensures LinksFollow(Step(cfg, w, ch), c, p)
  {
    OtherStepsAreSilent(cfg, w, ch);
  }

  lemma StepFollows(cfg: S.Config, w: World, ch: Choice, c: Target, p: Target)
    requires c != p && Safety.SessionOpen(w) && LinksFollow(w, c, p) && Quiet(ch) && !ch.Restart?
    ensures LinksFollow(Step(cfg, w, ch), c, p)
  {
    if w.pc.Spawning? && ch.Spawn? {
      SpawnFollows(cfg, w, ch, c, p);
    } else if w.pc.Live? && ch.Receive? {
      SessionFollows(cfg, w, ch, c, p);
    } else if w.pc.Ended? && ch.Act? {
      OutcomeFollows(cfg, w, ch, c, p);
    } else if w.pc.Swapping? && ch.Io? {
      SwapFollows(cfg, w, ch, c, p);
    } else {
      OtherStepFollows(cfg, w, ch, c, p);
    }
  }

  lemma {:induction false} RunFollows(cfg: S.Config, w: World, cs: seq<Choice>, c: Target, p: Target)
    requires c != p && Safety.SessionOpen(w) && LinksFollow(w, c, p) && NoInstall(cs) && NoRestarts(cs)
    ensures LinksFollow(Run(cfg, w, cs), c, p)
  {
    if cs != [] {
      RunFollows(cfg, w, Front(cs), c, p);
      Safety.RunKeepsOpen(cfg, w, Front(cs));
      assert Quiet(cs[|cs| - 1]);
      StepFollows(cfg, Run(cfg, w, Front(cs)), Last(cs), c, p);
    }
  }

  lemma FreshLifeFollows(cfg: S.Config, disk: Disk, cs: seq<Choice>)
    requires W.CanSwap(disk.links) && NoInstall(cs) && NoRestarts(cs)
    ensures Replays(Run(cfg, Boot(cfg, disk, []), cs).sess.ledger, disk.links[Current], disk.links[Previous])
  {
    var boot := Boot(cfg, disk, []);
    assert LinksFollow(boot, disk.links[Current], disk.links[Previous]);
    hide Run, Rollbacks;
    RunFollows(cfg, boot, cs, disk.links[Current], disk.links[Previous]);
  }

  /** In a life without installs, over any history file and started with `current` at c and `previous` at p,
      every spawn of it runs c's version if an even number of its rollback events precedes it, p's otherwise. */
  lemma SpawnVersionIsParity(cfg: S.Config, disk: Disk, h: seq<S.Entry>, cs: seq<Choice>, k: nat)
    requires W.CanSwap(disk.links) && NoInstall(cs) && NoRestarts(cs)
    requires var ledger := Run(cfg, Boot(cfg, disk, h), cs).sess.ledger;
             |h| <= k < |ledger| && ledger[k].kind == S.SpawnEvent
    ensures var ledger := Run(cfg, Boot(cfg, disk, h), cs).sess.ledger;
            ledger[k].version ==
              if Rollbacks(ledger[|h|..k]) % 2 == 0 then disk.links[Current].base else disk.links[Previous].base
  {
    hide Run, Rollbacks;
    FreshLifeFollows(cfg, disk, cs);
    HistoryIsKept(cfg, disk, h, cs);
    var ledger := Run(cfg, Boot(cfg, disk, h), cs).sess.ledger;
    var own := ledger[|h|..];
    assert own[k - |h|] == ledger[k] && own[..k - |h|] == ledger[|h|..k];
    assert Replays(own, disk.links[Current], disk.links[Previous]);
  }

  // ------------------------------------------------- No target, no rollback at all

  predicate StuckLinks(w: World, l: Links) {
    && w.disk.links == l
    && Rollbacks(w.sess.ledger) == 0
    && (w.worker.Alive? ==> w.worker.installer == Machine.NoInstall)
    && (w.pc.Swapping? ==> w.pc.swap == W.ReadCurrent
                           || (Current in l && w.pc.swap == W.ReadPrevious(l[Current])))
  }

  lemma StuckEntry(w: World, w': World, e: S.Entry, l: Links)
    requires StuckLinks(w, l) && w'.disk.links == w.disk.links && (w'.worker == w.worker || w'.worker == Gone)
    requires w'.sess.ledger == w.sess.ledger || w'.sess.ledger == w.sess.ledger + [e]
    requires e.kind != S.RollbackEvent && (w'.pc.Swapping? ==> w'.pc.swap == W.ReadCurrent)
    ensures StuckLinks(w', l)
  {
    hide Rollbacks;
    RollbacksSnoc(w.sess.ledger, e);
  }

  lemma StuckSession(cfg: S.Config, w: World, ch: Choice, l: Links)
    requires w.pc.Live? && ch.Receive? && w.sess.verdict.None? && StuckLinks(w, l)
    ensures StuckLinks(Step(cfg, w, ch), l)
  {
    hide Step, StuckLinks;
    SessionEffect(cfg, w, ch);
    var w' := Step(cfg, w, ch);
    StuckEntry(w, w', if w'.pc == w.pc then S.Entry(S.StopEvent, w.pc.v, None, S.Plain) else Last(w'.sess.ledger), l);
  }

  lemma StuckSpawn(cfg: S.Config, w: World, ch: Choice, l: Links)
    requires w.pc.Spawning? && ch.Spawn? && StuckLinks(w, l)
    ensures StuckLinks(Step(cfg, w, ch), l)
  {
    hide Step, Rollbacks;
    SpawnEffect(cfg, w, ch);
    RollbacksSnoc(w.sess.ledger, SpawnEntry(w.pc.v));
    RollbacksSnoc(w.sess.ledger + [SpawnEntry(w.pc.v)], SpawnFailedEntry(w.pc.v));
  }

  lemma StuckOutcome(cfg: S.Config, w: World, ch: Choice, l: Links)
    requires w.pc.Ended? && ch.Act? && StuckLinks(w, l)
    ensures StuckLinks(Step(cfg, w, ch), l)
  {
    hide Step, StuckLinks;
    OutcomeEffect(cfg, w, ch);
    StuckEntry(w, Step(cfg, w, ch), S.Entry(S.StopEvent, w.pc.v, Some(64), S.AskedToStop), l);
  }

  lemma StuckSwap(cfg: S.Config, w: World, ch: Choice, l: Links)
    requires !W.CanSwap(l) && w.pc.Swapping? && ch.Io? && StuckLinks(w, l)
    ensures StuckLinks(Step(cfg, w, ch), l)
  {
    hide Step, Rollbacks;
    SwapEffect(cfg, w, ch);
    RollbacksSnoc(w.sess.ledger, S.Entry(S.StopEvent, w.pc.v, None, S.NoTarget(w.pc.why)));
  }

  lemma StuckOther(cfg: S.Config, w: World, ch: Choice, l: Links)
    requires Safety.SessionOpen(w) && StuckLinks(w, l) && !ch.WorkerInstalls? && !Writes(w, ch)
    ensures StuckLinks(Step(cfg, w, ch), l)
  {
    if !ch.Restart? {
      OtherStepsAreSilent(cfg, w, ch);
    }
  }

  lemma StepStuck(cfg: S.Config, w: World, ch: Choice, l: Links)
    requires !W.CanSwap(l) && Safety.SessionOpen(w) && StuckLinks(w, l) && !ch.WorkerInstalls?
    ensures StuckLinks(Step(cfg, w, ch), l)
  {
    if w.pc.Live? && ch.Receive? {
      StuckSession(cfg, w, ch, l);
    } else if w.pc.Spawning? && ch.Spawn? {
      StuckSpawn(cfg, w, ch, l);
    } else if w.pc.Ended? && ch.Act? {
      StuckOutcome(cfg, w, ch, l);
    } else if w.pc.Swapping? && ch.Io? {
      StuckSwap(cfg, w, ch, l);
    } else {
      StuckOther(cfg, w, ch, l);
    }
  }

  lemma {:induction false} StuckRun(cfg: S.Config, disk: Disk, cs: seq<Choice>)
    requires !W.CanSwap(disk.links)
    requires forall i :: 0 <= i < |cs| ==> !cs[i].WorkerInstalls?
    ensures var w := Run(cfg, Boot(cfg, disk, []), cs);
            StuckLinks(w, disk.links) && Safety.SessionOpen(w)
  {
    if cs != [] {
      StuckRun(cfg, disk, Front(cs));
      var w := Run(cfg, Boot(cfg, disk, []), Front(cs));
      StepStuck(cfg, w, Last(cs), disk.links);
      Safety.StepKeepsOpen(cfg, w, Last(cs));
    }
  }

  /** Without a distinct `previous`, and without installs, no run over any history file ever rolls back or touches
      the links, restarts included. */
  lemma NoTargetNoRollback(cfg: S.Config, disk: Disk, h: seq<S.Entry>, cs: seq<Choice>)
    requires !W.CanSwap(disk.links)
    requires forall i :: 0 <= i < |cs| ==> !cs[i].WorkerInstalls?
    ensures var w := Run(cfg, Boot(cfg, disk, h), cs);
            w.disk.links == disk.links && h <= w.sess.ledger && Rollbacks(w.sess.ledger[|h|..]) == 0
  {
    hide Run, Rollbacks;
    StuckRun(cfg, disk, cs);
    HistoryIsKept(cfg, disk, h, cs);
  }
}
