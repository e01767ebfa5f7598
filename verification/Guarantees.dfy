/** What holds of every supervisor object that its methods can produce, over its own ledger, tracker and root,
    and what its loop makes of the rounds it is given. */
module Guarantees {
  import opened Common
  import opened Disk
  import opened Machine
  import opened Supervisor
  import L = Blacklist
  import W = Symlinks
  import G = Gate
  import S = Session
  import T = CrashTracker
  import Safety = SpawnSafety
  import Links = LinkSafety
  import Replay = LedgerReplay
  import Accounts = GateAccounting
  import R = Rollouts

  /** No version that was on the blacklist at some point of the object's life is in a later spawn event of its
      ledger, and it still is on the list in the root. */
  lemma NoListedSpawn(s: Supervisor, i: nat, v: Version)
    requires s.Valid() && Safety.FileSound(s.birth.disk.list) && Safety.Careful(s.choices)
    requires i <= |s.choices| && v != "" && v in Safety.ListedIn(Run(s.cfg, s.birth, s.choices[..i]))
    ensures var earlier := Run(s.cfg, s.birth, s.choices[..i]).sess.ledger;
            && earlier <= s.ledger
            && (forall k :: |earlier| <= k < |s.ledger| && s.ledger[k].kind == S.SpawnEvent ==>
                              s.ledger[k].version != v)
            && v in L.Listed(s.root.list)
  {
    hide Run;
    var before, rest := s.choices[..i], s.choices[i..];
    Safety.BootIsSound(s.cfg, s.birth.disk, s.birth.sess.ledger);
    Safety.RunKeepsList(s.cfg, s.birth, before);
    Safety.RunKeepsOpen(s.cfg, s.birth, before);
    assert forall j :: 0 <= j < |before| ==> before[j] == s.choices[j];
    assert forall j :: 0 <= j < |rest| ==> rest[j] == s.choices[i + j];
    Safety.RunKeepsCleared(s.cfg, s.birth, before);
    assert before + rest == s.choices;
    RunConcat(s.cfg, s.birth, before, rest);
    Safety.ListedIsNeverSpawned(s.cfg, Run(s.cfg, s.birth, before), rest, v);
    Safety.RunKeepsList(s.cfg, Run(s.cfg, s.birth, before), rest);
  }

  /** Rounds in which list and label can be read. */
  predicate Readable(rounds: seq<Round>) {
    forall j :: 0 <= j < |rounds| ==> rounds[j].Fits() && !rounds[j].noList && !rounds[j].noLabel
  }

  lemma ReadableIsCareful(rounds: seq<Round>, cs: seq<Choice>)
    requires Readable(rounds) && forall i :: 0 <= i < |cs| ==> InStore(rounds, cs[i])
    ensures Safety.Careful(cs)
  {
    forall i | 0 <= i < |cs| && cs[i].Resolve?
      ensures !cs[i].noList && !cs[i].noLabel
    {
      var j :| 0 <= j < |rounds| && rounds[j].Holds(cs[i]);
      if cs[i] in rounds[j].moves {
        var m :| 0 <= m < |rounds[j].moves| && rounds[j].moves[m] == cs[i];
        assert IsMove(rounds[j].moves[m]);
      }
    }
  }

  /** The same from the loop's inputs: an object that has lived on readable rounds only. */
  lemma NoListedSpawnInRounds(s: Supervisor, rounds: seq<Round>, i: nat, v: Version)
    requires s.Valid() && Safety.FileSound(s.birth.disk.list)
    requires Readable(rounds) && forall k :: 0 <= k < |s.choices| ==> InStore(rounds, s.choices[k])
    requires i <= |s.choices| && v != "" && v in Safety.ListedIn(Run(s.cfg, s.birth, s.choices[..i]))
    ensures var earlier := Run(s.cfg, s.birth, s.choices[..i]).sess.ledger;
            && earlier <= s.ledger
            && (forall k :: |earlier| <= k < |s.ledger| && s.ledger[k].kind == S.SpawnEvent ==>
                              s.ledger[k].version != v)
            && v in L.Listed(s.root.list)
  {
    hide Run, Safety.Careful;
    ReadableIsCareful(rounds, s.choices);
    NoListedSpawn(s, i, v);
  }

  /** The list in the root is whole and its versions unique. */
  lemma ListIsWhole(s: Supervisor)
    requires s.Valid() && Safety.FileSound(s.birth.disk.list)
    ensures !s.root.list.file.Torn? && (s.root.list.file.Whole? ==> L.Unique(s.root.list.file.content))
  {
    hide Run;
    Safety.BootIsSound(s.cfg, s.birth.disk, s.birth.sess.ledger);
    Safety.RunKeepsList(s.cfg, s.birth, s.choices);
  }

  /** Whatever its history file held before, between two consecutive spawn events that the object wrote there is
      exactly one crash or stop. */
  lemma SpawnsClosedOnce(s: Supervisor, i: nat, j: nat)
    requires s.Valid() && |s.birth.sess.ledger| <= i < j < |s.ledger|
    requires s.ledger[i].kind == S.SpawnEvent && s.ledger[j].kind == S.SpawnEvent
    requires Replay.NoSpawnIn(s.ledger[i + 1..j])
    ensures Replay.Closers(s.ledger[i + 1..j]) == 1
  {
    hide Run, Replay.Closers;
    Replay.SpawnsAreClosedOnce(s.cfg, s.birth.disk, s.birth.sess.ledger, s.choices, i, j);
  }

  /** All links in the root name fully promoted directories, if the object's worker installed unlinked versions. */
  lemma RootLinksComplete(s: Supervisor)
    requires s.Valid() && Links.LinksComplete(s.birth.disk)
    requires Links.UnlinkedInstalls(s.cfg, s.birth, s.choices)
    ensures Links.LinksComplete(s.root.Contents())
  {
    hide Run;
    Links.LinksAreAlwaysComplete(s.cfg, s.birth.disk, s.birth.sess.ledger, s.choices);
  }

  /** At the top of its loop the object's tracker has fewer crashes than the cap. */
  lemma TrackerBelowCap(s: Supervisor)
    requires s.Valid() && s.cfg.backoff.crashCap >= 1 && s.world.pc == Head
    ensures s.tracker.Consecutive() < s.cfg.backoff.crashCap && !s.tracker.ShouldRollback()
  {
    hide Run;
    Accounts.DelayIsBelowCap(s.cfg, s.birth.disk, s.birth.sess.ledger, s.choices);
    assert |s.tracker.State().crashes| == s.tracker.n;
  }

  /** In the middle of a session the object's gate, if it is active, watches the version that runs. */
  lemma GateWatchesTheWorker(s: Supervisor, v: Version)
    requires s.Valid() && s.world.pc == Live(v) && s.gate.IsActive()
    ensures s.gate.version == v
  {
    hide Run;
    Accounts.RunKeepsOwner(s.cfg, s.birth, s.choices);
  }

  // ------------------------------------------------- What an object gets done

  /** The round lets the loop look at `current`. */
  predicate Looks(r: Round) {
    r.Fits() && !r.cancelled && !r.noCurrent && !r.noLabel && !r.noList
  }

  /** The list on disk blocks target `t`. */
  predicate Blocks(d: Disk, t: Target) {
    var list := L.Load(d.list, false);
    list.Some? && L.Contains(list.value, t.base)
  }

  /** From the top of the loop with a listed `current` and a distinct, unlisted `previous`, the first iteration
      rolls back and the second gets to `previous` exactly when none of the swap's calls fails. */
  lemma OneSwapPastTheListedIff(w: World, r: Round, next: Round)
    requires w.pc == Head && Looks(r) && Looks(next) && W.CanSwap(w.disk.links)
    requires Blocks(w.disk, w.disk.links[Current]) && !Blocks(w.disk, w.disk.links[Previous])
    ensures var w1 := AfterResolve(w, r);
            && (w1.pc == Head <==> W.NoneFails(r.swapFaults, W.SWAP_CALLS))
            && (w1.pc == Head ==>
                  && w1.disk == w.disk.(links := W.SwapLinks(w.disk.links)) && w1.sess.tracker == T.FRESH
                  && w1.sess.ledger == w.sess.ledger + [S.Entry(S.RollbackEvent, w.disk.links[Current].base, None,
                                                                S.Because(S.Blacklisted))]
                  && AfterResolve(w1, next) == w1.(pc := Gating(w.disk.links[Previous].base)))
  {
    hide W.RunSwap;
    W.SwapSucceedsIff(w.disk.links, r.swapFaults);
    W.SwapEnds(w.disk.links, r.swapFaults);
  }

  /** The rollback is made, and the loop goes on, exactly when there are two distinct targets and no call of the
      swap fails; the loop gives up with code 65 exactly when there is no second target to be found. */
  predicate Granted(w: World, w': World, v: Version, why: S.Why, faults: seq<bool>)
    requires |faults| >= W.SWAP_CALLS
  {
    var l := w.disk.links;
    && w'.disk == w.disk.(links := w'.disk.links) && w'.worker == w.worker && w'.sess.gate == w.sess.gate
    && w'.pc in {Head, Returned(Code65), Returned(SwapError)}
    && (w'.pc == Head <==> W.CanSwap(l) && W.NoneFails(faults, W.SWAP_CALLS))
    && (w'.pc == Head ==>
          && w'.disk.links == W.SwapLinks(l) && w'.sess.tracker == T.FRESH
          && w'.sess.ledger == w.sess.ledger + [S.Entry(S.RollbackEvent, v, None, S.Because(why))])
    && (w'.pc == Returned(Code65) <==> W.FindsNoTarget(l, faults))
    && (w'.pc == Returned(Code65) ==>
          && w'.disk.links == l
          && w'.sess.ledger == w.sess.ledger + [S.Entry(S.StopEvent, v, None, S.NoTarget(why))])
    && (w'.pc == Returned(SwapError) ==> w'.sess.ledger == w.sess.ledger)
  }

  /** The top of an iteration, case by case: a cancelled context and a missing `current` end the loop, a listed
      version is rolled back, and any other is the one to spawn. A list that cannot be read blocks nothing, and a
      label that cannot be read is ".". */
  lemma TopOfTheLoop(w: World, r: Round)
    requires w.pc == Head && r.Fits()
    ensures var w' := AfterResolve(w, r);
            if r.cancelled then w' == w.(pc := Returned(Cancelled))
            else if r.noCurrent || Current !in w.disk.links then w' == w.(pc := Returned(NoCurrent))
            else
              var v := if r.noLabel then "." else w.disk.links[Current].base;
              if !r.noList && v != "" && v in L.Listed(w.disk.list) then
                Granted(w, w', v, S.Blacklisted, r.swapFaults)
              else w' == w.(pc := Gating(v))
  {
    hide AfterSwap, W.FindsNoTarget, W.NoneFails, W.SwapLinks, W.CanSwap;
    var w1 := StepHead(w, r.Resolving());
    if w1.pc.Swapping? {
      SwapOutcome(w1, r);
    } else {
      NoSwap(w1, r);
    }
  }

  /** An object whose calls do not fail gets past a listed `current` with one swap. */
  method PassAListedCurrent(s: Supervisor, r: Round, next: Round) returns (version: Option<Version>)
    requires s.Valid() && s.world.pc == Head && Looks(r) && Looks(next) && W.NoneFails(r.swapFaults, W.SWAP_CALLS)
    requires W.CanSwap(s.root.links)
    requires Blocks(s.root.Contents(), s.root.links[Current]) && !Blocks(s.root.Contents(), s.root.links[Previous])
    modifies s, s.root, s.tracker
    ensures s.Valid() && s.world.pc.Gating? && version == Some(s.world.pc.v)
    ensures version == Some(old(s.root.links[Previous].base))
    ensures s.root.Contents() == old(s.root.Contents()).(links := W.SwapLinks(old(s.root.links)))
    ensures s.tracker.State() == T.FRESH
    ensures s.ledger == old(s.ledger) + [S.Entry(S.RollbackEvent, old(s.root.links[Current].base), None,
                                                 S.Because(S.Blacklisted))]
  {
    hide Run, AfterResolve;
    OneSwapPastTheListedIff(s.world, r, next);
    var exit;
    version, exit := s.ResolveWorker(r);
    version, exit := s.ResolveWorker(next);
  }

  /** None of the calls of the round's rollback fails. */
  predicate RollbackGoesWell(f: TmpFile<seq<Record>>, r: Round)
    requires r.Fits()
  {
    && !r.listUnread && L.SaveGoesWell(r.saveFaults) && (f.tmp == Absent || !r.saveFaults[1])
    && !r.markerFault && W.NoneFails(r.swapFaults, W.SWAP_CALLS)
  }

  lemma AddListsIff(w: World, r: Round)
    requires w.pc.Failing? && r.Fits() && Safety.FileSound(w.disk.list)
    requires w.pc.v !in L.Listed(w.disk.list)
    ensures var w1 := AfterAdd(w, r);
            && w1.pc == Unmarking(w.pc.v, w.pc.reason) && w1.sess == w.sess && w1.worker == w.worker
            && w1.disk.links == w.disk.links && w1.disk.marker == w.disk.marker
            && (w.pc.v in L.Listed(w1.disk.list) <==>
                  && w.pc.v != "" && !r.listUnread && L.SaveGoesWell(r.saveFaults)
                  && (w.disk.list.tmp == Absent || !r.saveFaults[1]))
  {
    hide L.RunSave;
    var list := L.Load(w.disk.list, r.listUnread);
    if list.Some? {
      var e := Record(w.pc.v, r.listedAt, ReasonText(w.pc.reason));
      L.UpsertVersions(list.value, e);
      L.SaveSucceedsIff(L.Upsert(list.value, e), w.disk.list, r.saveFaults);
      L.SaveIsAtomic(L.Upsert(list.value, e), w.disk.list, r.saveFaults);
    }
  }

  /** The session of v ended while, or because, its gate was watching. */
  predicate GateFails(w: World, v: Version) {
    && w.pc.Ended? && w.pc.v == v
    && (w.pc.verdict == S.HealthTimedOut
        || ((w.pc.verdict == S.CrashExit || w.pc.verdict == S.SpawnFailure) && w.sess.gate.Active()))
  }

  /** The label that a gate failure leaves on the blacklist. */
  predicate Labels(verdict: S.Verdict, reason: string) {
    match verdict
    case HealthTimedOut => reason == "install-health-timeout"
    case CrashExit => reason == "install-health-crash"
    case SpawnFailure => reason == "install-health-spawn-failed"
    case _ => false
  }

  /** What the list says of a version whose gate failed: when it was listed, and how it failed. */
  lemma FailureIsOnRecord(cfg: S.Config, w: World, r: Round, v: Version)
    requires GateFails(w, v) && v != "" && r.Fits() && Safety.FileSound(w.disk.list)
    requires !r.listUnread && L.SaveGoesWell(r.saveFaults) && (w.disk.list.tmp == Absent || !r.saveFaults[1])
    ensures var w1 := AfterAdd(StepOutcome(cfg, w, v, w.pc.verdict, Act(r.endedAt)), r);
            w1.disk.list.file.Whole? &&
            exists e :: e in w1.disk.list.file.content && e.version == v && e.at == r.listedAt
                        && Labels(w.pc.verdict, e.reason)
  {
    hide L.RunSave;
    var w1 := StepOutcome(cfg, w, v, w.pc.verdict, Act(r.endedAt));
    var list := L.Load(w.disk.list, r.listUnread);
    var e := Record(v, r.listedAt, ReasonText(w1.pc.reason));
    L.UpsertVersions(list.value, e);
    L.SaveSucceedsIff(L.Upsert(list.value, e), w.disk.list, r.saveFaults);
    L.SaveIsAtomic(L.Upsert(list.value, e), w.disk.list, r.saveFaults);
    assert e in AfterAdd(w1, r).disk.list.file.content;
  }

  /** Once the gate of a fresh install has failed: it is rolled back (links, list, marker, gate, tracker, ledger)
      exactly when none of the calls that matter fails. */
  lemma RolledBackIff(w: World, r: Round, prior: Target, v: Version, at: Time)
    requires w.pc.Failing? && w.pc.v == v && R.Installed(w.disk, prior, v, at) && r.Fits()
    ensures R.RolledBack(AfterHealthRollback(w, r), prior, v) <==> RollbackGoesWell(w.disk.list, r)
  {
    AddListsIff(w, r);
    hide AfterAdd;
    hide W.RunSwap;
    W.SwapSucceedsIff(w.disk.links, r.swapFaults);
    W.SwapEnds(w.disk.links, r.swapFaults);
  }

  lemma OutcomeRollsBackIff(cfg: S.Config, w: World, r: Round, prior: Target, v: Version, at: Time)
    requires GateFails(w, v) && R.Installed(w.disk, prior, v, at) && r.Fits()
    ensures R.RolledBack(AfterOutcome(cfg, w, r), prior, v) <==> RollbackGoesWell(w.disk.list, r)
  {
    hide AfterHealthRollback;
    var w1 := StepOutcome(cfg, w, v, w.pc.verdict, Act(r.endedAt));
    assert w1.pc.Failing? && w1.pc.v == v && w1.disk == w.disk;
    RolledBackIff(w1, r, prior, v, at);
  }

  /** An object whose calls do not fail undoes an install whose gate failed, and is back at the top of its loop. */
  method UndoAFailedInstall(s: Supervisor, v: Version, verdict: S.Verdict, r: Round, prior: Target, at: Time)
    returns (exit: Option<Exit>)
    requires s.Valid() && s.world.pc == Ended(v, verdict) && GateFails(s.world, v)
    requires R.Installed(s.root.Contents(), prior, v, at) && r.Fits() && RollbackGoesWell(s.root.list, r)
    modifies s, s.root, s.gate, s.tracker, s.tracker.buf
    ensures s.Valid() && exit == None && s.world.pc == Head
    ensures W.Both(prior, VersionTarget(v), s.root.links) && v in L.Listed(s.root.list)
    ensures s.root.marker.file == Absent && !s.gate.IsActive() && s.tracker.State() == T.FRESH
    ensures s.ledger != [] && Last(s.ledger).kind == S.RollbackEvent && Last(s.ledger).version == v
  {
    hide Run, AfterOutcome;
    OutcomeRollsBackIff(s.cfg, s.world, r, prior, v, at);
    var backoff;
    exit, backoff := s.HandleOutcome(v, verdict, r);
  }

  // ------------------------------------------------- What becomes of the other outcomes

  /** The outcome asks for a rollback that has nothing to do with an observation window. */
  predicate AsksForRollback(cfg: S.Config, w: World, t: Time, why: S.Why) {
    w.pc.Ended? &&
    match why
    case RollbackRequested => w.pc.verdict == S.RollbackExit
    case SpawnFailed => w.pc.verdict == S.SpawnFailure && !w.sess.gate.Active()
    case CrashLoop =>
      && w.pc.verdict == S.CrashExit && !w.sess.gate.Active()
      && |T.Recorded(cfg.backoff, w.sess.tracker, t).crashes| >= cfg.backoff.crashCap
    case _ => false
  }

  lemma RequestIsGranted(cfg: S.Config, w: World, r: Round, why: S.Why)
    requires AsksForRollback(cfg, w, r.endedAt, why) && r.Fits()
    ensures Granted(w, AfterOutcome(cfg, w, r), w.pc.v, why, r.swapFaults)
  {
    hide AfterSwap, AfterHealthRollback, W.FindsNoTarget, W.NoneFails, W.SwapLinks, W.CanSwap, T.Recorded;
    var w1 := StepOutcome(cfg, w, w.pc.v, w.pc.verdict, Act(r.endedAt));
    assert w1.pc == Swapping(w.pc.v, why, W.ReadCurrent) && w1.disk == w.disk && w1.worker == w.worker;
    SwapOutcome(w1, r);
  }

  /** A stop that was asked for ends the loop at once, with nil or with code 64 and a stop event; a crash below the
      cap that no gate watches is counted, and the loop backs off and goes on, unless its sleep is cancelled.
      Links, list and marker stay as they are. */
  lemma OtherOutcomes(cfg: S.Config, w: World, r: Round)
    requires w.pc.Ended? && r.Fits()
    ensures var w', v := AfterOutcome(cfg, w, r), w.pc.v;
            var t := T.Recorded(cfg.backoff, w.sess.tracker, r.endedAt);
            match w.pc.verdict
            case Stopped => w' == w.(pc := Returned(Cancelled))
            case NoRestartExit =>
              w' == w.(pc := Returned(Code64),
                       sess := w.sess.(ledger := w.sess.ledger + [S.Entry(S.StopEvent, v, Some(64), S.AskedToStop)]))
            case CrashExit =>
              !w.sess.gate.Active() && |t.crashes| < cfg.backoff.crashCap ==>
                && w' == w.(pc := BackingOff(v), sess := w.sess.(tracker := t))
                && AfterEnd(cfg, w, r) == w'.(pc := if r.sleepCancelled then Returned(Cancelled) else Head)
            case _ => true
  {
    hide AfterHealthRollback, T.Recorded;
  }

  /** The protocol's exit table from end to end. A worker that exits by itself with 64 ends the supervisor; one
      that exits with 65 is rolled back; every other end, a clean exit or a signal included, fails the gate if
      one watches and is otherwise counted as a crash: a rollback at the cap, a back-off below it. */
  lemma ExitPolicy(cfg: S.Config, w: World, at: Time, info: S.ExitInfo, noDelete: bool, r: Round)
    requires w.pc.Live? && w.sess.verdict.None? && r.Fits()
    ensures var e := Step(cfg, w, Receive(S.Exit(at, info), noDelete));
            && e.pc.Ended? && e.pc.v == w.pc.v && e.disk == w.disk && e.worker == Gone && e.sess.gate == w.sess.gate
            && var w' := AfterOutcome(cfg, e, r);
            if !info.signaled && info.code == 64 then w'.pc == Returned(Code64) && w'.disk == w.disk
            else if !info.signaled && info.code == 65 then
              Granted(e, w', w.pc.v, S.RollbackRequested, r.swapFaults)
            else if w.sess.gate.Active() then
              StepOutcome(cfg, e, e.pc.v, e.pc.verdict, Act(r.endedAt)).pc == Failing(w.pc.v, G.HealthCrash)
            else if |T.Recorded(cfg.backoff, w.sess.tracker, r.endedAt).crashes| < cfg.backoff.crashCap then
              w'.pc == BackingOff(w.pc.v) && w'.disk == w.disk
            else Granted(e, w', w.pc.v, S.CrashLoop, r.swapFaults)
  {
    S.EndIsDecided(cfg, w.sess, S.Exit(at, info));
    hide AfterOutcome, Granted, T.Recorded;
    var e := Step(cfg, w, Receive(S.Exit(at, info), noDelete));
    OtherOutcomes(cfg, e, r);
    if e.pc.verdict == S.RollbackExit {
      RequestIsGranted(cfg, e, r, S.RollbackRequested);
    } else if e.pc.verdict == S.CrashExit && AsksForRollback(cfg, e, r.endedAt, S.CrashLoop) {
      RequestIsGranted(cfg, e, r, S.CrashLoop);
    }
  }

  /** An object that is asked for a rollback (by its worker, by a spawn that failed, or by the crash cap) makes it
      and is back at the top of its loop, if it has two distinct targets and the swap's calls do not fail. */
  method GrantARollback(s: Supervisor, v: Version, verdict: S.Verdict, why: S.Why, r: Round)
    returns (exit: Option<Exit>)
    requires s.Valid() && s.world.pc == Ended(v, verdict) && AsksForRollback(s.cfg, s.world, r.endedAt, why)
    requires r.Fits() && W.CanSwap(s.root.links) && W.NoneFails(r.swapFaults, W.SWAP_CALLS)
    modifies s, s.root, s.gate, s.tracker, s.tracker.buf
    ensures s.Valid() && exit == None && s.world.pc == Head
    ensures s.root.Contents() == old(s.root.Contents()).(links := W.SwapLinks(old(s.root.links)))
    ensures s.tracker.State() == T.FRESH && s.gate.State() == old(s.gate.State())
    ensures s.ledger == old(s.ledger) + [S.Entry(S.RollbackEvent, v, None, S.Because(why))]
  {
    hide Run, AfterOutcome, AsksForRollback, W.FindsNoTarget, W.SwapLinks;
    RequestIsGranted(s.cfg, s.world, r, why);
    var backoff;
    exit, backoff := s.HandleOutcome(v, verdict, r);
  }

  // ------------------------------------------------- Iteration by iteration

  lemma {:induction false} RunExtendsLedger(cfg: S.Config, w: World, cs: seq<Choice>)
    requires Safety.SessionOpen(w)
    ensures Safety.SessionOpen(Run(cfg, w, cs)) && w.sess.ledger <= Run(cfg, w, cs).sess.ledger
  {
    if cs != [] {
      RunExtendsLedger(cfg, w, Front(cs));
      Safety.StepKeepsOpen(cfg, Run(cfg, w, Front(cs)), Last(cs));
      Safety.LedgerGrows(cfg, Run(cfg, w, Front(cs)), Last(cs));
    }
  }

  lemma OutcomeExtendsLedger(cfg: S.Config, w: World, r: Round)
    requires w.pc.Ended? && r.Fits()
    ensures w.sess.ledger <= AfterEnd(cfg, w, r).sess.ledger
  {
    hide AfterSwap, AfterAdd, W.FindsNoTarget, W.NoneFails, W.SwapLinks, W.CanSwap, T.Recorded;
    var w1 := StepOutcome(cfg, w, w.pc.v, w.pc.verdict, Act(r.endedAt));
    if w1.pc.Swapping? {
      SwapOutcome(w1, r);
    } else if w1.pc.Failing? {
      AddKeepsSession(w1, r);
      SwapOutcome(StepUnmarking(AfterAdd(w1, r), r.markerFault), r);
    } else {
      NoSwap(w1, r);
    }
  }

  lemma AddKeepsSession(w: World, r: Round)
    requires w.pc.Failing? && r.Fits()
    ensures AfterAdd(w, r).sess == w.sess && AfterAdd(w, r).pc == Unmarking(w.pc.v, w.pc.reason)
  {
    hide L.RunSave;
    var w1 := StepFailing(w, r.Listing());
    if w1.pc.Blacklisting? {
      L.SaveSucceedsIff(w1.pc.list, w1.disk.list, r.saveFaults);
    }
  }

  /** An iteration over a round that lets the loop look at an unlisted `current` spawns it: its spawn event is the
      next entry of the ledger, and a spawn that fails is followed by a crash event with code 71. */
  lemma IterationSpawns(cfg: S.Config, w: World, r: Round)
    requires w.pc == Head && Looks(r) && Current in w.disk.links && !Blocks(w.disk, w.disk.links[Current])
    ensures var v, ledger := w.disk.links[Current].base, AfterIteration(cfg, w, r).sess.ledger;
            && w.sess.ledger + [S.Entry(S.SpawnEvent, v, None, S.Plain)] <= ledger
            && (!r.spawned ==> w.sess.ledger + [S.Entry(S.SpawnEvent, v, None, S.Plain),
                                                S.Entry(S.CrashEvent, v, Some(71), S.FailedToSpawn)] <= ledger)
  {
    hide Run, AfterEnd, AfterResolve, Granted;
    TopOfTheLoop(w, r);
    var w1 := AfterResolve(w, r);
    var w2 := Step(cfg, w1, r.Preparing());
    SpawnEffect(cfg, w2, r.Starting());
    var w3 := Step(cfg, w2, r.Starting());
    assert w2.sess.ledger == w.sess.ledger;
    hide Step;
    RunExtendsLedger(cfg, w3, r.moves);
    var w4 := Run(cfg, w3, r.moves);
    if w4.pc.Ended? {
      OutcomeExtendsLedger(cfg, w4, r);
    }
  }

  /** The loop is one iteration after the other: it takes the first round, and goes on with the rest exactly if
      that iteration ends at the top. */
  lemma {:induction false} LoopUnrolls(cfg: S.Config, w: World, r: Round, rest: seq<Round>)
    requires w.pc == Head
    ensures var w1 := AfterIteration(cfg, w, r);
            AfterRounds(cfg, w, [r] + rest) == if w1.pc == Head then AfterRounds(cfg, w1, rest) else w1
  {
    hide AfterIteration;
    if rest == [] {
      assert [r] + rest == [r] && Front([r]) == [];
    } else {
      LoopUnrolls(cfg, w, r, Front(rest));
      assert Front([r] + rest) == [r] + Front(rest);
    }
  }

  // ------------------------------------------------- When a rollback strands the installation

  /** The supervisor is killed at some point of a rollback's swap, whose calls met `faults`, and is started
      again: it finds no `current` and returns at once exactly when the swap had moved `current` aside and
      neither brought `previous` in nor put `current` back. */
  lemma StrandedIff(cfg: S.Config, w: World, faults: seq<bool>) returns (n: nat)
    requires w.pc.Swapping? && w.pc.swap == W.ReadCurrent && W.CanSwap(w.disk.links)
    ensures n <= |faults|
    ensures Run(cfg, w, Ios(faults[..n])).disk.links == W.RunSwap(w.disk.links, faults).1
    ensures var next := Step(cfg, Step(cfg, Run(cfg, w, Ios(faults[..n])), Restart), R.OK_RESOLVE);
            next.pc == Returned(NoCurrent) <==> W.LosesCurrent(faults)
  {
    hide Run;
    n := SwapInside(cfg, w, faults);
    W.SwapLosesCurrentIff(w.disk.links, faults);
    var (swap, l) := W.RunSwap(w.disk.links, faults);
    var killed := SwapAt(w, swap, l);
    assert killed.disk.links == l;
    assert !killed.pc.Live?;
  }
}
