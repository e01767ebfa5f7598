/** Whole-run claims about the blacklist: it is never torn and never shrinks, whoever writes it and whoever is
    killed; and no blacklisted version is spawned. */
module SpawnSafety {
  import opened Common
  import opened Disk
  import opened Machine
  import L = Blacklist
  import U = SelfUpdate
  import S = Session

  function ListedIn(w: World): set<Version> {
    L.Listed(w.disk.list)
  }

  predicate FileSound(f: TmpFile<seq<Record>>) {
    !f.file.Torn? && (f.file.Whole? ==> L.Unique(f.file.content))
  }

  /** A save in progress will publish a list that has everything the file has. */
  predicate SaveSound(f: TmpFile<seq<Record>>, list: seq<Record>, save: L.SavePc) {
    && L.Unique(list) && L.Listed(f) <= L.Versions(list)
    && (save in {L.Sync, L.Close, L.Commit} ==> f.tmp == Whole(list))
    && !save.SaveDone?
  }

  /** Only a live worker or a supervisor without a worker is ever in the middle of an add. */
  predicate ListInv(w: World) {
    && FileSound(w.disk.list)
    && (w.worker.Alive? <==> w.pc.Live?)
    && (w.worker.Alive? && w.worker.adder.Adding? ==>
          SaveSound(w.disk.list, w.worker.adder.list, w.worker.adder.save))
    && (w.pc.Blacklisting? ==>
          SaveSound(w.disk.list, w.pc.list, w.pc.save) && L.Versions(w.pc.list) == ListedIn(w) + {w.pc.v})
  }

  lemma SaveStepSound(f: TmpFile<seq<Record>>, list: seq<Record>, save: L.SavePc, fault: bool)
    requires FileSound(f) && SaveSound(f, list, save)
    ensures var (save', f') := L.SaveStep(save, list, f, fault);
            && FileSound(f') && L.Listed(f) <= L.Listed(f')
            && (!save'.SaveDone? ==> SaveSound(f', list, save'))
            && (save' == L.SaveDone(true) ==> L.Listed(f') == L.Versions(list))
            && (save' != L.SaveDone(true) ==> L.Listed(f') == L.Listed(f))
  {
  }

  lemma NewSaveSound(f: TmpFile<seq<Record>>, list: seq<Record>, r: Record, fault: bool)
    requires FileSound(f) && L.Load(f, fault) == Some(list)
    ensures SaveSound(f, L.Upsert(list, r), L.MakeDir)
    ensures L.Versions(L.Upsert(list, r)) == L.Listed(f) + {r.version}
  {
    L.UpsertVersions(list, r);
    L.UpsertKeepsUnique(list, r);
  }

  lemma InstallKeepsList(v: Version, at: U.InstallPc, d: Disk, fault: bool, now: Time)
    ensures U.InstallStep(v, at, d, fault, now).1.list == d.list
  {
  }

  lemma WorkerKeepsList(w: World, c: Choice)
    requires ListInv(w) && w.worker.Alive?
    ensures ListInv(StepWorker(w, c)) && ListedIn(w) <= ListedIn(StepWorker(w, c))
    ensures StepWorker(w, c).pc == w.pc && StepWorker(w, c).sess == w.sess
  {
    match c
    case WorkerAdds(r, noList) =>
      var list := L.Load(w.disk.list, noList);
      if w.worker.adder == NoAdd && r.version != "" && list.Some? {
        NewSaveSound(w.disk.list, list.value, r, noList);
      }
    case WorkerCall(adding, fault, now) =>
      if adding && w.worker.adder.Adding? {
        SaveStepSound(w.disk.list, w.worker.adder.list, w.worker.adder.save, fault);
      } else if !adding && w.worker.installer.Installing? {
        InstallKeepsList(w.worker.installer.v, w.worker.installer.at, w.disk, fault, now);
      }
    case _ =>
  }

  lemma LoadKeepsList(w: World, c: Choice)
    requires ListInv(w) && w.pc.Failing? && c.LoadList?
    ensures ListInv(StepFailing(w, c))
  {
    var list := L.Load(w.disk.list, c.noList);
    if w.pc.v != "" && list.Some? {
      NewSaveSound(w.disk.list, list.value, Record(w.pc.v, c.now, ReasonText(w.pc.reason)), c.noList);
    }
  }

  lemma SessionKeepsList(cfg: S.Config, w: World, c: Choice)
    requires ListInv(w) && w.pc.Live? && c.Receive?
    ensures ListInv(StepSession(cfg, w, w.pc.v, c)) && StepSession(cfg, w, w.pc.v, c).disk.list == w.disk.list
  {
  }

  lemma SavingKeepsList(w: World, fault: bool)
    requires ListInv(w) && w.pc.Blacklisting?
    ensures ListInv(StepBlacklisting(w, fault)) && ListedIn(w) <= ListedIn(StepBlacklisting(w, fault))
  {
    SaveStepSound(w.disk.list, w.pc.list, w.pc.save, fault);
  }

  lemma OtherKeepsList(cfg: S.Config, w: World, c: Choice)
    requires ListInv(w) && !w.pc.Live? && !(w.pc.Failing? && c.LoadList?) && !(w.pc.Blacklisting? && c.Io?)
    ensures ListInv(Step(cfg, w, c)) && Step(cfg, w, c).disk.list == w.disk.list
  {
  }

  /** One step of anybody: the list stays sound and loses nothing. */
  lemma StepKeepsList(cfg: S.Config, w: World, c: Choice)
    requires ListInv(w)
    ensures ListInv(Step(cfg, w, c)) && ListedIn(w) <= ListedIn(Step(cfg, w, c))
  {
    match (w.pc, c)
    case (Live(v), Receive(_, _)) => SessionKeepsList(cfg, w, c);
    case (Live(_), _) => WorkerKeepsList(w, c);
    case (Failing(_, _), LoadList(_, _)) => LoadKeepsList(w, c);
    case (Blacklisting(_, _, _, _), Io(fault)) => SavingKeepsList(w, fault);
    case _ => OtherKeepsList(cfg, w, c);
  }

  lemma {:induction false} RunKeepsList(cfg: S.Config, w: World, cs: seq<Choice>)
    requires ListInv(w)
    ensures ListInv(Run(cfg, w, cs)) && ListedIn(w) <= ListedIn(Run(cfg, w, cs))
  {
    if cs != [] {
      RunKeepsList(cfg, w, Front(cs));
      StepKeepsList(cfg, Run(cfg, w, Front(cs)), Last(cs));
    }
  }

  /** Durability: in every run of the system, with the worker killed wherever its session ends and the
      supervisor wherever it is restarted, every reader finds a whole list with unique versions, and no
      version that was ever listed is lost. The supervisor writes only while no worker is alive. */
  lemma BlacklistIsDurable(cfg: S.Config, w: World, cs: seq<Choice>, i: nat)
    requires ListInv(w) && i <= |cs|
    ensures var now := Run(cfg, w, cs);
            && !now.disk.list.file.Torn?
            && (now.disk.list.file.Whole? ==> L.Unique(now.disk.list.file.content))
            && ListedIn(Run(cfg, w, cs[..i])) <= ListedIn(now)
            && (now.pc.Blacklisting? ==> now.worker == Gone)
  {
    assert cs == cs[..i] + cs[i..];
    RunConcat(cfg, w, cs[..i], cs[i..]);
    RunKeepsList(cfg, w, cs[..i]);
    RunKeepsList(cfg, Run(cfg, w, cs[..i]), cs[i..]);
  }

  /** The worker's own add: it starts from the list on disk with the record put in, and once its save has renamed
      the file the list is exactly that. */
  lemma WorkerAddLists(w: World, r: Record, later: World, now: Time)
    requires w.pc.Live? && w.worker.Alive? && w.worker.adder == NoAdd && r.version != "" && FileSound(w.disk.list)
    requires later.pc.Live? && later.worker.Alive? && ListInv(later)
    requires later.worker.adder == Adding(StepWorker(w, WorkerAdds(r, false)).worker.adder.list, L.Commit)
    ensures var w1 := StepWorker(w, WorkerAdds(r, false));
            && w1.disk == w.disk && w1.worker.adder.save == L.MakeDir && r in w1.worker.adder.list
            && L.Versions(w1.worker.adder.list) == L.Listed(w.disk.list) + {r.version}
    ensures var done := StepWorker(later, WorkerCall(true, false, now));
            && done.worker.adder == NoAdd && ListedIn(done) == L.Listed(w.disk.list) + {r.version}
            && done.disk.list.file.Whole? && r in done.disk.list.file.content
  {
    L.UpsertVersions(L.Load(w.disk.list, false).value, r);
  }

  // ------------------------------------------------------------------ Spawns

  /** The step puts a spawn event on the ledger. */
  predicate Spawns(w: World, c: Choice) {
    w.pc.Spawning? && c.Spawn?
  }

  /** The supervisor could read the blacklist and the label of `current`. */
  predicate Careful(cs: seq<Choice>) {
    forall i :: 0 <= i < |cs| && cs[i].Resolve? ==> !cs[i].noList && !cs[i].noLabel
  }

  predicate ClearedToSpawn(w: World) {
    && (w.pc.Gating? ==> !(w.pc.v in ListedIn(w)) || w.pc.v == "")
    && (w.pc.Spawning? ==> !(w.pc.v in ListedIn(w)) || w.pc.v == "")
  }

  lemma StepKeepsCleared(cfg: S.Config, w: World, c: Choice)
    requires ListInv(w) && ClearedToSpawn(w)
    requires c.Resolve? ==> !c.noList && !c.noLabel
    ensures ClearedToSpawn(Step(cfg, w, c))
  {
  }

  lemma {:induction false} RunKeepsCleared(cfg: S.Config, w: World, cs: seq<Choice>)
    requires ListInv(w) && ClearedToSpawn(w) && Careful(cs)
    ensures ClearedToSpawn(Run(cfg, w, cs))
  {
    if cs != [] {
      RunKeepsCleared(cfg, w, Front(cs));
      RunKeepsList(cfg, w, Front(cs));
      StepKeepsCleared(cfg, Run(cfg, w, Front(cs)), Last(cs));
    }
  }

  /** In every run in which the supervisor can read the list and the label, no spawn event carries a version
      that is blacklisted at that moment. */
  lemma NoBlacklistedSpawn(cfg: S.Config, w: World, cs: seq<Choice>, i: nat)
    requires ListInv(w) && ClearedToSpawn(w) && Careful(cs) && i < |cs|
    requires Spawns(Run(cfg, w, cs[..i]), cs[i])
    ensures var before, after := Run(cfg, w, cs[..i]), Run(cfg, w, cs[..i + 1]);
            var k := |before.sess.ledger|;
            && k < |after.sess.ledger| && after.sess.ledger[k].kind == S.SpawnEvent
            && (after.sess.ledger[k].version == "" || after.sess.ledger[k].version !in ListedIn(before))
  {
    RunKeepsCleared(cfg, w, cs[..i]);
    assert cs[..i + 1] == cs[..i] + [cs[i]];
    RunSnoc(cfg, w, cs[..i], cs[i]);
  }

  /** A step adds at most two entries to the ledger, never removes one, and adds a spawn event only when it
      spawns: as its first entry, with the version that passed the checks. */
  lemma LedgerGrows(cfg: S.Config, w: World, c: Choice)
    requires w.pc.Live? ==> w.sess.verdict.None?
    ensures var a, b := w.sess.ledger, Step(cfg, w, c).sess.ledger;
            && |a| <= |b| <= |a| + 2 && b[..|a|] == a
            && (forall k :: |a| <= k < |b| && b[k].kind == S.SpawnEvent ==>
                              Spawns(w, c) && k == |a| && b[k].version == w.pc.v)
  {
    hide Step;
    if w.pc.Live? && c.Receive? {
      LedgerGrowsInSession(cfg, w, c);
    } else if w.pc.Spawning? && c.Spawn? {
      SpawnEffect(cfg, w, c);
    } else {
      LedgerGrowsElsewhere(cfg, w, c);
    }
  }

  lemma LedgerGrowsInSession(cfg: S.Config, w: World, c: Choice)
    requires w.pc.Live? && c.Receive? && w.sess.verdict.None?
    ensures var a, b := w.sess.ledger, Step(cfg, w, c).sess.ledger;
            b == a || (b != [] && b == a + [Last(b)] && Last(b).kind != S.SpawnEvent)
  {
    if c.ev.Message? {
      S.HearKeepsLedger(cfg, w.sess, c.ev.notices);
    }
  }

  lemma LedgerGrowsElsewhere(cfg: S.Config, w: World, c: Choice)
    requires !(w.pc.Live? && c.Receive?) && !(w.pc.Spawning? && c.Spawn?)
    ensures var a, b := w.sess.ledger, Step(cfg, w, c).sess.ledger;
            b == a || (b != [] && b == a + [Last(b)] && Last(b).kind != S.SpawnEvent)
  {
    if !(w.pc.Ended? && c.Act?) && !(w.pc.Swapping? && c.Io?) {
      SilentSteps(cfg, w, c);
    }
  }

  lemma SilentSteps(cfg: S.Config, w: World, c: Choice)
    requires !(w.pc.Live? && c.Receive?) && !(w.pc.Spawning? && c.Spawn?)
    requires !(w.pc.Ended? && c.Act?) && !(w.pc.Swapping? && c.Io?)
    ensures Step(cfg, w, c).sess.ledger == w.sess.ledger
  {
  }

  predicate SessionOpen(w: World) {
    w.pc.Live? ==> w.sess.verdict.None? && w.sess.version == w.pc.v
  }

  lemma StepKeepsOpen(cfg: S.Config, w: World, c: Choice)
    requires SessionOpen(w)
    ensures SessionOpen(Step(cfg, w, c))
  {
    if w.pc.Live? && c.Receive? && c.ev.Message? {
      S.HearKeepsLedger(cfg, w.sess, c.ev.notices);
    }
  }

  lemma {:induction false} RunKeepsOpen(cfg: S.Config, w: World, cs: seq<Choice>)
    requires SessionOpen(w)
    ensures SessionOpen(Run(cfg, w, cs))
  {
    if cs != [] {
      RunKeepsOpen(cfg, w, Front(cs));
      StepKeepsOpen(cfg, Run(cfg, w, Front(cs)), Last(cs));
    }
  }

  /** Once listed, a version is never spawned again: not by later iterations, not after restarts of the
      supervisor, not after being installed once more. */
  lemma {:induction false} ListedIsNeverSpawned(cfg: S.Config, w: World, cs: seq<Choice>, v: Version)
    requires ListInv(w) && SessionOpen(w) && ClearedToSpawn(w) && Careful(cs)
    requires v != "" && v in ListedIn(w)
    ensures var a, b := w.sess.ledger, Run(cfg, w, cs).sess.ledger;
            && |a| <= |b| && b[..|a|] == a
            && forall k :: |a| <= k < |b| && b[k].kind == S.SpawnEvent ==> b[k].version != v
  {
    hide Step;
    if cs != [] {
      var front := Front(cs);
      ListedIsNeverSpawned(cfg, w, front, v);
      RunKeepsList(cfg, w, front);
      RunKeepsCleared(cfg, w, front);
      RunKeepsOpen(cfg, w, front);
      var mid := Run(cfg, w, front);
      LedgerGrows(cfg, mid, Last(cs));
      LedgerStaysPrefix(w.sess.ledger, mid.sess.ledger, Run(cfg, w, cs).sess.ledger);
    }
  }

  lemma LedgerStaysPrefix(a: seq<S.Entry>, b: seq<S.Entry>, c: seq<S.Entry>)
    requires |a| <= |b| <= |c| && b[..|a|] == a && c[..|b|] == b
    ensures c[..|a|] == a
  {
    assert c[..|a|] == c[..|b|][..|a|];
  }

  /** A version whose install gate failed, and whose blacklist write then succeeded, is never spawned again. */
  lemma FailedInstallNeverReturns(cfg: S.Config, w: World, cs: seq<Choice>)
    requires ListInv(w) && SessionOpen(w) && Careful(cs)
    requires w.pc.Blacklisting? && w.pc.v != "" && Step(cfg, w, Io(false)).pc.Unmarking? && w.pc.save == L.Commit
    ensures var after := Step(cfg, w, Io(false));
            var a, b := after.sess.ledger, Run(cfg, after, cs).sess.ledger;
            && w.pc.v in ListedIn(after) && |a| <= |b|
            && forall k :: |a| <= k < |b| && b[k].kind == S.SpawnEvent ==> b[k].version != w.pc.v
  {
    var after := Step(cfg, w, Io(false));
    StepKeepsList(cfg, w, Io(false));
    StepKeepsOpen(cfg, w, Io(false));
    ListedIsNeverSpawned(cfg, after, cs, w.pc.v);
  }

  /** At the top of the loop a listed `current` gets past the check exactly when the list cannot be read, or
      the label cannot be read and the stand-in label "." is not listed. */
  lemma BlacklistedPassesIff(cfg: S.Config, w: World, c: Choice)
    requires ListInv(w) && w.pc == Head && c.Resolve? && !c.cancelled && !c.noCurrent
    requires Current in w.disk.links
    requires var v := w.disk.links[Current].base; v != "" && v in ListedIn(w)
    ensures Step(cfg, w, c).pc.Gating? <==> c.noList || (c.noLabel && UNREADABLE_LABEL !in ListedIn(w))
    ensures !Step(cfg, w, c).pc.Gating? ==> Step(cfg, w, c).pc.Swapping? && Step(cfg, w, c).pc.why == S.Blacklisted
  {
  }

  lemma BootIsSound(cfg: S.Config, disk: Disk, ledger: seq<S.Entry>)
    requires FileSound(disk.list)
    ensures var w := Boot(cfg, disk, ledger); ListInv(w) && SessionOpen(w) && ClearedToSpawn(w)
  {
  }
}
