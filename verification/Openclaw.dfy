/** The gateway poller (internal/openclaw/poller.go, autoheal.go, phase.go, snapshot.go). Probes overlap:
    each reads the store, probes without the lock and commits under it, so a commit may build on any
    snapshot. What the store holds is stated against the log of commits and of intents. */
module Openclaw {
  import opened Common
  import Backoff

  datatype Intent = IntentUnknown | IntentRunning | IntentStopped

  datatype Phase = PhaseUnknown | PhaseMissing | PhaseStopped | PhaseStarting | PhaseRunning | PhaseError

  datatype Sample = Sample(at: Time, alive: bool, ms: int)

  const WARMUP_GRACE: Duration := 15 * SECOND
  const HISTORY_LEN: nat := 20
  const DEFAULT_THRESHOLD: int := 3
  const DEFAULT_COOLDOWN: Duration := 300 * SECOND

  predicate IsStarting(action: string) {
    action == "start" || action == "restart" || action == "fix"
  }

  datatype AutohealConfig = AutohealConfig(enabled: bool, threshold: int, cooldown: Duration)

  datatype Snapshot = Snapshot(
    phase: Phase, probed: bool, alive: bool, cliMissing: bool, intent: Intent, currentAction: string,
    lastProbeAt: Time, lastProbeMS: int, pid: int, pidSince: Time,
    crashCount: nat, history: seq<Sample>,
    autohealEnabled: bool, autohealCount: nat, autohealLastAt: Time, nextEligible: Time, consecutiveDown: nat)

  const EMPTY := Snapshot(PhaseUnknown, false, false, false, IntentUnknown, "", ZERO_TIME, 0, 0, ZERO_TIME,
                          0, [], false, 0, ZERO_TIME, ZERO_TIME, 0)

  /** What one probe saw; the CLI flag is only refreshed when enrichment ran. */
  datatype Observation = Observation(at: Time, ms: int, alive: bool, pid: int, cliMissing: Option<bool>)

  /** probe: a copy of the snapshot it started from, with this tick's observations. */
  function Probe(prev: Snapshot, o: Observation): Snapshot {
    prev.(probed := true, lastProbeAt := o.at, lastProbeMS := o.ms, alive := o.alive, pid := o.pid,
          cliMissing := if o.cliMissing.Some? then o.cliMissing.value else prev.cliMissing)
  }

  function ComputePhase(s: Snapshot, action: string, lastStart: Time, now: Time, grace: Duration): Phase {
    if !s.probed then PhaseUnknown
    else if s.cliMissing then PhaseMissing
    else if s.intent == IntentStopped then PhaseStopped
    else if IsStarting(action) then PhaseStarting
    else if s.alive then PhaseRunning
    else if lastStart != ZERO_TIME && now - lastStart < grace then PhaseStarting
    else PhaseError
  }

  predicate ShouldAutoheal(s: Snapshot, cfg: AutohealConfig, now: Time) {
    if !cfg.enabled then false
    else if s.alive then false
    else if s.intent == IntentStopped then false
    else if s.cliMissing then false
    else if s.consecutiveDown < cfg.threshold then false
    else if s.nextEligible != ZERO_TIME && now < s.nextEligible then false
    else true
  }

  function AppendSample(history: seq<Sample>, s: Sample): seq<Sample> {
    var out := history + [s];
    if |out| > HISTORY_LEN then out[|out| - HISTORY_LEN..] else out
  }

  // ------------------------------------------------------- The log of commits

  /** One pass through the locked section: its clock reading (taken before the lock), the probe's findings,
      the intent it found in the store, the action and start stamp it read (and how long the history was when
      it read them), and what it decided. */
  datatype Commit = Commit(now: Time, sample: Sample, pid: int, cliMissing: bool, intent: Intent,
                           action: string, actionAt: nat, stamp: Time, stampAt: nat, phase: Phase, fired: bool)

  predicate DownAndIdle(c: Commit) {
    !c.sample.alive && c.action == ""
  }

  /** Adjacent commits that went from alive to dead. */
  function Edges(cs: seq<Commit>): nat {
    if |cs| < 2 then 0
    else Edges(Front(cs)) + if Last(Front(cs)).sample.alive && !Last(cs).sample.alive then 1 else 0
  }

  function Samples(cs: seq<Commit>): seq<Sample> {
    seq(|cs|, i requires 0 <= i < |cs| => cs[i].sample)
  }

  function LastN<T>(s: seq<T>, n: nat): seq<T> {
    if |s| <= n then s else s[|s| - n..]
  }

  /** Where the current unbroken run of one PID began. */
  function RunStart(cs: seq<Commit>): (i: nat)
    requires cs != []
    ensures i < |cs|
  {
    if |cs| > 1 && Last(Front(cs)).pid == Last(cs).pid then RunStart(Front(cs)) else |cs| - 1
  }

  /** The trailing run of idle down commits since the last fire. */
  function Streak(cs: seq<Commit>): nat {
    if cs == [] || Last(cs).fired || !DownAndIdle(Last(cs)) then 0 else Streak(Front(cs)) + 1
  }

  function Fires(cs: seq<Commit>): nat {
    if cs == [] then 0 else Fires(Front(cs)) + if Last(cs).fired then 1 else 0
  }

  function FireTimes(cs: seq<Commit>): seq<Time> {
    if cs == [] then [] else FireTimes(Front(cs)) + if Last(cs).fired then [Last(cs).now] else []
  }

  function DownCount(cs: seq<Commit>): nat {
    if cs == [] then 0 else DownCount(Front(cs)) + if DownAndIdle(Last(cs)) then 1 else 0
  }

  /** The policy, read off the log: enabled, down and idle, not deliberately stopped, a CLI to call, the
      streak long enough, and the cooldown since the last fire over. */
  predicate FireDue(cfg: AutohealConfig, cs: seq<Commit>, c: Commit) {
    && cfg.enabled && DownAndIdle(c) && c.intent != IntentStopped && !c.cliMissing
    && Streak(cs) + 1 >= cfg.threshold
    && (FireTimes(cs) == [] || c.now >= Last(FireTimes(cs)) + cfg.cooldown)
  }

  /** The phase, read off the commit alone. */
  function PhaseOf(c: Commit): Phase {
    if c.cliMissing then PhaseMissing
    else if c.intent == IntentStopped then PhaseStopped
    else if IsStarting(c.action) then PhaseStarting
    else if c.sample.alive then PhaseRunning
    else if c.stamp != ZERO_TIME && c.now < c.stamp + WARMUP_GRACE then PhaseStarting
    else PhaseError
  }

  predicate Lawful(cfg: AutohealConfig, cs: seq<Commit>) {
    cs == [] || (Lawful(cfg, Front(cs)) && Last(cs).now > ZERO_TIME && Last(cs).phase == PhaseOf(Last(cs))
                 && (Last(cs).fired <==> FireDue(cfg, Front(cs), Last(cs))))
  }

  /** What the probe side of the store says about the log. */
  predicate Observed(s: Snapshot, cs: seq<Commit>) {
    && s.probed == (cs != [])
    && s.crashCount == Edges(cs)
    && s.history == LastN(Samples(cs), 20)
    && (cs == [] ==> !s.alive && s.pid == 0)
    && (cs != [] ==>
          && s.alive == Last(cs).sample.alive && s.pid == Last(cs).pid && s.phase == Last(cs).phase
          && (s.pid != 0 ==> s.pidSince == cs[RunStart(cs)].now))
  }

  /** What the autoheal side of the store says about the log. */
  predicate Healed(cfg: AutohealConfig, s: Snapshot, cs: seq<Commit>) {
    && s.consecutiveDown == Streak(cs)
    && s.autohealCount == Fires(cs)
    && (if FireTimes(cs) == [] then s.nextEligible == ZERO_TIME
        else s.nextEligible == Last(FireTimes(cs)) + cfg.cooldown && s.nextEligible > ZERO_TIME
             && s.autohealLastAt == Last(FireTimes(cs)))
  }

  /** The first part of the locked closure: take over `next`, but keep or advance what a probe cannot see,
      from the snapshot `s` that is in the store now. */
  method KeepCumulative(s: Snapshot, next: Snapshot, sample: Sample, now: Time) returns (t: Snapshot)
    ensures t.probed == next.probed && t.alive == next.alive && t.pid == next.pid && t.cliMissing == next.cliMissing
    ensures t.lastProbeAt == next.lastProbeAt && t.lastProbeMS == next.lastProbeMS
    ensures t.intent == s.intent
    ensures t.crashCount == s.crashCount + if s.probed && s.alive && !next.alive then 1 else 0
    ensures t.pidSince == if next.pid != 0 && next.pid != s.pid then now else s.pidSince
    ensures t.history == AppendSample(s.history, sample)
    ensures t.autohealCount == s.autohealCount && t.autohealLastAt == s.autohealLastAt
    ensures t.nextEligible == s.nextEligible && t.consecutiveDown == s.consecutiveDown
  {
    var intent, crashes, history := s.intent, s.crashCount, s.history;
    var pidSince, prevPID, prevAlive, hadProbed := s.pidSince, s.pid, s.alive, s.probed;
    var ahCount, ahLastAt, ahNext, ahConsec := s.autohealCount, s.autohealLastAt, s.nextEligible, s.consecutiveDown;
    t := next;
    t := t.(intent := intent);
    if hadProbed && prevAlive && !next.alive {
      crashes := crashes + 1;
    }
    t := t.(crashCount := crashes);
    if next.pid != 0 && next.pid != prevPID {
      t := t.(pidSince := now);
    } else {
      t := t.(pidSince := pidSince);
    }
    t := t.(history := AppendSample(history, sample));
    t := t.(autohealCount := ahCount, autohealLastAt := ahLastAt, nextEligible := ahNext, consecutiveDown := ahConsec);
  }

  /** The last part of the closure: the phase, then the autoheal decision on the snapshot about to be stored. */
  method Decide(cfg: AutohealConfig, s: Snapshot, action: string, stamp: Time, now: Time)
    returns (t: Snapshot, fire: bool)
    ensures fire <==> action == "" && ShouldAutoheal(s, cfg, now)
    ensures t == (if fire then s.(autohealCount := s.autohealCount + 1, autohealLastAt := now,
                                  nextEligible := now + cfg.cooldown, consecutiveDown := 0)
                  else s).(phase := ComputePhase(s, action, stamp, now, WARMUP_GRACE))
  {
    t := s.(phase := ComputePhase(s, action, stamp, now, WARMUP_GRACE));
    fire := false;
    if action == "" && ShouldAutoheal(t, cfg, now) {
      t := t.(autohealCount := t.autohealCount + 1, autohealLastAt := now, nextEligible := now + cfg.cooldown,
              consecutiveDown := 0);
      fire := true;
    }
  }

  /** Field by field, what a commit does to the store: `s` before, `t` after, `cs` the log before. */
  predicate Advances(cfg: AutohealConfig, s: Snapshot, t: Snapshot, cs: seq<Commit>, c: Commit) {
    && t.probed && t.alive == c.sample.alive && t.pid == c.pid && t.phase == c.phase == PhaseOf(c)
    && t.crashCount == s.crashCount + (if s.probed && s.alive && !t.alive then 1 else 0)
    && t.history == AppendSample(s.history, c.sample)
    && t.pidSince == (if t.pid != 0 && t.pid != s.pid then c.now else s.pidSince)
    && (c.fired <==> FireDue(cfg, cs, c))
    && t.consecutiveDown == (if c.fired || !DownAndIdle(c) then 0 else s.consecutiveDown + 1)
    && t.autohealCount == s.autohealCount + (if c.fired then 1 else 0)
    && t.nextEligible == (if c.fired then c.now + cfg.cooldown else s.nextEligible)
    && t.autohealLastAt == (if c.fired then c.now else s.autohealLastAt)
  }

  // ------------------------------------------------------- The history of the Manager

  /** What happened to a Manager, in order: start stamps, actions set or cleared (""), intents, commits. */
  datatype Event = Stamped(at: Time) | Acted(name: string) | Intended(intent: Intent) | Committed(commit: Commit)

  function CommitsIn(h: seq<Event>): seq<Commit> {
    if h == [] then [] else CommitsIn(Front(h)) + if Last(h).Committed? then [Last(h).commit] else []
  }

  function StampIn(h: seq<Event>): Time {
    if h == [] then ZERO_TIME else if Last(h).Stamped? then Last(h).at else StampIn(Front(h))
  }

  function ActionIn(h: seq<Event>): string {
    if h == [] then "" else if Last(h).Acted? then Last(h).name else ActionIn(Front(h))
  }

  function IntentIn(h: seq<Event>): Intent {
    if h == [] then IntentUnknown else if Last(h).Intended? then Last(h).intent else IntentIn(Front(h))
  }

  predicate IsAtomic(e: Event) {
    e.Stamped? || e.Acted?
  }

  /** Commit `k` saw the latest intent, and the action and stamp that were the latest when it read them, while
      it held the lock: from its first read on, only the atomics may have changed. */
  predicate Saw(h: seq<Event>, k: nat)
    requires k < |h| && h[k].Committed?
  {
    var c := h[k].commit;
    && c.actionAt <= c.stampAt <= k
    && c.action == ActionIn(h[..c.actionAt]) && c.stamp == StampIn(h[..c.stampAt]) && c.intent == IntentIn(h[..k])
    && forall i :: c.actionAt <= i < k ==> IsAtomic(h[i])
  }

  predicate Witnessed(h: seq<Event>) {
    forall k :: 0 <= k < |h| && h[k].Committed? ==> Saw(h, k)
  }

  lemma AtomicExtends(h: seq<Event>, e: Event)
    requires Witnessed(h) && !e.Committed?
    ensures Witnessed(h + [e]) && CommitsIn(h + [e]) == CommitsIn(h)
    ensures ActionIn(h + [e]) == if e.Acted? then e.name else ActionIn(h)
    ensures StampIn(h + [e]) == if e.Stamped? then e.at else StampIn(h)
    ensures IntentIn(h + [e]) == if e.Intended? then e.intent else IntentIn(h)
  {
    assert Front(h + [e]) == h;
    forall k | 0 <= k < |h + [e]| && (h + [e])[k].Committed?
      ensures Saw(h + [e], k)
    {
      SawStays(h, e, k);
    }
  }

  lemma SawStays(h: seq<Event>, e: Event, k: nat)
    requires k < |h| && h[k].Committed? && Saw(h, k)
    ensures Saw(h + [e], k)
  {
    var c := h[k].commit;
    assert (h + [e])[..c.actionAt] == h[..c.actionAt] && (h + [e])[..c.stampAt] == h[..c.stampAt];
    assert (h + [e])[..k] == h[..k];
  }

  /** A commit that read `action` when the history was `h0` and `stamp` when it was `h1` goes on record. */
  lemma CommitExtends(h0: seq<Event>, h1: seq<Event>, h: seq<Event>, c: Commit)
    requires Witnessed(h) && h0 <= h1 <= h && forall i :: |h0| <= i < |h| ==> IsAtomic(h[i])
    requires c.actionAt == |h0| && c.stampAt == |h1| && c.intent == IntentIn(h)
    requires c.action == ActionIn(h0) && c.stamp == StampIn(h1)
    ensures var after := h + [Committed(c)];
            && Witnessed(after) && CommitsIn(after) == CommitsIn(h) + [c]
            && ActionIn(after) == ActionIn(h) && StampIn(after) == StampIn(h) && IntentIn(after) == IntentIn(h)
  {
    var after := h + [Committed(c)];
    assert Front(after) == h;
    forall k | 0 <= k < |after| && after[k].Committed?
      ensures Saw(after, k)
    {
      if k < |h| {
        SawStays(h, Committed(c), k);
      } else {
        assert after[..|h0|] == h0 && after[..|h1|] == h1 && after[..k] == h;
      }
    }
  }

  class Manager {
    var snap: Snapshot
    /** The action in flight, "" for none. */
    var currentAction: string
    var lastStart: Time
    var autoheal: AutohealConfig
    ghost var commits: seq<Commit>
    ghost var history: seq<Event>

    /** Every stored field equals its definition over the log, and the log is that of the history. */
    ghost predicate Valid()
      reads this
    {
      && (autoheal.enabled ==> autoheal.threshold >= 1 && autoheal.cooldown >= 1)
      && Lawful(autoheal, commits)
      && Observed(snap, commits)
      && Healed(autoheal, snap, commits)
      && Kept()
    }

    ghost predicate Kept()
      reads this
    {
      && Witnessed(history) && commits == CommitsIn(history)
      && snap.intent == IntentIn(history)
      && currentAction == ActionIn(history) && lastStart == StampIn(history)
    }

    /** Meanwhile nothing but the atomics was written. */
    twostate predicate OnlyAtomics()
      reads this
    {
      && snap == old(snap) && commits == old(commits) && autoheal == old(autoheal)
      && old(history) <= history && forall i :: |old(history)| <= i < |history| ==> IsAtomic(history[i])
    }

    constructor ()
      ensures Valid() && history == [] && !autoheal.enabled
    {
      snap, currentAction, lastStart := EMPTY, "", ZERO_TIME;
      autoheal := AutohealConfig(false, 0, 0);
      commits, history := [], [];
    }

    /** Chained at construction time, before the first probe. */
    method WithAutoheal(cfg: AutohealConfig)
      requires Valid() && commits == []
      modifies this`autoheal
      ensures Valid()
      ensures autoheal.enabled == cfg.enabled
      ensures autoheal.threshold == if cfg.threshold > 0 then cfg.threshold else 3
      ensures autoheal.cooldown == if cfg.cooldown > 0 then cfg.cooldown else 300 * SECOND
    {
      var c := cfg;
      if c.threshold <= 0 {
        c := c.(threshold := DEFAULT_THRESHOLD);
      }
      if c.cooldown <= 0 {
        c := c.(cooldown := DEFAULT_COOLDOWN);
      }
      autoheal := c;
    }

    method SetIntent(i: Intent)
      requires Valid()
      modifies this`snap, this`history
      ensures Valid() && history == old(history) + [Intended(i)] && snap == old(snap).(intent := i)
    {
      AtomicExtends(history, Intended(i));
      snap := snap.(intent := i);
      history := history + [Intended(i)];
    }

    method SetCurrentAction(name: string)
      requires Kept()
      modifies this`currentAction, this`history
      ensures Kept() && OnlyAtomics() && history == old(history) + [Acted(name)] && currentAction == name
    {
      AtomicExtends(history, Acted(name));
      currentAction := name;
      history := history + [Acted(name)];
    }

    method StampStartAttempt(now: Time)
      requires Kept()
      modifies this`lastStart, this`history
      ensures Kept() && OnlyAtomics() && history == old(history) + [Stamped(now)] && lastStart == now
    {
      AtomicExtends(history, Stamped(now));
      lastStart := now;
      history := history + [Stamped(now)];
    }

    /** The atomics may be set by others even while the store is locked. */
    method OtherGoroutines()
      requires Kept()
      modifies this`currentAction, this`lastStart, this`history
      ensures Kept() && OnlyAtomics()
    {
      var rounds: int := *;
      for i := 0 to Max(rounds, 0)
        invariant Kept() && OnlyAtomics()
      {
        var name: string, now: Time, acts: bool := *, *, *;
        if acts {
          SetCurrentAction(name);
        } else {
          StampStartAttempt(now);
        }
      }
    }

    method Get() returns (s: Snapshot)
      requires Valid()
      ensures s == snap.(currentAction := currentAction)
    {
      s := snap.(currentAction := currentAction);
    }

    /** The first half of ProbeNow: read the store and probe without the lock. What the probe saw replaces what was
        stored; a probe that did not look for the CLI leaves that flag alone, and so does every probe with what it
        cannot see. */
    method BeginProbe(o: Observation) returns (next: Snapshot)
      ensures next.probed && next.alive == o.alive && next.pid == o.pid
      ensures next.lastProbeAt == o.at && next.lastProbeMS == o.ms
      ensures o.cliMissing.Some? ==> next.cliMissing == o.cliMissing.value
      ensures o.cliMissing.None? ==> next.cliMissing == snap.cliMissing
      ensures next.intent == snap.intent && next.crashCount == snap.crashCount && next.history == snap.history
      ensures next.pidSince == snap.pidSince && next.phase == snap.phase && next.currentAction == snap.currentAction
      ensures next.autohealEnabled == snap.autohealEnabled && next.autohealCount == snap.autohealCount
      ensures next.autohealLastAt == snap.autohealLastAt && next.nextEligible == snap.nextEligible
      ensures next.consecutiveDown == snap.consecutiveDown
    {
      next := Probe(snap, o);
    }

    /** While a probe is out, without the lock, others may set intents, actions and stamps and commit probes of
        their own, on whatever snapshots. */
    method WithoutTheLock()
      requires Valid()
      modifies this`snap, this`currentAction, this`lastStart, this`commits, this`history
      ensures Valid() && old(commits) <= commits && old(history) <= history
    {
      var rounds: int := *;
      for i := 0 to Max(rounds, 0)
        invariant Valid() && old(commits) <= commits && old(history) <= history
      {
        var intent: Intent, sets: bool := *, *;
        var next: Snapshot, now: Time := *, *;
        OtherGoroutines();
        if sets {
          SetIntent(intent);
        } else if next.probed && now > ZERO_TIME {
          var _ := CommitProbe(next, now);
        }
      }
    }

    /** One probe from end to end. Whatever the others do in between, its commit logs exactly what it saw, with the
        intent in the store when it took the lock, and the store shows it when it is done. */
    method ProbeNow(o: Observation, now: Time) returns (fire: bool)
      requires Valid() && now > ZERO_TIME
      modifies this`snap, this`currentAction, this`lastStart, this`commits, this`history
      ensures Valid() && commits != [] && old(commits) <= Front(commits) && old(history) <= history
      ensures history != [] && Last(history) == Committed(Last(commits))
      ensures var c := Last(commits);
              && c.now == now && c.sample == Sample(o.at, o.alive, o.ms) && c.pid == o.pid && fire == c.fired
              && c.cliMissing == (if o.cliMissing.Some? then o.cliMissing.value else old(snap.cliMissing))
              && c.intent == snap.intent
      ensures snap.probed && snap.alive == o.alive && snap.pid == o.pid
      ensures snap.lastProbeAt == o.at && snap.lastProbeMS == o.ms && snap.cliMissing == Last(commits).cliMissing
      ensures snap.history != [] && Last(snap.history) == Sample(o.at, o.alive, o.ms)
    {
      var next := BeginProbe(o);
      WithoutTheLock();
      fire := CommitProbe(next, now);
    }

    /** The second half: the closure that runs under the lock. `next` may stem from any earlier snapshot. The
        action is the one in flight when the lock was taken; a stamp may still slip in before it is read. */
    method CommitProbe(next: Snapshot, now: Time) returns (fire: bool)
      requires Valid() && next.probed && now > ZERO_TIME
      modifies this`snap, this`currentAction, this`lastStart, this`commits, this`history
      ensures Valid()
      ensures |commits| == |old(commits)| + 1 && Front(commits) == old(commits)
      ensures old(history) < history && Last(history) == Committed(Last(commits))
      ensures forall i :: |old(history)| <= i < |history| - 1 ==> IsAtomic(history[i])
      ensures var c := Last(commits);
              && c.now == now && c.sample == Sample(next.lastProbeAt, next.alive, next.lastProbeMS)
              && c.pid == next.pid && c.cliMissing == next.cliMissing && c.intent == old(snap.intent)
              && fire == c.fired && c.actionAt == |old(history)| && c.action == old(currentAction) == snap.currentAction
              && |old(history)| <= c.stampAt < |history| && c.stamp == StampIn(history[..c.stampAt])
      ensures snap.autohealEnabled == autoheal.enabled
      ensures snap.probed && snap.alive == next.alive && snap.pid == next.pid && snap.cliMissing == next.cliMissing
      ensures snap.lastProbeAt == next.lastProbeAt && snap.lastProbeMS == next.lastProbeMS
      ensures snap.intent == old(snap.intent)
      ensures snap.history != [] && Last(snap.history) == Last(commits).sample
    {
      hide CommitsIn, StampIn, ActionIn, IntentIn, Witnessed, Lawful, Observed, Healed, Advances;
      ghost var s, h0 := snap, history;
      ghost var c;
      var t;
      t, fire, c := NextSnapshot(next, now);
      ghost var h1 := history;
      OtherGoroutines();
      CommitIsLogged(autoheal, s, t, commits, c);
      CommitExtends(h0, h1, history, c);
      snap := t;
      commits, history := commits + [c], history + [Committed(c)];
      assert history[..c.stampAt] == h1;
    }

    /** The body of the closure: the snapshot to store, whether to fire, and the commit as the log has it. */
    method NextSnapshot(next: Snapshot, now: Time) returns (t: Snapshot, fire: bool, ghost c: Commit)
      requires Valid() && next.probed && now > ZERO_TIME
      modifies this`currentAction, this`lastStart, this`history
      ensures Kept() && OnlyAtomics()
      ensures Advances(autoheal, snap, t, commits, c)
      ensures c.now == now && c.sample == Sample(next.lastProbeAt, next.alive, next.lastProbeMS)
      ensures c.pid == next.pid && c.cliMissing == next.cliMissing && c.intent == snap.intent
      ensures c.action == old(currentAction) && c.actionAt == |old(history)|
      ensures c.stamp == lastStart && c.stampAt == |history|
      ensures fire == c.fired && c.action == t.currentAction && t.intent == snap.intent
      ensures t.autohealEnabled == autoheal.enabled
      ensures t.probed && t.alive == next.alive && t.pid == next.pid && t.cliMissing == next.cliMissing
      ensures t.lastProbeAt == next.lastProbeAt && t.lastProbeMS == next.lastProbeMS
      ensures t.history != [] && Last(t.history) == c.sample
    {
      var sample := Sample(next.lastProbeAt, next.alive, next.lastProbeMS);
      var s := KeepCumulative(snap, next, sample, now);
      var action := currentAction;
      ghost var actionAt := |history|;
      s := s.(autohealEnabled := autoheal.enabled, currentAction := action,
              consecutiveDown := if action != "" then 0 else if next.alive then 0 else s.consecutiveDown + 1);
      OtherGoroutines();
      var stamp := lastStart;
      t, fire := Decide(autoheal, s, action, stamp, now);
      c := Commit(now, sample, next.pid, next.cliMissing, snap.intent, action, actionAt, stamp, |history|,
                  t.phase, fire);
      GatesAreThePolicy(autoheal, snap, s, commits, c);
      PhaseFromCommit(s, c);
    }
  }

  lemma RunStartSnoc(cs: seq<Commit>, c: Commit)
    ensures RunStart(cs + [c]) == if cs != [] && Last(cs).pid == c.pid then RunStart(cs) else |cs|
  {
    assert Front(cs + [c]) == cs;
  }

  lemma HistorySnoc(cs: seq<Commit>, c: Commit)
    ensures LastN(Samples(cs + [c]), HISTORY_LEN) == AppendSample(LastN(Samples(cs), HISTORY_LEN), c.sample)
  {
    assert Samples(cs + [c]) == Samples(cs) + [c.sample];
  }

  lemma EdgesSnoc(cs: seq<Commit>, c: Commit)
    ensures Edges(cs + [c]) == Edges(cs) + if cs != [] && Last(cs).sample.alive && !c.sample.alive then 1 else 0
  {
    assert Front(cs + [c]) == cs;
  }

  lemma ObservedGrows(s: Snapshot, t: Snapshot, cs: seq<Commit>, c: Commit)
    requires Observed(s, cs)
    requires t.probed && t.alive == c.sample.alive && t.pid == c.pid && t.phase == c.phase
    requires t.crashCount == s.crashCount + if s.probed && s.alive && !t.alive then 1 else 0
    requires t.history == AppendSample(s.history, c.sample)
    requires t.pidSince == if t.pid != 0 && t.pid != s.pid then c.now else s.pidSince
    ensures Observed(t, cs + [c])
  {
    EdgesSnoc(cs, c);
    HistorySnoc(cs, c);
    RunStartSnoc(cs, c);
    if cs != [] && Last(cs).pid == c.pid {
      assert (cs + [c])[RunStart(cs)] == cs[RunStart(cs)];
    }
  }

  lemma HealedGrows(cfg: AutohealConfig, s: Snapshot, t: Snapshot, cs: seq<Commit>, c: Commit)
    requires Healed(cfg, s, cs)
    requires t.consecutiveDown == if c.fired || !DownAndIdle(c) then 0 else s.consecutiveDown + 1
    requires t.autohealCount == s.autohealCount + if c.fired then 1 else 0
    requires t.nextEligible == if c.fired then c.now + cfg.cooldown else s.nextEligible
    requires t.autohealLastAt == if c.fired then c.now else s.autohealLastAt
    requires c.fired ==> c.now + cfg.cooldown > ZERO_TIME
    ensures Healed(cfg, t, cs + [c])
  {
    assert Front(cs + [c]) == cs;
    assert FireTimes(cs + [c]) == FireTimes(cs) + if c.fired then [c.now] else [];
  }

  lemma LawfulGrows(cfg: AutohealConfig, cs: seq<Commit>, c: Commit)
    requires Lawful(cfg, cs) && c.now > ZERO_TIME && c.phase == PhaseOf(c) && (c.fired <==> FireDue(cfg, cs, c))
    ensures Lawful(cfg, cs + [c]) && Front(cs + [c]) == cs
  {
    assert Front(cs + [c]) == cs;
  }

  lemma PhaseFromCommit(u: Snapshot, c: Commit)
    requires u.probed && u.alive == c.sample.alive && u.intent == c.intent && u.cliMissing == c.cliMissing
    ensures ComputePhase(u, c.action, c.stamp, c.now, WARMUP_GRACE) == PhaseOf(c)
  {
  }

  /** The gates of shouldAutoheal, met by a snapshot that agrees with the log, are the policy. */
  lemma GatesAreThePolicy(cfg: AutohealConfig, s: Snapshot, u: Snapshot, cs: seq<Commit>, c: Commit)
    requires Healed(cfg, s, cs)
    requires u.alive == c.sample.alive && u.intent == c.intent && u.cliMissing == c.cliMissing
    requires u.nextEligible == s.nextEligible
    requires u.consecutiveDown == if DownAndIdle(c) then s.consecutiveDown + 1 else 0
    ensures c.action == "" && ShouldAutoheal(u, cfg, c.now) <==> FireDue(cfg, cs, c)
  {
  }

  /** The snapshot that the closure stores agrees with the log extended by its commit. */
  lemma CommitIsLogged(cfg: AutohealConfig, s: Snapshot, t: Snapshot, cs: seq<Commit>, c: Commit)
    requires cfg.enabled ==> cfg.cooldown >= 1
    requires Lawful(cfg, cs) && Observed(s, cs) && Healed(cfg, s, cs) && c.now > ZERO_TIME
    requires Advances(cfg, s, t, cs, c)
    ensures Lawful(cfg, cs + [c]) && Observed(t, cs + [c]) && Healed(cfg, t, cs + [c]) && Front(cs + [c]) == cs
  {
    ObservedGrows(s, t, cs, c);
    HealedGrows(cfg, s, t, cs, c);
    LawfulGrows(cfg, cs, c);
  }

  // ----------------------------------------------------------- Autoheal over whole runs

  /** A streak of n: the last n commits were all down and idle and did not fire, and the one before them,
      if any, fired or was not. */
  lemma {:induction false} StreakIsTrailingRun(cs: seq<Commit>)
    ensures var n := Streak(cs);
            && n <= |cs|
            && (forall i :: |cs| - n <= i < |cs| ==> DownAndIdle(cs[i]) && !cs[i].fired)
            && (n < |cs| ==> cs[|cs| - n - 1].fired || !DownAndIdle(cs[|cs| - n - 1]))
  {
    if cs != [] {
      StreakIsTrailingRun(Front(cs));
    }
  }

  /** Every fire used up at least `threshold` idle down commits of its own. */
  lemma {:induction false} FireBudget(cfg: AutohealConfig, cs: seq<Commit>)
    requires Lawful(cfg, cs) && (cfg.enabled ==> cfg.threshold >= 1)
    ensures cfg.enabled ==> Fires(cs) * cfg.threshold + Streak(cs) <= DownCount(cs)
    ensures !cfg.enabled ==> Fires(cs) == 0
  {
    if cs != [] {
      FireBudget(cfg, Front(cs));
      if Last(cs).fired {
        assert (Fires(Front(cs)) + 1) * cfg.threshold == Fires(Front(cs)) * cfg.threshold + cfg.threshold;
      }
    }
  }

  /** A fire is stamped with the clock reading of its commit. */
  lemma {:induction false} FireTimesOf(cs: seq<Commit>)
    ensures forall j :: 0 <= j < |cs| && cs[j].fired ==> cs[j].now in FireTimes(cs)
    ensures forall t :: t in FireTimes(cs) ==> exists j :: 0 <= j < |cs| && cs[j].fired && cs[j].now == t
  {
    if cs != [] {
      var front := Front(cs);
      FireTimesOf(front);
      assert forall j :: 0 <= j < |front| ==> front[j] == cs[j];
      assert cs[|cs| - 1] == Last(cs);
      forall t | t in FireTimes(cs)
        ensures exists j :: 0 <= j < |cs| && cs[j].fired && cs[j].now == t
      {
        if t in FireTimes(front) {
          var j :| 0 <= j < |front| && front[j].fired && front[j].now == t;
          assert cs[j].fired && cs[j].now == t;
        } else {
          assert cs[|cs| - 1].fired && cs[|cs| - 1].now == t;
        }
      }
    }
  }

  lemma {:induction false} LawfulAt(cfg: AutohealConfig, cs: seq<Commit>, k: nat)
    requires Lawful(cfg, cs) && k < |cs|
    ensures Lawful(cfg, cs[..k]) && (cs[k].fired <==> FireDue(cfg, cs[..k], cs[k]))
  {
    if k == |cs| - 1 {
      assert cs[..k] == Front(cs);
    } else {
      LawfulAt(cfg, Front(cs), k);
      assert Front(cs)[..k] == cs[..k];
    }
  }

  /** Every earlier fire is at least a cooldown back exactly if the last one is. */
  lemma CooledDownIff(cfg: AutohealConfig, cs: seq<Commit>, now: Time)
    requires Lawful(cfg, cs) && cfg.cooldown >= 1
    ensures (FireTimes(cs) == [] || now >= Last(FireTimes(cs)) + cfg.cooldown) <==>
              forall j :: 0 <= j < |cs| && cs[j].fired ==> now >= cs[j].now + cfg.cooldown
  {
    var ts := FireTimes(cs);
    FireTimesOf(cs);
    FiresAreSpaced(cfg, cs);
    if ts != [] {
      forall t | t in ts ensures t <= Last(ts) {
        var i :| 0 <= i < |ts| && ts[i] == t;
        SpacedIsSorted(ts, cfg.cooldown, i, |ts| - 1);
      }
      assert ts[|ts| - 1] in ts;
    }
  }

  /** The streak has reached `n` exactly if each of the last `n` commits was idle and down and did not fire. */
  lemma {:induction false} StreakReachesIff(cs: seq<Commit>, n: nat)
    ensures Streak(cs) >= n <==>
              n <= |cs| && forall i :: |cs| - n <= i < |cs| ==> DownAndIdle(cs[i]) && !cs[i].fired
  {
    if cs != [] && n > 0 {
      StreakReachesIff(Front(cs), n - 1);
      assert forall i :: 0 <= i < |cs| - 1 ==> Front(cs)[i] == cs[i];
      assert Last(cs) == cs[|cs| - 1];
    }
  }

  /** `cs[k]` completes a row of `n` idle down commits without a fire. */
  predicate CompletesRow(cs: seq<Commit>, k: nat, n: int)
    requires k < |cs|
  {
    && k + 1 >= n && !cs[k].sample.alive && cs[k].action == ""
    && forall i :: k + 1 - n <= i < k ==> !cs[i].sample.alive && cs[i].action == "" && !cs[i].fired
  }

  /** Autoheal, commit by commit over the whole life of a Manager: it fires exactly when it is switched on, the
      gateway is down, nobody is acting on it or wants it stopped, there is a CLI to call, this commit completes a
      row of `threshold` idle down ones without a fire, and every earlier fire is at least a cooldown back. */
  lemma FiresExactlyWhenDue(m: Manager, k: nat)
    requires m.Valid() && k < |m.commits|
    ensures var cs, c, cfg := m.commits, m.commits[k], m.autoheal;
            c.fired <==>
              && cfg.enabled && c.intent != IntentStopped && !c.cliMissing && CompletesRow(cs, k, cfg.threshold)
              && forall j :: 0 <= j < k && cs[j].fired ==> c.now >= cs[j].now + cfg.cooldown
  {
    FireIsDueIff(m.autoheal, m.commits, k);
  }

  lemma FireIsDueIff(cfg: AutohealConfig, cs: seq<Commit>, k: nat)
    requires Lawful(cfg, cs) && k < |cs| && (cfg.enabled ==> cfg.threshold >= 1 && cfg.cooldown >= 1)
    ensures cs[k].fired <==>
              && cfg.enabled && cs[k].intent != IntentStopped && !cs[k].cliMissing
              && CompletesRow(cs, k, cfg.threshold)
              && forall j :: 0 <= j < k && cs[j].fired ==> cs[k].now >= cs[j].now + cfg.cooldown
  {
    LawfulAt(cfg, cs, k);
    hide Lawful, Streak, FireTimes;
    if cfg.enabled {
      var before := cs[..k];
      StreakReachesIff(before, cfg.threshold - 1);
      CooledDownIff(cfg, before, cs[k].now);
      assert forall i :: 0 <= i < k ==> before[i] == cs[i];
    }
  }

  predicate Spaced(ts: seq<Time>, gap: Duration) {
    forall i :: 0 <= i < |ts| - 1 ==> ts[i] + gap <= ts[i + 1]
  }

  /** Successive fires are at least a cooldown apart by their own stamps, in whatever order the overlapping
      commits read the clock. */
  lemma {:induction false} FiresAreSpaced(cfg: AutohealConfig, cs: seq<Commit>)
    requires Lawful(cfg, cs)
    ensures Spaced(FireTimes(cs), cfg.cooldown) && |FireTimes(cs)| == Fires(cs)
  {
    if cs != [] {
      FiresAreSpaced(cfg, Front(cs));
    }
  }

  function CountWithin(ts: seq<Time>, lo: Time, hi: Time): nat {
    if ts == [] then 0 else CountWithin(Front(ts), lo, hi) + if lo <= Last(ts) <= hi then 1 else 0
  }

  lemma {:induction false} EarlierOnly(ts: seq<Time>, lo: Time, hi: Time, cap: Time)
    requires cap <= hi && forall i :: 0 <= i < |ts| ==> ts[i] <= cap
    ensures CountWithin(ts, lo, hi) == CountWithin(ts, lo, cap)
  {
    if ts != [] {
      assert Last(ts) == ts[|ts| - 1] <= cap;
      EarlierOnly(Front(ts), lo, hi, cap);
    }
  }

  lemma {:induction false} SpacedIsSorted(ts: seq<Time>, gap: Duration, i: nat, j: nat)
    requires gap >= 0 && Spaced(ts, gap) && i <= j < |ts|
    ensures ts[i] <= ts[j]
    decreases j
  {
    if i < j {
      SpacedIsSorted(ts, gap, i, j - 1);
    }
  }

  /** n spaced instants need a span of at least (n - 1) gaps. */
  lemma {:induction false} SpacedCount(ts: seq<Time>, gap: Duration, lo: Time, hi: Time)
    requires gap >= 1 && Spaced(ts, gap)
    ensures var n := CountWithin(ts, lo, hi);
            n >= 1 ==> lo <= hi && (n - 1) * gap <= hi - lo
  {
    if ts != [] {
      var front, t := Front(ts), Last(ts);
      assert Spaced(front, gap);
      if lo <= t <= hi {
        forall i | 0 <= i < |front| ensures front[i] <= t - gap {
          SpacedIsSorted(ts, gap, i, |ts| - 2);
        }
        EarlierOnly(front, lo, hi, t - gap);
        SpacedCount(front, gap, lo, t - gap);
        OneMoreGap(CountWithin(front, lo, t - gap), gap);
      } else {
        SpacedCount(front, gap, lo, hi);
      }
    }
  }

  lemma OneMoreGap(n: nat, gap: int)
    ensures n * gap == (n - 1) * gap + gap
  {
  }

  lemma QuotientBound(n: int, gap: int, span: int)
    requires gap >= 1 && n * gap <= span
    ensures n <= span / gap
  {
    var q := span / gap;
    if n > q {
      Backoff.MulMono(q + 1, n, gap);
      assert false;
    }
  }

  /** In any span of length T at most 1 + T / cooldown fires are stamped. */
  lemma FiresPerSpan(cfg: AutohealConfig, cs: seq<Commit>, lo: Time, span: nat)
    requires Lawful(cfg, cs) && cfg.cooldown >= 1
    ensures CountWithin(FireTimes(cs), lo, lo + span) <= 1 + span / cfg.cooldown
  {
    FiresAreSpaced(cfg, cs);
    SpacedCount(FireTimes(cs), cfg.cooldown, lo, lo + span);
    var n := CountWithin(FireTimes(cs), lo, lo + span);
    if n >= 1 {
      QuotientBound(n - 1, cfg.cooldown, span);
    }
  }

  // -------------------------------------------------------------------- Uptime and phase

  /** An observation keeps the uptime stamp exactly when the previous one saw the same PID. */
  lemma UptimeKeptIff(cs: seq<Commit>, c: Commit)
    requires cs != []
    ensures RunStart(cs + [c]) == RunStart(cs) <==> c.pid == Last(cs).pid
  {
    RunStartSnoc(cs, c);
  }

  /** So PID p, then 0 for any number of ticks, then p again restarts the uptime. */
  lemma ZeroPidRestartsUptime(cs: seq<Commit>, gap: seq<Commit>, c: Commit)
    requires cs != [] && gap != [] && Last(cs).pid == c.pid != 0
    requires forall i :: 0 <= i < |gap| ==> gap[i].pid == 0
    ensures RunStart(cs + gap + [c]) == |cs| + |gap|
  {
    assert Last(cs + gap) == Last(gap) == gap[|gap| - 1];
    RunStartSnoc(cs + gap, c);
  }

  /** The start of the run is a commit of the same PID, every commit since has it, and the one before,
      if any, does not. */
  lemma {:induction false} RunStartMeaning(cs: seq<Commit>)
    requires cs != []
    ensures var i := RunStart(cs);
            && (forall k :: i <= k < |cs| ==> cs[k].pid == Last(cs).pid)
            && (i > 0 ==> cs[i - 1].pid != Last(cs).pid)
  {
    if |cs| > 1 && Last(Front(cs)).pid == Last(cs).pid {
      RunStartMeaning(Front(cs));
    }
  }

  /** The phase of every commit of a history is the one its findings call for. */
  lemma {:induction false} PhaseInHistory(cfg: AutohealConfig, h: seq<Event>, k: nat)
    requires Lawful(cfg, CommitsIn(h)) && k < |h| && h[k].Committed?
    ensures h[k].commit.phase == PhaseOf(h[k].commit)
  {
    var before := CommitsIn(Front(h));
    if Last(h).Committed? {
      assert CommitsIn(h) == before + [Last(h).commit] && Front(CommitsIn(h)) == before;
    } else {
      assert CommitsIn(h) == before;
    }
    if k < |h| - 1 {
      PhaseInHistory(cfg, Front(h), k);
    }
  }

  /** The badge, phase by phase, over the whole life of a Manager: a missing CLI comes first, then a deliberate
      stop, then a start, restart or fix in flight; only then does it matter whether the gateway answers, and one
      that does not is starting for 15 seconds after a start stamp and in error from then on. */
  lemma PhaseMeaning(m: Manager, k: nat)
    requires m.Valid() && k < |m.history| && m.history[k].Committed?
    ensures var c := m.history[k].commit;
            var bringsUp := c.action in {"start", "restart", "fix"};
            var inGrace := c.stamp != ZERO_TIME && c.now - c.stamp < 15_000_000_000;
            && c.phase != PhaseUnknown
            && (c.phase == PhaseMissing <==> c.cliMissing)
            && (c.phase == PhaseStopped <==> !c.cliMissing && c.intent == IntentStopped)
            && (c.phase == PhaseStarting <==>
                  !c.cliMissing && c.intent != IntentStopped && (bringsUp || (!c.sample.alive && inGrace)))
            && (c.phase == PhaseRunning <==>
                  !c.cliMissing && c.intent != IntentStopped && !bringsUp && c.sample.alive)
            && (c.phase == PhaseError <==>
                  !c.cliMissing && c.intent != IntentStopped && !bringsUp && !c.sample.alive && !inGrace)
  {
    PhaseInHistory(m.autoheal, m.history, k);
  }

  predicate NoStampWithin(h: seq<Event>, lo: nat, hi: nat)
    requires hi <= |h|
  {
    forall i :: lo <= i < hi ==> !h[i].Stamped?
  }

  predicate NoStartWithin(h: seq<Event>, lo: nat, hi: nat)
    requires hi <= |h|
  {
    forall i :: lo <= i < hi ==> !(h[i].Acted? && IsStarting(h[i].name))
  }

  lemma {:induction false} StampStays(h: seq<Event>, lo: nat, hi: nat)
    requires lo <= hi <= |h| && NoStampWithin(h, lo, hi)
    ensures StampIn(h[..hi]) == StampIn(h[..lo])
    decreases hi
  {
    if lo < hi {
      assert Front(h[..hi]) == h[..hi - 1];
      StampStays(h, lo, hi - 1);
    }
  }

  lemma {:induction false} NoStartStays(h: seq<Event>, lo: nat, hi: nat)
    requires lo <= hi <= |h| && NoStartWithin(h, lo, hi) && !IsStarting(ActionIn(h[..lo]))
    ensures !IsStarting(ActionIn(h[..hi]))
    decreases hi
  {
    if lo < hi {
      assert Front(h[..hi]) == h[..hi - 1];
      NoStartStays(h, lo, hi - 1);
    }
  }

  /** Over the whole life of a Manager: once a start stamp t is set, and until a newer one is, no commit that
      reads it with a clock reading before t + 15 s reports an error. */
  lemma NoErrorInGrace(m: Manager, s: nat, k: nat)
    requires m.Valid() && s < k < |m.history|
    requires m.history[s].Stamped? && m.history[s].at != ZERO_TIME && m.history[k].Committed?
    requires var c := m.history[k].commit;
             && s < c.stampAt && (c.stampAt <= |m.history| ==> NoStampWithin(m.history, s + 1, c.stampAt))
             && c.now < m.history[s].at + WARMUP_GRACE
    ensures m.history[k].commit.phase != PhaseError
  {
    var h, c := m.history, m.history[k].commit;
    PhaseInHistory(m.autoheal, h, k);
    assert Saw(h, k);
    StampStays(h, s + 1, c.stampAt);
    assert Last(h[..s + 1]) == h[s];
  }

  /** Over the whole life of a Manager the badge does not flap: after a commit that reported an error, no later
      one (by its place and its clock reading) reports starting, unless a start stamp was set or a start,
      restart or fix began between the reads of the two. */
  lemma ErrorDoesNotFlap(m: Manager, i: nat, j: nat)
    requires m.Valid() && i < j < |m.history| && m.history[i].Committed? && m.history[j].Committed?
    requires m.history[i].commit.phase == PhaseError && m.history[i].commit.now <= m.history[j].commit.now
    requires var c, d := m.history[i].commit, m.history[j].commit;
             && (d.stampAt <= |m.history| ==> NoStampWithin(m.history, c.stampAt, d.stampAt))
             && (d.actionAt <= |m.history| ==> NoStartWithin(m.history, c.actionAt, d.actionAt))
    ensures m.history[j].commit.phase != PhaseStarting
  {
    var h := m.history;
    var c, d := h[i].commit, h[j].commit;
    PhaseInHistory(m.autoheal, h, i);
    PhaseInHistory(m.autoheal, h, j);
    assert Saw(h, i) && Saw(h, j);
    assert d.actionAt > i;
    StampStays(h, c.stampAt, d.stampAt);
    NoStartStays(h, c.actionAt, d.actionAt);
  }

  /** Every commit of a Manager's life carries the intent that was set last, and the action and start stamp that
      were the latest when it read them. */
  lemma CommitsSawTheAtomics(m: Manager, k: nat)
    requires m.Valid() && k < |m.history| && m.history[k].Committed?
    ensures var h, c := m.history, m.history[k].commit;
            && c.actionAt <= c.stampAt <= k && c.intent == IntentIn(h[..k])
            && c.action == ActionIn(h[..c.actionAt]) && c.stamp == StampIn(h[..c.stampAt])
  {
    assert Saw(m.history, k);
  }
}
