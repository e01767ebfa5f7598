/** The sliding crash window behind the rollback decision (internal/supervisor/backoff.go). */
module CrashTracker {
  import opened Common
  import opened Backoff

  datatype TrackerState = TrackerState(running: Time, crashes: seq<Time>)

  const FRESH := TrackerState(ZERO_TIME, [])

  /** The instants of `s`, in order, that are not before `cutoff`. */
  function Since(s: seq<Time>, cutoff: Time): (r: seq<Time>)
    ensures |r| <= |s|
  {
    if s == [] then []
    else if Last(s) >= cutoff then Since(Front(s), cutoff) + [Last(s)]
    else Since(Front(s), cutoff)
  }

  lemma SinceStep(s: seq<Time>, i: nat, cutoff: Time)
    requires i < |s|
    ensures Since(s[..i + 1], cutoff) == Since(s[..i], cutoff) + if s[i] >= cutoff then [s[i]] else []
  {
    assert Front(s[..i + 1]) == s[..i];
  }

  predicate SteadyExpired(p: Policy, running: Time, now: Time) {
    running != ZERO_TIME && now - running >= p.steadyReset
  }

  function Recorded(p: Policy, t: TrackerState, now: Time): TrackerState {
    var kept := if SteadyExpired(p, t.running, now) then [] else t.crashes;
    TrackerState(ZERO_TIME, Since(kept + [now], now - p.crashWindow))
  }

  predicate CapReached(p: Policy, t: TrackerState) {
    |t.crashes| >= p.crashCap
  }

  /** The tracker as the source keeps it: `buf[..n]` is the slice, `buf` its backing array. */
  class Tracker {
    const policy: Policy
    var running: Time
    var buf: array<Time>
    var n: nat

    ghost predicate Valid()
      reads this
    {
      n <= buf.Length
    }

    ghost function State(): TrackerState
      reads this, buf
      requires Valid()
    {
      TrackerState(running, buf[..n])
    }

    constructor (p: Policy)
      ensures Valid() && fresh(buf) && policy == p && State() == FRESH
    {
      policy := p;
      running := ZERO_TIME;
      buf := new Time[0];
      n := 0;
    }

    method MarkRunning(now: Time)
      requires Valid()
      modifies this`running
      ensures Valid() && State() == old(State()).(running := now)
    {
      running := now;
    }

    /** Appends `x`, moving to a larger array only when the backing array is full. */
    method Append(x: Time)
      requires Valid()
      modifies this`buf, this`n, buf
      ensures Valid() && (buf == old(buf) || fresh(buf))
      ensures State() == old(State()).(crashes := old(State()).crashes + [x])
    {
      if n == buf.Length {
        var bigger := new Time[2 * n + 1];
        forall i | 0 <= i < n {
          bigger[i] := buf[i];
        }
        buf := bigger;
      }
      buf[n] := x;
      n := n + 1;
    }

    /** Compacts the slice within its own backing array. */
    method DropBefore(cutoff: Time)
      requires Valid()
      modifies this`n, buf
      ensures Valid() && State() == old(State()).(crashes := Since(old(State()).crashes, cutoff))
    {
      ghost var was := buf[..n];
      var keep, i := 0, 0;
      assert Since(was[..0], cutoff) == [];
      hide Since;
      while i < n
        invariant 0 <= keep <= i <= n == old(n) && buf == old(buf)
        invariant buf[..keep] == Since(was[..i], cutoff)
        invariant forall k :: i <= k < n ==> buf[k] == was[k]
      {
        SinceStep(was, i, cutoff);
        if !(buf[i] < cutoff) {
          ghost var kept := buf[..keep];
          buf[keep] := buf[i];
          keep := keep + 1;
          assert buf[..keep] == kept + [was[i]];
        }
        i := i + 1;
      }
      assert was[..n] == was;
      n := keep;
    }

    method RecordCrash(now: Time)
      requires Valid()
      modifies this, buf
      ensures Valid() && (buf == old(buf) || fresh(buf))
      ensures State() == Recorded(policy, old(State()), now)
    {
      hide Since;
      if running != ZERO_TIME && now - running >= policy.steadyReset {
        n := 0;
      }
      running := ZERO_TIME;
      Append(now);
      DropBefore(now - policy.crashWindow);
    }

    function Consecutive(): nat
      reads this
    {
      n
    }

    predicate ShouldRollback()
      reads this
    {
      n >= policy.crashCap
    }

    method Reset()
      requires Valid()
      modifies this`running, this`n
      ensures Valid() && State() == FRESH
    {
      n := 0;
      running := ZERO_TIME;
    }
  }

  // ------------------------------------------------------- Runs of the tracker

  datatype Op = Mark(at: Time) | Crash(at: Time) | Clear

  function Apply(p: Policy, t: TrackerState, op: Op): TrackerState {
    match op
    case Mark(at) => t.(running := at)
    case Crash(at) => Recorded(p, t, at)
    case Clear => FRESH
  }

  function Replay(p: Policy, ops: seq<Op>): TrackerState {
    if ops == [] then FRESH else Apply(p, Replay(p, Front(ops)), Last(ops))
  }

  /** The latest instant an operation of the run was given. */
  function Clock(ops: seq<Op>): Time {
    if ops == [] then ZERO_TIME
    else if Last(ops).Clear? then Clock(Front(ops))
    else Last(ops).at
  }

  /** The instants handed to the tracker never go back. */
  predicate Monotone(ops: seq<Op>) {
    ops == [] || (Monotone(Front(ops)) && (Last(ops).Clear? || Clock(Front(ops)) <= Last(ops).at))
  }

  /** Every crash since the last reset, where a steady period of running also counts as a reset. */
  function CrashLog(p: Policy, ops: seq<Op>): seq<Time> {
    if ops == [] then []
    else match Last(ops)
      case Clear => []
      case Mark(_) => CrashLog(p, Front(ops))
      case Crash(at) => (if SteadyExpired(p, RunningSince(Front(ops)), at) then [] else CrashLog(p, Front(ops))) + [at]
  }

  /** Every crash since the last explicit reset. */
  function FullCrashLog(ops: seq<Op>): seq<Time> {
    if ops == [] then []
    else match Last(ops)
      case Clear => []
      case Mark(_) => FullCrashLog(Front(ops))
      case Crash(at) => FullCrashLog(Front(ops)) + [at]
  }

  /** When the worker last entered Running, if no crash or reset followed. */
  function RunningSince(ops: seq<Op>): Time {
    if ops != [] && Last(ops).Mark? then Last(ops).at else ZERO_TIME
  }

  /** The part of a crash log inside the window that ends at its last crash. */
  function InWindow(log: seq<Time>, window: Duration): seq<Time> {
    if log == [] then [] else Since(log, Last(log) - window)
  }

  predicate AllAtMost(s: seq<Time>, t: Time) {
    forall i :: 0 <= i < |s| ==> s[i] <= t
  }

  lemma {:induction false} SinceIsStable(s: seq<Time>, c1: Time, c2: Time, x: Time)
    requires c1 <= c2
    ensures Since(Since(s, c1) + [x], c2) == Since(s + [x], c2)
  {
    SinceTwice(s, c1, c2);
    assert Front(s + [x]) == s && Front(Since(s, c1) + [x]) == Since(s, c1);
  }

  lemma {:induction false} SinceTwice(s: seq<Time>, c1: Time, c2: Time)
    requires c1 <= c2
    ensures Since(Since(s, c1), c2) == Since(s, c2)
  {
    if s != [] {
      SinceTwice(Front(s), c1, c2);
      if Last(s) >= c1 {
        assert Front(Since(s, c1)) == Since(Front(s), c1);
      }
    }
  }

  lemma {:induction false} SinceEmpties(s: seq<Time>, t: Time, cutoff: Time)
    requires AllAtMost(s, t) && t < cutoff
    ensures Since(s, cutoff) == []
  {
    if s != [] {
      SinceEmpties(Front(s), t, cutoff);
    }
  }

  lemma {:induction false} LogsAreOld(p: Policy, ops: seq<Op>)
    requires Monotone(ops)
    ensures AllAtMost(CrashLog(p, ops), Clock(ops)) && AllAtMost(FullCrashLog(ops), Clock(ops))
  {
    if ops != [] {
      LogsAreOld(p, Front(ops));
    }
  }

  lemma {:induction false} RunningIsRunningSince(p: Policy, ops: seq<Op>)
    ensures Replay(p, ops).running == RunningSince(ops)
  {
    if ops != [] {
      RunningIsRunningSince(p, Front(ops));
    }
  }

  /** Adding one crash to a window that is already trimmed. */
  lemma WindowExtends(log: seq<Time>, window: Duration, at: Time)
    requires AllAtMost(log, at)
    ensures Since(InWindow(log, window) + [at], at - window) == InWindow(log + [at], window)
  {
    hide Since;
    assert Last(log + [at]) == at;
    if log == [] {
      assert InWindow(log, window) + [at] == log + [at];
    } else {
      assert Last(log) == log[|log| - 1] <= at;
      SinceIsStable(log, Last(log) - window, at - window, at);
    }
  }

  /** The compacted slice is always the crash log cut to the window, in order. */
  lemma {:induction false} TrackerIsWindow(p: Policy, ops: seq<Op>)
    requires Monotone(ops)
    ensures Replay(p, ops).crashes == InWindow(CrashLog(p, ops), p.crashWindow)
  {
    if ops != [] {
      hide Since;
      var before := Front(ops);
      TrackerIsWindow(p, before);
      if Last(ops).Crash? {
        var at := Last(ops).at;
        RunningIsRunningSince(p, before);
        LogsAreOld(p, before);
        if SteadyExpired(p, RunningSince(before), at) {
          WindowExtends([], p.crashWindow, at);
        } else {
          WindowExtends(CrashLog(p, before), p.crashWindow, at);
        }
      }
    }
  }

  predicate Sorted(s: seq<Time>) {
    forall i, j :: 0 <= i < j < |s| ==> s[i] <= s[j]
  }

  lemma {:induction false} LogIsSorted(p: Policy, ops: seq<Op>)
    requires Monotone(ops)
    ensures Sorted(CrashLog(p, ops))
  {
    if ops != [] {
      LogIsSorted(p, Front(ops));
      LogsAreOld(p, Front(ops));
    }
  }

  /** Of an ordered sequence `Since` keeps the tail from the first instant that is not before the cut-off. */
  lemma {:induction false} SinceIsTail(s: seq<Time>, cutoff: Time) returns (k: nat)
    requires Sorted(s)
    ensures k <= |s| && Since(s, cutoff) == s[k..]
    ensures forall i :: 0 <= i < |s| ==> (i < k <==> s[i] < cutoff)
  {
    k := 0;
    if s != [] {
      var front := Front(s);
      k := SinceIsTail(front, cutoff);
      if Last(s) < cutoff {
        k := |s|;
        SinceEmpties(front, Last(s), cutoff);
      } else {
        assert s[k..] == front[k..] + [Last(s)];
      }
      assert forall i :: 0 <= i < |front| ==> front[i] == s[i];
    }
  }

  /** In instants: the slice is the tail of the crash log that begins with the first crash no more than the window
      before the last one. */
  lemma WindowIsTail(p: Policy, ops: seq<Op>) returns (k: nat)
    requires Monotone(ops)
    ensures var log := CrashLog(p, ops);
            && k <= |log| && Replay(p, ops).crashes == log[k..]
            && forall i :: 0 <= i < |log| ==> (i < k <==> Last(log) - log[i] > p.crashWindow)
  {
    var log := CrashLog(p, ops);
    TrackerIsWindow(p, ops);
    LogIsSorted(p, ops);
    k := 0;
    if log != [] {
      k := SinceIsTail(log, Last(log) - p.crashWindow);
    }
  }

  /** A rollback is due exactly when `crashCap` crashes of the log lie in the window. */
  lemma RollbackIffCapInWindow(p: Policy, ops: seq<Op>)
    requires Monotone(ops)
    ensures CapReached(p, Replay(p, ops)) <==> |InWindow(CrashLog(p, ops), p.crashWindow)| >= p.crashCap
  {
    TrackerIsWindow(p, ops);
  }

  // --------------------------------------------------- The steady-reset rule

  /** The run with the steady-reset rule taken out. */
  function ReplayPlain(p: Policy, ops: seq<Op>): seq<Time> {
    if ops == [] then []
    else match Last(ops)
      case Clear => []
      case Mark(_) => ReplayPlain(p, Front(ops))
      case Crash(at) => Since(ReplayPlain(p, Front(ops)) + [at], at - p.crashWindow)
  }

  ghost predicate SteadyRuleIsIdle(p: Policy) {
    forall ops :: Monotone(ops) ==> Replay(p, ops).crashes == ReplayPlain(p, ops)
  }

  lemma {:induction false} PlainIsOld(p: Policy, ops: seq<Op>)
    requires Monotone(ops)
    ensures AllAtMost(ReplayPlain(p, ops), Clock(ops))
  {
    if ops != [] {
      PlainIsOld(p, Front(ops));
      if Last(ops).Crash? {
        SinceSubset(ReplayPlain(p, Front(ops)) + [Last(ops).at], Last(ops).at - p.crashWindow, Last(ops).at);
      }
    }
  }

  lemma {:induction false} SinceSubset(s: seq<Time>, cutoff: Time, t: Time)
    requires AllAtMost(s, t)
    ensures AllAtMost(Since(s, cutoff), t)
  {
    if s != [] {
      SinceSubset(Front(s), cutoff, t);
    }
  }

  lemma ReplaySnoc(p: Policy, ops: seq<Op>, op: Op)
    ensures Replay(p, ops + [op]) == Apply(p, Replay(p, ops), op)
    ensures op.Clear? ==> ReplayPlain(p, ops + [op]) == []
    ensures op.Mark? ==> ReplayPlain(p, ops + [op]) == ReplayPlain(p, ops)
    ensures op.Crash? ==> ReplayPlain(p, ops + [op]) == Since(ReplayPlain(p, ops) + [op.at], op.at - p.crashWindow)
  {
    hide Since, Recorded;
    assert Front(ops + [op]) == ops && Last(ops + [op]) == op;
  }

  lemma LoneCrashFallsOut(at: Time, cutoff: Time)
    requires at < cutoff
    ensures Since([] + [at], cutoff) == []
  {
    SinceEmpties([] + [at], at, cutoff);
  }

  lemma {:induction false} NegativeWindowKeepsNothing(p: Policy, ops: seq<Op>)
    requires Monotone(ops) && p.crashWindow < 0
    ensures Replay(p, ops).crashes == [] && ReplayPlain(p, ops) == []
  {
    if ops != [] {
      var before, op := Front(ops), Last(ops);
      NegativeWindowKeepsNothing(p, before);
      hide Replay, ReplayPlain, Monotone, Since;
      assert before + [op] == ops;
      ReplaySnoc(p, before, op);
      if op.Crash? {
        LoneCrashFallsOut(op.at, op.at - p.crashWindow);
      }
    }
  }

  lemma OldCrashesFallOut(s: seq<Time>, t: Time, at: Time, cutoff: Time)
    requires AllAtMost(s, t) && t < cutoff
    ensures Since(s + [at], cutoff) == Since([] + [at], cutoff)
  {
    SinceEmpties(s, t, cutoff);
    assert Front(s + [at]) == s && Front([] + [at]) == [];
  }

  lemma {:induction false} LongSteadyIsIdle(p: Policy, ops: seq<Op>)
    requires Monotone(ops) && p.steadyReset > p.crashWindow
    ensures Replay(p, ops).crashes == ReplayPlain(p, ops)
  {
    if ops != [] {
      hide Since;
      var before := Front(ops);
      LongSteadyIsIdle(p, before);
      if Last(ops).Crash? {
        var at := Last(ops).at;
        RunningIsRunningSince(p, before);
        PlainIsOld(p, before);
        if SteadyExpired(p, RunningSince(before), at) {
          OldCrashesFallOut(ReplayPlain(p, before), Clock(before), at, at - p.crashWindow);
        }
      }
    }
  }

  /** The steady-reset rule changes no tracker in any run exactly when it asks for longer than the crash
      window (or the window keeps nothing at all). The default, five minutes against one, is such a policy. */
  lemma SteadyRuleIdleIff(p: Policy)
    ensures SteadyRuleIsIdle(p) <==> p.steadyReset > p.crashWindow || p.crashWindow < 0
  {
    if p.crashWindow < 0 {
      forall ops | Monotone(ops) ensures Replay(p, ops).crashes == ReplayPlain(p, ops) {
        NegativeWindowKeepsNothing(p, ops);
      }
    } else if p.steadyReset > p.crashWindow {
      forall ops | Monotone(ops) ensures Replay(p, ops).crashes == ReplayPlain(p, ops) {
        LongSteadyIsIdle(p, ops);
      }
    } else {
      SteadyRuleBites(p);
    }
  }

  lemma {:induction false} PlainIsFullWindow(p: Policy, ops: seq<Op>)
    requires Monotone(ops)
    ensures ReplayPlain(p, ops) == InWindow(FullCrashLog(ops), p.crashWindow)
  {
    if ops != [] {
      PlainIsFullWindow(p, Front(ops));
      if Last(ops).Crash? {
        LogsAreOld(p, Front(ops));
        WindowExtends(FullCrashLog(Front(ops)), p.crashWindow, Last(ops).at);
      }
    }
  }

  /** With such a policy the slice is the window of the full log: only explicit resets ever forget. */
  lemma TrackerIsFullWindow(p: Policy, ops: seq<Op>)
    requires Monotone(ops) && p.steadyReset > p.crashWindow
    ensures Replay(p, ops).crashes == InWindow(FullCrashLog(ops), p.crashWindow)
    ensures CapReached(p, Replay(p, ops)) <==> |InWindow(FullCrashLog(ops), p.crashWindow)| >= p.crashCap
  {
    LongSteadyIsIdle(p, ops);
    PlainIsFullWindow(p, ops);
  }

  /** With the defaults a rollback is due exactly when three crashes since the last reset lie within a minute. */
  lemma DefaultRollback(ops: seq<Op>)
    requires Monotone(ops)
    ensures CapReached(DEFAULT_POLICY, Replay(DEFAULT_POLICY, ops)) <==> |InWindow(FullCrashLog(ops), 60 * SECOND)| >= 3
  {
    TrackerIsFullWindow(DEFAULT_POLICY, ops);
  }

  lemma SinceOfOne(x: Time, cutoff: Time)
    requires cutoff <= x
    ensures Since([x], cutoff) == [x]
  {
    assert Front([x]) == [];
  }

  lemma ClockSnoc(ops: seq<Op>, op: Op)
    requires !op.Clear?
    ensures Monotone(ops + [op]) <==> Monotone(ops) && Clock(ops) <= op.at
    ensures Clock(ops + [op]) == op.at
  {
    assert Front(ops + [op]) == ops && Last(ops + [op]) == op;
  }

  const STEADY_CRASH := [] + [Crash(1)]
  const STEADY_RUN := STEADY_CRASH + [Mark(1)]

  lemma SteadyRunReplays(p: Policy, t: Time)
    requires 0 <= p.crashWindow && SteadyExpired(p, 1, t)
    ensures |Replay(p, STEADY_RUN + [Crash(t)]).crashes| <= 1
  {
    hide Since, Replay;
    ReplaySnoc(p, STEADY_CRASH, Mark(1));
    ReplaySnoc(p, STEADY_RUN, Crash(t));
  }

  lemma SteadyRunPlain(p: Policy, t: Time)
    requires 0 <= p.crashWindow && 1 <= t <= 1 + p.crashWindow
    ensures ReplayPlain(p, STEADY_RUN + [Crash(t)]) == [1] + [t]
  {
    assert ReplayPlain(p, []) == [] && [] + [1] == [1];
    hide Since, ReplayPlain;
    ReplaySnoc(p, [], Crash(1));
    ReplaySnoc(p, STEADY_CRASH, Mark(1));
    ReplaySnoc(p, STEADY_RUN, Crash(t));
    SinceOfOne(1, 1 - p.crashWindow);
    PairIsKept(1, t, t - p.crashWindow);
  }

  /** A crash, a worker that then runs for exactly the steady period, and a second crash. */
  lemma SteadyRuleBites(p: Policy)
    requires 0 <= p.crashWindow && p.steadyReset <= p.crashWindow
    ensures !SteadyRuleIsIdle(p)
  {
    var t := 1 + Max(p.steadyReset, 0);
    SteadyRunReplays(p, t);
    SteadyRunPlain(p, t);
    assert Monotone([]) && Clock([]) == 0;
    hide Replay, ReplayPlain, Monotone, Clock;
    ClockSnoc([], Crash(1));
    ClockSnoc(STEADY_CRASH, Mark(1));
    ClockSnoc(STEADY_RUN, Crash(t));
    assert Replay(p, STEADY_RUN + [Crash(t)]).crashes != ReplayPlain(p, STEADY_RUN + [Crash(t)]);
  }

  lemma PairIsKept(x: Time, y: Time, cutoff: Time)
    requires cutoff <= x && cutoff <= y
    ensures Since([x] + [y], cutoff) == [x] + [y]
  {
    assert Front([x] + [y]) == [x];
    SinceOfOne(x, cutoff);
  }
}
