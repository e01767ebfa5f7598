/** The observation window of a fresh install (internal/supervisor/healthgate.go). */
module Gate {
  import opened Common

  datatype Status = Inactive | Armed | Stabilizing | Passed | Failed

  datatype Outcome = Pending | Pass | Crashed | TimedOut

  datatype FailReason = NoReason | HealthCrash | HealthTimeout | HealthSpawnFailed

  datatype GateState = GateState(window: Duration, stableFor: Duration, status: Status, version: Version,
                                 deadline: Time, readyAt: Time, failReason: FailReason)
  {
    predicate Active() {
      status == Armed || status == Stabilizing
    }

    /** The instant from which a tick must decide. */
    function DecisionPoint(): Time {
      if status == Stabilizing then Min(readyAt + stableFor, deadline) else deadline
    }

    function Arm(v: Version, installedAt: Time, now: Time): GateState {
      if now >= installedAt + window then this.(status := Inactive)
      else this.(status := Armed, version := v, deadline := installedAt + window,
                 readyAt := ZERO_TIME, failReason := NoReason)
    }

    function OnReady(now: Time): GateState {
      if status == Armed then this.(status := Stabilizing, readyAt := now) else this
    }

    function OnCrash(): (GateState, Outcome) {
      if Active() then (this.(status := Failed, failReason := HealthCrash), Crashed) else (this, Pending)
    }

    /** Stability is tested before the deadline, so a late tick may still pass. */
    function Tick(now: Time): (GateState, Outcome) {
      if status == Stabilizing && now - readyAt >= stableFor then (this.(status := Passed), Pass)
      else if Active() && now >= deadline then (this.(status := Failed, failReason := HealthTimeout), TimedOut)
      else (this, Pending)
    }

    function NextWake(now: Time): (d: Duration)
      ensures d >= 0
    {
      if Active() then Max(DecisionPoint() - now, 0) else 0
    }

    function Reset(): GateState {
      this.(status := Inactive)
    }
  }

  const DEFAULT_WINDOW: Duration := 90 * SECOND
  const DEFAULT_STABLE_FOR: Duration := 15 * SECOND

  function Fresh(window: Duration, stableFor: Duration): GateState {
    GateState(if window <= 0 then DEFAULT_WINDOW else window,
              if stableFor <= 0 then DEFAULT_STABLE_FOR else stableFor,
              Inactive, "", ZERO_TIME, ZERO_TIME, NoReason)
  }

  class HealthGate {
    const window: Duration
    const stableFor: Duration
    var status: Status
    var version: Version
    var deadline: Time
    var readyAt: Time
    var failReason: FailReason

    ghost function State(): GateState
      reads this
    {
      GateState(window, stableFor, status, version, deadline, readyAt, failReason)
    }

    constructor (w: Duration, s: Duration)
      ensures State() == Fresh(w, s)
      ensures window == (if w > 0 then w else 90 * SECOND) && stableFor == if s > 0 then s else 15 * SECOND
    {
      window := if w <= 0 then DEFAULT_WINDOW else w;
      stableFor := if s <= 0 then DEFAULT_STABLE_FOR else s;
      status, version, deadline, readyAt, failReason := Inactive, "", ZERO_TIME, ZERO_TIME, NoReason;
    }

    method Arm(v: Version, installedAt: Time, now: Time) returns (armed: bool)
      modifies this
      ensures State() == old(State()).Arm(v, installedAt, now)
      ensures armed <==> State().status == Armed
    {
      var limit := installedAt + window;
      if !(now < limit) {
        status := Inactive;
        return false;
      }
      status, version, deadline, readyAt, failReason := Armed, v, limit, ZERO_TIME, NoReason;
      return true;
    }

    method OnReady(now: Time)
      modifies this
      ensures State() == old(State()).OnReady(now)
    {
      if status != Armed {
        return;
      }
      status, readyAt := Stabilizing, now;
    }

    method OnCrash() returns (o: Outcome)
      modifies this
      ensures (State(), o) == old(State()).OnCrash()
    {
      if status != Armed && status != Stabilizing {
        return Pending;
      }
      status, failReason := Failed, HealthCrash;
      return Crashed;
    }

    method Tick(now: Time) returns (o: Outcome)
      modifies this
      ensures (State(), o) == old(State()).Tick(now)
    {
      match status {
        case Stabilizing =>
          if now - readyAt >= stableFor {
            status := Passed;
            return Pass;
          }
          if !(now < deadline) {
            status, failReason := Failed, HealthTimeout;
            return TimedOut;
          }
        case Armed =>
          if !(now < deadline) {
            status, failReason := Failed, HealthTimeout;
            return TimedOut;
          }
        case _ =>
      }
      return Pending;
    }

    function NextWake(now: Time): Duration
      reads this
      ensures NextWake(now) == State().NextWake(now)
    {
      match status
      case Armed => UntilNonNegative(deadline, now)
      case Stabilizing =>
        var stableBy := readyAt + stableFor;
        if stableBy < deadline then UntilNonNegative(stableBy, now) else UntilNonNegative(deadline, now)
      case _ => 0
    }

    predicate IsActive()
      reads this
      ensures IsActive() == State().Active()
    {
      status == Armed || status == Stabilizing
    }

    method Reset()
      modifies this
      ensures State() == old(State()).Reset()
    {
      status := Inactive;
    }
  }

  function UntilNonNegative(deadline: Time, now: Time): Duration {
    if deadline - now < 0 then 0 else deadline - now
  }

  // ------------------------------------------------ Any order and timing of calls

  datatype Call = DoArm(version: Version, installedAt: Time, now: Time) | DoReady(now: Time) | DoCrash
                | DoTick(now: Time) | DoReset

  function Do(g: GateState, c: Call): (GateState, Outcome) {
    match c
    case DoArm(v, at, now) => (g.Arm(v, at, now), Pending)
    case DoReady(now) => (g.OnReady(now), Pending)
    case DoCrash => g.OnCrash()
    case DoTick(now) => g.Tick(now)
    case DoReset => (g.Reset(), Pending)
  }

  function After(g: GateState, calls: seq<Call>): GateState {
    if calls == [] then g else Do(After(g, Front(calls)), Last(calls)).0
  }

  /** What call `i` of the history answered. */
  function Answer(g: GateState, calls: seq<Call>, i: nat): Outcome
    requires i < |calls|
  {
    Do(After(g, calls[..i]), calls[i]).1
  }

  /** Call `i` put the gate on watch. */
  predicate Arms(g: GateState, calls: seq<Call>, i: nat)
    requires i < |calls|
  {
    calls[i].DoArm? && calls[i].now < calls[i].installedAt + g.window
  }

  lemma AfterSnoc(g: GateState, calls: seq<Call>, i: nat)
    requires i < |calls|
    ensures After(g, calls[..i + 1]) == Do(After(g, calls[..i]), calls[i]).0
  {
    assert Front(calls[..i + 1]) == calls[..i];
  }

  lemma {:induction false} SettingsAreFixed(g: GateState, calls: seq<Call>)
    ensures After(g, calls).window == g.window && After(g, calls).stableFor == g.stableFor
  {
    if calls != [] {
      SettingsAreFixed(g, Front(calls));
    }
  }

  /** A gate that is off stays off until it is armed again. */
  lemma {:induction false} OffUntilArmed(g: GateState, calls: seq<Call>, lo: int, hi: int)
    requires 0 <= lo <= hi <= |calls|
    requires !After(g, calls[..lo]).Active()
    requires forall k :: lo <= k < hi ==> !Arms(g, calls, k)
    ensures !After(g, calls[..hi]).Active()
    decreases hi - lo
  {
    if lo < hi {
      SettingsAreFixed(g, calls[..lo]);
      assert !Arms(g, calls, lo);
      AfterSnoc(g, calls, lo);
      OffUntilArmed(g, calls, lo + 1, hi);
    }
  }

  /** Two decisions always have a fresh arming between them, and the first has one before it. */
  lemma OneDecisionPerArming(g: GateState, calls: seq<Call>, i: nat, j: nat)
    requires !g.Active()
    requires i < j < |calls|
    requires Answer(g, calls, i) != Pending && Answer(g, calls, j) != Pending
    ensures exists k :: i < k < j && Arms(g, calls, k)
    ensures exists k :: 0 <= k < i && Arms(g, calls, k)
  {
    AfterSnoc(g, calls, i);
    if forall k :: i + 1 <= k < j ==> !Arms(g, calls, k) {
      OffUntilArmed(g, calls, i + 1, j);
      assert false;
    }
    if forall k :: 0 <= k < i ==> !Arms(g, calls, k) {
      assert calls[..0] == [];
      OffUntilArmed(g, calls, 0, i);
      assert false;
    }
  }

  /** Between `a` and `i` the gate heard READY and clock ticks only. */
  predicate OnlyReadyAndTicks(calls: seq<Call>, a: int, i: int)
    requires 0 <= a && i <= |calls|
  {
    forall k :: a < k < i ==> calls[k].DoReady? || calls[k].DoTick?
  }

  predicate NoReadyBetween(calls: seq<Call>, a: int, i: int)
    requires 0 <= a && i <= |calls|
  {
    forall k :: a < k < i ==> !calls[k].DoReady?
  }

  /** Where an active gate comes from: the arming `a`, and the READY `r` if there was one. */
  ghost predicate Origin(g: GateState, calls: seq<Call>, i: nat, a: nat, r: nat)
    requires i <= |calls|
  {
    var s := After(g, calls[..i]);
    && a < i && Arms(g, calls, a) && OnlyReadyAndTicks(calls, a, i)
    && s.deadline == calls[a].installedAt + g.window && s.version == calls[a].version && s.failReason == NoReason
    && (s.status == Armed ==> NoReadyBetween(calls, a, i))
    && (s.status == Stabilizing ==>
          a < r < i && calls[r].DoReady? && calls[r].now == s.readyAt && NoReadyBetween(calls, a, r))
  }

  /** An active gate that is not armed anew keeps its origin, or finds its first READY. */
  lemma OriginExtends(g: GateState, calls: seq<Call>, i: nat, a: nat, r: nat) returns (ready: nat)
    requires i < |calls| && Origin(g, calls, i, a, r) && After(g, calls[..i]).Active()
    requires !Arms(g, calls, i) && After(g, calls[..i + 1]).Active()
    ensures Origin(g, calls, i + 1, a, ready)
  {
    hide After;
    AfterSnoc(g, calls, i);
    SettingsAreFixed(g, calls[..i]);
    ready := if calls[i].DoReady? && After(g, calls[..i]).status == Armed then i else r;
  }

  lemma {:induction false} ActiveHasOrigin(g: GateState, calls: seq<Call>, i: nat) returns (a: nat, r: nat)
    requires i <= |calls| && !g.Active() && After(g, calls[..i]).Active()
    ensures Origin(g, calls, i, a, r)
  {
    assert calls[..0] == [];
    if i > 0 {
      AfterSnoc(g, calls, i - 1);
      SettingsAreFixed(g, calls[..i - 1]);
      hide After;
      if Arms(g, calls, i - 1) {
        a, r := i - 1, 0;
      } else {
        a, r := ActiveHasOrigin(g, calls, i - 1);
        r := OriginExtends(g, calls, i - 1, a, r);
      }
    }
  }

  /** A pass: the gate was armed, the first READY after that came at least `stableFor` ago, and nothing but
      READY and ticks (so no crash, no reset) happened since the arming. */
  lemma PassMeansStable(g: GateState, calls: seq<Call>, i: nat) returns (a: nat, r: nat)
    requires !g.Active() && i < |calls| && Answer(g, calls, i) == Pass
    ensures a < r < i && Arms(g, calls, a) && OnlyReadyAndTicks(calls, a, i)
    ensures calls[r].DoReady? && NoReadyBetween(calls, a, r)
    ensures calls[i].DoTick? && calls[i].now - calls[r].now >= g.stableFor
  {
    SettingsAreFixed(g, calls[..i]);
    a, r := ActiveHasOrigin(g, calls, i);
  }

  /** A timeout: the window counted from the install time is over, and no READY was stable yet. */
  lemma TimeoutMeansLate(g: GateState, calls: seq<Call>, i: nat) returns (a: nat, r: nat)
    requires !g.Active() && i < |calls| && Answer(g, calls, i) == TimedOut
    ensures a < i && Arms(g, calls, a) && OnlyReadyAndTicks(calls, a, i)
    ensures calls[i].DoTick? && calls[i].now >= calls[a].installedAt + g.window
    ensures After(g, calls[..i + 1]) == After(g, calls[..i]).(status := Failed, failReason := HealthTimeout)
    ensures || NoReadyBetween(calls, a, i)
            || (a < r < i && calls[r].DoReady? && NoReadyBetween(calls, a, r)
                && calls[i].now - calls[r].now < g.stableFor)
  {
    AfterSnoc(g, calls, i);
    SettingsAreFixed(g, calls[..i]);
    a, r := ActiveHasOrigin(g, calls, i);
  }

  /** Once READY came early enough to be stable by the deadline, only a new arming can bring a timeout. */
  lemma {:induction false} EarlyReadyNeverTimesOut(g: GateState, calls: seq<Call>, i: nat)
    requires g.status == Stabilizing && g.readyAt + g.stableFor <= g.deadline
    requires i < |calls|
    requires forall k :: 0 <= k < i ==> !Arms(g, calls, k)
    ensures Answer(g, calls, i) != TimedOut
  {
    EarlyReadyHolds(g, calls, i);
  }

  lemma EarlyReadyStep(g: GateState, s: GateState, c: Call)
    requires g.status == Stabilizing && g.readyAt + g.stableFor <= g.deadline
    requires s == g || !s.Active()
    requires c.DoArm? ==> c.now >= c.installedAt + s.window
    ensures Do(s, c).0 == g || !Do(s, c).0.Active()
  {
  }

  lemma {:induction false} EarlyReadyHolds(g: GateState, calls: seq<Call>, i: nat)
    requires g.status == Stabilizing && g.readyAt + g.stableFor <= g.deadline
    requires i <= |calls|
    requires forall k :: 0 <= k < i ==> !Arms(g, calls, k)
    ensures var s := After(g, calls[..i]);
            s == g || !s.Active()
  {
    if i == 0 {
      assert calls[..0] == [];
    } else {
      hide After;
      EarlyReadyHolds(g, calls, i - 1);
      SettingsAreFixed(g, calls[..i - 1]);
      AfterSnoc(g, calls, i - 1);
      assert !Arms(g, calls, i - 1);
      EarlyReadyStep(g, After(g, calls[..i - 1]), calls[i - 1]);
    }
  }

  /** A crash fails a gate exactly while it watches, and for good: until a new arming it answers no crash and no
      tick any more. */
  lemma CrashFailsTheWatchingIff(g: GateState, calls: seq<Call>, i: nat)
    requires i < |calls| && calls[i].DoCrash?
    ensures Answer(g, calls, i) == Crashed <==> After(g, calls[..i]).status in {Armed, Stabilizing}
    ensures Answer(g, calls, i) == Crashed ==>
              After(g, calls[..i + 1]) == After(g, calls[..i]).(status := Failed, failReason := HealthCrash)
    ensures Answer(g, calls, i) != Crashed ==>
              Answer(g, calls, i) == Pending && After(g, calls[..i + 1]) == After(g, calls[..i])
    ensures forall j :: i < j < |calls| && (forall k :: i < k < j ==> !Arms(g, calls, k)) ==>
                          Answer(g, calls, j) == Pending
  {
    AfterSnoc(g, calls, i);
    forall j | i < j < |calls| && (forall k :: i < k < j ==> !Arms(g, calls, k))
      ensures Answer(g, calls, j) == Pending
    {
      OffUntilArmed(g, calls, i + 1, j);
    }
  }

  /** Sleeping for NextWake and ticking always decides, and not a moment earlier: before the decision
      point every tick is Pending. */
  lemma WakeDecides(g: GateState, now: Time, later: Time)
    requires g.Active()
    ensures later >= now + g.NextWake(now) ==> g.Tick(later).1 != Pending
    ensures later < g.DecisionPoint() ==> g.Tick(later).1 == Pending
  {
  }
}
