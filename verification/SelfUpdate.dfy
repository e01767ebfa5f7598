/** Installing a new version: stage, promote, rotate the links, leave the gate marker
    (internal/selfupdate/install_unix.go, rotate_unix.go, marker.go). */
module SelfUpdate {
  import opened Common
  import opened Disk

  // ------------------------------------------------------------- Rotation

  datatype RotatePc =
    | ReadCur
    | ClearPrev(prior: Target)
    | WritePrev(prior: Target)
    | ReadPrev(prior: Target)
    | ClearCur(before: Option<Target>, previous: Option<Target>)
    | WriteCur(before: Option<Target>, previous: Option<Target>)
    | RotateDone(ok: bool, before: Option<Target>, previous: Option<Target>)

  function RotateStep(v: Version, pc: RotatePc, l: Links, fault: bool): (RotatePc, Links) {
    match pc
    case ReadCur =>
      (match Readlink(l, Current, fault)
       case Found(prior) => if prior != VersionTarget(v) then ClearPrev(prior) else ReadPrev(prior)
       case _ => ClearCur(None, None), l)
    case ClearPrev(prior) =>
      var (l', ok) := Remove(l, Previous, fault);
      (if ok then WritePrev(prior) else RotateDone(false, Some(prior), None), l')
    case WritePrev(prior) =>
      var (l', ok) := Symlink(l, Previous, prior, fault);
      (if ok then ClearCur(Some(prior), Some(prior)) else RotateDone(false, Some(prior), None), l')
    case ReadPrev(prior) =>
      (match Readlink(l, Previous, fault)
       case Found(p) => ClearCur(Some(prior), Some(p))
       case _ => ClearCur(Some(prior), None), l)
    case ClearCur(before, previous) =>
      var (l', ok) := Remove(l, Current, fault);
      (if ok then WriteCur(before, previous) else RotateDone(false, before, previous), l')
    case WriteCur(before, previous) =>
      var (l', ok) := Symlink(l, Current, VersionTarget(v), fault);
      (RotateDone(ok, before, previous), l')
    case RotateDone(_, _, _) => (pc, l)
  }

  function RunRotate(v: Version, l: Links, faults: seq<bool>): (RotatePc, Links) {
    if faults == [] then (ReadCur, l)
    else
      var (pc, l') := RunRotate(v, l, Front(faults));
      RotateStep(v, pc, l', Last(faults))
  }

  /** Enough for any rotation. */
  const ROTATE_CALLS: nat := 5

  lemma AdvanceRotate(v: Version, l: Links, faults: seq<bool>, k: nat, pc: RotatePc, now: Links)
    requires k < |faults| && RunRotate(v, l, faults[..k]) == (pc, now)
    ensures RunRotate(v, l, faults[..k + 1]) == RotateStep(v, pc, now, faults[k])
  {
    assert Front(faults[..k + 1]) == faults[..k];
  }

  /** The rotation is over after exactly `n` calls. */
  predicate RotationEnds(v: Version, l: Links, faults: seq<bool>, n: nat) {
    && 0 < n <= |faults|
    && RunRotate(v, l, faults[..n]).0.RotateDone? && !RunRotate(v, l, faults[..n - 1]).0.RotateDone?
  }

  /** `faults` says which of the calls fail, `n` how many were made; what the rotation does about it is its run
      under these failures. */
  method RotateSymlinks(root: InstallRoot, v: Version, faults: seq<bool>)
    returns (ok: bool, before: Option<Target>, previous: Option<Target>, n: nat)
    requires |faults| >= ROTATE_CALLS
    modifies root`links
    ensures n <= ROTATE_CALLS && RotationEnds(v, old(root.links), faults, n)
    ensures RunRotate(v, old(root.links), faults[..n]) == (RotateDone(ok, before, previous), root.links)
  {
    ghost var was := root.links;
    before, previous, n := None, None, 1;
    var cur := Readlink(root.links, Current, faults[0]);
    AdvanceRotate(v, was, faults, 0, ReadCur, was);
    if cur.Found? {
      before := Some(cur.target);
      if cur.target != VersionTarget(v) {
        ok, n := PromoteToPrevious(root, v, cur.target, faults, was);
        if !ok {
          return;
        }
        previous := Some(cur.target);
      } else {
        var p := Readlink(root.links, Previous, faults[1]);
        AdvanceRotate(v, was, faults, 1, ReadPrev(cur.target), was);
        n := 2;
        if p.Found? {
          previous := Some(p.target);
        }
      }
    }
    ok, n := PointCurrent(root, v, before, previous, faults, n, was);
  }

  method PromoteToPrevious(root: InstallRoot, v: Version, existing: Target, faults: seq<bool>, ghost was: Links)
    returns (ok: bool, n: nat)
    requires |faults| >= ROTATE_CALLS && RunRotate(v, was, faults[..1]) == (ClearPrev(existing), root.links)
    modifies root`links
    ensures n <= 3 && (if ok then n == 3 else RotationEnds(v, was, faults, n))
    ensures RunRotate(v, was, faults[..n]) ==
            (if ok then ClearCur(Some(existing), Some(existing)) else RotateDone(false, Some(existing), None),
             root.links)
  {
    hide RunRotate;
    AdvanceRotate(v, was, faults, 1, ClearPrev(existing), root.links);
    ok := root.RemoveLink(Previous, faults[1]);
    n := 2;
    if ok {
      AdvanceRotate(v, was, faults, 2, WritePrev(existing), root.links);
      ok := root.MakeLink(Previous, existing, faults[2]);
      n := 3;
    }
  }

  method PointCurrent(root: InstallRoot, v: Version, before: Option<Target>, previous: Option<Target>,
                      faults: seq<bool>, k: nat, ghost was: Links)
    returns (ok: bool, n: nat)
    requires k + 2 <= |faults| && RunRotate(v, was, faults[..k]) == (ClearCur(before, previous), root.links)
    modifies root`links
    ensures n <= k + 2 && RotationEnds(v, was, faults, n)
    ensures RunRotate(v, was, faults[..n]) == (RotateDone(ok, before, previous), root.links)
  {
    hide RunRotate;
    AdvanceRotate(v, was, faults, k, ClearCur(before, previous), root.links);
    ok := root.RemoveLink(Current, faults[k]);
    n := k + 1;
    if ok {
      AdvanceRotate(v, was, faults, k + 1, WriteCur(before, previous), root.links);
      ok := root.MakeLink(Current, VersionTarget(v), faults[k + 1]);
      n := k + 2;
    }
  }

  /** What a completed rotation leaves when `current` named another target. */
  function RotateLinks(l: Links, v: Version): Links
    requires Current in l
  {
    l[Previous := l[Current]][Current := VersionTarget(v)]
  }

  predicate RotateLayout(v: Version, l: Links, pc: RotatePc, l': Links)
    requires Current in l
  {
    var prior := l[Current];
    && (SwapTmp in l' <==> SwapTmp in l) && (SwapTmp in l ==> l'[SwapTmp] == l[SwapTmp])
    && match pc
       case ReadCur => l' == l
       case ClearPrev(o) => o == prior && l' == l
       case WritePrev(o) => o == prior && Current in l' && l'[Current] == prior && Previous !in l'
       case ReadPrev(o) => false
       case ClearCur(b, p) => b == Some(prior) && p == Some(prior) && Current in l' && l'[Current] == prior
                              && Previous in l' && l'[Previous] == prior
       case WriteCur(b, p) => b == Some(prior) && p == Some(prior) && Current !in l'
                              && Previous in l' && l'[Previous] == prior
       case RotateDone(ok, b, p) =>
         && b == Some(prior)
         && (ok ==> p == Some(prior) && l' == RotateLinks(l, v))
         && (!ok ==> || (Current in l' && l'[Current] == prior)
                     || (Current !in l' && Previous in l' && l'[Previous] == prior))
  }

  lemma RotateStepLayout(v: Version, l: Links, pc: RotatePc, now: Links, fault: bool)
    requires Current in l && l[Current] != VersionTarget(v)
    requires RotateLayout(v, l, pc, now) && (pc == ReadCur ==> !fault)
    ensures var (pc', l') := RotateStep(v, pc, now, fault); RotateLayout(v, l, pc', l')
  {
    if pc.WriteCur? && !fault {
      SameLinks(RotateStep(v, pc, now, false).1, RotateLinks(l, v));
    }
  }

  lemma {:induction false} PastReadCur(v: Version, l: Links, faults: seq<bool>)
    requires faults != []
    ensures RunRotate(v, l, faults).0 != ReadCur
  {
    if |faults| > 1 {
      PastReadCur(v, l, Front(faults));
    }
  }

  /** Once the old `current` has been read and differs from the new target, every point of the rotation has
      one of these layouts. */
  lemma {:induction false} RotateLayouts(v: Version, l: Links, faults: seq<bool>)
    requires Current in l && l[Current] != VersionTarget(v)
    requires faults == [] || !faults[0]
    ensures var (pc, l') := RunRotate(v, l, faults); RotateLayout(v, l, pc, l')
  {
    if faults != [] {
      var (pc, l') := RunRotate(v, l, Front(faults));
      RotateLayouts(v, l, Front(faults));
      if Front(faults) != [] {
        PastReadCur(v, l, Front(faults));
      }
      RotateStepLayout(v, l, pc, l', Last(faults));
    }
  }

  /** Kill or failure at any point of the rotation: the old target is still named by `current` or `previous`,
      and `current`, when present, names the old target or the new one. */
  lemma RotateKeepsOldTarget(v: Version, l: Links, faults: seq<bool>)
    requires Current in l && l[Current] != VersionTarget(v)
    requires faults == [] || !faults[0]
    ensures var l' := RunRotate(v, l, faults).1;
            && ((Current in l' && l'[Current] == l[Current]) || (Previous in l' && l'[Previous] == l[Current]))
            && (Current in l' ==> l'[Current] == l[Current] || l'[Current] == VersionTarget(v))
  {
    RotateLayouts(v, l, faults);
  }

  predicate UnreadLayout(v: Version, l: Links, faults: seq<bool>, pc: RotatePc, l': Links) {
    match pc
    case ClearCur(b, p) => b == None && p == None && |faults| == 1 && l' == l
    case WriteCur(b, p) => b == None && p == None && |faults| == 2 && !faults[1] && l' == l - {Current}
    case RotateDone(_, _, _) =>
      || (|faults| >= 2 && faults[1] && l' == l)
      || (|faults| >= 3 && !faults[1] && (l' == l - {Current} || l' == l[Current := VersionTarget(v)]))
    case _ => false
  }

  lemma {:induction false} UnreadLayouts(v: Version, l: Links, faults: seq<bool>)
    requires Current in l && faults != [] && faults[0]
    ensures var (pc, l') := RunRotate(v, l, faults); UnreadLayout(v, l, faults, pc, l')
  {
    if |faults| == 1 {
      assert Front(faults) == [];
    } else {
      UnreadLayouts(v, l, Front(faults));
      assert (l - {Current})[Current := VersionTarget(v)] == l[Current := VersionTarget(v)];
    }
  }

  /** If reading `current` fails although the link is there, the read error is taken for a fresh install: at
      every point of the rotation the old target is still named exactly when `current` has not been removed
      yet, or `previous` named it already. */
  lemma UnreadCurrentIsForgotten(v: Version, l: Links, faults: seq<bool>)
    requires Current in l && l[Current] != VersionTarget(v) && faults != [] && faults[0]
    ensures var l' := RunRotate(v, l, faults).1;
            (Current in l' && l'[Current] == l[Current]) || (Previous in l' && l'[Previous] == l[Current]) <==>
              |faults| < 2 || faults[1] || (Previous in l && l[Previous] == l[Current])
  {
    UnreadLayouts(v, l, faults);
  }

  /** How many calls come before the removal of `current`, once the first one has answered. */
  function CallsBeforeClear(v: Version, l: Links, unread: bool): nat
    requires Current in l
  {
    if unread then 1 else if l[Current] == VersionTarget(v) then 2 else 3
  }

  /** The calls that rewrite `previous` went well, if there are any. */
  predicate PreviousWritten(k: nat, faults: seq<bool>) {
    k == 3 ==> |faults| >= 3 && !faults[1] && !faults[2]
  }

  /** `current` has been removed and not been written again: killed in between, or the write failed. */
  predicate RotationLosesCurrent(v: Version, l: Links, faults: seq<bool>)
    requires Current in l
  {
    faults != [] &&
    var k := CallsBeforeClear(v, l, faults[0]);
    && k < |faults| && PreviousWritten(k, faults) && !faults[k] && (|faults| == k + 1 || faults[k + 1])
  }

  /** Where a rotation stands, read off the failures it met. */
  predicate RotationStandsAt(v: Version, l: Links, pc: RotatePc, l': Links, faults: seq<bool>)
    requires Current in l
  {
    var n := |faults|;
    if n == 0 then pc == ReadCur && l' == l
    else
      var k := CallsBeforeClear(v, l, faults[0]);
      match pc
      case ReadCur => false
      case ClearPrev(_) => n == 1 && k == 3 && Current in l'
      case WritePrev(_) => n == 2 && k == 3 && !faults[1] && Current in l' && Previous !in l'
      case ReadPrev(_) => n == 1 && k == 2 && Current in l'
      case ClearCur(_, _) => n == k && PreviousWritten(k, faults) && Current in l'
      case WriteCur(_, _) => n == k + 1 && PreviousWritten(k, faults) && !faults[k] && Current !in l'
      case RotateDone(_, _, _) =>
        || (k == 3 && n >= 2 && faults[1]) || (k == 3 && n >= 3 && faults[2])
        || (n > k && faults[k]) || n >= k + 2
  }

  /** A rotation, killed after any number of calls of which any failed, leaves no `current` exactly then: with
      another target linked, with `current` unreadable, and with the version linked already. */
  lemma {:induction false} RotationLosesCurrentIff(v: Version, l: Links, faults: seq<bool>)
    requires Current in l
    ensures var (pc, l') := RunRotate(v, l, faults);
            RotationStandsAt(v, l, pc, l', faults) && (Current !in l' <==> RotationLosesCurrent(v, l, faults))
  {
    if faults != [] {
      var front := Front(faults);
      RotationLosesCurrentIff(v, l, front);
      assert forall i :: 0 <= i < |front| ==> front[i] == faults[i];
      RotationStepStands(v, l, RunRotate(v, l, front).0, RunRotate(v, l, front).1, front, Last(faults));
      assert front + [Last(faults)] == faults;
    }
  }

  lemma RotationStepStands(v: Version, l: Links, pc: RotatePc, now: Links, faults: seq<bool>, fault: bool)
    requires Current in l && RotationStandsAt(v, l, pc, now, faults)
    requires Current !in now <==> RotationLosesCurrent(v, l, faults)
    ensures var (pc', l') := RotateStep(v, pc, now, fault);
            && RotationStandsAt(v, l, pc', l', faults + [fault])
            && (Current !in l' <==> RotationLosesCurrent(v, l, faults + [fault]))
  {
    var more := faults + [fault];
    assert forall i :: 0 <= i < |faults| ==> more[i] == faults[i];
    assert more[|faults|] == fault;
  }

  /** Reinstalling the version `current` already names removes the link before writing it again: a kill in
      between leaves no `current` at all, whether or not `previous` could be read. */
  lemma ReinstallOpensAGap(v: Version, l: Links, unread: bool)
    requires Current in l && l[Current] == VersionTarget(v)
    ensures Current !in RunRotate(v, l, [false, unread, false]).1
  {
    RotationLosesCurrentIff(v, l, [false, unread, false]);
  }

  /** What a rotation has to say of `current`, and of `previous` after it: nothing if the first call found no
      `current`; otherwise the old target, and as new `previous` that target again, or, if the version was linked
      already, whatever `previous` could be read to be. */
  function Reports(v: Version, l: Links, faults: seq<bool>): (Option<Target>, Option<Target>)
    requires |faults| >= 2
  {
    if faults[0] || Current !in l then (None, None)
    else if l[Current] != VersionTarget(v) then (Some(l[Current]), Some(l[Current]))
    else (Some(l[Current]), if faults[1] || Previous !in l then None else Some(l[Previous]))
  }

  /** The links with `previous` written, if it is written at all. */
  function WithPrevious(v: Version, l: Links, unread: bool): Links {
    if unread || Current !in l || l[Current] == VersionTarget(v) then l else l[Previous := l[Current]]
  }

  predicate RotationSoFar(v: Version, l: Links, faults: seq<bool>, pc: RotatePc, l': Links) {
    if faults == [] then pc == ReadCur && l' == l
    else
      var read := !faults[0] && Current in l;
      var both := WithPrevious(v, l, faults[0]);
      match pc
      case ReadCur => false
      case ClearPrev(o) => read && o == l[Current] != VersionTarget(v) && l' == l
      case WritePrev(o) => read && o == l[Current] != VersionTarget(v) && l' == l - {Previous}
      case ReadPrev(o) => |faults| == 1 && read && o == l[Current] == VersionTarget(v) && l' == l
      case ClearCur(b, p) => l' == both && (|faults| >= 2 ==> (b, p) == Reports(v, l, faults))
                             && (|faults| == 1 ==> !read && b == None && p == None)
      case WriteCur(b, p) => |faults| >= 2 && l' == both - {Current} && (b, p) == Reports(v, l, faults)
      case RotateDone(ok, b, p) =>
        ok ==> |faults| >= 2 && l' == both[Current := VersionTarget(v)] && (b, p) == Reports(v, l, faults)
  }

  lemma RotationStepGoesOn(v: Version, l: Links, faults: seq<bool>, pc: RotatePc, now: Links, fault: bool)
    requires RotationSoFar(v, l, faults, pc, now)
    ensures var (pc', l') := RotateStep(v, pc, now, fault); RotationSoFar(v, l, faults + [fault], pc', l')
  {
    var more := faults + [fault];
    assert forall i :: 0 <= i < |faults| ==> more[i] == faults[i];
    assert more[|faults|] == fault;
    if pc.WritePrev? && !fault {
      SameLinks(now[Previous := pc.prior], WithPrevious(v, l, faults[0]));
    } else if pc.WriteCur? && !fault {
      var both := WithPrevious(v, l, faults[0]);
      SameLinks((both - {Current})[Current := VersionTarget(v)], both[Current := VersionTarget(v)]);
    }
  }

  lemma {:induction false} RotationGoes(v: Version, l: Links, faults: seq<bool>)
    ensures var (pc, l') := RunRotate(v, l, faults); RotationSoFar(v, l, faults, pc, l')
  {
    if faults != [] {
      RotationGoes(v, l, Front(faults));
      var (pc, l') := RunRotate(v, l, Front(faults));
      RotationStepGoesOn(v, l, Front(faults), pc, l', Last(faults));
      assert Front(faults) + [Last(faults)] == faults;
    }
  }

  /** A rotation that reports success, whatever it found and could read: `current` names the version, `previous`
      the target that `current` named, if that was another one and could be read, and nothing else changed; and
      it reports these targets. */
  lemma CompletedRotation(v: Version, l: Links, faults: seq<bool>)
    requires RunRotate(v, l, faults).0.RotateDone? && RunRotate(v, l, faults).0.ok
    ensures |faults| >= 2
    ensures var (pc, l') := RunRotate(v, l, faults);
            && l' == WithPrevious(v, l, faults[0])[Current := VersionTarget(v)]
            && (pc.before, pc.previous) == Reports(v, l, faults)
  {
    RotationGoes(v, l, faults);
  }

  // ---------------------------------------------------------------- Apply

  datatype InstallPc =
    | MakeVersions
    | ClearStaging
    | MakeStaging
    | Extract
    | DropStaging
    | StatTarget
    | StartClearTarget
    | EndClearTarget
    | Promote
    | Rotating(pc: RotatePc)
    | MakeState
    | OpenMarker(m: Marker)
    | FillMarker(m: Marker)
    | PublishMarker(m: Marker)
    | DropMarkerTmp
    | InstallDone(ok: bool)

  /** RemoveAll of a directory, as one step; a failure leaves a partial tree. */
  function RemoveTree(dirs: Dirs, n: DirName, fault: bool): Dirs {
    if n !in dirs then dirs
    else if fault then dirs[n := Partial]
    else dirs - {n}
  }

  /** One system call of Apply(v). `now` is the clock reading for the marker, used by one step only. */
  function InstallStep(v: Version, pc: InstallPc, d: Disk, fault: bool, now: Time): (InstallPc, Disk) {
    match pc
    case MakeVersions => (if fault then InstallDone(false) else ClearStaging, d)
    case ClearStaging =>
      (if fault then InstallDone(false) else MakeStaging, d.(dirs := RemoveTree(d.dirs, Staging(v), fault)))
    case MakeStaging =>
      if fault then (InstallDone(false), d) else (Extract, d.(dirs := d.dirs[Staging(v) := Partial]))
    case Extract =>
      if fault then (DropStaging, d) else (StatTarget, d.(dirs := d.dirs[Staging(v) := Complete]))
    case DropStaging => (InstallDone(false), d.(dirs := RemoveTree(d.dirs, Staging(v), fault)))
    case StatTarget => (if !fault && Promoted(v) in d.dirs then StartClearTarget else Promote, d)
    case StartClearTarget => (EndClearTarget, d.(dirs := d.dirs[Promoted(v) := Partial]))
    case EndClearTarget =>
      (if fault then InstallDone(false) else Promote, d.(dirs := RemoveTree(d.dirs, Promoted(v), fault)))
    case Promote =>
      if fault || Staging(v) !in d.dirs || Promoted(v) in d.dirs then (InstallDone(false), d)
      else (Rotating(ReadCur), d.(dirs := (d.dirs - {Staging(v)})[Promoted(v) := d.dirs[Staging(v)]]))
    case Rotating(rpc) =>
      var (rpc', l) := RotateStep(v, rpc, d.links, fault);
      (if rpc'.RotateDone? then (if rpc'.ok then MakeState else InstallDone(false)) else Rotating(rpc'), d.(links := l))
    case MakeState => (if fault then InstallDone(false) else OpenMarker(Marker(v, now)), d)
    case OpenMarker(m) =>
      var (f, ok) := TruncateTmp(d.marker, fault);
      (if ok then FillMarker(m) else InstallDone(false), d.(marker := f))
    case FillMarker(m) =>
      var (f, ok) := FillTmp(d.marker, m, fault);
      (if ok then PublishMarker(m) else InstallDone(false), d.(marker := f))
    case PublishMarker(m) =>
      var (f, ok) := Publish(d.marker, fault);
      (if ok then InstallDone(true) else DropMarkerTmp, d.(marker := f))
    case DropMarkerTmp => (InstallDone(false), d.(marker := DropTmp(d.marker, fault).0))
    case InstallDone(_) => (pc, d)
  }

  datatype Call = Call(fault: bool, now: Time)

  function RunInstall(v: Version, d: Disk, calls: seq<Call>): (InstallPc, Disk) {
    if calls == [] then (MakeVersions, d)
    else
      var (pc, d') := RunInstall(v, d, Front(calls));
      InstallStep(v, pc, d', Last(calls).fault, Last(calls).now)
  }

  lemma AdvanceInstall(v: Version, d: Disk, calls: seq<Call>, pc: InstallPc, now: Disk, c: Call)
    returns (more: seq<Call>)
    requires RunInstall(v, d, calls) == (pc, now)
    ensures more == calls + [c]
    ensures RunInstall(v, d, more) == InstallStep(v, pc, now, c.fault, c.now)
  {
    more := calls + [c];
    assert Front(more) == calls;
  }

  /** Enough for any install. */
  const INSTALL_CALLS: nat := 18

  lemma AdvanceAt(v: Version, d: Disk, calls: seq<Call>, k: nat, pc: InstallPc, now: Disk)
    requires k < |calls| && RunInstall(v, d, calls[..k]) == (pc, now)
    ensures RunInstall(v, d, calls[..k + 1]) == InstallStep(v, pc, now, calls[k].fault, calls[k].now)
  {
    assert Front(calls[..k + 1]) == calls[..k];
  }

  /** An install that is over makes no further call. */
  lemma {:induction false} InstallIsOver(v: Version, d: Disk, calls: seq<Call>, k: nat, ok: bool, now: Disk)
    requires k <= |calls| && RunInstall(v, d, calls[..k]) == (InstallDone(ok), now)
    ensures RunInstall(v, d, calls) == (InstallDone(ok), now)
    decreases |calls| - k
  {
    if k == |calls| {
      assert calls[..k] == calls;
    } else {
      AdvanceAt(v, d, calls, k, InstallDone(ok), now);
      InstallIsOver(v, d, calls, k + 1, ok, now);
    }
  }

  function FaultsOf(calls: seq<Call>): seq<bool> {
    seq(|calls|, i requires 0 <= i < |calls| => calls[i].fault)
  }

  datatype ApplyResult = AlreadyInstalled | ApplyFailed
                       | Applied(version: Version, before: Option<Target>, previous: Option<Target>)

  /** The rotation of an install reported what it found, in some stretch of the install's calls. */
  ghost predicate ReportsRotation(v: Version, l: Links, calls: seq<Call>, before: Option<Target>,
                                  previous: Option<Target>, l': Links)
  {
    exists k, n :: 0 <= k <= k + n <= |calls|
                   && RunRotate(v, l, FaultsOf(calls[k..])[..n]) == (RotateDone(true, before, previous), l')
  }

  /** The marker a reader finds is of `v`, stamped with a clock reading of one of the calls. */
  ghost predicate MarkedBy(v: Version, marker: TmpFile<Marker>, calls: seq<Call>) {
    exists k :: 0 <= k < |calls| && marker.file == Whole(Marker(v, calls[k].now))
  }

  /** Apply of a verified manifest for version `v`, started by a worker whose own label is `running`. `calls` says
      which of the calls fail, and when the clock is read for the marker. */
  method Apply(root: InstallRoot, v: Version, running: Version, calls: seq<Call>) returns (r: ApplyResult)
    requires |calls| >= INSTALL_CALLS
    modifies root
    ensures r == AlreadyInstalled <==> running != "" && running == v
    ensures r == AlreadyInstalled ==> root.Contents() == old(root.Contents())
    ensures r != AlreadyInstalled ==>
              RunInstall(v, old(root.Contents()), calls) == (InstallDone(r.Applied?), root.Contents())
    ensures r.Applied? ==> r.version == v
    ensures r.Applied? ==> ReportsRotation(v, old(root.links), calls, r.before, r.previous, root.links)
    ensures r.Applied? ==> MarkedBy(v, root.marker, calls)
  {
    if running != "" && running == v {
      return AlreadyInstalled;
    }
    ghost var was := root.Contents();
    var ok := Stage(root, v, calls, was);
    if !ok {
      return ApplyFailed;
    }
    var k;
    ok, k := PromoteStaging(root, v, calls, was);
    if !ok {
      return ApplyFailed;
    }
    r := RotateAndMark(root, v, calls, k, was);
  }

  /** The last part of Apply: the links, then the marker. */
  method RotateAndMark(root: InstallRoot, v: Version, calls: seq<Call>, k: nat, ghost was: Disk)
    returns (r: ApplyResult)
    requires k + 10 <= |calls| && RunInstall(v, was, calls[..k]) == (Rotating(ReadCur), root.Contents())
    modifies root
    ensures r != AlreadyInstalled && RunInstall(v, was, calls) == (InstallDone(r.Applied?), root.Contents())
    ensures r.Applied? ==> r.version == v
    ensures r.Applied? ==> ReportsRotation(v, old(root.links), calls, r.before, r.previous, root.links)
    ensures r.Applied? ==> MarkedBy(v, root.marker, calls)
  {
    hide RunRotate, RunInstall;
    ghost var d := root.Contents();
    var faults := FaultsOf(calls[k..]);
    var ok, before, previous, n := RotateSymlinks(root, v, faults);
    RotationInside(v, was, calls, k, d, n);
    if !ok {
      InstallIsOver(v, was, calls, k + n, false, root.Contents());
      return ApplyFailed;
    }
    assert ReportsRotation(v, d.links, calls, before, previous, root.links);
    ok := WriteGateMarker(root, v, calls, k + n, was);
    assert ok ==> root.marker.file == Whole(Marker(v, calls[k + n].now));
    r := if ok then Applied(v, before, previous) else ApplyFailed;
  }

  method Stage(root: InstallRoot, v: Version, calls: seq<Call>, ghost was: Disk) returns (ok: bool)
    requires |calls| >= INSTALL_CALLS && was == root.Contents()
    modifies root`dirs
    ensures if ok then RunInstall(v, was, calls[..4]) == (StatTarget, root.Contents())
            else RunInstall(v, was, calls) == (InstallDone(false), root.Contents())
  {
    AdvanceAt(v, was, calls, 0, MakeVersions, was);
    if calls[0].fault {
      InstallIsOver(v, was, calls, 1, false, was);
      return false;
    }
    AdvanceAt(v, was, calls, 1, ClearStaging, was);
    root.dirs := RemoveTree(root.dirs, Staging(v), calls[1].fault);
    if calls[1].fault {
      InstallIsOver(v, was, calls, 2, false, root.Contents());
      return false;
    }
    ok := FillStaging(root, v, calls, was);
  }

  method FillStaging(root: InstallRoot, v: Version, calls: seq<Call>, ghost was: Disk) returns (ok: bool)
    requires |calls| >= INSTALL_CALLS && RunInstall(v, was, calls[..2]) == (MakeStaging, root.Contents())
    modifies root`dirs
    ensures if ok then RunInstall(v, was, calls[..4]) == (StatTarget, root.Contents())
            else RunInstall(v, was, calls) == (InstallDone(false), root.Contents())
  {
    hide RunInstall;
    AdvanceAt(v, was, calls, 2, MakeStaging, root.Contents());
    if calls[2].fault {
      InstallIsOver(v, was, calls, 3, false, root.Contents());
      return false;
    }
    root.dirs := root.dirs[Staging(v) := Partial];
    AdvanceAt(v, was, calls, 3, Extract, root.Contents());
    if calls[3].fault {
      AdvanceAt(v, was, calls, 4, DropStaging, root.Contents());
      root.dirs := RemoveTree(root.dirs, Staging(v), calls[4].fault);
      InstallIsOver(v, was, calls, 5, false, root.Contents());
      return false;
    }
    root.dirs := root.dirs[Staging(v) := Complete];
    ok := true;
  }

  /** `k` calls have been made once the staging directory is in place. */
  method PromoteStaging(root: InstallRoot, v: Version, calls: seq<Call>, ghost was: Disk) returns (ok: bool, k: nat)
    requires |calls| >= INSTALL_CALLS && RunInstall(v, was, calls[..4]) == (StatTarget, root.Contents())
    modifies root`dirs
    ensures k <= 8
    ensures if ok then RunInstall(v, was, calls[..k]) == (Rotating(ReadCur), root.Contents())
            else RunInstall(v, was, calls) == (InstallDone(false), root.Contents())
  {
    hide RunInstall;
    ok, k := ClearTarget(root, v, calls, was);
    if ok {
      AdvanceAt(v, was, calls, k, Promote, root.Contents());
      ok := !calls[k].fault && Staging(v) in root.dirs && Promoted(v) !in root.dirs;
      k := k + 1;
      if ok {
        root.dirs := (root.dirs - {Staging(v)})[Promoted(v) := root.dirs[Staging(v)]];
      } else {
        InstallIsOver(v, was, calls, k, false, root.Contents());
      }
    }
  }

  /** Removes a leftover versions/<v>; while that goes on the directory is partial. */
  method ClearTarget(root: InstallRoot, v: Version, calls: seq<Call>, ghost was: Disk) returns (ok: bool, k: nat)
    requires |calls| >= INSTALL_CALLS && RunInstall(v, was, calls[..4]) == (StatTarget, root.Contents())
    modifies root`dirs
    ensures k <= 7
    ensures if ok then RunInstall(v, was, calls[..k]) == (Promote, root.Contents())
            else RunInstall(v, was, calls) == (InstallDone(false), root.Contents())
  {
    hide RunInstall;
    AdvanceAt(v, was, calls, 4, StatTarget, root.Contents());
    ok, k := true, 5;
    if !calls[4].fault && Promoted(v) in root.dirs {
      AdvanceAt(v, was, calls, 5, StartClearTarget, root.Contents());
      root.dirs := root.dirs[Promoted(v) := Partial];
      AdvanceAt(v, was, calls, 6, EndClearTarget, root.Contents());
      root.dirs := RemoveTree(root.dirs, Promoted(v), calls[6].fault);
      ok, k := !calls[6].fault, 7;
      if !ok {
        InstallIsOver(v, was, calls, 7, false, root.Contents());
      }
    }
  }

  /** The marker's calls begin at call `k`. */
  method WriteGateMarker(root: InstallRoot, v: Version, calls: seq<Call>, k: nat, ghost was: Disk) returns (ok: bool)
    requires k + 5 <= |calls| && RunInstall(v, was, calls[..k]) == (MakeState, root.Contents())
    modifies root`marker
    ensures RunInstall(v, was, calls) == (InstallDone(ok), root.Contents())
    ensures ok ==> root.marker.file == Whole(Marker(v, calls[k].now))
  {
    hide RunInstall;
    AdvanceAt(v, was, calls, k, MakeState, root.Contents());
    if calls[k].fault {
      InstallIsOver(v, was, calls, k + 1, false, root.Contents());
      return false;
    }
    var m := Marker(v, calls[k].now);
    AdvanceAt(v, was, calls, k + 1, OpenMarker(m), root.Contents());
    var (truncated, open) := TruncateTmp(root.marker, calls[k + 1].fault);
    root.marker := truncated;
    if !open {
      InstallIsOver(v, was, calls, k + 2, false, root.Contents());
      return false;
    }
    ok := FillAndPublishMarker(root, v, m, calls, k + 2, was);
  }

  method FillAndPublishMarker(root: InstallRoot, v: Version, m: Marker, calls: seq<Call>, k: nat, ghost was: Disk)
    returns (ok: bool)
    requires k + 3 <= |calls| && RunInstall(v, was, calls[..k]) == (FillMarker(m), root.Contents())
    modifies root`marker
    ensures RunInstall(v, was, calls) == (InstallDone(ok), root.Contents())
    ensures ok ==> root.marker.file == Whole(m)
  {
    hide RunInstall;
    AdvanceAt(v, was, calls, k, FillMarker(m), root.Contents());
    var (filled, written) := FillTmp(root.marker, m, calls[k].fault);
    root.marker := filled;
    if !written {
      InstallIsOver(v, was, calls, k + 1, false, root.Contents());
      return false;
    }
    ok := PublishMarkerFile(root, v, m, calls, k + 1, was);
  }

  method PublishMarkerFile(root: InstallRoot, v: Version, m: Marker, calls: seq<Call>, k: nat, ghost was: Disk)
    returns (ok: bool)
    requires k + 2 <= |calls| && RunInstall(v, was, calls[..k]) == (PublishMarker(m), root.Contents())
    requires root.marker.tmp == Whole(m)
    modifies root`marker
    ensures RunInstall(v, was, calls) == (InstallDone(ok), root.Contents())
    ensures ok ==> root.marker.file == Whole(m)
  {
    hide RunInstall;
    AdvanceAt(v, was, calls, k, PublishMarker(m), root.Contents());
    var (published, renamed) := Publish(root.marker, calls[k].fault);
    root.marker, ok := published, renamed;
    if ok {
      InstallIsOver(v, was, calls, k + 1, true, root.Contents());
    } else {
      AdvanceAt(v, was, calls, k + 1, DropMarkerTmp, root.Contents());
      root.marker := DropTmp(root.marker, calls[k + 1].fault).0;
      InstallIsOver(v, was, calls, k + 2, false, root.Contents());
    }
  }

  lemma DoneStays(v: Version, l: Links, faults: seq<bool>, n: nat)
    requires 0 < n <= |faults| && !RunRotate(v, l, faults[..n]).0.RotateDone?
    ensures !RunRotate(v, l, faults[..n - 1]).0.RotateDone?
  {
    var (pc, now) := RunRotate(v, l, faults[..n - 1]);
    AdvanceRotate(v, l, faults, n - 1, pc, now);
  }

  /** Where an install stands whose rotation stands at `rpc`. */
  function AtRotation(rpc: RotatePc): InstallPc {
    if rpc.RotateDone? then (if rpc.ok then MakeState else InstallDone(false)) else Rotating(rpc)
  }

  lemma RotatingStep(v: Version, rpc: RotatePc, d: Disk, l: Links, fault: bool, now: Time)
    ensures var (rpc', l') := RotateStep(v, rpc, l, fault);
            InstallStep(v, Rotating(rpc), d.(links := l), fault, now) == (AtRotation(rpc'), d.(links := l'))
  {
    hide RotateStep;
  }

  /** A rotation's run is a stretch of the install's run, call by call until it is over. */
  lemma {:induction false} RotationInside(v: Version, was: Disk, calls: seq<Call>, k: nat, d: Disk, n: nat)
    requires k + n <= |calls| && RunInstall(v, was, calls[..k]) == (Rotating(ReadCur), d)
    requires n > 0 ==> !RunRotate(v, d.links, FaultsOf(calls[k..])[..n - 1]).0.RotateDone?
    ensures var (rpc, l) := RunRotate(v, d.links, FaultsOf(calls[k..])[..n]);
            RunInstall(v, was, calls[..k + n]) == (AtRotation(rpc), d.(links := l))
    decreases n, 1
  {
    var faults := FaultsOf(calls[k..]);
    if n > 0 {
      RotationGoesOn(v, was, calls, k, d, n);
    } else {
      assert faults[..0] == [];
    }
  }

  lemma {:induction false} RotationGoesOn(v: Version, was: Disk, calls: seq<Call>, k: nat, d: Disk, n: nat)
    requires k + n <= |calls| && RunInstall(v, was, calls[..k]) == (Rotating(ReadCur), d)
    requires n > 0 && !RunRotate(v, d.links, FaultsOf(calls[k..])[..n - 1]).0.RotateDone?
    ensures var (rpc, l) := RunRotate(v, d.links, FaultsOf(calls[k..])[..n]);
            RunInstall(v, was, calls[..k + n]) == (AtRotation(rpc), d.(links := l))
    decreases n, 0
  {
    hide RunRotate, RunInstall, RotateStep, InstallStep;
    var faults := FaultsOf(calls[k..]);
    if n > 1 {
      DoneStays(v, d.links, faults, n - 1);
    }
    RotationInside(v, was, calls, k, d, n - 1);
    var (rpc, l) := RunRotate(v, d.links, faults[..n - 1]);
    AdvanceRotate(v, d.links, faults, n - 1, rpc, l);
    AdvanceAt(v, was, calls, k + n - 1, Rotating(rpc), d.(links := l));
    RotatingStep(v, rpc, d, l, faults[n - 1], calls[k + n - 1].now);
  }

  // ----------------------------------------------- Kill or failure anywhere in Apply

  /** `current`, if present, names a fully promoted directory. */
  predicate CurrentIsComplete(d: Disk) {
    Current in d.links ==>
      Promoted(d.links[Current].base) in d.dirs && d.dirs[Promoted(d.links[Current].base)] == Complete
  }

  predicate AppliedFiles(v: Version, pc: InstallPc, d: Disk) {
    match pc
    case StatTarget => Staging(v) in d.dirs && d.dirs[Staging(v)] == Complete
    case StartClearTarget => Staging(v) in d.dirs && d.dirs[Staging(v)] == Complete
    case EndClearTarget => Staging(v) in d.dirs && d.dirs[Staging(v)] == Complete
    case Promote => Staging(v) in d.dirs && d.dirs[Staging(v)] == Complete
    case Rotating(_) => Promoted(v) in d.dirs && d.dirs[Promoted(v)] == Complete
    case MakeState => Promoted(v) in d.dirs && d.dirs[Promoted(v)] == Complete
    case _ => true
  }

  predicate BeforeRotation(pc: InstallPc) {
    match pc
    case Rotating(rpc) => rpc == ReadCur
    case MakeState => false
    case OpenMarker(_) => false
    case FillMarker(_) => false
    case PublishMarker(_) => false
    case DropMarkerTmp => false
    case InstallDone(_) => false
    case _ => true
  }

  /** During the rotation `current`, if it names `v` at all, names it as an install writes it. */
  predicate NewOrOther(v: Version, pc: InstallPc, l: Links) {
    pc.Rotating? && Current in l && l[Current].base == v ==> l[Current] == VersionTarget(v)
  }

  /** Installing a version other than the one `current` names never lets `current` name a directory that is
      missing, half built or half removed, wherever the install is killed and whichever calls fail. */
  lemma {:induction false} CurrentStaysComplete(v: Version, d: Disk, calls: seq<Call>)
    requires CurrentIsComplete(d)
    requires Current in d.links ==> d.links[Current].base != v
    ensures var (pc, d') := RunInstall(v, d, calls);
            && CurrentIsComplete(d') && AppliedFiles(v, pc, d')
            && (BeforeRotation(pc) ==> d'.links == d.links)
            && NewOrOther(v, pc, d'.links)
            && d'.list == d.list
  {
    if calls != [] {
      CurrentStaysComplete(v, d, Front(calls));
      CurrentStepStaysComplete(v, d, RunInstall(v, d, Front(calls)).0, RunInstall(v, d, Front(calls)).1,
                               Last(calls).fault, Last(calls).now);
    }
  }

  lemma CurrentStepStaysComplete(v: Version, was: Disk, pc: InstallPc, d: Disk, fault: bool, now: Time)
    requires CurrentIsComplete(d) && AppliedFiles(v, pc, d)
    requires BeforeRotation(pc) ==> d.links == was.links
    requires Current in was.links ==> was.links[Current].base != v
    requires NewOrOther(v, pc, d.links)
    ensures var (pc', d') := InstallStep(v, pc, d, fault, now);
            && CurrentIsComplete(d') && AppliedFiles(v, pc', d')
            && (BeforeRotation(pc') ==> d'.links == was.links)
            && NewOrOther(v, pc', d'.links)
            && d'.list == d.list
  {
  }

  /** The marker file a reader sees is the old one until the install reports success, and whole after it. */
  lemma {:induction false} MarkerIsAtomic(v: Version, d: Disk, calls: seq<Call>)
    ensures var (pc, d') := RunInstall(v, d, calls);
            && (pc != InstallDone(true) ==> d'.marker.file == d.marker.file)
            && (pc == InstallDone(true) ==> d'.marker.file.Whole? && d'.marker.file.content.version == v)
            && (pc.PublishMarker? ==> d'.marker.tmp == Whole(pc.m))
            && (pc.OpenMarker? || pc.FillMarker? || pc.PublishMarker? ==> pc.m.version == v)
  {
    if calls != [] {
      MarkerIsAtomic(v, d, Front(calls));
    }
  }

  /** The marker an install holds in its hands, or has published. */
  function MarkerOf(pc: InstallPc, f: TmpFile<Marker>): Option<Marker> {
    match pc
    case OpenMarker(m) => Some(m)
    case FillMarker(m) => Some(m)
    case PublishMarker(m) => Some(m)
    case InstallDone(true) => if f.file.Whole? then Some(f.file.content) else None
    case _ => None
  }

  /** From the moment it exists the marker carries the clock reading of the call that came right after the
      rotation. */
  lemma {:induction false} MarkerOrigin(v: Version, d: Disk, calls: seq<Call>) returns (k: nat)
    ensures var (pc, d') := RunInstall(v, d, calls);
            MarkerOf(pc, d'.marker).Some? ==>
              && k < |calls| && RunInstall(v, d, calls[..k]).0 == MakeState
              && MarkerOf(pc, d'.marker).value == Marker(v, calls[k].now)
  {
    k := 0;
    if calls != [] {
      var front := Front(calls);
      k := MarkerOrigin(v, d, front);
      MarkerIsAtomic(v, d, front);
      if RunInstall(v, d, front).0 == MakeState {
        k := |front|;
      }
      assert k <= |front| ==> calls[..k] == front[..k];
    }
  }

  /** A completed install leaves the marker of its version, stamped with the clock reading taken once the links
      had been rotated. */
  lemma MarkerIsStamped(v: Version, d: Disk, calls: seq<Call>) returns (k: nat)
    requires RunInstall(v, d, calls).0 == InstallDone(true)
    ensures k < |calls| && RunInstall(v, d, calls[..k]).0 == MakeState
    ensures RunInstall(v, d, calls).1.marker.file == Whole(Marker(v, calls[k].now))
  {
    k := MarkerOrigin(v, d, calls);
    MarkerIsAtomic(v, d, calls);
  }

  /** Every clock reading of the calls lies between `lo` and `hi`. */
  predicate ClocksWithin(calls: seq<Call>, lo: Time, hi: Time) {
    forall i :: 0 <= i < |calls| ==> lo <= calls[i].now <= hi
  }

  /** So the window of a fresh install is counted from an instant within the install. */
  lemma MarkerStampedWithin(v: Version, d: Disk, calls: seq<Call>, lo: Time, hi: Time)
    requires RunInstall(v, d, calls).0 == InstallDone(true) && ClocksWithin(calls, lo, hi)
    ensures var f := RunInstall(v, d, calls).1.marker.file;
            f.Whole? && f.content.version == v && lo <= f.content.installedAt <= hi
  {
    var k := MarkerIsStamped(v, d, calls);
  }

  // ----------------------------------------------- When an install succeeds, and what it leaves

  /** The install cannot do without this call. It can do without reading the links it is about to replace, without
      its own cleaning up, and without looking for a leftover directory where there is none. */
  predicate Matters(v: Version, pc: InstallPc, d: Disk) {
    match pc
    case Rotating(rpc) => rpc != ReadCur && !rpc.ReadPrev?
    case StatTarget => Promoted(v) in d.dirs
    case StartClearTarget => false
    case DropStaging => false
    case DropMarkerTmp => false
    case InstallDone(_) => false
    case _ => true
  }

  /** No call that matters has failed. */
  predicate GoesWell(v: Version, d: Disk, calls: seq<Call>) {
    calls == []
    || (GoesWell(v, d, Front(calls))
        && (var (pc, d') := RunInstall(v, d, Front(calls)); Matters(v, pc, d') ==> !Last(calls).fault))
  }

  /** The directories other than those of `v`. */
  predicate OthersKept(v: Version, a: Dirs, b: Dirs) {
    a - {Staging(v), Promoted(v)} == b - {Staging(v), Promoted(v)}
  }

  predicate Built(v: Version, dirs: Dirs, n: DirName) {
    n in dirs && dirs[n] == Complete
  }

  /** Where an install stands, `well` if no call that matters has failed. */
  predicate InstallStands(v: Version, was: Dirs, pc: InstallPc, d: Disk, well: bool) {
    var dirs := d.dirs;
    && OthersKept(v, was, dirs)
    && match pc
       case MakeVersions => well
       case ClearStaging => well
       case MakeStaging => well && Staging(v) !in dirs
       case Extract => well && Staging(v) in dirs
       case StatTarget => well && Built(v, dirs, Staging(v))
       case StartClearTarget => well && Built(v, dirs, Staging(v))
       case EndClearTarget => well && Built(v, dirs, Staging(v))
       case Promote => Built(v, dirs, Staging(v)) && (well <==> Promoted(v) !in dirs)
       case DropStaging => !well
       case DropMarkerTmp => !well && Built(v, dirs, Promoted(v)) && Staging(v) !in dirs
       case Rotating(rpc) =>
         && well && Built(v, dirs, Promoted(v)) && Staging(v) !in dirs && !rpc.RotateDone?
         && (rpc.WritePrev? ==> Previous !in d.links) && (rpc.WriteCur? ==> Current !in d.links)
       case InstallDone(ok) =>
         && (well <==> ok)
         && (ok ==> Built(v, dirs, Promoted(v)) && Staging(v) !in dirs && d.marker.tmp == Absent)
       case _ => well && Built(v, dirs, Promoted(v)) && Staging(v) !in dirs
                 && (pc.FillMarker? || pc.PublishMarker? ==> d.marker.tmp != Absent)
  }

  lemma InstallStepStands(v: Version, was: Dirs, pc: InstallPc, d: Disk, well: bool, fault: bool, now: Time)
    requires InstallStands(v, was, pc, d, well)
    ensures var (pc', d') := InstallStep(v, pc, d, fault, now);
            InstallStands(v, was, pc', d', well && (Matters(v, pc, d) ==> !fault))
  {
  }

  lemma {:induction false} Stands(v: Version, d: Disk, calls: seq<Call>)
    ensures var (pc, d') := RunInstall(v, d, calls); InstallStands(v, d.dirs, pc, d', GoesWell(v, d, calls))
  {
    if calls != [] {
      Stands(v, d, Front(calls));
      var (pc, d') := RunInstall(v, d, Front(calls));
      InstallStepStands(v, d.dirs, pc, d', GoesWell(v, d, Front(calls)), Last(calls).fault, Last(calls).now);
    }
  }

  /** An install that is over has succeeded exactly when none of the calls that matter failed. Then the version's
      directory is whole, its staging directory and the marker's temporary file are gone, and every other
      directory is as it was. */
  lemma InstallSucceedsIff(v: Version, d: Disk, calls: seq<Call>)
    requires RunInstall(v, d, calls).0.InstallDone?
    ensures RunInstall(v, d, calls).0 == InstallDone(GoesWell(v, d, calls))
    ensures GoesWell(v, d, calls) ==>
              var d' := RunInstall(v, d, calls).1;
              && d'.dirs == (d.dirs - {Staging(v)})[Promoted(v) := Complete]
              && d'.marker.tmp == Absent && d'.marker.file.Whole?
  {
    Stands(v, d, calls);
    MarkerIsAtomic(v, d, calls);
    var d' := RunInstall(v, d, calls).1;
    if GoesWell(v, d, calls) {
      forall n: DirName
        ensures n in d'.dirs <==> n in (d.dirs - {Staging(v)})[Promoted(v) := Complete]
        ensures n in d'.dirs ==> d'.dirs[n] == (d.dirs - {Staging(v)})[Promoted(v) := Complete][n]
      {
        if n != Staging(v) && n != Promoted(v) {
          assert n in d'.dirs <==> n in d'.dirs - {Staging(v), Promoted(v)};
          assert n in d.dirs <==> n in d.dirs - {Staging(v), Promoted(v)};
        }
      }
    }
  }

  /** An extraction that fails takes its staging directory along, unless removing it fails too; nothing else of
      the root has been touched by then. */
  lemma FailedExtraction(v: Version, d: Disk, calls: seq<Call>, k: nat)
    requires k + 1 < |calls| && RunInstall(v, d, calls[..k]).0 == Extract && calls[k].fault
    ensures var (pc, d') := RunInstall(v, d, calls);
            && pc == InstallDone(false) && d' == d.(dirs := d'.dirs) && OthersKept(v, d.dirs, d'.dirs)
            && (Staging(v) in d'.dirs <==> calls[k + 1].fault)
  {
    hide RunInstall, GoesWell;
    var (pc, now) := RunInstall(v, d, calls[..k]);
    Stands(v, d, calls[..k]);
    OnlyDirsBeforeRotation(v, d, calls[..k]);
    AdvanceAt(v, d, calls, k, Extract, now);
    AdvanceAt(v, d, calls, k + 1, DropStaging, now);
    var dirs := RemoveTree(now.dirs, Staging(v), calls[k + 1].fault);
    RemovingStaging(v, d.dirs, now.dirs, calls[k + 1].fault);
    InstallIsOver(v, d, calls, k + 2, false, now.(dirs := dirs));
  }

  lemma RemovingStaging(v: Version, was: Dirs, dirs: Dirs, fault: bool)
    requires OthersKept(v, was, dirs) && Staging(v) in dirs
    ensures var dirs' := RemoveTree(dirs, Staging(v), fault);
            OthersKept(v, was, dirs') && (Staging(v) in dirs' <==> fault)
  {
  }

  /** Before the rotation an install changes directories only. */
  lemma {:induction false} OnlyDirsBeforeRotation(v: Version, d: Disk, calls: seq<Call>)
    ensures var (pc, d') := RunInstall(v, d, calls); BeforeRotation(pc) || pc.DropStaging? ==> d' == d.(dirs := d'.dirs)
  {
    if calls != [] {
      OnlyDirsBeforeRotation(v, d, Front(calls));
    }
  }

  /** A marker that cannot be renamed into place is dropped, unless that fails too; the version stays installed
      without one, as the reader sees it. */
  lemma FailedMarker(v: Version, d: Disk, calls: seq<Call>, k: nat)
    requires k + 1 < |calls| && RunInstall(v, d, calls[..k]).0.PublishMarker? && calls[k].fault
    ensures var (before, (pc, d')) := (RunInstall(v, d, calls[..k]).1, RunInstall(v, d, calls));
            && pc == InstallDone(false) && d'.links == before.links && d'.dirs == before.dirs
            && Built(v, d'.dirs, Promoted(v)) && d'.marker.file == d.marker.file
            && (d'.marker.tmp == Absent <==> !calls[k + 1].fault)
  {
    hide RunInstall, GoesWell;
    var (pc, now) := RunInstall(v, d, calls[..k]);
    Stands(v, d, calls[..k]);
    MarkerIsAtomic(v, d, calls[..k]);
    AdvanceAt(v, d, calls, k, pc, now);
    AdvanceAt(v, d, calls, k + 1, DropMarkerTmp, now);
    InstallIsOver(v, d, calls, k + 2, false, now.(marker := DropTmp(now.marker, calls[k + 1].fault).0));
  }
}
