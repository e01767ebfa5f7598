/** The three-rename swap of `current` and `previous` (internal/supervisor/symlinks.go). */
module Symlinks {
  import opened Common
  import opened Disk

  datatype SwapResult = Swapped | NoRollbackTarget | SwapFailed

  /** Where the swap stands: the next system call to make. */
  datatype SwapPc = ReadCurrent | ReadPrevious(cur: Target) | ClearTmp | MoveCurrentAside | MovePreviousIn
                  | PutCurrentBack | MoveOldOut | SwapDone(result: SwapResult)

  function SwapStep(pc: SwapPc, l: Links, fault: bool): (SwapPc, Links) {
    match pc
    case ReadCurrent =>
      (match Readlink(l, Current, fault)
       case Found(t) => ReadPrevious(t)
       case Missing => SwapDone(NoRollbackTarget)
       case Broken => SwapDone(SwapFailed), l)
    case ReadPrevious(cur) =>
      (match Readlink(l, Previous, fault)
       case Found(t) => if t == cur then SwapDone(NoRollbackTarget) else ClearTmp
       case Missing => SwapDone(NoRollbackTarget)
       case Broken => SwapDone(SwapFailed), l)
    case ClearTmp =>
      var (l', ok) := Remove(l, SwapTmp, fault);
      (if ok then MoveCurrentAside else SwapDone(SwapFailed), l')
    case MoveCurrentAside =>
      var (l', ok) := Rename(l, Current, SwapTmp, fault);
      (if ok then MovePreviousIn else SwapDone(SwapFailed), l')
    case MovePreviousIn =>
      var (l', ok) := Rename(l, Previous, Current, fault);
      (if ok then MoveOldOut else PutCurrentBack, l')
    case PutCurrentBack =>
      (SwapDone(SwapFailed), Rename(l, SwapTmp, Current, fault).0)
    case MoveOldOut =>
      var (l', ok) := Rename(l, SwapTmp, Previous, fault);
      (SwapDone(if ok then Swapped else SwapFailed), l')
    case SwapDone(_) => (pc, l)
  }

  /** The links after the first |faults| calls of a swap; a kill can leave any of these behind. */
  function RunSwap(l: Links, faults: seq<bool>): (SwapPc, Links) {
    if faults == [] then (ReadCurrent, l)
    else
      var (pc, l') := RunSwap(l, Front(faults));
      SwapStep(pc, l', Last(faults))
  }

  /** Enough for any swap: two reads, a remove and up to three renames. */
  const SWAP_CALLS: nat := 6

  lemma Advance(l: Links, faults: seq<bool>, k: nat, pc: SwapPc, now: Links)
    requires k < |faults| && RunSwap(l, faults[..k]) == (pc, now)
    ensures RunSwap(l, faults[..k + 1]) == SwapStep(pc, now, faults[k])
  {
    assert Front(faults[..k + 1]) == faults[..k];
  }

  /** A swap that is over makes no further call. */
  lemma {:induction false} SwapIsOver(l: Links, faults: seq<bool>, k: nat, r: SwapResult, now: Links)
    requires k <= |faults| && RunSwap(l, faults[..k]) == (SwapDone(r), now)
    ensures RunSwap(l, faults) == (SwapDone(r), now)
    decreases |faults| - k
  {
    if k == |faults| {
      assert faults[..k] == faults;
    } else {
      Advance(l, faults, k, SwapDone(r), now);
      SwapIsOver(l, faults, k + 1, r, now);
    }
  }

  /** `faults` says which of the calls fail; what the swap does about it is its run under these failures. */
  method SwapCurrentPrevious(root: InstallRoot, faults: seq<bool>) returns (r: SwapResult)
    requires |faults| >= SWAP_CALLS
    modifies root`links
    ensures RunSwap(old(root.links), faults) == (SwapDone(r), root.links)
    ensures r == Swapped <==> CanSwap(old(root.links)) && NoneFails(faults, SWAP_CALLS)
    ensures r == Swapped ==> root.links == SwapLinks(old(root.links))
    ensures r == NoRollbackTarget <==> FindsNoTarget(old(root.links), faults)
    ensures r == NoRollbackTarget ==> root.links == old(root.links)
  {
    hide FindsNoTarget, NoneFails, SwapLinks, CanSwap;
    SwapSucceedsIff(root.links, faults);
    RefusedIff(root.links, faults);
    r := TrySwap(root, faults);
  }

  method TrySwap(root: InstallRoot, faults: seq<bool>) returns (r: SwapResult)
    requires |faults| >= SWAP_CALLS
    modifies root`links
    ensures RunSwap(old(root.links), faults) == (SwapDone(r), root.links)
  {
    ghost var was, k := root.links, 1;
    var cur := Readlink(root.links, Current, faults[0]);
    Advance(was, faults, 0, ReadCurrent, was);
    match cur {
      case Missing => r := NoRollbackTarget;
      case Broken => r := SwapFailed;
      case Found(curTarget) =>
        k := 2;
        var prev := Readlink(root.links, Previous, faults[1]);
        Advance(was, faults, 1, ReadPrevious(curTarget), was);
        match prev {
          case Missing => r := NoRollbackTarget;
          case Broken => r := SwapFailed;
          case Found(prevTarget) =>
            if curTarget == prevTarget {
              r := NoRollbackTarget;
            } else {
              r := ExchangeLinks(root, faults, was);
              return;
            }
        }
    }
    SwapIsOver(was, faults, k, r, root.links);
  }

  /** Clears a stray temporary link and moves `current` aside. */
  method ExchangeLinks(root: InstallRoot, faults: seq<bool>, ghost was: Links) returns (r: SwapResult)
    requires |faults| >= SWAP_CALLS && RunSwap(was, faults[..2]) == (ClearTmp, root.links)
    modifies root`links
    ensures RunSwap(was, faults) == (SwapDone(r), root.links)
  {
    hide RunSwap;
    Advance(was, faults, 2, ClearTmp, root.links);
    var cleared := root.RemoveLink(SwapTmp, faults[2]);
    if !cleared {
      SwapIsOver(was, faults, 3, SwapFailed, root.links);
      return SwapFailed;
    }
    Advance(was, faults, 3, MoveCurrentAside, root.links);
    var aside := root.RenameLink(Current, SwapTmp, faults[3]);
    if !aside {
      SwapIsOver(was, faults, 4, SwapFailed, root.links);
      return SwapFailed;
    }
    r := FinishSwap(root, faults, was);
  }

  /** The other two renames, with the attempt to put `current` back. */
  method FinishSwap(root: InstallRoot, faults: seq<bool>, ghost was: Links) returns (r: SwapResult)
    requires |faults| >= SWAP_CALLS && RunSwap(was, faults[..4]) == (MovePreviousIn, root.links)
    modifies root`links
    ensures RunSwap(was, faults) == (SwapDone(r), root.links)
  {
    hide RunSwap;
    Advance(was, faults, 4, MovePreviousIn, root.links);
    var moved := root.RenameLink(Previous, Current, faults[4]);
    if !moved {
      Advance(was, faults, 5, PutCurrentBack, root.links);
      var _ := root.RenameLink(SwapTmp, Current, faults[5]);
      r := SwapFailed;
    } else {
      Advance(was, faults, 5, MoveOldOut, root.links);
      var done := root.RenameLink(SwapTmp, Previous, faults[5]);
      r := if done then Swapped else SwapFailed;
    }
    SwapIsOver(was, faults, 6, r, root.links);
  }

  predicate CanSwap(l: Links) {
    Current in l && Previous in l && l[Current] != l[Previous]
  }

  /** What a completed swap leaves. */
  function SwapLinks(l: Links): Links
    requires CanSwap(l)
  {
    (l - {SwapTmp})[Current := l[Previous]][Previous := l[Current]]
  }

  /** `current` and `previous` name `c` and `p`. */
  predicate Both(c: Target, p: Target, l: Links) {
    Current in l && l[Current] == c && Previous in l && l[Previous] == p
  }

  predicate CurrentAside(c: Target, p: Target, l: Links) {
    Current !in l && SwapTmp in l && l[SwapTmp] == c && Previous in l && l[Previous] == p
  }

  predicate HalfSwapped(c: Target, p: Target, l: Links) {
    Previous !in l && Current in l && l[Current] == p && SwapTmp in l && l[SwapTmp] == c
  }

  /** The layout at each point of a swap that began with `current` at `c` and `previous` at `p`. */
  predicate SwapLayout(c: Target, p: Target, pc: SwapPc, l: Links) {
    match pc
    case ReadCurrent => Both(c, p, l)
    case ReadPrevious(cur) => Both(c, p, l) && cur == c
    case ClearTmp => Both(c, p, l)
    case MoveCurrentAside => Both(c, p, l) && SwapTmp !in l
    case MovePreviousIn => CurrentAside(c, p, l)
    case PutCurrentBack => CurrentAside(c, p, l)
    case MoveOldOut => HalfSwapped(c, p, l)
    case SwapDone(Swapped) => Both(p, c, l) && SwapTmp !in l
    case SwapDone(NoRollbackTarget) => false
    case SwapDone(SwapFailed) => Both(c, p, l) || CurrentAside(c, p, l) || HalfSwapped(c, p, l)
  }

  lemma SwapStepLayout(c: Target, p: Target, pc: SwapPc, l: Links, fault: bool)
    requires c != p && SwapLayout(c, p, pc, l)
    ensures var (pc', l') := SwapStep(pc, l, fault); SwapLayout(c, p, pc', l')
  {
  }

  lemma {:induction false} SwapLayouts(l: Links, faults: seq<bool>)
    requires CanSwap(l)
    ensures var (pc, l') := RunSwap(l, faults); SwapLayout(l[Current], l[Previous], pc, l')
  {
    if faults != [] {
      SwapLayouts(l, Front(faults));
      var (pc, l') := RunSwap(l, Front(faults));
      SwapStepLayout(l[Current], l[Previous], pc, l', Last(faults));
    }
  }

  /** Kill or failure at any point: both old targets are still named by one of the three links, and
      `current` is missing only while it stands aside under the temporary name. */
  lemma SwapKeepsBothTargets(l: Links, faults: seq<bool>)
    requires CanSwap(l)
    ensures var l' := RunSwap(l, faults).1;
            && (exists n :: n in l' && l'[n] == l[Current])
            && (exists n :: n in l' && l'[n] == l[Previous])
            && (Current in l' ==> l'[Current] == l[Current] || l'[Current] == l[Previous])
            && (Current !in l' ==> CurrentAside(l[Current], l[Previous], l'))
  {
    SwapLayouts(l, faults);
    var l' := RunSwap(l, faults).1;
    var c, p := l[Current], l[Previous];
    if Both(c, p, l') {
      assert l'[Current] == c && l'[Previous] == p;
    } else if CurrentAside(c, p, l') {
      assert l'[SwapTmp] == c && l'[Previous] == p;
    } else if HalfSwapped(c, p, l') {
      assert l'[SwapTmp] == c && l'[Current] == p;
    } else {
      assert l'[Previous] == c && l'[Current] == p;
    }
  }

  lemma CompletedSwap(l: Links, faults: seq<bool>)
    requires RunSwap(l, faults).0 == SwapDone(Swapped)
    ensures CanSwap(l) && RunSwap(l, faults).1 == SwapLinks(l)
  {
    SwappedNeedsTargets(l, faults);
    SwapLayouts(l, faults);
    SameLinks(RunSwap(l, faults).1, SwapLinks(l));
  }

  /** Swapping twice undoes the swap; only a stray temporary link is gone. */
  lemma SwapIsItsOwnInverse(l: Links, faults: seq<bool>, again: seq<bool>)
    requires RunSwap(l, faults).0 == SwapDone(Swapped)
    requires RunSwap(RunSwap(l, faults).1, again).0 == SwapDone(Swapped)
    ensures RunSwap(RunSwap(l, faults).1, again).1 == l - {SwapTmp}
  {
    CompletedSwap(l, faults);
    CompletedSwap(SwapLinks(l), again);
  }

  /** There is no distinct rollback target, and the reads that tell so go well. */
  predicate FindsNoTarget(l: Links, faults: seq<bool>)
    requires |faults| >= 2
  {
    && !faults[0]
    && (Current in l ==> !faults[1] && (Previous in l ==> l[Previous] == l[Current]))
  }

  /** "No rollback target" is the answer exactly then, and nothing has been touched. */
  lemma RefusedIff(l: Links, faults: seq<bool>)
    requires |faults| >= 2
    ensures RunSwap(l, faults).0 == SwapDone(NoRollbackTarget) <==> FindsNoTarget(l, faults)
    ensures FindsNoTarget(l, faults) ==> RunSwap(l, faults) == (SwapDone(NoRollbackTarget), l)
  {
    SwappedNeedsTargets(l, faults);
    if !CanSwap(l) {
      assert faults[..0] == [];
      Advance(l, faults, 0, ReadCurrent, l);
      var (pc, _) := RunSwap(l, faults[..1]);
      if pc.SwapDone? {
        SwapIsOver(l, faults, 1, pc.result, l);
      } else {
        Advance(l, faults, 1, pc, l);
        SwapIsOver(l, faults, 2, RunSwap(l, faults[..2]).0.result, l);
      }
    }
  }

  /** Without two distinct targets a swap changes nothing, and it refuses only then. */
  lemma {:induction false} SwappedNeedsTargets(l: Links, faults: seq<bool>)
    ensures RunSwap(l, faults).0 == SwapDone(NoRollbackTarget) ==> !CanSwap(l)
    ensures !CanSwap(l) ==> RunSwap(l, faults).1 == l
    ensures !CanSwap(l) ==> RunSwap(l, faults).0 in {ReadCurrent, SwapDone(NoRollbackTarget), SwapDone(SwapFailed)}
                            || (Current in l && RunSwap(l, faults).0 == ReadPrevious(l[Current]))
  {
    if CanSwap(l) {
      SwapLayouts(l, faults);
    } else if faults != [] {
      SwappedNeedsTargets(l, Front(faults));
    }
  }

  // ------------------------------------------------ When a swap leaves no `current`

  predicate NoneFails(faults: seq<bool>, n: nat) {
    n <= |faults| && forall i :: 0 <= i < n ==> !faults[i]
  }

  /** Where a swap between two distinct targets stands, read off the failures it met. */
  predicate StandsAt(pc: SwapPc, faults: seq<bool>) {
    var n := |faults|;
    match pc
    case ReadCurrent => n == 0
    case ReadPrevious(_) => n == 1 && NoneFails(faults, 1)
    case ClearTmp => n == 2 && NoneFails(faults, 2)
    case MoveCurrentAside => n == 3 && NoneFails(faults, 3)
    case MovePreviousIn => n == 4 && NoneFails(faults, 4)
    case PutCurrentBack => n == 5 && NoneFails(faults, 4) && faults[4]
    case MoveOldOut => n == 5 && NoneFails(faults, 5)
    case SwapDone(r) => (!NoneFails(faults, Min(n, 4)) || n >= 6) && (r == Swapped <==> n >= 6 && NoneFails(faults, 6))
  }

  /** The rename to the temporary name is done, and the two ways back to a `current` have not been taken: the
      swap was killed before them, or both renames failed. */
  predicate LosesCurrent(faults: seq<bool>) {
    NoneFails(faults, 4) && (|faults| == 4 || (faults[4] && (|faults| == 5 || faults[5])))
  }

  lemma LosesCurrentSnoc(faults: seq<bool>)
    requires faults != []
    ensures |faults| > 6 ==> LosesCurrent(faults) == LosesCurrent(Front(faults))
    ensures forall n :: 0 <= n < |faults| ==> NoneFails(faults, n) == NoneFails(Front(faults), n)
    ensures NoneFails(faults, |faults|) <==> NoneFails(Front(faults), |faults| - 1) && !Last(faults)
  {
    assert forall i :: 0 <= i < |faults| - 1 ==> Front(faults)[i] == faults[i];
    if NoneFails(Front(faults), |faults| - 1) && !Last(faults) {
      forall i | 0 <= i < |faults| ensures !faults[i] {
        if i < |faults| - 1 {
          assert !Front(faults)[i];
        }
      }
    }
    forall n | 0 <= n < |faults| ensures NoneFails(faults, n) == NoneFails(Front(faults), n) {
      if NoneFails(faults, n) {
        forall i | 0 <= i < n ensures !Front(faults)[i] {
          assert !faults[i];
        }
      } else {
        var i :| 0 <= i < n && faults[i];
        assert Front(faults)[i];
      }
    }
  }

  /** A swap, killed after any number of calls of which any failed, leaves no `current` exactly then. */
  lemma {:induction false} SwapLosesCurrentIff(l: Links, faults: seq<bool>)
    requires CanSwap(l)
    ensures StandsAt(RunSwap(l, faults).0, faults)
    ensures Current !in RunSwap(l, faults).1 <==> LosesCurrent(faults)
  {
    SwapLayouts(l, faults);
    if faults != [] {
      SwapLosesCurrentIff(l, Front(faults));
      SwapLayouts(l, Front(faults));
      LosesCurrentSnoc(faults);
    }
  }

  /** A swap reports success exactly when there are two distinct targets and none of its six calls fails. */
  lemma SwapSucceedsIff(l: Links, faults: seq<bool>)
    requires |faults| >= SWAP_CALLS
    ensures RunSwap(l, faults).0 == SwapDone(Swapped) <==> CanSwap(l) && NoneFails(faults, SWAP_CALLS)
    ensures CanSwap(l) && NoneFails(faults, SWAP_CALLS) ==> RunSwap(l, faults) == (SwapDone(Swapped), SwapLinks(l))
  {
    if CanSwap(l) {
      SwapLosesCurrentIff(l, faults);
      if NoneFails(faults, SWAP_CALLS) {
        SwapLayouts(l, faults);
        CompletedSwap(l, faults);
      }
    } else {
      SwappedNeedsTargets(l, faults);
    }
  }

  lemma {:induction false} UnswappableStandsAt(l: Links, faults: seq<bool>)
    requires !CanSwap(l)
    ensures match RunSwap(l, faults).0
            case ReadCurrent => |faults| == 0
            case ReadPrevious(_) => |faults| == 1
            case SwapDone(_) => true
            case _ => false
  {
    if faults != [] {
      UnswappableStandsAt(l, Front(faults));
      SwappedNeedsTargets(l, Front(faults));
    }
  }

  /** Whatever fails, a swap is over after its calls. */
  lemma SwapEnds(l: Links, faults: seq<bool>)
    requires |faults| >= SWAP_CALLS
    ensures RunSwap(l, faults).0.SwapDone?
  {
    if CanSwap(l) {
      SwapLosesCurrentIff(l, faults);
    } else {
      UnswappableStandsAt(l, faults);
    }
  }
}
