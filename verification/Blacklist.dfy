/** The store of versions that must not be spawned (internal/blacklist/blacklist.go). */
module Blacklist {
  import opened Common
  import opened Disk

  // -------------------------------------------------------------- The list

  function Versions(list: seq<Record>): set<Version> {
    set r | r in list :: r.version
  }

  predicate Unique(list: seq<Record>) {
    forall i, j :: 0 <= i < j < |list| ==> list[i].version != list[j].version
  }

  /** An empty label is never contained. */
  predicate Contains(list: seq<Record>, v: Version) {
    v != "" && v in Versions(list)
  }

  /** The list with the first record of `e.version` replaced, or `e` appended. */
  function Upsert(list: seq<Record>, e: Record): seq<Record> {
    if list == [] then [e]
    else if list[0].version == e.version then [e] + list[1..]
    else [list[0]] + Upsert(list[1..], e)
  }

  /** What a reader gets: a missing file is an empty list, a torn one an error. */
  function Load(f: TmpFile<seq<Record>>, fault: bool): Option<seq<Record>> {
    if fault then None
    else match f.file
      case Absent => Some([])
      case Torn => None
      case Whole(list) => Some(list)
  }

  function Listed(f: TmpFile<seq<Record>>): set<Version> {
    match f.file
    case Whole(list) => Versions(list)
    case _ => {}
  }

  method ContainsScan(list: seq<Record>, v: Version) returns (found: bool)
    ensures found <==> Contains(list, v)
  {
    if v == "" {
      return false;
    }
    for i := 0 to |list|
      invariant forall k :: 0 <= k < i ==> list[k].version != v
    {
      if list[i].version == v {
        assert v in Versions(list);
        return true;
      }
    }
    return false;
  }

  /** The loop of Add: overwrite the first match and stop, or append. */
  method UpsertScan(existing: seq<Record>, e: Record) returns (list: seq<Record>)
    ensures list == Upsert(existing, e)
  {
    list := existing;
    var replaced := false;
    for i := 0 to |existing|
      invariant !replaced && list == existing
      invariant Upsert(existing, e) == existing[..i] + Upsert(existing[i..], e)
    {
      if list[i].version == e.version {
        list := list[i := e];
        replaced := true;
        break;
      }
      assert existing[i..][1..] == existing[i + 1..];
    }
    if !replaced {
      assert existing[|existing|..] == [];
      list := list + [e];
    }
  }

  lemma VersionsOfCons(r: Record, rest: seq<Record>)
    ensures Versions([r] + rest) == {r.version} + Versions(rest)
  {
  }

  lemma {:induction false} UpsertVersions(list: seq<Record>, e: Record)
    ensures Versions(Upsert(list, e)) == Versions(list) + {e.version} && e in Upsert(list, e)
  {
    if list != [] {
      var head, rest := list[0], list[1..];
      assert list == [head] + rest;
      VersionsOfCons(head, rest);
      if head.version == e.version {
        VersionsOfCons(e, rest);
      } else {
        UpsertVersions(rest, e);
        VersionsOfCons(head, Upsert(rest, e));
      }
    }
  }

  /** Every other version keeps its record and its place. */
  lemma {:induction false} UpsertKeepsOthers(list: seq<Record>, e: Record)
    ensures |list| <= |Upsert(list, e)|
    ensures forall k :: 0 <= k < |list| && list[k].version != e.version ==> Upsert(list, e)[k] == list[k]
  {
    if list != [] && list[0].version != e.version {
      UpsertKeepsOthers(list[1..], e);
    }
  }

  lemma {:induction false} UpsertKeepsUnique(list: seq<Record>, e: Record)
    requires Unique(list)
    ensures Unique(Upsert(list, e))
    ensures |Upsert(list, e)| == if e.version in Versions(list) then |list| else |list| + 1
  {
    if list != [] {
      var head, rest := list[0], list[1..];
      assert list == [head] + rest;
      VersionsOfCons(head, rest);
      if head.version != e.version {
        UpsertKeepsUnique(rest, e);
        UpsertVersions(rest, e);
        UniqueOfCons(head, Upsert(rest, e));
      }
    }
  }

  lemma UniqueOfCons(r: Record, rest: seq<Record>)
    requires Unique(rest) && r.version !in Versions(rest)
    ensures Unique([r] + rest)
  {
    forall i | 0 <= i < |rest|
      ensures rest[i].version != r.version
    {
      assert rest[i] in rest;
    }
  }

  // -------------------------------------------------------------- Save

  /** The next system call of a save. */
  datatype SavePc = MakeDir | ClearStale | Create | Write | Sync | Close | Commit | Discard | SaveDone(ok: bool)

  function SaveStep(pc: SavePc, list: seq<Record>, f: TmpFile<seq<Record>>, fault: bool)
    : (SavePc, TmpFile<seq<Record>>)
  {
    match pc
    case MakeDir => (if fault then SaveDone(false) else ClearStale, f)
    case ClearStale => (Create, DropTmp(f, fault).0)
    case Create =>
      var (f', ok) := CreateTmp(f, fault);
      (if ok then Write else SaveDone(false), f')
    case Write =>
      var (f', ok) := FillTmp(f, list, fault);
      (if ok then Sync else Discard, f')
    case Sync => (if fault then Discard else Close, f)
    case Close => (if fault then Discard else Commit, f)
    case Commit =>
      var (f', ok) := Publish(f, fault);
      (if ok then SaveDone(true) else Discard, f')
    case Discard => (SaveDone(false), DropTmp(f, fault).0)
    case SaveDone(_) => (pc, f)
  }

  function RunSave(list: seq<Record>, f: TmpFile<seq<Record>>, faults: seq<bool>): (SavePc, TmpFile<seq<Record>>) {
    if faults == [] then (MakeDir, f)
    else
      var (pc, f') := RunSave(list, f, Front(faults));
      SaveStep(pc, list, f', Last(faults))
  }

  /** Enough for any save. */
  const SAVE_CALLS: nat := 8

  lemma Advance(list: seq<Record>, f: TmpFile<seq<Record>>, faults: seq<bool>, k: nat,
                pc: SavePc, now: TmpFile<seq<Record>>)
    requires k < |faults| && RunSave(list, f, faults[..k]) == (pc, now)
    ensures RunSave(list, f, faults[..k + 1]) == SaveStep(pc, list, now, faults[k])
  {
    assert Front(faults[..k + 1]) == faults[..k];
  }

  /** A save that is over makes no further call. */
  lemma {:induction false} SaveIsOver(list: seq<Record>, f: TmpFile<seq<Record>>, faults: seq<bool>, k: nat,
                                      ok: bool, now: TmpFile<seq<Record>>)
    requires k <= |faults| && RunSave(list, f, faults[..k]) == (SaveDone(ok), now)
    ensures RunSave(list, f, faults) == (SaveDone(ok), now)
    decreases |faults| - k
  {
    if k == |faults| {
      assert faults[..k] == faults;
    } else {
      Advance(list, f, faults, k, SaveDone(ok), now);
      SaveIsOver(list, f, faults, k + 1, ok, now);
    }
  }

  /** `faults` says which of the calls fail; what the save does about it is its run under these failures. */
  method Save(root: InstallRoot, list: seq<Record>, faults: seq<bool>) returns (ok: bool)
    requires |faults| >= SAVE_CALLS
    modifies root`list
    ensures RunSave(list, old(root.list), faults) == (SaveDone(ok), root.list)
  {
    ghost var was := root.list;
    Advance(list, was, faults, 0, MakeDir, was);
    if faults[0] {
      SaveIsOver(list, was, faults, 1, false, was);
      return false;
    }
    Advance(list, was, faults, 1, ClearStale, was);
    root.list := DropTmp(root.list, faults[1]).0;
    Advance(list, was, faults, 2, Create, root.list);
    var (created, isNew) := CreateTmp(root.list, faults[2]);
    root.list := created;
    if !isNew {
      SaveIsOver(list, was, faults, 3, false, root.list);
      return false;
    }
    ok := FillAndCommit(root, list, faults, was);
  }

  /** Save from the open temporary file on: write, sync, close, rename; any failure discards the file. */
  method FillAndCommit(root: InstallRoot, list: seq<Record>, faults: seq<bool>, ghost was: TmpFile<seq<Record>>)
    returns (ok: bool)
    requires |faults| >= SAVE_CALLS && RunSave(list, was, faults[..3]) == (Write, root.list)
    modifies root`list
    ensures RunSave(list, was, faults) == (SaveDone(ok), root.list)
  {
    Advance(list, was, faults, 3, Write, root.list);
    var (filled, written) := FillTmp(root.list, list, faults[3]);
    root.list, ok := filled, written;
    var k := 4;
    if ok {
      Advance(list, was, faults, 4, Sync, root.list);
      ok, k := !faults[4], 5;
    }
    if ok {
      Advance(list, was, faults, 5, Close, root.list);
      ok, k := !faults[5], 6;
    }
    if ok {
      Advance(list, was, faults, 6, Commit, root.list);
      var (committed, renamed) := Publish(root.list, faults[6]);
      root.list, ok, k := committed, renamed, 7;
    }
    if !ok {
      Advance(list, was, faults, k, Discard, root.list);
      root.list := DropTmp(root.list, faults[k]).0;
      k := k + 1;
    }
    SaveIsOver(list, was, faults, k, ok, root.list);
  }

  predicate SaveLayout(list: seq<Record>, f: TmpFile<seq<Record>>, pc: SavePc, f': TmpFile<seq<Record>>) {
    && (pc == SaveDone(true) ==> f' == TmpFile(Whole(list), Absent))
    && (pc != SaveDone(true) ==> f'.file == f.file)
    && (pc in {Sync, Close, Commit} ==> f'.tmp == Whole(list))
  }

  /** Kill or failure at any point: the file is the old one until the rename, the whole new list after it,
      and Save reports success exactly when the new list is in place. */
  lemma {:induction false} SaveIsAtomic(list: seq<Record>, f: TmpFile<seq<Record>>, faults: seq<bool>)
    ensures var (pc, f') := RunSave(list, f, faults); SaveLayout(list, f, pc, f')
  {
    if faults != [] {
      SaveIsAtomic(list, f, Front(faults));
    }
  }

  // A save is over after its calls, and succeeds exactly when none of those that matter fails.

  predicate SaveGoesWell(faults: seq<bool>) {
    |faults| >= 7 && !faults[0] && !faults[2] && !faults[3] && !faults[4] && !faults[5] && !faults[6]
  }

  /** Where a save stands, read off the failures it met; `stale` says that a temporary file was there before. */
  predicate SaveStandsAt(pc: SavePc, tmp: File<seq<Record>>, list: seq<Record>, stale: bool, faults: seq<bool>) {
    var n := |faults|;
    var created := n >= 3 && !faults[0] && !faults[2] && !(stale && faults[1]);
    match pc
    case MakeDir => n == 0 && (stale <==> tmp != Absent)
    case ClearStale => n == 1 && !faults[0] && (stale <==> tmp != Absent)
    case Create => n == 2 && !faults[0] && (tmp == Absent <==> !(stale && faults[1]))
    case Write => n == 3 && created && tmp != Absent
    case Sync => n == 4 && created && !faults[3] && tmp == Whole(list)
    case Close => n == 5 && created && !faults[3] && !faults[4] && tmp == Whole(list)
    case Commit => n == 6 && created && !faults[3] && !faults[4] && !faults[5] && tmp == Whole(list)
    case Discard =>
      && 4 <= n <= 7 && created && faults[n - 1] && tmp != Absent
      && (n > 4 ==> !faults[3]) && (n > 5 ==> !faults[4]) && (n > 6 ==> !faults[5])
    case SaveDone(ok) =>
      if ok then n >= 7 && created && SaveGoesWell(faults)
      else
        || (n >= 1 && faults[0] && (tmp == Absent <==> !stale))
        || (n >= 3 && !faults[0] && !created && (tmp == Absent <==> !stale || !faults[1]))
        || (n >= 5 && created && faults[3] && (tmp == Absent <==> !faults[4]))
        || (n >= 6 && created && !faults[3] && faults[4] && (tmp == Absent <==> !faults[5]))
        || (n >= 7 && created && !faults[3] && !faults[4] && faults[5] && (tmp == Absent <==> !faults[6]))
        || (n >= 8 && created && !faults[3] && !faults[4] && !faults[5] && faults[6]
            && (tmp == Absent <==> !faults[7]))
  }

  lemma SaveStepStands(pc: SavePc, list: seq<Record>, now: TmpFile<seq<Record>>, stale: bool, faults: seq<bool>,
                       fault: bool)
    requires SaveStandsAt(pc, now.tmp, list, stale, faults)
    ensures var (pc', f') := SaveStep(pc, list, now, fault);
            SaveStandsAt(pc', f'.tmp, list, stale, faults + [fault])
  {
    var more := faults + [fault];
    assert forall i :: 0 <= i < |faults| ==> more[i] == faults[i];
  }

  lemma {:induction false} SaveStands(list: seq<Record>, f: TmpFile<seq<Record>>, faults: seq<bool>)
    ensures var (pc, f') := RunSave(list, f, faults); SaveStandsAt(pc, f'.tmp, list, f.tmp != Absent, faults)
  {
    if faults != [] {
      SaveStands(list, f, Front(faults));
      var (pc, f') := RunSave(list, f, Front(faults));
      SaveStepStands(pc, list, f', f.tmp != Absent, Front(faults), Last(faults));
      assert Front(faults) + [Last(faults)] == faults;
    }
  }

  /** A save reports success exactly when its directory, create, write, sync, close and rename calls do, and a
      temporary file left by an earlier crash, if there is one, could be removed. */
  lemma SaveSucceedsIff(list: seq<Record>, f: TmpFile<seq<Record>>, faults: seq<bool>)
    requires |faults| >= SAVE_CALLS
    ensures RunSave(list, f, faults).0 == SaveDone(SaveGoesWell(faults) && (f.tmp == Absent || !faults[1]))
  {
    SaveStands(list, f, faults);
  }

  /** A save that got its temporary file made leaves none behind, unless it fails and the removal right after the
      failing call fails as well; one that did not get so far leaves a stale one that it could not remove. */
  lemma SaveLeavesNoTmpIff(list: seq<Record>, f: TmpFile<seq<Record>>, x: seq<bool>)
    requires |x| >= SAVE_CALLS
    ensures RunSave(list, f, x).1.tmp == Absent <==>
              if x[0] then f.tmp == Absent
              else if x[2] || (f.tmp != Absent && x[1]) then f.tmp == Absent || !x[1]
              else if x[3] then !x[4]
              else if x[4] then !x[5]
              else if x[5] then !x[6]
              else x[6] ==> !x[7]
  {
    SaveStands(list, f, x);
    SaveIsAtomic(list, f, x);
  }

  // -------------------------------------------------------------- Add

  datatype AddResult = Added(list: seq<Record>) | AddFailed

  /** When an add succeeds: the entry has a version, the list could be read (so it was not torn), and the save goes
      well. */
  predicate AddGoesWell(f: TmpFile<seq<Record>>, e: Record, unread: bool, faults: seq<bool>)
    requires |faults| >= SAVE_CALLS
  {
    e.version != "" && !unread && f.file != Torn && SaveGoesWell(faults) && (f.tmp == Absent || !faults[1])
  }

  method Add(root: InstallRoot, e: Record, now: Time, unread: bool, faults: seq<bool>) returns (r: AddResult)
    requires |faults| >= SAVE_CALLS
    modifies root`list
    ensures r.Added? <==> AddGoesWell(old(root.list), e, unread, faults)
    ensures r.Added? ==> root.list.file == Whole(r.list)
    ensures r.Added? ==> exists was, stamped ::
                           && was == (if old(root.list.file).Whole? then old(root.list.file.content) else [])
                           && r.list == Upsert(was, stamped)
                           && stamped.version == e.version && stamped.reason == e.reason
                           && stamped.at == if e.at == ZERO_TIME then now else e.at
    ensures r.AddFailed? ==> root.list.file == old(root.list.file)
  {
    if e.version == "" {
      return AddFailed;
    }
    var stamped := if e.at == ZERO_TIME then e.(at := now) else e;
    var existing := Load(root.list, unread);
    if existing == None {
      return AddFailed;
    }
    var list := UpsertScan(existing.value, stamped);
    var ok := Save(root, list, faults);
    SaveIsAtomic(list, old(root.list), faults);
    SaveSucceedsIff(list, old(root.list), faults);
    r := if ok then Added(list) else AddFailed;
  }

  /** An add that reports success loses no version, keeps versions unique and lists the new one. */
  lemma CompletedAddLosesNothing(f: TmpFile<seq<Record>>, was: seq<Record>, e: Record, faults: seq<bool>)
    requires Load(f, false) == Some(was) && RunSave(Upsert(was, e), f, faults).0 == SaveDone(true)
    ensures var f' := RunSave(Upsert(was, e), f, faults).1;
            && Listed(f') == Listed(f) + {e.version}
            && (Unique(was) ==> Load(f', false).Some? && Unique(Load(f', false).value))
  {
    SaveIsAtomic(Upsert(was, e), f, faults);
    UpsertVersions(was, e);
    if Unique(was) {
      UpsertKeepsUnique(was, e);
    }
  }

  /** Two adds that both load before either saves, save one after the other and both report success: the second
      version is listed, and the first survives exactly when it is the same one or was listed before. */
  lemma OverlappingAddsKeepIff(e1: Record, e2: Record, f: TmpFile<seq<Record>>, was: seq<Record>,
                               s1: seq<bool>, s2: seq<bool>)
    requires Load(f, false) == Some(was)
    requires RunSave(Upsert(was, e1), f, s1).0 == SaveDone(true)
    requires RunSave(Upsert(was, e2), RunSave(Upsert(was, e1), f, s1).1, s2).0 == SaveDone(true)
    ensures var f' := RunSave(Upsert(was, e2), RunSave(Upsert(was, e1), f, s1).1, s2).1;
            && Listed(f') == Versions(was) + {e2.version}
            && (e1.version in Listed(f') <==> e1.version == e2.version || e1.version in Versions(was))
  {
    SaveIsAtomic(Upsert(was, e2), RunSave(Upsert(was, e1), f, s1).1, s2);
    UpsertVersions(was, e2);
  }
}
