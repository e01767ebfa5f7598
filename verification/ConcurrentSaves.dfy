/** Two saves of the blacklist whose calls interleave (internal/blacklist/blacklist.go). The temporary name is
    shared; a file that has been created stays open in its writer's hands even when its name is removed, so a
    writer can rename what the other one created. */
module ConcurrentSaves {
  import opened Common
  import opened Disk
  import L = Blacklist

  datatype Writer = One | Two

  function Other(w: Writer): Writer {
    if w == One then Two else One
  }

  /** What the temporary name stands for: nothing, a file of an earlier crash, or the file a writer created. */
  datatype Slot = Empty | Stale | Of(writer: Writer)

  /** What the blacklist's own name stands for: the file from before both saves, or the file a writer created. */
  datatype Shown = Before | Published(writer: Writer)

  /** A writer's next call, and whether the file it created has its content. */
  datatype Progress = Progress(pc: L.SavePc, filled: bool)

  datatype State = State(slot: Slot, shown: Shown, one: Progress, two: Progress)

  function At(s: State, w: Writer): Progress {
    if w == One then s.one else s.two
  }

  function With(s: State, w: Writer, p: Progress): State {
    if w == One then s.(one := p) else s.(two := p)
  }

  function Begin(stale: bool): State {
    State(if stale then Stale else Empty, Before, Progress(L.MakeDir, false), Progress(L.MakeDir, false))
  }

  /** One call of writer `w`. */
  function Step(s: State, w: Writer, fault: bool): State {
    var p := At(s, w);
    match p.pc
    case MakeDir => With(s, w, p.(pc := if fault then L.SaveDone(false) else L.ClearStale))
    case ClearStale => With(if fault then s else s.(slot := Empty), w, p.(pc := L.Create))
    case Create =>
      if fault || s.slot != Empty then With(s, w, p.(pc := L.SaveDone(false)))
      else With(s.(slot := Of(w)), w, p.(pc := L.Write))
    case Write =>
      if fault then With(s, w, p.(pc := L.Discard)) else With(s, w, Progress(L.Sync, true))
    case Sync => With(s, w, p.(pc := if fault then L.Discard else L.Close))
    case Close => With(s, w, p.(pc := if fault then L.Discard else L.Commit))
    case Commit =>
      if fault || !s.slot.Of? then With(s, w, p.(pc := L.Discard))
      else With(s.(slot := Empty, shown := Published(s.slot.writer)), w, p.(pc := L.SaveDone(true)))
    case Discard => With(if fault then s else s.(slot := Empty), w, p.(pc := L.SaveDone(false)))
    case SaveDone(_) => s
  }

  datatype Turn = Turn(writer: Writer, fault: bool)

  function Run(s: State, turns: seq<Turn>): State {
    if turns == [] then s else Step(Run(s, Front(turns)), Last(turns).writer, Last(turns).fault)
  }

  lemma RunStep(s: State, turns: seq<Turn>, i: nat)
    requires i < |turns|
    ensures Run(s, turns[..i + 1]) == Step(Run(s, turns[..i]), turns[i].writer, turns[i].fault)
  {
    assert Front(turns[..i + 1]) == turns[..i];
  }

  /** What a reader gets, if the writers save `one` and `two` over the file `f`. */
  function FileIn(s: State, f: File<seq<Record>>, one: seq<Record>, two: seq<Record>): File<seq<Record>> {
    match s.shown
    case Before => f
    case Published(w) => if At(s, w).filled then Whole(if w == One then one else two) else Torn
  }

  // ------------------------------------------------- One writer alone

  function AllBy(w: Writer, faults: seq<bool>): seq<Turn> {
    seq(|faults|, i requires 0 <= i < |faults| => Turn(w, faults[i]))
  }

  /** What the temporary name holds. */
  function TmpIn(s: State, f: TmpFile<seq<Record>>, one: seq<Record>): File<seq<Record>> {
    match s.slot
    case Empty => Absent
    case Stale => f.tmp
    case Of(w) => if At(s, w).filled then Whole(one) else Torn
  }

  predicate Alone(s: State) {
    && (s.slot == Of(One) ==> s.one.pc in {L.Write, L.Sync, L.Close, L.Commit, L.Discard, L.SaveDone(false)})
    && s.slot != Of(Two) && s.shown != Published(Two)
    && (s.shown == Published(One) ==> s.one == Progress(L.SaveDone(true), true) && s.slot == Empty)
    && (s.one.pc == L.SaveDone(true) ==> s.shown == Published(One))
    && (s.one.pc == L.Write ==> s.slot == Of(One) && !s.one.filled)
    && (s.one.pc in {L.Sync, L.Close, L.Commit} ==> s.slot == Of(One) && s.one.filled)
    && (s.one.pc in {L.MakeDir, L.ClearStale, L.Create} ==> s.shown == Before && !s.one.filled)
  }

  lemma AloneStep(s: State, f: TmpFile<seq<Record>>, one: seq<Record>, fault: bool)
    requires Alone(s) && (s.slot == Stale ==> f.tmp != Absent)
    ensures var s' := Step(s, One, fault);
            && Alone(s') && (s'.slot == Stale ==> f.tmp != Absent)
            && L.SaveStep(s.one.pc, one, TmpFile(FileIn(s, f.file, one, []), TmpIn(s, f, one)), fault) ==
               (s'.one.pc, TmpFile(FileIn(s', f.file, one, []), TmpIn(s', f, one)))
  {
  }

  /** A writer that is not disturbed does what the save on its own does. */
  lemma {:induction false} AloneIsSave(f: TmpFile<seq<Record>>, one: seq<Record>, faults: seq<bool>)
    ensures var s := Run(Begin(f.tmp != Absent), AllBy(One, faults));
            && Alone(s) && (s.slot == Stale ==> f.tmp != Absent)
            && L.RunSave(one, f, faults) == (s.one.pc, TmpFile(FileIn(s, f.file, one, []), TmpIn(s, f, one)))
  {
    var turns := AllBy(One, faults);
    if faults != [] {
      AloneIsSave(f, one, Front(faults));
      assert Front(turns) == AllBy(One, Front(faults));
      AloneStep(Run(Begin(f.tmp != Absent), Front(turns)), f, one, Last(faults));
    }
  }

  // ------------------------------------------------- Two writers

  /** Turn `i` creates the temporary file. */
  predicate Creates(s: State, turns: seq<Turn>, i: nat)
    requires i < |turns|
  {
    var now := Run(s, turns[..i]);
    At(now, turns[i].writer).pc == L.Create && !turns[i].fault && now.slot == Empty
  }

  /** Turn `i` takes the temporary name away: as stale, as a failed save's, or by publishing it. */
  predicate Removes(s: State, turns: seq<Turn>, i: nat)
    requires i < |turns|
  {
    var now := Run(s, turns[..i]);
    !turns[i].fault && (At(now, turns[i].writer).pc in {L.ClearStale, L.Discard} || Publishes(s, turns, i))
  }

  /** Turn `i` is a rename that succeeds, after which its writer reports success. */
  predicate Publishes(s: State, turns: seq<Turn>, i: nat)
    requires i < |turns|
  {
    var now := Run(s, turns[..i]);
    At(now, turns[i].writer).pc == L.Commit && !turns[i].fault && now.slot.Of?
  }

  predicate HasCreated(pc: L.SavePc) {
    pc in {L.Write, L.Sync, L.Close, L.Commit, L.SaveDone(true)}
  }

  /** What holds of a writer and its file at any moment. */
  predicate WriterInv(s: State, w: Writer) {
    var p := At(s, w);
    && (p.pc in {L.MakeDir, L.ClearStale, L.Create, L.Write} ==> !p.filled)
    && (p.pc in {L.Sync, L.Close, L.Commit, L.SaveDone(true)} ==> p.filled)
    && (p.pc in {L.MakeDir, L.ClearStale, L.Create} ==> s.slot != Of(w) && s.shown != Published(w))
  }

  lemma WriterStep(s: State, t: Turn)
    requires WriterInv(s, One) && WriterInv(s, Two)
    ensures var s' := Step(s, t.writer, t.fault); WriterInv(s', One) && WriterInv(s', Two)
  {
  }

  lemma {:induction false} WritersInv(stale: bool, turns: seq<Turn>)
    ensures var s := Run(Begin(stale), turns); WriterInv(s, One) && WriterInv(s, Two)
  {
    if turns != [] {
      hide Step, WriterInv;
      WritersInv(stale, Front(turns));
      WriterStep(Run(Begin(stale), Front(turns)), Last(turns));
    }
  }

  lemma NothingYet(stale: bool, turns: seq<Turn>, w: Writer)
    ensures !HasCreated(At(Run(Begin(stale), turns[..0]), w).pc)
  {
  }

  lemma CreateStep(s: State, t: Turn, w: Writer)
    requires HasCreated(At(Step(s, t.writer, t.fault), w).pc) && !HasCreated(At(s, w).pc)
    ensures t.writer == w && At(s, w).pc == L.Create && !t.fault && s.slot == Empty
  {
  }

  /** The turn at which writer `w` created its file, once it has one. */
  lemma {:induction false} CreatedAt(stale: bool, turns: seq<Turn>, n: nat, w: Writer) returns (c: nat)
    requires n <= |turns| && HasCreated(At(Run(Begin(stale), turns[..n]), w).pc)
    ensures c < n && turns[c].writer == w && Creates(Begin(stale), turns, c)
    ensures forall i :: c < i <= n ==> HasCreated(At(Run(Begin(stale), turns[..i]), w).pc)
  {
    hide Step, Run;
    NothingYet(stale, turns, w);
    RunStep(Begin(stale), turns, n - 1);
    if HasCreated(At(Run(Begin(stale), turns[..n - 1]), w).pc) {
      c := CreatedAt(stale, turns, n - 1, w);
    } else {
      c := n - 1;
      CreateStep(Run(Begin(stale), turns[..n - 1]), turns[n - 1], w);
    }
  }

  /** Between the create of `w` at turn `c` and turn `n` nobody took the name away. */
  predicate Undisturbed(s: State, turns: seq<Turn>, c: nat, n: nat)
    requires n <= |turns|
  {
    forall i :: c < i < n ==> !Removes(s, turns, i)
  }

  /** As long as the name has not been taken away it stands for the file of `w`, and never again after that. */
  lemma {:induction false} NameStandsIff(stale: bool, turns: seq<Turn>, c: nat, n: nat, w: Writer)
    requires c < n <= |turns| && turns[c].writer == w && Creates(Begin(stale), turns, c)
    requires forall i :: c < i <= n ==> HasCreated(At(Run(Begin(stale), turns[..i]), w).pc)
    ensures Run(Begin(stale), turns[..n]).slot == Of(w) <==> Undisturbed(Begin(stale), turns, c, n)
    decreases n
  {
    hide Step, Run;
    RunStep(Begin(stale), turns, n - 1);
    var before := Run(Begin(stale), turns[..n - 1]);
    if n - 1 > c {
      NameStandsIff(stale, turns, c, n - 1, w);
      WritersInv(stale, turns[..n - 1]);
      NameStep(before, w, turns[n - 1]);
      assert Undisturbed(Begin(stale), turns, c, n) <==>
             Undisturbed(Begin(stale), turns, c, n - 1) && !Removes(Begin(stale), turns, n - 1);
    } else {
      NewName(before, turns[c]);
    }
  }

  lemma NewName(s: State, t: Turn)
    requires At(s, t.writer).pc == L.Create && !t.fault && s.slot == Empty
    ensures Step(s, t.writer, t.fault).slot == Of(t.writer)
  {
  }

  lemma NameStep(s: State, w: Writer, t: Turn)
    requires HasCreated(At(s, w).pc) && WriterInv(s, One) && WriterInv(s, Two)
    ensures var removes := !t.fault && (At(s, t.writer).pc in {L.ClearStale, L.Discard}
                                        || (At(s, t.writer).pc == L.Commit && s.slot.Of?));
            Step(s, t.writer, t.fault).slot == Of(w) <==> s.slot == Of(w) && !removes
  {
  }

  lemma RenameStep(s: State, t: Turn)
    requires At(s, t.writer).pc == L.Commit && !t.fault && s.slot.Of?
    ensures var s' := Step(s, t.writer, t.fault);
            s'.shown == Published(s.slot.writer) && At(s', t.writer).pc == L.SaveDone(true)
  {
  }

  /** A rename that succeeds, at turn `k` by writer `w`, publishes the file w created exactly when the other writer
      did not take the temporary name away since w's create; otherwise it publishes the other's file. */
  lemma PublishesOwnIff(stale: bool, turns: seq<Turn>, k: nat) returns (c: nat)
    requires k < |turns| && Publishes(Begin(stale), turns, k)
    ensures var w := turns[k].writer;
            var after := Run(Begin(stale), turns[..k + 1]);
            && c < k && turns[c].writer == w && Creates(Begin(stale), turns, c)
            && At(after, w).pc == L.SaveDone(true)
            && after.shown == Published(if Undisturbed(Begin(stale), turns, c, k) then w else Other(w))
  {
    hide Step, Run;
    var w := turns[k].writer;
    c := CreatedAt(stale, turns, k, w);
    NameStandsIff(stale, turns, c, k, w);
    RunStep(Begin(stale), turns, k);
    RenameStep(Run(Begin(stale), turns[..k]), turns[k]);
  }

  lemma ShownStep(s: State, t: Turn)
    requires !(At(s, t.writer).pc == L.Commit && !t.fault && s.slot.Of?)
    ensures Step(s, t.writer, t.fault).shown == s.shown
  {
  }

  /** The published file never changes but by a rename that succeeds. */
  lemma {:induction false} ShownStays(stale: bool, turns: seq<Turn>, k: nat)
    requires k <= |turns| && forall i :: k <= i < |turns| ==> !Publishes(Begin(stale), turns, i)
    ensures Run(Begin(stale), turns).shown == Run(Begin(stale), turns[..k]).shown
    decreases |turns| - k
  {
    hide Step, Run;
    if k == |turns| {
      assert turns[..k] == turns;
    } else {
      RunStep(Begin(stale), turns, k);
      assert !Publishes(Begin(stale), turns, k);
      ShownStep(Run(Begin(stale), turns[..k]), turns[k]);
      ShownStays(stale, turns, k + 1);
    }
  }

  /** In any interleaving, with any failures and whoever is killed where: after the last successful rename, at turn
      `k` by writer w, a reader gets w's list exactly when the other writer did not take the temporary name away
      between w's create and turn k. If it did, a reader gets the other's list, or a torn file exactly as long as
      the other has not written its file (for ever, if it was killed before that or its write fails). */
  lemma LastRenameDecides(stale: bool, turns: seq<Turn>, k: nat,
                          f: File<seq<Record>>, one: seq<Record>, two: seq<Record>)
    returns (c: nat)
    requires k < |turns| && Publishes(Begin(stale), turns, k)
    requires forall i :: k < i < |turns| ==> !Publishes(Begin(stale), turns, i)
    ensures var w := turns[k].writer;
            var s := Run(Begin(stale), turns);
            var own, others := if w == One then one else two, if w == One then two else one;
            && c < k && turns[c].writer == w && Creates(Begin(stale), turns, c)
            && FileIn(s, f, one, two) ==
                 (if Undisturbed(Begin(stale), turns, c, k) then Whole(own)
                  else if At(s, Other(w)).filled then Whole(others) else Torn)
  {
    hide Step, Run;
    c := PublishesOwnIff(stale, turns, k);
    ShownStays(stale, turns, k + 1);
    FilledByThen(stale, turns, k);
  }

  lemma DoneIsFilled(s: State, w: Writer)
    requires WriterInv(s, One) && WriterInv(s, Two) && At(s, w).pc == L.SaveDone(true)
    ensures At(s, w).filled
  {
    assert WriterInv(s, w);
  }

  lemma FilledStep(s: State, t: Turn, w: Writer)
    requires At(s, w).filled
    ensures At(Step(s, t.writer, t.fault), w).filled
  {
  }

  lemma {:induction false} FilledStays(stale: bool, turns: seq<Turn>, k: nat, w: Writer)
    requires k <= |turns| && At(Run(Begin(stale), turns[..k]), w).filled
    ensures At(Run(Begin(stale), turns), w).filled
    decreases |turns| - k
  {
    hide Step, Run;
    if k == |turns| {
      assert turns[..k] == turns;
    } else {
      RunStep(Begin(stale), turns, k);
      FilledStep(Run(Begin(stale), turns[..k]), turns[k], w);
      FilledStays(stale, turns, k + 1, w);
    }
  }

  /** Writer `w` saves the list `was` with its own entry in it. */
  function ListOf(w: Writer, was: seq<Record>, e1: Record, e2: Record): seq<Record> {
    L.Upsert(was, if w == One then e1 else e2)
  }

  /** Two adds that both loaded `was` and then saved in any interleaving: after the last successful rename, at turn
      `k`, the version that `w` added is listed exactly when the file in place is written and is w's own, or has
      that version anyway. That holds of an add that reported success and of one that did not. */
  lemma AddedIsListedIff(stale: bool, turns: seq<Turn>, k: nat, w: Writer,
                         f: File<seq<Record>>, was: seq<Record>, e1: Record, e2: Record)
    returns (c: nat)
    requires k < |turns| && Publishes(Begin(stale), turns, k)
    requires forall i :: k < i < |turns| ==> !Publishes(Begin(stale), turns, i)
    ensures var s := Run(Begin(stale), turns);
            var file := FileIn(s, f, ListOf(One, was, e1, e2), ListOf(Two, was, e1, e2));
            var version := if w == One then e1.version else e2.version;
            && c < k && turns[c].writer == turns[k].writer && Creates(Begin(stale), turns, c)
            && (version in L.Listed(TmpFile(file, Absent)) <==>
                  if Undisturbed(Begin(stale), turns, c, k) == (w == turns[k].writer)
                  then At(s, w).filled
                  else At(s, Other(w)).filled && (e1.version == e2.version || version in L.Versions(was)))
  {
    hide Step, Run;
    c := LastRenameDecides(stale, turns, k, f, ListOf(One, was, e1, e2), ListOf(Two, was, e1, e2));
    L.UpsertVersions(was, e1);
    L.UpsertVersions(was, e2);
    FilledByThen(stale, turns, k);
  }

  lemma FilledByThen(stale: bool, turns: seq<Turn>, k: nat)
    requires k < |turns| && Publishes(Begin(stale), turns, k)
    ensures At(Run(Begin(stale), turns), turns[k].writer).filled
  {
    hide Step, Run;
    var _ := PublishesOwnIff(stale, turns, k);
    WritersInv(stale, turns[..k + 1]);
    DoneIsFilled(Run(Begin(stale), turns[..k + 1]), turns[k].writer);
    FilledStays(stale, turns, k + 1, turns[k].writer);
  }

  /** If no rename succeeds, a reader gets the old file. */
  lemma NoRenameNoChange(stale: bool, turns: seq<Turn>, f: File<seq<Record>>, one: seq<Record>, two: seq<Record>)
    requires forall i :: 0 <= i < |turns| ==> !Publishes(Begin(stale), turns, i)
    ensures FileIn(Run(Begin(stale), turns), f, one, two) == f
  {
    ShownStays(stale, turns, 0);
    assert turns[..0] == [];
  }

  /** So it can happen: the first writer creates, the second removes and creates, the first writes its nameless
      file and renames the other's. It reports success, and the file is torn. */
  lemma TornByOverlap(f: File<seq<Record>>, one: seq<Record>, two: seq<Record>)
    ensures var turns := [Turn(One, false), Turn(One, false), Turn(One, false),
                          Turn(Two, false), Turn(Two, false), Turn(Two, false),
                          Turn(One, false), Turn(One, false), Turn(One, false), Turn(One, false)];
            var s := Run(Begin(false), turns);
            s.one.pc == L.SaveDone(true) && FileIn(s, f, one, two) == Torn
  {
    var a, b := Turn(One, false), Turn(Two, false);
    var turns := [a, a, a, b, b, b, a, a, a, a];
    var s0 := Begin(false);
    assert Run(s0, turns[..0]) == s0;
    hide Run;
    RunStep(s0, turns, 0);
    RunStep(s0, turns, 1);
    RunStep(s0, turns, 2);
    assert Run(s0, turns[..3]) == State(Of(One), Before, Progress(L.Write, false), Progress(L.MakeDir, false));
    SecondHalf(s0, turns);
  }

  lemma SecondHalf(s0: State, turns: seq<Turn>)
    requires |turns| == 10 && turns[3] == turns[4] == turns[5] == Turn(Two, false)
    requires turns[6] == turns[7] == turns[8] == turns[9] == Turn(One, false)
    requires Run(s0, turns[..3]) == State(Of(One), Before, Progress(L.Write, false), Progress(L.MakeDir, false))
    ensures Run(s0, turns) ==
            State(Empty, Published(Two), Progress(L.SaveDone(true), true), Progress(L.Write, false))
  {
    hide Run;
    RunStep(s0, turns, 3);
    RunStep(s0, turns, 4);
    RunStep(s0, turns, 5);
    assert Run(s0, turns[..6]) == State(Of(Two), Before, Progress(L.Write, false), Progress(L.Write, false));
    RunStep(s0, turns, 6);
    RunStep(s0, turns, 7);
    RunStep(s0, turns, 8);
    RunStep(s0, turns, 9);
    assert turns[..10] == turns;
  }
}
