// Exactly when reconstruction gives back what a recorded stage was dispatched with: also what a skipped
// stage does to the slots rebuilt after it.
module ExactReconstruction {
  import opened Options
  import opened Addresses
  import opened WorkflowModel
  import opened Engine
  import opened EngineSteps
  import opened EngineRuns
  import opened Scoping
  import opened Reconstruction
  import opened FreshRuns
  import opened ReplayProof
  import opened CutProof
  import opened ReconstructionProof
  import opened ResumeProof
  import opened WorkflowRuns
  import opened Reaching
  import opened Entries
  import opened Listings
  import opened Levels
  import opened ReachedReconstruction
  import opened SpoiledReconstruction
  import opened RecordedStages
  import opened RunReconstruction

  // What replaying a skipped stage writes: its recorded result, or the aggregate of no items.
  function SkippedWrite(stage: StageDef): Option<(Name, Value)>
  {
    match stage
    case Work(_, _, _, output, _) => if output.Some? then Some((output.value, Null)) else None
    case Branch(_, _, _, _) => None
    case Loop(_, _, over, _, _, _, _, _, _, output, _, _) =>
      if over.Some? && output.Some? then Some((output.value, Aggregate([]))) else None
    case Nested(name, _, _, _, _, _) => Some((name, Null))
  }

  // A stage skipped for the first time writes nothing live, but its replay writes its output slot.
  lemma SkippedReplay(stage: StageDef, base: Address, context: Option<LoopContext>, st: State, slots: Slots)
    requires Gate(stage, st.slots).Fails? && Clear(st.tree.disk, base + [Stage(stage.name)])
    ensures var after := Dispatch(stage, base, context, None, st).1;
      var write := SkippedWrite(stage);
      && after.slots == st.slots
      && ReplayStage(after.tree.disk, base + [Stage(stage.name)], stage, slots) ==
         (if write.Some? then slots[write.value.0 := write.value.1] else slots)
      && Declared(stage) == (if write.Some? then {write.value.0} else {})
  {
    hide PathOf, Gate, Entered, ItemEntries, SortedNumbers, ItemNumbers, Clear, OnStageExit;
    var at := base + [Stage(stage.name)];
    DispatchSkips(stage, base, context, None, st);
    SkippedOnly(stage, base, context, st);
    EnteredMeta(stage, base, context, st);
    EnteredSlots(stage, base, context, st);
    hide Dispatch;
    var st2 := Entered(stage, base, context, st);
    var after := Dispatch(stage, base, context, None, st).1;
    LeaveKeepsSequence(st2, at, Count(st.counters, PathOf(at)) + 1, context, Skipped, Null);
    if stage.Loop? { NoItems(st.tree.disk, after.tree.disk, at); }
  }

  lemma NoItems(d: Disk, d': Disk, at: Address)
    requires Clear(d, at) && OnlyAt(d, d', at)
    ensures ItemEntries(d', at, SortedNumbers(ItemNumbers(d', at))) == []
  {
    forall a: Address
      ensures at <= a && a != at ==> a !in d'
    {
      assert a != at ==> SameAt(d, d', a);
    }
    assert ItemNumbers(d', at) == {};
  }

  // Outputs of stages that have not run, or were skipped, are not in the live slots; and those of
  // skipped stages are written when the listed stages are replayed.
  ghost predicate Withheld(stages: seq<StageDef>, k: nat, st: State, listed: seq<Name>, start: Slots)
  {
    forall i | 0 <= i < |stages| && (i >= k || HasStatus(st.tree.disk, [] + [Stage(stages[i].name)], Skipped)) ::
      && Declared(stages[i]) !! st.slots.Keys
      && (i < k ==> Declared(stages[i]) <= ReplayAll(st.tree.disk, [], stages, listed, start).Keys)
  }

  lemma ReplayGrows(disk: Disk, at: Address, stage: StageDef, slots: Slots)
    ensures slots.Keys <= ReplayStage(disk, at, stage, slots).Keys
  {
  }

  // One stage more: it is listed, and the withheld outputs stay withheld.
  lemma WithheldNext(stages: seq<StageDef>, k: nat, st: State, done: seq<Name>, start: Slots)
    requires WellNamed(stages) && DistinctOutputs(stages) && k < |stages| && Before(stages, k, done)
    requires SequencesOk(st.tree) && StillClear(st.tree.disk, [], stages, k) && Children(st.tree.disk, []) == done
    requires Withheld(stages, k, st, done, start) && Dispatch(stages[k], [], None, None, st).0.Next?
    ensures var st1 := Dispatch(stages[k], [], None, None, st).1;
      && Children(st1.tree.disk, []) == done + [stages[k].name]
      && Withheld(stages, k + 1, st1, done + [stages[k].name], start)
  {
    hide Dispatch, SequencesOk, Gate, Scoped, Tidy, Clear, Children, StillClear, HasStatus, Scratch, ReplayAll,
      ReplayStage, TopNames, Declared;
    var stage := stages[k];
    var (flow, st1) := Dispatch(stage, [], None, None, st);
    var after := done + [stage.name];
    ListingGrows(stages, k, st);
    NextNotBroken(stage, [], None, st);
    DispatchSteps(stage, [], None, None, st);
    StepOutside(st, st1, [] + [Stage(stage.name)], None);
    DispatchQuiet(stage, [], None, st);
    QuietChanges(st, st1, Touched(stage, flow), false);
    ReplayMore(stages, k, st, st1, done, start);
    forall i | 0 <= i < |stages| && (i >= k + 1 || HasStatus(st1.tree.disk, [] + [Stage(stages[i].name)], Skipped))
      ensures Declared(stages[i]) !! st1.slots.Keys
      ensures i < k + 1 ==> Declared(stages[i]) <= ReplayAll(st1.tree.disk, [], stages, after, start).Keys
    {
      if i == k {
        WithheldHere(stages, k, st, done, start);
      } else {
        if i < k {
          SiblingSame(st.tree.disk, st1.tree.disk, [], stage.name, stages[i].name);
          SkippedSame(st.tree.disk, st1.tree.disk, [] + [Stage(stages[i].name)]);
        }
        OutputKept(stages, k, i, flow, st.slots, st1.slots);
      }
    }
  }

  lemma SkippedSame(d: Disk, d': Disk, at: Address)
    requires SameUnder(d, d', at)
    ensures HasStatus(d, at, Skipped) == HasStatus(d', at, Skipped)
  {
    assert SameAt(d, d', at);
  }

  // Replaying the new listing writes at least what replaying the old one did.
  lemma ReplayMore(stages: seq<StageDef>, k: nat, st: State, st1: State, done: seq<Name>, start: Slots)
    requires k < |stages| && Distinct(stages) && Before(stages, k, done)
    requires SameOutside(st.tree.disk, st1.tree.disk, [] + [Stage(stages[k].name)])
    ensures var before := ReplayAll(st.tree.disk, [], stages, done, start);
      var more := ReplayAll(st1.tree.disk, [], stages, done + [stages[k].name], start);
      && more == ReplayStage(st1.tree.disk, [] + [Stage(stages[k].name)], stages[k], before)
      && before.Keys <= more.Keys
  {
    hide ReplayStage;
    var after := done + [stages[k].name];
    forall n: Name | n in done
      ensures SameUnder(st.tree.disk, st1.tree.disk, [] + [Stage(n)])
    {
      SiblingSame(st.tree.disk, st1.tree.disk, [], stages[k].name, n);
    }
    ReplayAllLocal(st.tree.disk, st1.tree.disk, [], stages, done, start);
    assert after[..|after| - 1] == done;
    DistinctIndex(stages, k);
    ReplayGrows(st1.tree.disk, [] + [Stage(stages[k].name)], stages[k],
                ReplayAll(st.tree.disk, [], stages, done, start));
  }

  lemma OutputKept(stages: seq<StageDef>, k: nat, i: nat, flow: Flow, s: Slots, s1: Slots)
    requires WellNamed(stages) && DistinctOutputs(stages) && k < |stages| && i < |stages| && i != k
    requires ChangesOnly(s, s1, Touched(stages[k], flow)) && Declared(stages[i]) !! s.Keys
    ensures Declared(stages[i]) !! s1.Keys
  {
    hide Scratch;
    TidyScratch(stages[k], TopNames(stages), TopNames(stages));
    DeclaredWithin(stages, i);
    if i < k {
      assert Declared(stages[i]) !! Declared(stages[k]);
    } else {
      assert Declared(stages[k]) !! Declared(stages[i]);
    }
    hide TopNames, Declared;
    forall o | o in Declared(stages[i])
      ensures o !in s1
    {
      assert o !in Touched(stages[k], flow);
      assert SameSlot(s, s1, o);
    }
  }

  // A stage recorded as skipped by this very dispatch.
  lemma WithheldHere(stages: seq<StageDef>, k: nat, st: State, done: seq<Name>, start: Slots)
    requires WellNamed(stages) && k < |stages| && Before(stages, k, done) && StillClear(st.tree.disk, [], stages, k)
    requires Withheld(stages, k, st, done, start) && Dispatch(stages[k], [], None, None, st).0.Next?
    requires var st1 := Dispatch(stages[k], [], None, None, st).1;
      && HasStatus(st1.tree.disk, [] + [Stage(stages[k].name)], Skipped)
      && ReplayAll(st1.tree.disk, [], stages, done + [stages[k].name], start) ==
         ReplayStage(st1.tree.disk, [] + [Stage(stages[k].name)], stages[k],
                     ReplayAll(st.tree.disk, [], stages, done, start))
    ensures var st1 := Dispatch(stages[k], [], None, None, st).1;
      && Declared(stages[k]) !! st1.slots.Keys
      && Declared(stages[k]) <= ReplayAll(st1.tree.disk, [], stages, done + [stages[k].name], start).Keys
  {
    hide Dispatch, Gate, Scoped, Tidy, HasStatus, ReplayAll, ReplayStage;
    assert Clear(st.tree.disk, [] + [Stage(stages[k].name)]);
    SkippedGate(stages[k], [], None, st);
    SkippedReplay(stages[k], [], None, st, ReplayAll(st.tree.disk, [], stages, done, start));
  }

  // Only a stage whose condition fails is recorded as skipped.
  lemma SkippedGate(stage: StageDef, base: Address, context: Option<LoopContext>, st: State)
    requires Dispatch(stage, base, context, None, st).0.Next?
    requires HasStatus(Dispatch(stage, base, context, None, st).1.tree.disk, base + [Stage(stage.name)], Skipped)
    ensures Gate(stage, st.slots).Fails?
  {
    hide Dispatch, Gate, HasStatus;
    NextNotBroken(stage, base, context, st);
    if Gate(stage, st.slots).Holds? { EnteredStatus(stage, base, context, st); }
  }

  lemma EnteredStatus(stage: StageDef, base: Address, context: Option<LoopContext>, st: State)
    requires Gate(stage, st.slots).Holds?
    ensures !HasStatus(Dispatch(stage, base, context, None, st).1.tree.disk, base + [Stage(stage.name)], Skipped)
  {
    hide RunByType, PathOf, Gate;
    DispatchUnfold(stage, base, context, None, st);
    var at := base + [Stage(stage.name)];
    var count := Count(st.counters, PathOf(at)) + 1;
    var (flow, st3) := RunByType(stage, at, count, None, Entered(stage, base, context, st));
    ExitFacts(st3.tree, at, count, context, StatusOf(flow), ResultOf(flow));
  }

  // The run up to the top-level stage an address lies in, whatever was skipped before it.
  lemma {:induction false} SequenceWithholds(stages: seq<StageDef>, k: nat, budget: nat, st: State, done: seq<Name>,
                                             start: Slots, j: nat, rest: Address)
    returns (left: nat, t: State, listed: seq<Name>)
    requires WellNamed(stages) && DistinctOutputs(stages) && k <= j < |stages| && Before(stages, k, done)
    requires SequencesOk(st.tree) && StillClear(st.tree.disk, [], stages, k) && Children(st.tree.disk, []) == done
    requires Withheld(stages, k, st, done, start)
    requires [Stage(stages[j].name)] + rest in RunSequence(stages, k, [], None, budget, st).1.tree.disk
    ensures left > 0 && Before(stages, j, listed)
    ensures RunSequence(stages, k, [], None, budget, st) == RunSequence(stages, j, [], None, left, t)
    ensures SequenceReached(stages, k, budget, st, [Stage(stages[j].name)] + rest) ==
        StageReached(stages[j], [], None, t, rest)
    ensures SequencesOk(t.tree) && StillClear(t.tree.disk, [], stages, j) && Children(t.tree.disk, []) == listed
    ensures Withheld(stages, j, t, listed, start)
    decreases budget
  {
    hide Dispatch, SequencesOk, HasStatus, Gate, Clear, Scratch, Scoped, Tidy, TopNames, StillClear, Children, Forward,
      StageReached, Declared, Withheld;
    StillClearLater(st.tree.disk, stages, k, j);
    NotThere(st.tree.disk, stages, k, j, rest);
    if budget == 0 {
      assert false;
    } else if k == j {
      left, t, listed := budget, st, done;
      assert ([Stage(stages[j].name)] + rest)[1..] == rest;
    } else {
      CursorAhead(stages, k, budget, st, j, rest);
      var (flow, st1) := Dispatch(stages[k], [], None, None, st);
      var next := NextIndex(stages, k, flow);
      hide RunSequence, NextIndex;
      WithheldNext(stages, k, st, done, start);
      WithheldLater(stages, k, next, st, st1, done + [stages[k].name], start);
      BeforeGrows(stages, k, next, done);
      left, t, listed := SequenceWithholds(stages, next, budget - 1, st1, done + [stages[k].name], start, j, rest);
    }
  }

  // Stages jumped over are not recorded, so nothing more is withheld.
  lemma WithheldLater(stages: seq<StageDef>, k: nat, next: nat, st: State, st1: State, listed: seq<Name>, start: Slots)
    requires Distinct(stages) && k < next <= |stages| && k < |stages| && Withheld(stages, k + 1, st1, listed, start)
    requires StillClear(st.tree.disk, [], stages, k) && st1 == Dispatch(stages[k], [], None, None, st).1
    ensures Withheld(stages, next, st1, listed, start)
  {
    hide Dispatch, Clear, HasStatus, ReplayAll, Declared;
    DispatchSteps(stages[k], [], None, None, st);
    StepOutside(st, st1, [] + [Stage(stages[k].name)], None);
    StillClearAfter(st.tree.disk, st1.tree.disk, [], stages, k);
    forall i | k + 1 <= i < |stages|
      ensures !HasStatus(st1.tree.disk, [] + [Stage(stages[i].name)], Skipped)
    {
      NoStatus(st1.tree.disk, [] + [Stage(stages[i].name)]);
    }
  }

  lemma NoStatus(disk: Disk, zone: Address)
    requires Clear(disk, zone)
    ensures !HasStatus(disk, zone, Skipped)
  {
    NotInClear(disk, zone, zone);
  }

  // ---------- a whole reconstruction ----------

  lemma FreshWithheld(stages: seq<StageDef>, message: Value, stop: Option<nat>)
    requires DistinctOutputs(stages)
    ensures Withheld(stages, 0, Start(message, stop), [], map[USER_MESSAGE := message])
    ensures Children(Start(message, stop).tree.disk, []) == []
  {
    ClearChildren(Start(message, stop).tree.disk, []);
  }

  // A skipped stage with an output leaves a rebuilt slot that the run never wrote.
  lemma TopSpoiled(stages: seq<StageDef>, j: nat, left: nat, t: State, listed: seq<Name>, start: Slots, rest: Address,
                   found: State, shown: set<Name>)
    requires WellNamed(stages) && DistinctOutputs(stages) && j < |stages| && left > 0 && TopNames(stages) <= shown
    requires Withheld(stages, j, t, listed, start) && ChangesOnly(t.slots, found.slots, Scratch(stages[j]))
    requires !Unskipped(RunSequence(stages, j, [], None, left, t).1.tree.disk, [], stages, j)
    ensures var disk := RunSequence(stages, j, [], None, left, t).1.tree.disk;
      !Agree(WalkInto(disk, [] + [Stage(stages[j].name)], stages[j], rest,
                      ReplayAll(t.tree.disk, [], stages, listed, start)),
             found.slots, shown)
  {
    hide RunSequence, HasStatus, Scratch, ReplayAll, Declared, Agree, WalkInto;
    var disk := RunSequence(stages, j, [], None, left, t).1.tree.disk;
    var i := SkippedBefore(disk, stages, j);
    var o :| o in Declared(stages[i]);
    WithheldOutput(stages, j, left, t, listed, start, i, o);
    DeclaredWithin(stages, i);
    TidyScratch(stages[j], TopNames(stages), TopNames(stages));
    var start1 := ReplayAll(t.tree.disk, [], stages, listed, start);
    var zone := [] + [Stage(stages[j].name)];
    WalkIntoChanges(disk, zone, stages[j], rest, start1);
    LevelSlot(WalkInto(disk, zone, stages[j], rest, start1), found.slots, start1, t.slots, o, Scratch(stages[j]),
              shown);
  }

  lemma SkippedBefore(disk: Disk, stages: seq<StageDef>, j: nat) returns (i: nat)
    requires j <= |stages| && !Unskipped(disk, [], stages, j)
    ensures i < j && Declared(stages[i]) != {} && HasStatus(disk, [] + [Stage(stages[i].name)], Skipped)
  {
    hide HasStatus, Declared;
    i :| 0 <= i < j && Declared(stages[i]) != {} && HasStatus(disk, [] + [Stage(stages[i].name)], Skipped);
  }

  lemma WithheldOutput(stages: seq<StageDef>, j: nat, left: nat, t: State, listed: seq<Name>, start: Slots, i: nat,
                       o: Name)
    requires Distinct(stages) && Forward(stages) && i < j < |stages| && Withheld(stages, j, t, listed, start)
    requires o in Declared(stages[i])
    requires HasStatus(RunSequence(stages, j, [], None, left, t).1.tree.disk, [] + [Stage(stages[i].name)], Skipped)
    ensures !SameSlot(ReplayAll(t.tree.disk, [], stages, listed, start), t.slots, o)
  {
    hide RunSequence, HasStatus, ReplayAll, Declared;
    forall q | j <= q < |stages|
      ensures stages[q].name != stages[i].name
    {
    }
    SequenceSpares(stages, j, left, t, stages[i].name);
    assert [] + [Stage(stages[i].name)] == [Stage(stages[i].name)];
    SkippedSame(t.tree.disk, RunSequence(stages, j, [], None, left, t).1.tree.disk, [] + [Stage(stages[i].name)]);
  }

  // Outputs are distinct inside the stage c lies in, and the files tell what is faithful there.
  ghost predicate JudgedAt(disk: Disk, stages: seq<StageDef>, c: Address)
  {
    InStage(stages, c) ==> Judged(disk, [c[0]], stages[IndexOf(stages, c[0].name)], c[1..])
  }

  // The exact condition: on any fresh run of a workflow with distinct outputs, however it ended, at any
  // recorded stage, in any attempt, rebuilding the slots up to it gives everything in view there as the
  // stage was last dispatched with it exactly when the way to it is intact.
  lemma ReconstructionExact(stages: seq<StageDef>, message: Value, stop: Option<nat>, budget: nat, c: Address,
                            found: State)
    requires WellNamed(stages) && DistinctOutputs(stages) && ListedAt(stages, c)
    requires SequenceReached(stages, 0, budget, Start(message, stop), c) == Some(found)
    requires var (flow, final) := RunSequence(stages, 0, [], None, budget, Start(message, stop));
      && c in final.tree.disk && (!flow.Aborted? || SingleAt(final.tree.disk, stages, c))
      && JudgedAt(final.tree.disk, stages, c)
    ensures EntersLast(found.trace, RunSequence(stages, 0, [], None, budget, Start(message, stop)).1.trace, c)
    ensures var final := RunSequence(stages, 0, [], None, budget, Start(message, stop)).1;
      IntactAt(final.tree.disk, stages, c) <==>
        Agree(ReconstructSlots(final.tree.disk, stages, message, c), found.slots, ShownAt(final.tree.disk, stages, c))
  {
    hide RunSequence, SequencesOk, HasStatus, Tidy, Agree, Replayed, Clear, Children, OutsOf, Dispatch, Intact,
      Unskipped, Single, WalkStages, WalkInto, StageReached, SequenceReached, Shown, TopNames, Own, Sorted, Named,
      Gate, ListedPath, Scratch, EntersLast, Judged, Withheld, EntersTop;
    var st0 := Start(message, stop);
    var final := RunSequence(stages, 0, [], None, budget, st0).1;
    var disk := final.tree.disk;
    ReachedNamed(stages, budget, st0, c);
    RunWithin(stages, 0, budget, st0, c);
    LastEntered(stages, message, stop, budget, c, found);
    var j, rest := IndexOf(stages, c[0].name), c[1..];
    if IntactAt(disk, stages, c) {
      ReconstructionHolds(stages, message, stop, budget, c, found);
    } else if Unskipped(disk, [], stages, j) {
      InsideSpoils(stages, message, stop, budget, c, found);
    } else {
      SkipSpoils(stages, message, stop, budget, c, found);
    }
  }

  lemma InsideSpoils(stages: seq<StageDef>, message: Value, stop: Option<nat>, budget: nat, c: Address, found: State)
    requires WellNamed(stages) && ListedAt(stages, c) && InStage(stages, c)
    requires SequenceReached(stages, 0, budget, Start(message, stop), c) == Some(found)
    requires var (flow, final) := RunSequence(stages, 0, [], None, budget, Start(message, stop));
      && c in final.tree.disk && (!flow.Aborted? || SingleAt(final.tree.disk, stages, c))
      && JudgedAt(final.tree.disk, stages, c)
      && !IntactAt(final.tree.disk, stages, c) && Unskipped(final.tree.disk, [], stages, IndexOf(stages, c[0].name))
    ensures var final := RunSequence(stages, 0, [], None, budget, Start(message, stop)).1;
      !Agree(ReconstructSlots(final.tree.disk, stages, message, c), found.slots, ShownAt(final.tree.disk, stages, c))
  {
    hide RunSequence, SequencesOk, HasStatus, Tidy, Agree, Replayed, Clear, Children, OutsOf, Dispatch, Intact,
      Unskipped, Single, WalkStages, WalkInto, StageReached, SequenceReached, Shown, TopNames, Own, Sorted, Named,
      Gate, ListedPath, Scratch, EntersLast, Judged;
    var st0 := Start(message, stop);
    var disk := RunSequence(stages, 0, [], None, budget, st0).1.tree.disk;
    var j, rest := IndexOf(stages, c[0].name), c[1..];
    var zone := [] + [Stage(stages[j].name)];
    assert c == [Stage(stages[j].name)] + rest && zone == [c[0]] && c == zone + rest;
    var start: Slots := map[USER_MESSAGE := message];
    FreshSlots(stages, message, stop);
    var left, t, listed := SequenceReaches(stages, 0, budget, st0, [], start, j, rest);
    EntryFacts(stages, j, left, t, rest);
    TopReached(stages, j, left, t, rest, found);
    ReplayedParts(t.tree.disk, t.slots, [], stages, listed, start, TopNames(stages));
    TopWalk(stages, j, left, t, listed, start, rest);
    TopStart(stages, t, listed, start);
    StageSpoiled(stages[j], [], None, t, disk, rest, ReplayAll(t.tree.disk, [], stages, listed, start),
                 TopNames(stages),
                 TopNames(stages), found);
  }

  lemma SkipSpoils(stages: seq<StageDef>, message: Value, stop: Option<nat>, budget: nat, c: Address, found: State)
    requires WellNamed(stages) && DistinctOutputs(stages) && ListedAt(stages, c) && InStage(stages, c)
    requires SequenceReached(stages, 0, budget, Start(message, stop), c) == Some(found)
    requires var (flow, final) := RunSequence(stages, 0, [], None, budget, Start(message, stop));
      && c in final.tree.disk && (!flow.Aborted? || SingleAt(final.tree.disk, stages, c))
      && !Unskipped(final.tree.disk, [], stages, IndexOf(stages, c[0].name))
    ensures var final := RunSequence(stages, 0, [], None, budget, Start(message, stop)).1;
      !Agree(ReconstructSlots(final.tree.disk, stages, message, c), found.slots, ShownAt(final.tree.disk, stages, c))
  {
    hide RunSequence, SequencesOk, HasStatus, Tidy, Agree, Replayed, Clear, Children, OutsOf, Dispatch, Intact,
      Unskipped, Single, WalkStages, WalkInto, StageReached, SequenceReached, Shown, TopNames, Own, Sorted, Named,
      Gate, ListedPath, Scratch, EntersLast, Withheld;
    var st0 := Start(message, stop);
    var disk := RunSequence(stages, 0, [], None, budget, st0).1.tree.disk;
    var j, rest := IndexOf(stages, c[0].name), c[1..];
    var zone := [] + [Stage(stages[j].name)];
    assert c == [Stage(stages[j].name)] + rest && zone == [c[0]] && c == zone + rest;
    var start: Slots := map[USER_MESSAGE := message];
    FreshSlots(stages, message, stop);
    FreshWithheld(stages, message, stop);
    var left, t, listed := SequenceWithholds(stages, 0, budget, st0, [], start, j, rest);
    TopReached(stages, j, left, t, rest, found);
    TopWalk(stages, j, left, t, listed, start, rest);
    ShownKeeps(disk, zone, stages[j], TopNames(stages), rest);
    TopSpoiled(stages, j, left, t, listed, start, rest, found, ShownAt(disk, stages, c));
  }
}
