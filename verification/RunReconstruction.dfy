// Reconstruction at any recorded stage of any fresh run of a workflow, however the run ended.
module RunReconstruction {
  import opened Options
  import opened Addresses
  import opened WorkflowModel
  import opened Engine
  import opened EngineSteps
  import opened EngineRuns
  import opened Scoping
  import opened Reconstruction
  import opened FreshRuns
  import opened ReplayProof
  import opened CutProof
  import opened ReconstructionProof
  import opened ResumeProof
  import opened WorkflowRuns
  import opened Reaching
  import opened Entries
  import opened Listings
  import opened Levels
  import opened ReachedReconstruction
  import opened RecordedStages

  // No two stages of a list declare the same slot, and none declares the user message.
  ghost predicate DistinctOutputs(stages: seq<StageDef>)
  {
    && (forall i, k | 0 <= i < k < |stages| :: Declared(stages[i]) !! Declared(stages[k]))
    && forall k | 0 <= k < |stages| :: USER_MESSAGE !in Declared(stages[k])
  }

  // The slots a completed prefix of a run is answerable for.
  ghost function Answerable(stages: seq<StageDef>, done: seq<Name>): set<Name>
  {
    {USER_MESSAGE} + OutsOf(stages, done)
  }

  // Stages from k on leave these slots alone.
  ghost predicate Untouched(stages: seq<StageDef>, k: nat, names: set<Name>)
  {
    forall i | k <= i < |stages| :: Writes(stages[i]) !! names
  }

  lemma {:induction false} OutsApart(stages: seq<StageDef>, k: nat, done: seq<Name>, i: nat)
    requires DistinctOutputs(stages) && Distinct(stages) && Before(stages, k, done) && k <= i < |stages|
    ensures Declared(stages[i]) !! OutsOf(stages, done)
    decreases |done|
  {
    if done != [] {
      var earlier := done[..|done| - 1];
      assert Before(stages, k, earlier);
      OutsApart(stages, k, earlier, i);
      var last := IndexOf(stages, done[|done| - 1]);
      if last < |stages| {
        assert stages[last].name == done[|done| - 1] && done[|done| - 1] in done;
      }
    }
  }

  lemma SettledUntouched(stages: seq<StageDef>, k: nat, done: seq<Name>)
    requires WellNamed(stages) && DistinctOutputs(stages) && Before(stages, k, done)
    ensures Untouched(stages, k, Answerable(stages, done))
  {
    hide Scratch, Before;
    MessageDeclared(stages);
    OutsWithin(stages, done);
    forall i | k <= i < |stages|
      ensures Writes(stages[i]) !! Answerable(stages, done)
    {
      OutsApart(stages, k, done, i);
      TidyScratch(stages[i], TopNames(stages), TopNames(stages));
    }
  }

  // One dispatch extends the listing by its own stage, or aborts without a trace on disk.
  lemma ListingGrows(stages: seq<StageDef>, k: nat, st: State)
    requires Distinct(stages) && k < |stages| && SequencesOk(st.tree) && StillClear(st.tree.disk, [], stages, k)
    ensures var (flow, st1) := Dispatch(stages[k], [], None, None, st);
      && SequencesOk(st1.tree) && StillClear(st1.tree.disk, [], stages, k + 1)
      && (if Gate(stages[k], st.slots).Broken? then !flow.Next? && st1.tree == st.tree
          else Children(st1.tree.disk, []) == Children(st.tree.disk, []) + [stages[k].name])
  {
    hide Dispatch, Gate, SequencesOk, Clear, Step;
    DispatchSteps(stages[k], [], None, None, st);
    StepSequences(st, Dispatch(stages[k], [], None, None, st).1, [] + [Stage(stages[k].name)], None);
    StepOutside(st, Dispatch(stages[k], [], None, None, st).1, [] + [Stage(stages[k].name)], None);
    StillClearAfter(st.tree.disk, Dispatch(stages[k], [], None, None, st).1.tree.disk, [], stages, k);
    assert Clear(st.tree.disk, [] + [Stage(stages[k].name)]);
    ClearNoMeta(st.tree.disk, [] + [Stage(stages[k].name)]);
    if Gate(stages[k], st.slots).Broken? {
      DispatchBroken(stages[k], [], None, None, st);
    } else {
      ChildrenAppend(stages[k], [], None, None, st);
    }
  }

  // The rest of a run only appends to the listing and leaves untouched slots as they are.
  lemma {:induction false} RestKeeps(stages: seq<StageDef>, k: nat, budget: nat, st: State, names: set<Name>)
    requires WellNamed(stages) && k <= |stages| && Untouched(stages, k, names)
    requires SequencesOk(st.tree) && StillClear(st.tree.disk, [], stages, k)
    ensures var final := RunSequence(stages, k, [], None, budget, st).1;
      Children(st.tree.disk, []) <= Children(final.tree.disk, []) && Agree(st.slots, final.slots, names)
    decreases budget
  {
    hide Dispatch, SequencesOk, Writes, Scratch, Children, Gate, Scoped, Tidy, Clear;
    AgreeRefl(st.slots, names);
    if k < |stages| && budget > 0 {
      var (flow, st1) := Dispatch(stages[k], [], None, None, st);
      ListingGrows(stages, k, st);
      DispatchQuiet(stages[k], [], None, st);
      TouchedWithin(stages[k], flow);
      KeptSlots(st, st1, Touched(stages[k], flow), names);
      if flow.Next? {
        JumpsForward(stages, k, None, st);
        var next := NextIndex(stages, k, flow);
        if next < |stages| || flow.jump.None? {
          RestKeeps(stages, next, budget - 1, st1, names);
          AgreeTrans(st.slots, st1.slots, RunSequence(stages, next, [], None, budget - 1, st1).1.slots, names);
        }
      }
    }
  }

  lemma AgreeRefl(s: Slots, names: set<Name>)
    ensures Agree(s, s, names)
  {
  }

  lemma AgreeTrans(a: Slots, b: Slots, c: Slots, names: set<Name>)
    requires Agree(a, b, names) && Agree(b, c, names)
    ensures Agree(a, c, names)
  {
    forall n: Name | n in names
      ensures SameSlot(a, c, n)
    {
      assert SameSlot(a, b, n) && SameSlot(b, c, n);
    }
  }

  lemma TouchedWithin(stage: StageDef, flow: Flow)
    ensures Touched(stage, flow) <= Writes(stage)
  {
  }

  lemma KeptSlots(st: State, st1: State, touched: set<Name>, names: set<Name>)
    requires ChangesOnly(st.slots, st1.slots, touched) && touched !! names
    ensures Agree(st.slots, st1.slots, names)
  {
  }

  // ---------- the stage the cursor names ----------

  lemma NotThere(disk: Disk, stages: seq<StageDef>, k: nat, j: nat, rest: Address)
    requires StillClear(disk, [], stages, k) && k <= j < |stages|
    ensures [Stage(stages[j].name)] + rest !in disk
  {
    assert Clear(disk, [] + [Stage(stages[j].name)]);
    assert [] + [Stage(stages[j].name)] <= [Stage(stages[j].name)] + rest;
  }

  // A stage that has not run yet and is jumped over stays unrecorded.
  lemma NeverRun(stages: seq<StageDef>, k: nat, budget: nat, st: State, j: nat, rest: Address)
    requires Distinct(stages) && Forward(stages) && k <= |stages| && j < |stages| && j < k
    requires [Stage(stages[j].name)] + rest !in st.tree.disk
    ensures [Stage(stages[j].name)] + rest !in RunSequence(stages, k, [], None, budget, st).1.tree.disk
  {
    hide RunSequence;
    forall i | k <= i < |stages|
      ensures stages[i].name != stages[j].name
    {
    }
    SequenceSpares(stages, k, budget, st, stages[j].name);
    var a := [Stage(stages[j].name)] + rest;
    assert [Stage(stages[j].name)] <= a;
    assert SameAt(st.tree.disk, RunSequence(stages, k, [], None, budget, st).1.tree.disk, a);
  }

  // The listing before stage j, and what replaying it gives, once the run has ended.
  ghost predicate Rebuilt(stages: seq<StageDef>, final: State, start: Slots, j: nat, m: nat)
    requires j < |stages|
  {
    var listing := Children(final.tree.disk, []);
    && m < |listing| && listing[m] == stages[j].name && stages[j].name !in listing[..m]
    && Agree(ReplayAll(final.tree.disk, [], stages, listing[..m], start), final.slots, Answerable(stages, listing[..m]))
  }

  // The stage the cursor names is dispatched now.
  lemma RebuiltHere(stages: seq<StageDef>, j: nat, budget: nat, st: State, done: seq<Name>, start: Slots)
    requires WellNamed(stages) && DistinctOutputs(stages) && j < |stages| && budget > 0 && Before(stages, j, done)
    requires SequencesOk(st.tree) && StillClear(st.tree.disk, [], stages, j)
    requires Replayed(st.tree.disk, st.slots, [], stages, done, start, TopNames(stages))
    requires [Stage(stages[j].name)] in RunSequence(stages, j, [], None, budget, st).1.tree.disk
    ensures Rebuilt(stages, RunSequence(stages, j, [], None, budget, st).1, start, j, |done|)
  {
    hide Dispatch, SequencesOk, Gate, Scoped, Tidy, Clear, Children, Untouched, Answerable, StillClear;
    var final := RunSequence(stages, j, [], None, budget, st).1;
    ListingGrows(stages, j, st);
    SettledUntouched(stages, j, done);
    RestKeeps(stages, j, budget, st, Answerable(stages, done));
    var (flow, st1) := Dispatch(stages[j], [], None, None, st);
    NotThere(st.tree.disk, stages, j, j, []);
    assert [Stage(stages[j].name)] + [] == [Stage(stages[j].name)];
    if Gate(stages[j], st.slots).Broken? {
      assert false;
    }
    RestListing(stages, j, budget, st, done);
    SparedBefore(stages, j, budget, st, done);
    ReplayAllLocal(st.tree.disk, final.tree.disk, [], stages, done, start);
    SettledAgrees(stages, st, done, start);
    AgreeTrans(ReplayAll(st.tree.disk, [], stages, done, start), st.slots, final.slots, Answerable(stages, done));
  }

  lemma SettledAgrees(stages: seq<StageDef>, st: State, done: seq<Name>, start: Slots)
    requires Replayed(st.tree.disk, st.slots, [], stages, done, start, TopNames(stages))
    ensures Agree(ReplayAll(st.tree.disk, [], stages, done, start), st.slots, Answerable(stages, done))
  {
    MessageDeclared(stages);
  }

  // The listing of the finished run starts with what was done and the stage dispatched next.
  lemma RestListing(stages: seq<StageDef>, j: nat, budget: nat, st: State, done: seq<Name>)
    requires WellNamed(stages) && j < |stages| && budget > 0 && Before(stages, j, done)
    requires SequencesOk(st.tree) && StillClear(st.tree.disk, [], stages, j) && Children(st.tree.disk, []) == done
    requires !Gate(stages[j], st.slots).Broken?
    ensures var listing := Children(RunSequence(stages, j, [], None, budget, st).1.tree.disk, []);
      |done| < |listing| && listing[|done|] == stages[j].name && listing[..|done|] == done && stages[j].name !in done
  {
    hide Dispatch, SequencesOk, Gate, Scoped, Tidy, Clear, Children, StillClear;
    ListingGrows(stages, j, st);
    var (flow, st1) := Dispatch(stages[j], [], None, None, st);
    if flow.Next? {
      JumpsForward(stages, j, None, st);
      var next := NextIndex(stages, j, flow);
      if next < |stages| || flow.jump.None? {
        StillClearLater(st1.tree.disk, stages, j + 1, next);
        RestKeeps(stages, next, budget - 1, st1, {});
      }
    }
  }

  lemma StillClearLater(disk: Disk, stages: seq<StageDef>, k: nat, next: nat)
    requires StillClear(disk, [], stages, k) && k <= next
    ensures StillClear(disk, [], stages, next)
  {
  }

  lemma SparedBefore(stages: seq<StageDef>, k: nat, budget: nat, st: State, done: seq<Name>)
    requires Forward(stages) && k <= |stages| && Before(stages, k, done)
    ensures forall n: Name :: n in done ==>
      SameUnder(st.tree.disk, RunSequence(stages, k, [], None, budget, st).1.tree.disk, [] + [Stage(n)])
  {
    hide RunSequence, Forward;
    forall n: Name | n in done
      ensures SameUnder(st.tree.disk, RunSequence(stages, k, [], None, budget, st).1.tree.disk, [] + [Stage(n)])
    {
      SequenceSpares(stages, k, budget, st, n);
      assert [] + [Stage(n)] == [Stage(n)];
    }
  }

  // An address further on was reached by going on to a stage no later than its own.
  lemma CursorAhead(stages: seq<StageDef>, k: nat, budget: nat, st: State, j: nat, rest: Address)
    requires Distinct(stages) && Forward(stages) && k < j < |stages| && budget > 0
    requires SequencesOk(st.tree) && StillClear(st.tree.disk, [], stages, k)
    requires [Stage(stages[j].name)] + rest in RunSequence(stages, k, [], None, budget, st).1.tree.disk
    ensures var (flow, st1) := Dispatch(stages[k], [], None, None, st);
      && flow.Next?
      && var next := NextIndex(stages, k, flow);
      && k < next <= j
      && RunSequence(stages, k, [], None, budget, st) == RunSequence(stages, next, [], None, budget - 1, st1)
      && SequencesOk(st1.tree) && StillClear(st1.tree.disk, [], stages, next)
  {
    hide Dispatch, SequencesOk, Gate, Clear, Children, StillClear, Forward;
    var (flow, st1) := Dispatch(stages[k], [], None, None, st);
    ListingGrows(stages, k, st);
    NotThere(st1.tree.disk, stages, k + 1, j, rest);
    if flow.Next? {
      JumpsForward(stages, k, None, st);
      var next := NextIndex(stages, k, flow);
      if next < |stages| {
        StillClearLater(st1.tree.disk, stages, k + 1, next);
        if next > j { NeverRun(stages, next, budget - 1, st1, j, rest); }
      }
    }
  }

  // A stage the run does not record as skipped was entered.
  lemma CursorEntered(stages: seq<StageDef>, k: nat, st: State, next: nat, budget: nat)
    requires Distinct(stages) && Forward(stages) && k < next <= |stages|
    requires Dispatch(stages[k], [], None, None, st).0.Next?
    requires !HasStatus(RunSequence(stages, next, [], None, budget,
                                    Dispatch(stages[k], [], None, None, st).1).1.tree.disk,
                        [] + [Stage(stages[k].name)], Skipped)
    ensures !Gate(stages[k], st.slots).Fails?
  {
    hide Dispatch, Gate, Forward, HasStatus, RunSequence;
    var (flow, st1) := Dispatch(stages[k], [], None, None, st);
    if Gate(stages[k], st.slots).Fails? {
      SkippedRecorded(stages[k], [], None, None, st);
      forall i | next <= i < |stages|
        ensures stages[i].name != stages[k].name
      {
      }
      SequenceSpares(stages, next, budget, st1, stages[k].name);
      assert [] + [Stage(stages[k].name)] == [Stage(stages[k].name)];
      SkippedStays(st1.tree.disk, RunSequence(stages, next, [], None, budget, st1).1.tree.disk,
                   [Stage(stages[k].name)]);
    }
  }

  // Finishing a stage extends the completed prefix by it.
  lemma PrefixGrows(stages: seq<StageDef>, k: nat, st: State, done: seq<Name>, start: Slots)
    requires WellNamed(stages) && k < |stages| && Before(stages, k, done)
    requires SequencesOk(st.tree) && StillClear(st.tree.disk, [], stages, k)
    requires Replayed(st.tree.disk, st.slots, [], stages, done, start, TopNames(stages))
    requires Dispatch(stages[k], [], None, None, st).0.Next?
    requires Gate(stages[k], st.slots).Fails? ==> Declared(stages[k]) == {}
    ensures var st1 := Dispatch(stages[k], [], None, None, st).1;
      Replayed(st1.tree.disk, st1.slots, [], stages, done + [stages[k].name], start, TopNames(stages))
  {
    hide Dispatch, Replayed, SequencesOk, HasStatus, Gate, Scoped, Tidy, TopNames, OutsOf, Children, Scratch, Declared;
    var names := TopNames(stages);
    OutsWithin(stages, done);
    TidyScratch(stages[k], names, names);
    assert names + OutsOf(stages, done) == names;
    StageDone(stages, k, [], None, st, done, start, names);
  }

  // No stage of the list before stage j that declares an output is recorded as skipped.
  ghost predicate Unskipped(disk: Disk, dir: Address, stages: seq<StageDef>, j: nat)
    requires j <= |stages|
  {
    forall i | 0 <= i < j && Declared(stages[i]) != {} :: !HasStatus(disk, dir + [Stage(stages[i].name)], Skipped)
  }

  // The state in which a run of a stage list last dispatches the stage at an address.
  function SequenceReached(stages: seq<StageDef>, k: nat, budget: nat, st: State, c: Address): Option<State>
    requires k <= |stages|
    decreases budget
  {
    if k == |stages| || budget == 0 || c == [] then None
    else if c[0] == Stage(stages[k].name) then StageReached(stages[k], [], None, st, c[1..])
    else
      var (flow, st1) := Dispatch(stages[k], [], None, None, st);
      if flow.Next? then SequenceReached(stages, NextIndex(stages, k, flow), budget - 1, st1, c) else None
  }

  // The run up to the top-level stage an address lies in, with the stages before it replayable.
  lemma {:induction false} SequenceReaches(stages: seq<StageDef>, k: nat, budget: nat, st: State, done: seq<Name>,
                                           start: Slots, j: nat, rest: Address)
    returns (left: nat, t: State, listed: seq<Name>)
    requires WellNamed(stages) && k <= j < |stages| && Before(stages, k, done)
    requires SequencesOk(st.tree) && StillClear(st.tree.disk, [], stages, k)
    requires Replayed(st.tree.disk, st.slots, [], stages, done, start, TopNames(stages))
    requires [Stage(stages[j].name)] + rest in RunSequence(stages, k, [], None, budget, st).1.tree.disk
    requires Unskipped(RunSequence(stages, k, [], None, budget, st).1.tree.disk, [], stages, j)
    ensures left > 0 && Before(stages, j, listed)
    ensures RunSequence(stages, k, [], None, budget, st) == RunSequence(stages, j, [], None, left, t)
    ensures SequenceReached(stages, k, budget, st, [Stage(stages[j].name)] + rest) ==
        StageReached(stages[j], [], None, t, rest)
    ensures SequencesOk(t.tree) && StillClear(t.tree.disk, [], stages, j)
    ensures Replayed(t.tree.disk, t.slots, [], stages, listed, start, TopNames(stages))
    decreases budget
  {
    hide Dispatch, Replayed, SequencesOk, HasStatus, Gate, Clear, Scratch, Scoped, Tidy, TopNames, OutsOf, StillClear,
      Children, Forward, StageReached, Declared;
    StillClearLater(st.tree.disk, stages, k, j);
    NotThere(st.tree.disk, stages, k, j, rest);
    if budget == 0 {
      assert false;
    } else if k == j {
      left, t, listed := budget, st, done;
      assert ([Stage(stages[j].name)] + rest)[1..] == rest;
    } else {
      CursorAhead(stages, k, budget, st, j, rest);
      var (flow, st1) := Dispatch(stages[k], [], None, None, st);
      var next := NextIndex(stages, k, flow);
      hide RunSequence, NextIndex;
      if Declared(stages[k]) != {} { CursorEntered(stages, k, st, next, budget - 1); }
      PrefixGrows(stages, k, st, done, start);
      BeforeGrows(stages, k, next, done);
      left, t, listed := SequenceReaches(stages, next, budget - 1, st1, done + [stages[k].name], start, j, rest);
    }
  }

  lemma BeforeGrows(stages: seq<StageDef>, k: nat, next: nat, done: seq<Name>)
    requires Distinct(stages) && Before(stages, k, done) && k < next <= |stages| && k < |stages|
    ensures Before(stages, next, done + [stages[k].name])
  {
    forall i | next <= i < |stages|
      ensures stages[i].name !in done + [stages[k].name]
    {
    }
  }

  // ---------- the two results ----------

  lemma FreshSlots(stages: seq<StageDef>, message: Value, stop: Option<nat>)
    ensures var st0 := Start(message, stop);
      && SequencesOk(st0.tree) && StillClear(st0.tree.disk, [], stages, 0) && Before(stages, 0, [])
      && Replayed(st0.tree.disk, st0.slots, [], stages, [], map[USER_MESSAGE := message], TopNames(stages))
  {
    hide SequencesOk, Replayed;
    FreshStart(stages, message, 0);
    assert Start(message, stop).tree == Start(message, Some(0)).tree
        && Start(message, stop).slots == Start(message, Some(0)).slots;
  }

  // Reconstruction at any recorded top-level stage of any fresh run, completed, failed, aborted or
  // stopped: with distinct outputs and no skipped stage with an output before the cursor, every
  // output of the stages listed before it has its live value at the end of the run.
  lemma ReconstructedBefore(stages: seq<StageDef>, message: Value, stop: Option<nat>, budget: nat, j: nat)
    returns (m: nat)
    requires WellNamed(stages) && DistinctOutputs(stages) && j < |stages|
    requires var disk := RunSequence(stages, 0, [], None, budget, Start(message, stop)).1.tree.disk;
      [Stage(stages[j].name)] in disk && Unskipped(disk, [], stages, j)
    ensures var st := RunSequence(stages, 0, [], None, budget, Start(message, stop)).1;
      var listing := Children(st.tree.disk, []);
      && m < |listing| && listing[m] == stages[j].name
      && Agree(ReconstructSlots(st.tree.disk, stages, message, [Stage(stages[j].name)]), st.slots,
               {USER_MESSAGE} + OutsOf(stages, listing[..m]))
  {
    hide RunSequence, SequencesOk, HasStatus, Scoped, Tidy, Agree, Replayed, Clear, Children, OutsOf;
    var st := RunSequence(stages, 0, [], None, budget, Start(message, stop)).1;
    var start: Slots := map[USER_MESSAGE := message];
    FreshSlots(stages, message, stop);
    assert [Stage(stages[j].name)] + [] == [Stage(stages[j].name)];
    var left, t, listed := SequenceReaches(stages, 0, budget, Start(message, stop), [], start, j, []);
    RebuiltHere(stages, j, left, t, listed, start);
    m := |listed|;
    WalkStops(st.tree.disk, stages, Children(st.tree.disk, []), m, start);
  }

  // The walk up to a listed stage replays what is listed before it.
  lemma WalkStops(disk: Disk, stages: seq<StageDef>, listing: seq<Name>, m: nat, slots: Slots)
    requires listing == Children(disk, []) && m < |listing| && listing[m] !in listing[..m]
    ensures WalkStages(disk, [], stages, [Stage(listing[m])], slots) == ReplayAll(disk, [], stages, listing[..m], slots)
  {
    hide Children, ReplayAll;
    assert listing == listing[..m] + listing[m..];
    WalkPrefix(disk, [], stages, listing[..m], listing[m..], [Stage(listing[m])], slots);
    assert listing[m..][0] == listing[m];
  }

  // Everything a run records lies below one of its stages.
  lemma {:induction false} RunWithin(stages: seq<StageDef>, k: nat, budget: nat, st: State, c: Address)
    requires k <= |stages| && c != [] && c !in st.tree.disk
    requires c in RunSequence(stages, k, [], None, budget, st).1.tree.disk
    ensures c[0].Stage? && IndexOf(stages, c[0].name) < |stages|
    decreases budget
  {
    hide Dispatch;
    if k == |stages| || budget == 0 { assert false; }
    var (flow, st1) := Dispatch(stages[k], [], None, None, st);
    DispatchSteps(stages[k], [], None, None, st);
    var zone := [] + [Stage(stages[k].name)];
    if zone <= c {
      assert c[0] == zone[0];
    } else {
      assert SameAt(st.tree.disk, st1.tree.disk, c);
      RunWithin(stages, NextIndex(stages, k, flow), budget - 1, st1, c);
    }
  }

  // Stages from k on do not announce anything in a stage before.
  lemma {:induction false} SequenceUnentered(stages: seq<StageDef>, k: nat, budget: nat, st: State, j: nat, c: Address)
    requires Distinct(stages) && Forward(stages) && j < k <= |stages| && [] + [Stage(stages[j].name)] <= c
    ensures Unentered(st.trace, RunSequence(stages, k, [], None, budget, st).1.trace, c)
    decreases budget
  {
    hide Dispatch, Step, Unentered, Forward;
    UnenteredSelf(st.trace, c);
    if k < |stages| && budget > 0 {
      var (flow, st1) := Dispatch(stages[k], [], None, None, st);
      DispatchSteps(stages[k], [], None, None, st);
      BesideStage([], stages[k].name, stages[j].name, c);
      StepUnentered(st, st1, [] + [Stage(stages[k].name)], None, c);
      if flow.Next? {
        JumpsForward(stages, k, None, st);
        var next := NextIndex(stages, k, flow);
        if next < |stages| || flow.jump.None? {
          SequenceUnentered(stages, next, budget - 1, st1, j, c);
          UnenteredTrans(st.trace, st1.trace, RunSequence(stages, next, [], None, budget - 1, st1).1.trace, c);
        }
      }
    }
  }

  // What the rest of a run leaves of the stage it has just dispatched.
  lemma SequenceRest(stages: seq<StageDef>, j: nat, left: nat, t: State)
    requires Distinct(stages) && Forward(stages) && j < |stages| && left > 0
    ensures var st1 := Dispatch(stages[j], [], None, None, t).1;
      var final := RunSequence(stages, j, [], None, left, t).1;
      var zone := [] + [Stage(stages[j].name)];
      SameUnder(st1.tree.disk, final.tree.disk, zone)
          && forall c: Address :: zone <= c ==> Unentered(st1.trace, final.trace, c)
  {
    hide Dispatch, Step, Unentered, Forward;
    var (flow, st1) := Dispatch(stages[j], [], None, None, t);
    var zone := [] + [Stage(stages[j].name)];
    assert zone == [Stage(stages[j].name)];
    forall c: Address
      ensures Unentered(st1.trace, st1.trace, c)
    {
      UnenteredSelf(st1.trace, c);
    }
    if flow.Next? {
      JumpsForward(stages, j, None, t);
      var next := NextIndex(stages, j, flow);
      if next < |stages| || flow.jump.None? {
        OthersAfter(stages, j, next);
        SequenceSpares(stages, next, left - 1, st1, stages[j].name);
        var final := RunSequence(stages, next, [], None, left - 1, st1).1;
        forall c: Address | zone <= c
          ensures Unentered(st1.trace, final.trace, c)
        {
          SequenceUnentered(stages, next, left - 1, st1, j, c);
        }
      }
    }
  }

  lemma OthersAfter(stages: seq<StageDef>, j: nat, next: nat)
    requires Distinct(stages) && j < next <= |stages|
    ensures forall i | next <= i < |stages| :: stages[i].name != stages[j].name
  {
  }

  // ---------- the conditions of a whole way ----------

  // On disk: no top-level stage before that declares an output was skipped, every item on the way has
  // an item result, and the stages before the way's own are faithful.
  ghost predicate IntactAt(disk: Disk, stages: seq<StageDef>, c: Address)
  {
    InStage(stages, c) ==>
      var j := IndexOf(stages, c[0].name);
      Unskipped(disk, [], stages, j) && Intact(disk, [c[0]], stages[j], c[1..])
  }

  ghost predicate SingleAt(disk: Disk, stages: seq<StageDef>, c: Address)
  {
    InStage(stages, c) ==> Single(disk, [c[0]], stages[IndexOf(stages, c[0].name)], c[1..])
  }

  // The slots reconstruction is answerable for at c: the user message, every declared output of the
  // top level, and for every item on the way its variable and the outputs before the way's own stage.
  ghost function ShownAt(disk: Disk, stages: seq<StageDef>, c: Address): set<Name>
  {
    if InStage(stages, c) then Shown(disk, [c[0]], stages[IndexOf(stages, c[0].name)], TopNames(stages), c[1..])
    else TopNames(stages)
  }

  // What is known of the top-level stage an address lies in once it is dispatched in t.
  ghost predicate EntersTop(stages: seq<StageDef>, j: nat, left: nat, t: State, rest: Address)
  {
    && j < |stages| && left > 0
    && SequencesOk(t.tree) && StillClear(t.tree.disk, [], stages, j)
    && [Stage(stages[j].name)] + rest in RunSequence(stages, j, [], None, left, t).1.tree.disk
  }

  lemma EntryFacts(stages: seq<StageDef>, j: nat, left: nat, t: State, rest: Address)
    requires WellNamed(stages) && EntersTop(stages, j, left, t, rest)
    ensures var zone := [] + [Stage(stages[j].name)];
      && !Gate(stages[j], t.slots).Broken? && Clear(t.tree.disk, zone) && Sorted(t.tree.disk, zone, stages[j])
      && Tidy(stages[j], TopNames(stages)) && Named(stages[j])
      && SameUnder(Dispatch(stages[j], [], None, None, t).1.tree.disk,
                   RunSequence(stages, j, [], None, left, t).1.tree.disk, zone)
      && forall c: Address :: zone <= c ==>
           Unentered(Dispatch(stages[j], [], None, None, t).1.trace, RunSequence(stages, j, [], None, left, t).1.trace,
                     c)
  {
    hide Dispatch, Gate, Clear, Sorted, Named, Tidy, RunSequence, SequencesOk, Unentered;
    var zone := [] + [Stage(stages[j].name)];
    TopClear(t.tree.disk, stages, j);
    ClearSorted(t.tree.disk, zone, stages[j]);
    TidyNamed(stages[j], TopNames(stages));
    SequenceRest(stages, j, left, t);
    if Gate(stages[j], t.slots).Broken? { NothingEntered(stages, j, left, t, rest); }
  }

  lemma NothingEntered(stages: seq<StageDef>, j: nat, left: nat, t: State, rest: Address)
    requires WellNamed(stages) && EntersTop(stages, j, left, t, rest)
    ensures !Gate(stages[j], t.slots).Broken?
  {
    hide Gate, SequencesOk;
    if Gate(stages[j], t.slots).Broken? {
      DispatchBroken(stages[j], [], None, None, t);
      NotThere(t.tree.disk, stages, j, j, rest);
    }
  }

  lemma AbortEndsRun(stages: seq<StageDef>, j: nat, left: nat, t: State)
    requires j < |stages| && left > 0 && Dispatch(stages[j], [], None, None, t).0.Aborted?
    ensures RunSequence(stages, j, [], None, left, t).0.Aborted?
  {
    hide Dispatch;
  }

  // The stage reached below it: the item results on the way are its own.
  lemma TopReached(stages: seq<StageDef>, j: nat, left: nat, t: State, rest: Address, found: State)
    requires WellNamed(stages) && EntersTop(stages, j, left, t, rest) && ListedPath(stages[j], rest)
    requires StageReached(stages[j], [], None, t, rest) == Some(found)
    requires var (flow, final) := RunSequence(stages, j, [], None, left, t);
      !flow.Aborted? || Single(final.tree.disk, [] + [Stage(stages[j].name)], stages[j], rest)
    ensures var (flow, final) := RunSequence(stages, j, [], None, left, t);
      && Own(final.tree.disk, [] + [Stage(stages[j].name)], stages[j], rest, found.slots)
      && ChangesOnly(t.slots, found.slots, Scratch(stages[j]))
  {
    hide Dispatch, Gate, Clear, Sorted, Named, Tidy, RunSequence, SequencesOk, StageReached, Own, Single, ListedPath,
      Scratch, TopNames, WellNamed, EntersLast, Unentered;
    var zone := [] + [Stage(stages[j].name)];
    var final := RunSequence(stages, j, [], None, left, t).1;
    EntryFacts(stages, j, left, t, rest);
    StageFound(stages[j], [], None, t, final.tree.disk, rest, TopNames(stages), found);
    if Dispatch(stages[j], [], None, None, t).0.Aborted? { AbortEndsRun(stages, j, left, t); }
    StageOwn(stages[j], [], None, t, final.tree.disk, rest, TopNames(stages), found);
  }

  // ---------- the results ----------

  // The run up to the top-level stage an address lies in.
  lemma {:induction false} SequenceGoes(stages: seq<StageDef>, k: nat, budget: nat, st: State, j: nat, rest: Address)
    returns (left: nat, t: State)
    requires WellNamed(stages) && k <= j < |stages|
    requires SequencesOk(st.tree) && StillClear(st.tree.disk, [], stages, k)
    requires [Stage(stages[j].name)] + rest in RunSequence(stages, k, [], None, budget, st).1.tree.disk
    ensures EntersTop(stages, j, left, t, rest)
    ensures RunSequence(stages, k, [], None, budget, st) == RunSequence(stages, j, [], None, left, t)
    ensures SequenceReached(stages, k, budget, st, [Stage(stages[j].name)] + rest) ==
        StageReached(stages[j], [], None, t, rest)
    decreases budget
  {
    hide Dispatch, SequencesOk, Gate, Clear, Tidy, TopNames, StillClear, Forward, StageReached;
    StillClearLater(st.tree.disk, stages, k, j);
    NotThere(st.tree.disk, stages, k, j, rest);
    if budget == 0 {
      assert false;
    } else if k == j {
      left, t := budget, st;
      assert ([Stage(stages[j].name)] + rest)[1..] == rest;
    } else {
      CursorAhead(stages, k, budget, st, j, rest);
      var (flow, st1) := Dispatch(stages[k], [], None, None, st);
      left, t := SequenceGoes(stages, NextIndex(stages, k, flow), budget - 1, st1, j, rest);
    }
  }

  // A stage recorded by a fresh run was reached, if every loop inside an item on its way was announced
  // in one attempt of the item only.
  lemma RecordedReached(stages: seq<StageDef>, message: Value, stop: Option<nat>, budget: nat, c: Address)
    returns (found: State)
    requires WellNamed(stages) && ListedAt(stages, c) && c != [] && c[|c| - 1].Stage?
    requires var disk := RunSequence(stages, 0, [], None, budget, Start(message, stop)).1.tree.disk;
      c in disk && SingleAt(disk, stages, c)
    ensures SequenceReached(stages, 0, budget, Start(message, stop), c) == Some(found)
  {
    hide RunSequence, SequencesOk, Tidy, Clear, Dispatch, StageReached, SequenceReached, TopNames, Single, Sorted,
      Named, Gate, ListedPath;
    var st0 := Start(message, stop);
    RunWithin(stages, 0, budget, st0, c);
    var j, rest := IndexOf(stages, c[0].name), c[1..];
    assert c == [Stage(stages[j].name)] + rest && [] + [Stage(stages[j].name)] == [c[0]];
    assert c == [] + [Stage(stages[j].name)] + rest;
    FreshSlots(stages, message, stop);
    var left, t := SequenceGoes(stages, 0, budget, st0, j, rest);
    EntryFacts(stages, j, left, t, rest);
    assert rest == [] || rest[|rest| - 1] == c[|c| - 1];
    found := StageRecorded(stages[j], [], None, t, RunSequence(stages, 0, [], None, budget, st0).1.tree.disk, rest);
  }

  // The state reached at an address is the one its last entry event was emitted in.
  lemma LastEntered(stages: seq<StageDef>, message: Value, stop: Option<nat>, budget: nat, c: Address, found: State)
    requires WellNamed(stages) && SequenceReached(stages, 0, budget, Start(message, stop), c) == Some(found)
    requires c in RunSequence(stages, 0, [], None, budget, Start(message, stop)).1.tree.disk
    ensures EntersLast(found.trace, RunSequence(stages, 0, [], None, budget, Start(message, stop)).1.trace, c)
  {
    hide RunSequence, SequencesOk, Tidy, Clear, Dispatch, StageReached, SequenceReached, TopNames, Sorted, Named, Gate,
      EntersLast, Unentered, Scratch;
    var st0 := Start(message, stop);
    var final := RunSequence(stages, 0, [], None, budget, st0).1;
    ReachedNamed(stages, budget, st0, c);
    RunWithin(stages, 0, budget, st0, c);
    var j, rest := IndexOf(stages, c[0].name), c[1..];
    var zone := [] + [Stage(stages[j].name)];
    assert c == [Stage(stages[j].name)] + rest && c == zone + rest && zone <= c;
    FreshSlots(stages, message, stop);
    var left, t := SequenceGoes(stages, 0, budget, st0, j, rest);
    EntryFacts(stages, j, left, t, rest);
    StageFound(stages[j], [], None, t, final.tree.disk, rest, TopNames(stages), found);
    LastThen(found.trace, Dispatch(stages[j], [], None, None, t).1.trace, final.trace, c);
  }

  // Reconstruction refines execution: on any fresh run, completed, failed, aborted or stopped, at any
  // recorded stage, in any attempt, with an intact way to it, rebuilding the slots gives the live value,
  // in the state the stage was last dispatched in, of everything in view there.
  lemma ReconstructionHolds(stages: seq<StageDef>, message: Value, stop: Option<nat>, budget: nat, c: Address,
                            found: State)
    requires WellNamed(stages) && ListedAt(stages, c)
    requires SequenceReached(stages, 0, budget, Start(message, stop), c) == Some(found)
    requires var (flow, final) := RunSequence(stages, 0, [], None, budget, Start(message, stop));
      && c in final.tree.disk && (!flow.Aborted? || SingleAt(final.tree.disk, stages, c))
      && IntactAt(final.tree.disk, stages, c)
    ensures var final := RunSequence(stages, 0, [], None, budget, Start(message, stop)).1;
      Agree(ReconstructSlots(final.tree.disk, stages, message, c), found.slots, ShownAt(final.tree.disk, stages, c))
  {
    hide RunSequence, SequencesOk, HasStatus, Tidy, Agree, Replayed, Clear, Children, OutsOf, Dispatch, Intact,
      Unskipped, Single, WalkStages, WalkInto, StageReached, SequenceReached, Shown, TopNames, Own, Sorted, Named,
      Gate, ListedPath, Scratch, EntersLast;
    var st0 := Start(message, stop);
    var final := RunSequence(stages, 0, [], None, budget, st0).1;
    var disk := final.tree.disk;
    ReachedNamed(stages, budget, st0, c);
    RunWithin(stages, 0, budget, st0, c);
    var j, rest := IndexOf(stages, c[0].name), c[1..];
    var zone := [] + [Stage(stages[j].name)];
    assert c == [Stage(stages[j].name)] + rest && zone == [c[0]] && c == zone + rest;
    var start: Slots := map[USER_MESSAGE := message];
    FreshSlots(stages, message, stop);
    var left, t, listed := SequenceReaches(stages, 0, budget, st0, [], start, j, rest);
    EntryFacts(stages, j, left, t, rest);
    TopReached(stages, j, left, t, rest, found);
    ReplayedParts(t.tree.disk, t.slots, [], stages, listed, start, TopNames(stages));
    TopWalk(stages, j, left, t, listed, start, rest);
    TopStart(stages, t, listed, start);
    StageRebuilt(stages[j], [], None, t, disk, rest, ReplayAll(t.tree.disk, [], stages, listed, start),
                 TopNames(stages),
                 TopNames(stages), found);
  }

  lemma ReachedNamed(stages: seq<StageDef>, budget: nat, st: State, c: Address)
    requires SequenceReached(stages, 0, budget, st, c).Some?
    ensures c != []
  {
  }

  lemma TopClear(disk: Disk, stages: seq<StageDef>, j: nat)
    requires StillClear(disk, [], stages, j) && j < |stages|
    ensures Clear(disk, [] + [Stage(stages[j].name)])
  {
  }

  lemma TopStart(stages: seq<StageDef>, t: State, listed: seq<Name>, start: Slots)
    requires Replayed(t.tree.disk, t.slots, [], stages, listed, start, TopNames(stages)) && start.Keys == {USER_MESSAGE}
    ensures var start1 := ReplayAll(t.tree.disk, [], stages, listed, start);
      start1.Keys <= TopNames(stages) && Agree(start1, t.slots, TopNames(stages))
  {
    hide ReplayAll, Children;
    ReplayKeys(t.tree.disk, [], stages, listed, start);
    OutsWithin(stages, listed);
    MessageDeclared(stages);
    hide TopNames, OutsOf;
    assert TopNames(stages) + OutsOf(stages, listed) == TopNames(stages);
  }

  // The walk of the whole tree goes into the top-level stage with the stages before it replayed.
  lemma TopWalk(stages: seq<StageDef>, j: nat, left: nat, t: State, listed: seq<Name>, start: Slots, rest: Address)
    requires WellNamed(stages) && j < |stages| && left > 0 && Before(stages, j, listed)
    requires SequencesOk(t.tree) && StillClear(t.tree.disk, [], stages, j) && Children(t.tree.disk, []) == listed
    requires [Stage(stages[j].name)] + rest in RunSequence(stages, j, [], None, left, t).1.tree.disk
    ensures var disk := RunSequence(stages, j, [], None, left, t).1.tree.disk;
      WalkStages(disk, [], stages, [Stage(stages[j].name)] + rest, start) ==
      WalkInto(disk, [] + [Stage(stages[j].name)], stages[j], rest, ReplayAll(t.tree.disk, [], stages, listed, start))
  {
    hide Dispatch, SequencesOk, Gate, Scoped, Tidy, Clear, Children, StillClear, WalkStages, WalkInto, ReplayAll;
    var disk := RunSequence(stages, j, [], None, left, t).1.tree.disk;
    ListingGrows(stages, j, t);
    NotThere(t.tree.disk, stages, j, j, rest);
    if Gate(stages[j], t.slots).Broken? {
      assert false;
    } else {
      RestListing(stages, j, left, t, listed);
      var listing := Children(disk, []);
      assert listed + [stages[j].name] == listing[..|listed| + 1];
      WalkToListed(disk, [], stages, listed, j, rest, start);
      SparedBefore(stages, j, left, t, listed);
      ReplayAllLocal(t.tree.disk, disk, [], stages, listed, start);
    }
  }
}
