// Whole workflow runs: fresh, stopped, and resumed from their recorded tree.
module WorkflowRuns {
  import opened Options
  import opened Addresses
  import opened WorkflowModel
  import opened Engine
  import opened EngineSteps
  import opened EngineRuns
  import opened Scoping
  import opened Reconstruction
  import opened FreshRuns
  import opened ReplayProof
  import opened CutProof
  import opened ReconstructionProof
  import opened ResumeProof

  function Start(message: Value, stop: Option<nat>): State
  {
    State(map[USER_MESSAGE := message], Tree(map[], map[]), map[], [], stop)
  }

  // ---------- resuming ----------

  function Max(a: nat, b: nat): nat
  {
    if a < b then b else a
  }

  // Narrating one loop's recorded items again.
  ghost function ReplayItems(st: State, at: Address, numbers: seq<nat>): State
    decreases |numbers|
  {
    if numbers == [] then st
    else
      var record := NodeAt(st.tree.disk, at + [Item(numbers[0])]).item;
      ReplayItems(if record.Some? then CloseItem(st, at, record.value) else st, at, numbers[1..])
  }

  // Narrating one recorded stage again, under its own execution id; nothing is run.
  ghost function NarrateStage(stage: StageDef, base: Address, st: State): State
  {
    var at := base + [Stage(stage.name)];
    var node := NodeAt(st.tree.disk, at);
    if node.meta.None? || node.meta.value.attemptCount !in node.attempts then st
    else
      var attempt := node.attempts[node.meta.value.attemptCount];
      var st1 := st.(counters := st.counters[PathOf(at) := Max(Count(st.counters, PathOf(at)), attempt.invocation)]);
      var st2 := Leave(Enter(st1, at, attempt.invocation, attempt.context), at, attempt.invocation, attempt.context,
                       node.meta.value.status, attempt.result);
      if stage.Loop? then ReplayItems(st2, at, SortedNumbers(ItemNumbers(st2.tree.disk, at))) else st2
  }

  ghost function Narrate(stages: seq<StageDef>, base: Address, st: State): State
  {
    if stages == [] then st
    else NarrateStage(stages[|stages| - 1], base, Narrate(stages[..|stages| - 1], base, st))
  }

  // A stage list entered at the cursor: earlier stages narrated, then live from there on.
  ghost function ResumeFrom(stages: seq<StageDef>, c: Address, budget: nat, st: State): (Flow, State)
  {
    if c == [] || c[0].Item? || IndexOf(stages, c[0].name) == |stages| then (Raised, st)
    else
      var k := IndexOf(stages, c[0].name);
      RunSequence(stages, k, [], Some(c[1..]), budget, Narrate(stages[..k], [], st))
  }

  // A resumed run: slots rebuilt from the tree, then live from the cursor.
  ghost function Resume(stages: seq<StageDef>, c: Address, tree: Tree, message: Value, stop: Option<nat>,
                        budget: nat): (Flow, State)
  {
    ResumeFrom(stages, c, budget, Reopened(stages, c, tree, message, stop))
  }

  // The state a resumed run starts in.
  ghost function Reopened(stages: seq<StageDef>, c: Address, tree: Tree, message: Value, stop: Option<nat>): State
  {
    State(ReconstructSlots(tree.disk, stages, message, c), tree, map[], [], stop)
  }

  // ---------- names ----------

  ghost predicate Forward(stages: seq<StageDef>)
  {
    forall k | 0 <= k < |stages| && stages[k].Branch? ::
      IndexOf(stages, stages[k].ifTrue) > k && IndexOf(stages, stages[k].ifFalse) > k
  }

  // The slots a whole run declares: the user message and every stage's output.
  ghost function TopNames(stages: seq<StageDef>): set<Name>
  {
    {USER_MESSAGE} + set k, n | 0 <= k < |stages| && n in Declared(stages[k]) :: n
  }

  // Stage names are distinct, branches jump forward, and slot names are kept apart.
  ghost predicate WellNamed(stages: seq<StageDef>)
  {
    && Distinct(stages) && Forward(stages)
    && forall k | 0 <= k < |stages| :: Tidy(stages[k], TopNames(stages))
  }

  lemma {:induction false} OutsWithin(stages: seq<StageDef>, done: seq<Name>)
    ensures OutsOf(stages, done) <= TopNames(stages)
  {
    if done != [] {
      OutsWithin(stages, done[..|done| - 1]);
      var k := IndexOf(stages, done[|done| - 1]);
      if k < |stages| { DeclaredWithin(stages, k); }
    }
  }

  lemma DeclaredWithin(stages: seq<StageDef>, k: nat)
    requires k < |stages|
    ensures Declared(stages[k]) <= TopNames(stages) && After(stages[k], TopNames(stages)) == TopNames(stages)
  {
    assert forall n | n in Declared(stages[k]) :: n in TopNames(stages);
  }

  // ---------- every run is properly bracketed ----------

  lemma {:induction false} SequenceSteps(stages: seq<StageDef>, k: nat, cursor: Option<Address>, budget: nat, st: State)
    requires k <= |stages|
    ensures Step(st, RunSequence(stages, k, [], cursor, budget, st).1, [], None)
    decreases budget
  {
    hide Step, Dispatch;
    if k == |stages| || budget == 0 {
      StepRefl(st, st, [], None);
    } else {
      var (flow, st1) := Dispatch(stages[k], [], None, cursor, st);
      DispatchSteps(stages[k], [], None, cursor, st);
      assert [] + [Stage(stages[k].name)] == [Stage(stages[k].name)];
      StepWiden(st, st1, [Stage(stages[k].name)], [], None, None);
      if flow.Next? {
        var next := if flow.jump.None? then k + 1 else IndexOf(stages, flow.jump.value);
        if flow.jump.None? || next < |stages| {
          SequenceSteps(stages, next, None, budget - 1, st1);
          StepTrans(st, st1, RunSequence(stages, next, [], None, budget - 1, st1).1, [], None);
        }
      }
    }
  }

  // Lifecycle bracketing: over every run (normal, raising, aborting, cancelled, or out of budget),
  // stage events are properly nested pairs, execution ids never repeat, sibling sequence numbers
  // stay distinct, and nothing is left marked as running.
  lemma RunBracketed(stages: seq<StageDef>, message: Value, stop: Option<nat>, budget: nat)
    ensures var st := RunSequence(stages, 0, [], None, budget, Start(message, stop)).1;
      && Scan(st.trace, []) == Some([])
      && (forall i, j | 0 <= i < j < |st.trace| :: !SameId(st.trace[i], st.trace[j]))
      && SequencesOk(st.tree)
      && forall a: Address :: !IsRunning(st.tree.disk, a)
  {
    var st0 := Start(message, stop);
    SequenceSteps(stages, 0, None, budget, st0);
    hide RunSequence;
    var st := RunSequence(stages, 0, [], None, budget, st0).1;
    assert st.trace[|st0.trace|..] == st.trace;
    assert HostedBy([], None);
    forall a: Address
      ensures !IsRunning(st.tree.disk, a)
    {
      assert !IsRunning(st0.tree.disk, a);
    }
  }

  // ---------- narration changes nothing that matters ----------

  // Narrating the stages of a list leaves slots, the statuses of that list, and every other
  // stage's directory as they were.
  ghost predicate Retold(st: State, st': State, base: Address, told: seq<Name>)
  {
    && st'.slots == st.slots && st'.stop == st.stop
    && (forall n: Name ::
         HasStatus(st'.tree.disk, base + [Stage(n)], Skipped) == HasStatus(st.tree.disk, base + [Stage(n)], Skipped))
    && (forall n: Name :: n !in told ==> SameUnder(st.tree.disk, st'.tree.disk, base + [Stage(n)]))
  }

  lemma {:induction false} ItemsRetold(st: State, at: Address, numbers: seq<nat>)
    ensures var st' := ReplayItems(st, at, numbers);
      st'.slots == st.slots && st'.stop == st.stop && SameOutside(st.tree.disk, st'.tree.disk, at)
          && SameAt(st.tree.disk, st'.tree.disk, at)
    decreases |numbers|
  {
    if numbers != [] {
      var record := NodeAt(st.tree.disk, at + [Item(numbers[0])]).item;
      var st1 := if record.Some? then CloseItem(st, at, record.value) else st;
      var st' := ReplayItems(st1, at, numbers[1..]);
      assert record.Some? ==> at + [Item(record.value.number)] != at;
      ItemsRetold(st1, at, numbers[1..]);
      forall a: Address | !(at <= a)
        ensures SameAt(st.tree.disk, st'.tree.disk, a)
      {
        assert SameAt(st.tree.disk, st1.tree.disk, a) && SameAt(st1.tree.disk, st'.tree.disk, a);
      }
    }
  }

  lemma PairRetold(st: State, at: Address, count: nat, context: Option<LoopContext>, status: Status, result: Value)
    requires at != [] && NodeAt(st.tree.disk, at).meta.Some? && NodeAt(st.tree.disk, at).meta.value.status == status
    ensures var st' := Leave(Enter(st, at, count, context), at, count, context, status, result);
      && st'.slots == st.slots && st'.stop == st.stop && OnlyAt(st.tree.disk, st'.tree.disk, at)
      && HasStatus(st'.tree.disk, at, Skipped) == HasStatus(st.tree.disk, at, Skipped)
  {
    var st1 := Enter(st, at, count, context);
    WriteMetaFacts(st.tree, at, Running, context);
    ExitFacts(st1.tree, at, count, context, status, result);
    OnlyAtTrans(st.tree.disk, st1.tree.disk, Leave(st1, at, count, context, status, result).tree.disk, at);
  }

  lemma StageRetold(stage: StageDef, base: Address, st: State)
    ensures Retold(st, NarrateStage(stage, base, st), base, [stage.name])
  {
    var at := base + [Stage(stage.name)];
    var node := NodeAt(st.tree.disk, at);
    if node.meta.Some? && node.meta.value.attemptCount in node.attempts {
      var attempt := node.attempts[node.meta.value.attemptCount];
      var st1 := st.(counters := st.counters[PathOf(at) := Max(Count(st.counters, PathOf(at)), attempt.invocation)]);
      PairRetold(st1, at, attempt.invocation, attempt.context, node.meta.value.status, attempt.result);
      hide Leave, Enter, OnStageEnter, OnStageExit;
      var st2 := Leave(Enter(st1, at, attempt.invocation, attempt.context), at, attempt.invocation, attempt.context,
                       node.meta.value.status, attempt.result);
      var st' := NarrateStage(stage, base, st);
      if stage.Loop? { ItemsRetold(st2, at, SortedNumbers(ItemNumbers(st2.tree.disk, at))); }
      assert SameOutside(st2.tree.disk, st'.tree.disk, at) && SameAt(st2.tree.disk, st'.tree.disk, at);
      OutsideBoth(st.tree.disk, st2.tree.disk, st'.tree.disk, at);
      forall n: Name
        ensures HasStatus(st'.tree.disk, base + [Stage(n)], Skipped) ==
            HasStatus(st.tree.disk, base + [Stage(n)], Skipped)
        ensures n != stage.name ==> SameUnder(st.tree.disk, st'.tree.disk, base + [Stage(n)])
      {
        if n != stage.name {
          SiblingSame(st.tree.disk, st'.tree.disk, base, stage.name, n);
          SameStatus(st.tree.disk, st'.tree.disk, base + [Stage(n)], Skipped);
        } else {
          SameStatus(st2.tree.disk, st'.tree.disk, at, Skipped);
        }
      }
    }
  }

  lemma OutsideBoth(d: Disk, d2: Disk, d3: Disk, at: Address)
    requires OnlyAt(d, d2, at) && SameOutside(d2, d3, at)
    ensures SameOutside(d, d3, at)
  {
    forall a: Address | !(at <= a)
      ensures SameAt(d, d3, a)
    {
      assert SameAt(d, d2, a) && SameAt(d2, d3, a);
    }
  }

  lemma {:induction false} NarrateRetold(stages: seq<StageDef>, base: Address, st: State)
    ensures Retold(st, Narrate(stages, base, st), base, NamesOf(stages))
  {
    if stages != [] {
      var earlier, last := stages[..|stages| - 1], stages[|stages| - 1];
      var st1 := Narrate(earlier, base, st);
      var st' := Narrate(stages, base, st);
      NarrateRetold(earlier, base, st);
      StageRetold(last, base, st1);
      hide Narrate, NarrateStage;
      forall n: Name | n !in NamesOf(stages)
        ensures SameUnder(st.tree.disk, st'.tree.disk, base + [Stage(n)])
      {
        assert SameUnder(st.tree.disk, st1.tree.disk, base + [Stage(n)]);
        assert n !in [last.name];
        SameUnderTrans(st.tree.disk, st1.tree.disk, st'.tree.disk, base + [Stage(n)]);
      }
    }
  }

  // ---------- stage lists agree ----------

  function NextIndex(stages: seq<StageDef>, k: nat, flow: Flow): (next: nat)
    requires flow.Next? && k < |stages|
    ensures next <= |stages|
  {
    if flow.jump.None? then k + 1 else IndexOf(stages, flow.jump.value)
  }

  lemma JumpsForward(stages: seq<StageDef>, k: nat, cursor: Option<Address>, st: State)
    requires Forward(stages) && k < |stages| && Dispatch(stages[k], [], None, cursor, st).0.Next?
    ensures NextIndex(stages, k, Dispatch(stages[k], [], None, cursor, st).0) > k
  {
    var at := [] + [Stage(stages[k].name)];
    if Gate(stages[k], st.slots).Holds? {
      DispatchUnfold(stages[k], [], None, cursor, st);
      hide Dispatch;
      BodyJumps(stages[k], at, Count(st.counters, PathOf(at)) + 1, cursor, Entered(stages[k], [], None, st));
    }
  }

  lemma BodyJumps(stage: StageDef, at: Address, count: nat, cursor: Option<Address>, st: State)
    ensures var flow := RunByType(stage, at, count, cursor, st).0;
      flow.Next? && flow.jump.Some? ==> stage.Branch? && flow.jump.value in {stage.ifTrue, stage.ifFalse}
  {
    if stage.Loop? {
      assert RunByType(stage, at, count, cursor, st) == RunLoop(stage, at, cursor, st);
      if LoopItems(stage, st.slots).Some? && !(cursor.Some? && cursor.value != [] && cursor.value[0].Stage?) {
        ItemsNoJump(stage, at, LoopItems(stage, st.slots).value, 0, cursor, Progress([], 0, 0), st);
      }
    } else if stage.Nested? {
      assert RunByType(stage, at, count, cursor, st) == RunSubWorkflow(stage, at, st);
      var seeded := stage.seed(st.slots);
      if seeded.Some? { StagesNoJump(stage, 0, at, stage.limit, map[], st.(slots := seeded.value)); }
    }
  }

  lemma {:induction false} StagesNoJump(stage: StageDef, k: nat, at: Address, left: nat, outcomes: map<Name, Value>,
                                        st: State)
    requires stage.Nested? && k <= |stage.stages|
    ensures var flow := RunStages(stage, k, at, left, outcomes, st).0; flow.Next? ==> flow.jump.None?
    decreases left
  {
    hide Dispatch;
    if k < |stage.stages| && left > 0 {
      var (flow, st1) := Dispatch(stage.stages[k], at, None, None, st);
      if flow.Next? {
        var next := if flow.jump.None? then k + 1 else IndexOf(stage.stages, flow.jump.value);
        if flow.jump.None? || next < |stage.stages| {
          StagesNoJump(stage, next, at, left - 1, outcomes[stage.stages[k].name := flow.result], st1);
        }
      }
    }
  }

  lemma {:induction false} ItemsNoJump(stage: StageDef, at: Address, items: seq<Value>, i: nat,
                                       cursor: Option<Address>, progress: Progress, st: State)
    requires stage.Loop? && i <= |items|
    ensures var flow := RunItems(stage, at, items, i, cursor, progress, st).0; flow.Next? ==> flow.jump.None?
    decreases |items| - i
  {
    hide RunAttempts;
    if i < |items| {
      if Reused(stage, at, cursor, i + 1, st.tree.disk) {
        var record := NodeAt(st.tree.disk, at + [Item(i + 1)]).item.value;
        ItemsNoJump(stage, at, items, i + 1, cursor, Tallied(progress, Some(record.result), record.success),
                    CloseItem(st, at, record));
      } else {
        LiveItem(stage, at, items, i, cursor, progress, st);
        var inside := InnerCursor(cursor, i + 1);
        var (end, used, st2) := RunAttempts(stage, at, i + 1, |items|, 0, inside,
                                            st.(slots := PrepareItem(stage, items[i], inside.Some?, st.slots)));
        var st3 := CloseItem(st2, at, RecordOf(stage, st2.slots, items[i], i + 1, |items|, end, used));
        var entry := if stage.over.Some? then Some(Collect(stage, st3.slots, items[i], end.ItemDone?)) else None;
        ItemsNoJump(stage, at, items, i + 1, cursor, Tallied(progress, entry, end.ItemDone?), st3);
      }
    }
  }

  // Conditions, templates and runners of the stages from k on depend on nothing but the given slots and,
  // inside a loop, those of the item.
  ghost predicate ScopedFrom(stages: seq<StageDef>, k: nat, scope: set<Name>)
  {
    forall i | k <= i < |stages| :: Scoped(stages[i], scope)
  }

  // Two runs of a stage list that agree on the slots its stages depend on, with enough budget each.
  lemma {:induction false} SequenceAgrees(stages: seq<StageDef>, k: nat, bx: nat, bz: nat, x: State, y: State,
                                          scope: set<Name>)
    requires WellNamed(stages) && k <= |stages| && bx >= |stages| - k && bz >= |stages| - k
    requires ScopedFrom(stages, k, scope) && Agree(x.slots, y.slots, scope) && x.stop == y.stop == None
    ensures var (f, x') := RunSequence(stages, k, [], None, bx, x);
      var (g, y') := RunSequence(stages, k, [], None, bz, y);
      SameEnd(f, x', g, y', scope, scope)
    decreases |stages| - k
  {
    hide Dispatch, Scoped, Tidy, Agree, TopNames, After;
    if k < |stages| {
      DispatchSameEnd(stages[k], [], None, x, y, scope);
      AfterGrows(stages[k], scope);
      var (f, x1) := Dispatch(stages[k], [], None, None, x);
      var (g, y1) := Dispatch(stages[k], [], None, None, y);
      if f.Next? {
        AgreeLess(x1.slots, y1.slots, After(stages[k], scope), scope);
        JumpsForward(stages, k, None, x);
        var next := NextIndex(stages, k, f);
        SequenceAgrees(stages, next, bx - 1, bz - 1, x1, y1, scope);
      }
    }
  }

  // ---------- where a stopped run was ----------

  lemma {:induction false} SequenceSpares(stages: seq<StageDef>, k: nat, budget: nat, st: State, name: Name)
    requires Forward(stages) && k <= |stages| && forall i | k <= i < |stages| :: stages[i].name != name
    ensures SameUnder(st.tree.disk, RunSequence(stages, k, [], None, budget, st).1.tree.disk, [Stage(name)])
    decreases budget
  {
    hide Dispatch;
    assert [] + [Stage(name)] == [Stage(name)];
    if k < |stages| && budget > 0 {
      var (flow, st1) := Dispatch(stages[k], [], None, None, st);
      DispatchSteps(stages[k], [], None, None, st);
      SiblingSame(st.tree.disk, st1.tree.disk, [], stages[k].name, name);
      if flow.Next? {
        JumpsForward(stages, k, None, st);
        var next := NextIndex(stages, k, flow);
        if next < |stages| || flow.jump.None? {
          SequenceSpares(stages, next, budget - 1, st1, name);
          SameUnderTrans(st.tree.disk, st1.tree.disk, RunSequence(stages, next, [], None, budget - 1, st1).1.tree.disk,
                         [Stage(name)]);
        }
      }
    }
  }

  // Names done so far all lie before stage k.
  ghost predicate Before(stages: seq<StageDef>, k: nat, done: seq<Name>)
  {
    forall i | k <= i < |stages| :: stages[i].name !in done
  }

  lemma NothingHaltedAfter(st: State, s: State, names: set<Name>)
    requires Quiet(st, s, names, false) && forall a: Address :: [] <= a ==> !HasStatus(st.tree.disk, a, Halted)
    ensures forall a: Address :: [] <= a ==> !HasStatus(s.tree.disk, a, Halted)
  {
  }

  // The outputs of the stages a tree shows as skipped.
  ghost function SkippedOutputs(disk: Disk, stages: seq<StageDef>): set<Name>
  {
    set k, n | 0 <= k < |stages| && n in Declared(stages[k])
        && HasStatus(disk, [] + [Stage(stages[k].name)], Skipped) :: n
  }

  lemma SkippedOutput(disk: Disk, stages: seq<StageDef>, k: nat)
    requires k < |stages| && HasStatus(disk, [] + [Stage(stages[k].name)], Skipped)
    ensures Declared(stages[k]) <= SkippedOutputs(disk, stages)
  {
    hide Declared, HasStatus;
    forall n | n in Declared(stages[k])
      ensures n in SkippedOutputs(disk, stages)
    {
    }
  }

  // The slots of a run that a resume has right: the user message and every declared output, but those
  // of the stages its tree shows as skipped.
  ghost function Settled(disk: Disk, stages: seq<StageDef>): set<Name>
  {
    TopNames(stages) - SkippedOutputs(disk, stages)
  }

  // The stage at which a stopped run of a stage list was, and the state before it: reached with or
  // without the stop button, with the stages done so far replayable from the recorded tree.
  lemma {:induction false} SequenceCut(stages: seq<StageDef>, k: nat, budget: nat, st: State, done: seq<Name>,
                                       start: Slots, names: set<Name>)
    returns (j: nat, s: State, left: nat, listed: seq<Name>)
    requires WellNamed(stages) && k <= |stages| && budget >= |stages| - k && Before(stages, k, done)
    requires SequencesOk(st.tree) && StillClear(st.tree.disk, [], stages, k)
    requires Children(st.tree.disk, []) == done
      && Agree(ReplayAll(st.tree.disk, [], stages, done, start), st.slots, names)
    requires forall a: Address :: [] <= a ==> !HasStatus(st.tree.disk, a, Halted)
    requires RunSequence(stages, k, [], None, budget, st).0.Cancelled?
    requires names <= Settled(RunSequence(stages, k, [], None, budget, st).1.tree.disk, stages)
    ensures k <= j < |stages| && stages[j].name !in listed && left >= |stages| - j
    ensures Dispatch(stages[j], [], None, None, s) == (Cancelled, RunSequence(stages, k, [], None, budget, st).1)
    ensures RunSequence(stages, k, [], None, budget, Unstopped(st)) ==
        RunSequence(stages, j, [], None, left, Unstopped(s))
    ensures Children(s.tree.disk, []) == listed
      && Agree(ReplayAll(s.tree.disk, [], stages, listed, start), s.slots, names)
    ensures Clear(s.tree.disk, [] + [Stage(stages[j].name)]) && SequencesOk(s.tree)
    ensures forall a: Address :: [] <= a ==> !HasStatus(s.tree.disk, a, Halted)
    decreases |stages| - k
  {
    hide Dispatch, SequencesOk, HasStatus, Quiet, Gate, Clear, Scratch, Scoped, Tidy, TopNames, Children, ReplayAll,
      Declared, Agree, SkippedOutputs;
    if k == |stages| { assert false; }
    var stage := stages[k];
    var (flow, st1) := Dispatch(stage, [], None, None, st);
    if flow.Cancelled? {
      j, s, left, listed := k, st, budget, done;
    } else {
      JumpsForward(stages, k, None, st);
      var next := NextIndex(stages, k, flow);
      var final := RunSequence(stages, next, [], None, budget - 1, st1).1;
      DispatchSteps(stage, [], None, None, st);
      if Gate(stage, st.slots).Fails? { SkipSettled(stages, k, st, next, budget - 1); }
      TidyScratch(stage, TopNames(stages), names);
      StageListed(stages, k, [], None, st, done, start, names);
      AgreeLess(ReplayAll(st1.tree.disk, [], stages, done + [stage.name], start), st1.slots,
                names + (if Gate(stage, st.slots).Fails? then {} else Declared(stage)), names);
      StillClearAfter(st.tree.disk, st1.tree.disk, [], stages, k);
      DispatchQuiet(stage, [], None, st);
      NothingHaltedAfter(st, st1, Touched(stage, flow));
      DispatchUnstopped(stage, [], None, None, st);
      j, s, left, listed := SequenceCut(stages, next, budget - 1, st1, done + [stage.name], start, names);
    }
  }

  // The output of a stage skipped now is not among the settled slots.
  lemma SkipSettled(stages: seq<StageDef>, k: nat, st: State, next: nat, budget: nat)
    requires Distinct(stages) && Forward(stages) && k < next <= |stages| && Gate(stages[k], st.slots).Fails?
    ensures var final := RunSequence(stages, next, [], None, budget, Dispatch(stages[k], [], None, None, st).1).1;
      Declared(stages[k]) !! Settled(final.tree.disk, stages)
  {
    hide Dispatch, RunSequence, HasStatus, Gate, Declared, SkippedOutputs, TopNames, Forward;
    var st1 := Dispatch(stages[k], [], None, None, st).1;
    var final := RunSequence(stages, next, [], None, budget, st1).1;
    SkippedRecorded(stages[k], [], None, None, st);
    SequenceSpares(stages, next, budget, st1, stages[k].name);
    assert [] + [Stage(stages[k].name)] == [Stage(stages[k].name)];
    SkippedStays(st1.tree.disk, final.tree.disk, [Stage(stages[k].name)]);
    SkippedOutput(final.tree.disk, stages, k);
  }

  // ---------- reconstruction and resume of whole runs ----------

  // The top-level stage an address lies in.
  predicate InStage(stages: seq<StageDef>, c: Address)
  {
    c != [] && c[0].Stage? && IndexOf(stages, c[0].name) < |stages|
  }

  ghost function VisibleAt(stages: seq<StageDef>, names: set<Name>, c: Address): set<Name>
  {
    if InStage(stages, c) then Visible(stages[IndexOf(stages, c[0].name)], names, c[1..]) else names
  }

  ghost predicate ListedAt(stages: seq<StageDef>, c: Address)
  {
    InStage(stages, c) ==> ListedPath(stages[IndexOf(stages, c[0].name)], c[1..])
  }

  // What a caller can check on disk before resuming at c: inside the stage c lies in, every item on the
  // way was in its first attempt with nothing skipped, and from that stage on no stage depends on the
  // output of a skipped one.
  ghost predicate ResumableAt(disk: Disk, stages: seq<StageDef>, c: Address)
  {
    InStage(stages, c) ==>
      && Resumable(disk, [c[0]], stages[IndexOf(stages, c[0].name)], c[1..])
      && ScopedFrom(stages, IndexOf(stages, c[0].name), Settled(disk, stages))
  }

  // A run stopped by the user, as recorded on disk, and an address c it shows as halted.
  ghost predicate StoppedAt(stages: seq<StageDef>, message: Value, presses: nat, budget: nat, c: Address)
  {
    var (flow, st) := RunSequence(stages, 0, [], None, budget, Start(message, Some(presses)));
    && WellNamed(stages) && budget >= |stages| && flow.Cancelled?
    && HasStatus(st.tree.disk, c, Halted) && ResumableAt(st.tree.disk, stages, c) && ListedAt(stages, c)
  }

  // The top-level stage in flight of a stopped run, and everything known of it.
  lemma RunCut(stages: seq<StageDef>, message: Value, presses: nat, budget: nat, c: Address)
    returns (j: nat, s: State, left: nat, listed: seq<Name>)
    requires StoppedAt(stages, message, presses, budget, c)
    ensures var final := RunSequence(stages, 0, [], None, budget, Start(message, Some(presses))).1;
      && j < |stages| && c != [] && c[0] == Stage(stages[j].name) && IndexOf(stages, stages[j].name) == j
      && stages[j].name !in listed && left >= |stages| - j
      && Dispatch(stages[j], [], None, None, s) == (Cancelled, final)
      && RunSequence(stages, 0, [], None, budget, Start(message, None)) ==
           RunSequence(stages, j, [], None, left, Unstopped(s))
      && Children(s.tree.disk, []) == listed
      && Agree(ReplayAll(s.tree.disk, [], stages, listed, map[USER_MESSAGE := message]), s.slots,
               Settled(final.tree.disk, stages))
      && Clear(s.tree.disk, [] + [Stage(stages[j].name)]) && SequencesOk(s.tree)
      && Resumable(final.tree.disk, [] + [Stage(stages[j].name)], stages[j], c[1..])
      && ScopedFrom(stages, j, Settled(final.tree.disk, stages))
  {
    hide Dispatch, RunSequence, SequencesOk, HasStatus, Scoped, Tidy, Resumable, Clear, TopNames, ListedAt, Forward,
      Agree, Settled, ScopedFrom, Children, ReplayAll;
    var st0 := Start(message, Some(presses));
    FreshStart(stages, message, presses);
    var final := RunSequence(stages, 0, [], None, budget, st0).1;
    var names := Settled(final.tree.disk, stages);
    AgreeSelf(st0.slots, names);
    j, s, left, listed := SequenceCut(stages, 0, budget, st0, [], map[USER_MESSAGE := message], names);
    assert Unstopped(st0) == Start(message, None);
    DistinctIndex(stages, j);
    if c == [] { NothingAtRoot(stages, budget, st0); }
    assert [] + c == c;
    HaltedInner(stages, [], None, j, s, final.tree.disk, c);
    assert [] + [c[0]] == [c[0]];
  }

  // A run writes nothing to the run directory's own node.
  lemma NothingAtRoot(stages: seq<StageDef>, budget: nat, st: State)
    requires NodeAt(st.tree.disk, []) == NodeAt(map[], [])
    ensures !HasStatus(RunSequence(stages, 0, [], None, budget, st).1.tree.disk, [], Halted)
  {
    RootKept(stages, 0, budget, st);
  }

  lemma {:induction false} RootKept(stages: seq<StageDef>, k: nat, budget: nat, st: State)
    requires k <= |stages|
    ensures SameAt(st.tree.disk, RunSequence(stages, k, [], None, budget, st).1.tree.disk, [])
    decreases budget
  {
    hide Dispatch;
    if k < |stages| && budget > 0 {
      var (flow, st1) := Dispatch(stages[k], [], None, None, st);
      DispatchSteps(stages[k], [], None, None, st);
      assert SameAt(st.tree.disk, st1.tree.disk, []);
      if flow.Next? {
        var next := NextIndex(stages, k, flow);
        if next < |stages| || flow.jump.None? { RootKept(stages, next, budget - 1, st1); }
      }
    }
  }

  lemma FreshStart(stages: seq<StageDef>, message: Value, presses: nat)
    ensures var st0 := Start(message, Some(presses));
      && SequencesOk(st0.tree) && StillClear(st0.tree.disk, [], stages, 0) && Before(stages, 0, [])
      && Replayed(st0.tree.disk, st0.slots, [], stages, [], map[USER_MESSAGE := message], TopNames(stages))
      && Children(st0.tree.disk, []) == []
      && ReplayAll(st0.tree.disk, [], stages, [], map[USER_MESSAGE := message]) == st0.slots
      && (forall a: Address :: [] <= a ==> !HasStatus(st0.tree.disk, a, Halted))
      && NodeAt(st0.tree.disk, []) == NodeAt(map[], [])
  {
    ClearChildren(Start(message, Some(presses)).tree.disk, []);
  }

  // What a stopped address says about the top-level stage it lies in.
  lemma StoppedInside(stages: seq<StageDef>, message: Value, presses: nat, budget: nat, c: Address, j: nat)
    requires StoppedAt(stages, message, presses, budget, c)
    requires j < |stages| && c != [] && c[0] == Stage(stages[j].name) && IndexOf(stages, stages[j].name) == j
    ensures WellNamed(stages) && Distinct(stages) && Tidy(stages[j], TopNames(stages))
    ensures forall names: set<Name> :: VisibleAt(stages, names, c) == Visible(stages[j], names, c[1..])
    ensures ListedPath(stages[j], c[1..])
    ensures HasStatus(RunSequence(stages, 0, [], None, budget, Start(message, Some(presses))).1.tree.disk, c, Halted)
  {
    hide RunSequence, HasStatus, ResumableAt, ListedPath, Visible, TopNames, Tidy, Scoped, Forward;
  }

  // At the stop itself: the slots rebuilt up to any halted address hold the live value of every settled
  // slot, and of every slot of the item in view there.
  lemma ReconstructionRefines(stages: seq<StageDef>, message: Value, presses: nat, budget: nat, c: Address)
    requires StoppedAt(stages, message, presses, budget, c)
    ensures var st := RunSequence(stages, 0, [], None, budget, Start(message, Some(presses))).1;
      Agree(ReconstructSlots(st.tree.disk, stages, message, c), st.slots,
            VisibleAt(stages, Settled(st.tree.disk, stages), c))
  {
    hide Dispatch, RunSequence, SequencesOk, HasStatus, Clear, Resumable, Tidy, Scoped, TopNames, Agree,
      SkippedOutputs, WalkInto, WalkStages, StoppedAt, VisibleAt, Visible, ListedPath, OutsOf, ReplayAll, Children,
      ScopedFrom;
    var st := RunSequence(stages, 0, [], None, budget, Start(message, Some(presses))).1;
    var disk, names := st.tree.disk, Settled(st.tree.disk, stages);
    var j, s, left, listed := RunCut(stages, message, presses, budget, c);
    StoppedInside(stages, message, presses, budget, c, j);
    var start: Slots := map[USER_MESSAGE := message];
    SameSelf(disk);
    ListingInFlight(stages, [], None, j, listed, s, disk, start);
    WalkToCursor(disk, [], stages, listed, j, c[1..], start);
    assert c == [Stage(stages[j].name)] + c[1..] == [] + [Stage(stages[j].name)] + c[1..];
    ReplayKeys(s.tree.disk, [], stages, listed, start);
    OutsWithin(stages, listed);
    MessageDeclared(stages);
    StageWalk(stages[j], [], None, s, disk, c[1..], ReplayAll(s.tree.disk, [], stages, listed, start), names,
              TopNames(stages));
  }

  lemma MessageDeclared(stages: seq<StageDef>)
    ensures USER_MESSAGE in TopNames(stages)
  {
  }

  lemma SameSelf(disk: Disk)
    ensures forall zone: Address :: SameUnder(disk, disk, zone)
  {
  }

  // The tree after narration still shows c halted and resumable.
  lemma NarratedTree(stages: seq<StageDef>, k: nat, c: Address, st: State)
    requires Distinct(stages) && k < |stages| && c != [] && c[0] == Stage(stages[k].name)
    requires HasStatus(st.tree.disk, c, Halted)
      && Resumable(st.tree.disk, [] + [Stage(stages[k].name)], stages[k], c[1..])
    ensures var st1 := Narrate(stages[..k], [], st);
      && st1.slots == st.slots && st1.stop == st.stop
      && HasStatus(st1.tree.disk, c, Halted)
           && Resumable(st1.tree.disk, [] + [Stage(stages[k].name)], stages[k], c[1..])
      && SameUnder(st.tree.disk, st1.tree.disk, [] + [Stage(stages[k].name)])
  {
    hide HasStatus, Resumable;
    NarrateRetold(stages[..k], [], st);
    NamesNotYet(stages, k);
    hide Narrate;
    var zone := [] + [Stage(stages[k].name)];
    assert zone <= c;
    var d, d1 := st.tree.disk, Narrate(stages[..k], [], st).tree.disk;
    SameStatus(d, d1, c, Halted);
    ResumableLocal(d, d1, zone, stages[k], c[1..]);
  }

  // Stop and resume: a run stopped at any moment and resumed from its recorded files, with whatever
  // sequence counters, at any halted address ends the way the uninterrupted run ends, with the same
  // value in every declared output slot but those of the stages that were skipped before the stop.
  lemma ResumeEquivalence(stages: seq<StageDef>, message: Value, presses: nat, budget: nat, more: nat, c: Address,
                          tree: Tree)
    requires StoppedAt(stages, message, presses, budget, c) && more >= |stages|
    requires tree.disk == RunSequence(stages, 0, [], None, budget, Start(message, Some(presses))).1.tree.disk
    ensures var (f, whole) := RunSequence(stages, 0, [], None, budget, Start(message, None));
      var (g, resumed) := Resume(stages, c, tree, message, None, more);
      f == g && Agree(resumed.slots, whole.slots, Settled(tree.disk, stages))
  {
    hide Dispatch, RunSequence, SequencesOk, HasStatus, Clear, Resumable, Tidy, Scoped, TopNames, Agree,
      ReconstructSlots, Narrate, After, SameEnd, SkippedOutputs, Children, ReplayAll;
    var names := Settled(tree.disk, stages);
    var j, s, left, listed := RunCut(stages, message, presses, budget, c);
    StoppedInside(stages, message, presses, budget, c, j);
    ReconstructionRefines(stages, message, presses, budget, c);
    var st := Reopened(stages, c, tree, message, None);
    var st1 := Narrate(stages[..j], [], st);
    NarratedTree(stages, j, c, st);
    assert c == [Stage(stages[j].name)] + c[1..] == [] + [Stage(stages[j].name)] + c[1..];
    StageResume(stages[j], [], None, s, c[1..], st1, names, names, TopNames(stages));
    SettledEnd(stages[j], s, st1, c[1..], names);
    RestAgrees(stages, j, left, more, Unstopped(s), st1, c[1..], names);
    ResumeUnfold(stages, j, c, tree, message, more);
    AgreeBack(RunSequence(stages, j, [], None, left, Unstopped(s)).0,
              RunSequence(stages, j, [], None, left, Unstopped(s)).1,
              RunSequence(stages, j, [], Some(c[1..]), more, st1).0,
              RunSequence(stages, j, [], Some(c[1..]), more, st1).1, names);
  }

  // The resumed stage's own end, on the slots in scope before it.
  lemma SettledEnd(stage: StageDef, s: State, z: State, rest: Address, scope: set<Name>)
    requires var (f, x1) := Dispatch(stage, [], None, None, Unstopped(s));
      var (g, y1) := Dispatch(stage, [], None, Some(rest), z);
      SameEnd(f, x1, g, y1, After(stage, scope), scope)
    ensures var (f, x1) := Dispatch(stage, [], None, None, Unstopped(s));
      var (g, y1) := Dispatch(stage, [], None, Some(rest), z);
      SameEnd(f, x1, g, y1, scope, scope)
  {
    hide Dispatch, After;
    AfterGrows(stage, scope);
  }

  lemma AgreeBack(f: Flow, x: State, g: Flow, y: State, names: set<Name>)
    requires SameEnd(f, x, g, y, names, names)
    ensures f == g && Agree(y.slots, x.slots, names)
  {
  }

  lemma ResumeUnfold(stages: seq<StageDef>, j: nat, c: Address, tree: Tree, message: Value, more: nat)
    requires j < |stages| && c != [] && c[0] == Stage(stages[j].name) && IndexOf(stages, stages[j].name) == j
    ensures Resume(stages, c, tree, message, None, more) ==
      RunSequence(stages, j, [], Some(c[1..]), more,
                  Narrate(stages[..j], [], Reopened(stages, c, tree, message, None)))
  {
    hide RunSequence, Narrate, ReconstructSlots;
  }

  // The rest of the stage list, after the resumed stage agreed.
  lemma RestAgrees(stages: seq<StageDef>, j: nat, left: nat, more: nat, x: State, y: State, rest: Address,
                   scope: set<Name>)
    requires WellNamed(stages) && j < |stages| && left >= |stages| - j && more >= |stages| - j
    requires ScopedFrom(stages, j, scope)
    requires var (f, x1) := Dispatch(stages[j], [], None, None, x);
      var (g, y1) := Dispatch(stages[j], [], None, Some(rest), y);
      SameEnd(f, x1, g, y1, scope, scope)
    ensures var (f, x') := RunSequence(stages, j, [], None, left, x);
      var (g, y') := RunSequence(stages, j, [], Some(rest), more, y);
      SameEnd(f, x', g, y', scope, scope)
  {
    hide Dispatch, Scoped, Tidy, Agree, TopNames, Forward;
    var (f, x1) := Dispatch(stages[j], [], None, None, x);
    var (g, y1) := Dispatch(stages[j], [], None, Some(rest), y);
    if f.Next? {
      JumpsForward(stages, j, None, x);
      SequenceAgrees(stages, NextIndex(stages, j, f), left - 1, more - 1, x1, y1, scope);
    }
  }
}
