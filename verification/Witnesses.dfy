// Small workflows on which the results about runs can be seen: a list loop stopped inside an item, one
// aborted inside an item, one whose item fails in its last attempt, and one with a skipped stage.
module Witnesses {
  import opened Options
  import opened Addresses
  import opened WorkflowModel
  import opened Engine
  import opened EngineSteps
  import opened EngineRuns
  import opened Scoping
  import opened Reconstruction
  import opened FreshRuns
  import opened ReplayProof
  import opened CutProof
  import opened ReconstructionProof
  import opened ResumeProof
  import opened WorkflowRuns
  import opened AttemptRecords
  import opened Reaching
  import opened Listings
  import opened Levels
  import opened ReachedReconstruction
  import opened SpoiledReconstruction
  import opened RecordedStages
  import opened RunReconstruction
  import opened ExactReconstruction

  // A loop over the list of one text, with one inner stage.
  function Step(action: Action): StageDef
  {
    Work("step", true, s => Holds, Some("step"), action)
  }

  const ONE_ITEM: seq<Value> := [Text("a")]

  function Each(action: Action): StageDef
  {
    Loop("each", true, Some(s => Some(ONE_ITEM)), "item", s => Holds, s => Holds, 0, false, [], Some("all"), false,
         [Step(action)])
  }

  const WAITS: Action := (n, s) => Done(Text("done"))
  const ABORTS: Action := (n, s) => Abort

  const LOOP_AT: Address := [Stage("each")]
  const ITEM_AT: Address := [Stage("each"), Item(1)]
  const STEP_AT: Address := [Stage("each"), Item(1), Stage("step")]

  lemma Names(action: Action)
    ensures TopNames([Each(action)]) == {USER_MESSAGE, "all"}
    ensures Declared(Step(action)) == Writes(Step(action)) == {"step"} && Scratch(Step(action)) == {}
    ensures InnerWrites(Each(action)) == InnerNames(Each(action).inner) == {"step"} && RetryNames(Each(action)) == {}
    ensures Scratch(Each(action)) == {"item", "step"}
  {
    var step, each := Step(action), Each(action);
    assert each.inner == [step] && step.name == "step";
    assert Declared(each) == {"all"} && [each][0] == each;
    assert TopNames([each]) == {USER_MESSAGE, "all"};
    assert Writes(step) == {"step"};
    assert InnerWrites(each) == {"step"} by {
      assert each.inner[0] == step;
    }
    assert InnerNames(each.inner) == {"step"} by {
      assert each.inner[0].name in InnerNames(each.inner);
    }
  }

  lemma EachWellNamed(action: Action)
    ensures WellNamed([Each(action)]) && ListedAt([Each(action)], STEP_AT)
  {
    var step, each := Step(action), Each(action);
    var used := TopNames([each]);
    Names(action);
    assert each.inner == [step];
    assert Tidy(step, used + OwnScratch(each) + OutsOf(each.inner, NamesOf(each.inner[..0])));
    assert Tidy(each, used);
    assert IndexOf([each], "each") == 0 && IndexOf(each.inner, "step") == 0;
    assert STEP_AT[1..][1] == Stage("step");
  }

  // How the loop ends when its inner stage is cancelled or aborts.
  lemma EachEnds(action: Action, st: State)
    returns (entry: State, flow: Flow, t: State)
    requires st.tree == Tree(map[], map[]) && st.counters == map[]
    ensures var each := Each(action);
      && entry == Prepared(each, ONE_ITEM, 0, Entered(each, [], None, st))
      && (flow, t) == Dispatch(Step(action), ITEM_AT, Some(FirstContext(each, 1, 1)), None, entry)
      && var record := RecordOf(each, t.slots, ONE_ITEM[0], 1, 1, ItemCancelled, 1);
      && var closed := Leave(CloseItem(t, LOOP_AT, record), LOOP_AT, 1, None, Halted, Null);
      && (flow.Cancelled? ==> Dispatch(each, [], None, None, st) == (Cancelled, closed))
      && (flow.Aborted? ==> Dispatch(each, [], None, None, st) == (Aborted, Leave(t, LOOP_AT, 1, None, Failed, Null)))
      && Clear(entry.tree.disk, ITEM_AT)
  {
    hide PathOf, Leave, Enter, PrepareItem, RecordOf, CloseItem, Dispatch;
    var each := Each(action);
    assert [] + [Stage("each")] == LOOP_AT && LOOP_AT + [Item(1)] == ITEM_AT;
    var st2 := Entered(each, [], None, st);
    entry := Prepared(each, ONE_ITEM, 0, st2);
    PreparedRun(each, LOOP_AT, ONE_ITEM, 0, st2);
    var first := FirstContext(each, 1, 1);
    assert each.inner == [Step(action)];
    flow, t := Dispatch(Step(action), ITEM_AT, Some(first), None, entry).0,
    Dispatch(Step(action), ITEM_AT, Some(first), None, entry).1;
    EnteredDisk(each, [], None, st);
    forall a: Address | ITEM_AT <= a
      ensures a !in entry.tree.disk
    {
      assert a != LOOP_AT && SameAt(st.tree.disk, st2.tree.disk, a);
    }
    assert Count(st.counters, PathOf(LOOP_AT)) == 0;
    DispatchUnfold(each, [], None, None, st);
    LoopUnfold(each, LOOP_AT, 1, None, st2);
    ItemsUnfold(each, LOOP_AT, ONE_ITEM, 0, Progress([], 0, 0), st2);
    FreshPass(each, LOOP_AT, 1, 1, entry);
  }

  // The record of the inner stage, seen at the end of the run.
  lemma StepRecorded(action: Action, entry: State)
    requires Clear(entry.tree.disk, ITEM_AT)
    ensures var (flow, t) := Dispatch(Step(action), ITEM_AT, Some(FirstContext(Each(action), 1, 1)), None, entry);
      && STEP_AT in t.tree.disk && HasStatus(t.tree.disk, STEP_AT, StatusOf(flow))
      && (forall a: Address :: ITEM_AT <= a && a != STEP_AT ==> a !in t.tree.disk)
  {
    hide PathOf, RunByType;
    var step := Step(action);
    var context := Some(FirstContext(Each(action), 1, 1));
    assert ITEM_AT + [Stage("step")] == STEP_AT;
    AtomicOnly(step, ITEM_AT, context, entry);
    DispatchUnfold(step, ITEM_AT, context, None, entry);
    var count := Count(entry.counters, PathOf(STEP_AT)) + 1;
    var (flow, st3) := RunByType(step, STEP_AT, count, None, Entered(step, ITEM_AT, context, entry));
    ExitFacts(st3.tree, STEP_AT, count, context, StatusOf(flow), ResultOf(flow));
    hide Dispatch;
    var t := Dispatch(step, ITEM_AT, context, None, entry).1;
    forall a: Address | ITEM_AT <= a && a != STEP_AT
      ensures a !in t.tree.disk
    {
      assert SameAt(entry.tree.disk, t.tree.disk, a);
    }
  }

  // A run of the loop stopped while the stage inside its item is running, seen from that stage.
  lemma StoppedRunExists(message: Value)
    ensures StoppedAt([Each(WAITS)], message, 0, 1, STEP_AT)
  {
    hide PathOf, Dispatch, RecordOf, WellNamed, ListedAt;
    var each, st0 := Each(WAITS), Start(message, Some(0));
    var entry, flow, t := EachEnds(WAITS, st0);
    StopsHere(entry);
    StepRecorded(WAITS, entry);
    EachWellNamed(WAITS);
    var record := RecordOf(each, t.slots, ONE_ITEM[0], 1, 1, ItemCancelled, 1);
    RecordNumber(each, t.slots, ONE_ITEM[0], 1, 1, ItemCancelled, 1);
    RecordAttempts(each, t.slots, ONE_ITEM[0], 1, 1, ItemCancelled, 1);
    var closed := CloseItem(t, LOOP_AT, record);
    assert LOOP_AT + [Item(record.number)] == ITEM_AT;
    var final := Leave(closed, LOOP_AT, 1, None, Halted, Null);
    assert RunSequence([each], 0, [], None, 1, st0) == (Cancelled, final);
    ExitFacts(closed.tree, LOOP_AT, 1, None, Halted, Null);
    assert SameAt(closed.tree.disk, final.tree.disk, STEP_AT) && SameAt(t.tree.disk, closed.tree.disk, STEP_AT);
    SameStatus(t.tree.disk, final.tree.disk, STEP_AT, Halted);
    assert SameAt(closed.tree.disk, final.tree.disk, ITEM_AT);
    StopResumable(each, final.tree.disk);
  }

  lemma StopsHere(entry: State)
    requires entry.stop == Some(0)
    ensures Dispatch(Step(WAITS), ITEM_AT, Some(FirstContext(Each(WAITS), 1, 1)), None, entry).0.Cancelled?
  {
    hide PathOf, Leave, Enter;
    DispatchUnfold(Step(WAITS), ITEM_AT, Some(FirstContext(Each(WAITS), 1, 1)), None, entry);
    EnteredSlots(Step(WAITS), ITEM_AT, Some(FirstContext(Each(WAITS), 1, 1)), entry);
  }

  lemma RecordAttempts(stage: StageDef, slots: Slots, item: Value, number: nat, total: nat, end: ItemEnd, used: nat)
    requires stage.Loop?
    ensures RecordOf(stage, slots, item, number, total, end, used).attemptsUsed == used
  {
  }

  lemma StopResumable(each: StageDef, disk: Disk)
    requires each == Each(WAITS) && HasStatus(disk, LOOP_AT, Halted) && HasStatus(disk, STEP_AT, Halted)
    requires NodeAt(disk, ITEM_AT).item.Some? && NodeAt(disk, ITEM_AT).item.value.attemptsUsed == 1
    ensures ResumableAt(disk, [each], STEP_AT)
  {
    assert each.inner == [Step(WAITS)];
    assert [STEP_AT[0]] == LOOP_AT && [] + [Stage("each")] == LOOP_AT;
    assert LOOP_AT + [Item(1)] == ITEM_AT && ITEM_AT + [Stage("step")] == STEP_AT;
    assert STEP_AT[1..] == [Item(1), Stage("step")];
    assert Resumable(disk, STEP_AT, Step(WAITS), []);
    assert Resumable(disk, LOOP_AT, each, STEP_AT[1..]);
  }

  // An abort inside an item leaves no item result, so at the stage that aborted the slots rebuilt
  // from disk are not those it was dispatched with.
  lemma AbortLosesItem(message: Value)
    returns (found: State)
    ensures var stages := [Each(ABORTS)];
      var (flow, final) := RunSequence(stages, 0, [], None, 1, Start(message, None));
      && flow.Aborted? && HasStatus(final.tree.disk, STEP_AT, Failed) && NodeAt(final.tree.disk, ITEM_AT).item.None?
      && SequenceReached(stages, 0, 1, Start(message, None), STEP_AT) == Some(found)
      && !Agree(ReconstructSlots(final.tree.disk, stages, message, STEP_AT), found.slots,
                ShownAt(final.tree.disk, stages, STEP_AT))
  {
    hide PathOf, Dispatch, RecordOf, WellNamed, ListedAt, HasStatus, ShownAt, ReconstructSlots, SequenceReached,
      IntactAt, JudgedAt, SingleAt;
    var each, st0 := Each(ABORTS), Start(message, None);
    var entry, flow, t := EachEnds(ABORTS, st0);
    AbortsHere(entry);
    StepRecorded(ABORTS, entry);
    EachWellNamed(ABORTS);
    var final := Leave(t, LOOP_AT, 1, None, Failed, Null);
    assert RunSequence([each], 0, [], None, 1, st0) == (Aborted, final);
    ExitFacts(t.tree, LOOP_AT, 1, None, Failed, Null);
    assert SameAt(t.tree.disk, final.tree.disk, STEP_AT) && SameAt(t.tree.disk, final.tree.disk, ITEM_AT);
    SameStatus(t.tree.disk, final.tree.disk, STEP_AT, Failed);
    EachWay(final.tree.disk);
    found := RecordedReached([each], message, None, 1, STEP_AT);
    ReconstructionExact([each], message, None, 1, STEP_AT, found);
  }

  // The conditions of the way to the stage inside the item.
  lemma EachWay(disk: Disk)
    requires NodeAt(disk, ITEM_AT).item.None?
    ensures WellNamed([Each(ABORTS)]) && DistinctOutputs([Each(ABORTS)])
    ensures SingleAt(disk, [Each(ABORTS)], STEP_AT) && JudgedAt(disk, [Each(ABORTS)], STEP_AT)
    ensures !IntactAt(disk, [Each(ABORTS)], STEP_AT)
  {
    var each, step := Each(ABORTS), Step(ABORTS);
    EachWellNamed(ABORTS);
    Names(ABORTS);
    assert DistinctOutputs([each]);
    hide WellNamed, DistinctOutputs, TopNames, Declared;
    assert each.inner == [step] && IndexOf([each], "each") == 0 && IndexOf(each.inner, "step") == 0;
    var rest := STEP_AT[1..];
    assert rest == [Item(1), Stage("step")] && rest[2..] == [] && [STEP_AT[0]] == LOOP_AT;
    assert Entering(each, rest);
    assert Single(disk, LOOP_AT, each, rest);
    assert Judged(disk, STEP_AT, step, []);
    assert Judged(disk, LOOP_AT, each, rest);
    assert LOOP_AT + [rest[0]] == ITEM_AT;
    assert !Intact(disk, LOOP_AT, each, rest);
  }

  lemma AbortsHere(entry: State)
    requires entry.stop.None?
    ensures Dispatch(Step(ABORTS), ITEM_AT, Some(FirstContext(Each(ABORTS), 1, 1)), None, entry).0.Aborted?
  {
    hide PathOf, Leave, Enter;
    DispatchUnfold(Step(ABORTS), ITEM_AT, Some(FirstContext(Each(ABORTS), 1, 1)), None, entry);
    EnteredSlots(Step(ABORTS), ITEM_AT, Some(FirstContext(Each(ABORTS), 1, 1)), entry);
  }

  // ---------- two stages in an item, with a retry ----------

  function StageA(condition: Condition, action: Action): StageDef
  {
    Work("a", true, condition, Some("a"), action)
  }

  function StageB(action: Action): StageDef
  {
    Work("b", true, s => Holds, Some("b"), action)
  }

  // A loop over the list of one text; its retry tells the stages that they are tried again.
  function Pair(condition: Condition, first: Action, second: Action): StageDef
  {
    Loop("each", true, Some(s => Some(ONE_ITEM)), "item", s => Holds, s => Holds, 1, false,
         [("again", s => Text("yes"))], Some("all"), false, [StageA(condition, first), StageB(second)])
  }

  const A_AT: Address := [Stage("each"), Item(1), Stage("a")]
  const B_AT: Address := [Stage("each"), Item(1), Stage("b")]

  const ALWAYS: Condition := s => Holds
  const NEVER: Condition := s => Fails
  const RAISES: Action := (n, s) => Raise

  // Done the first time, raises when tried again.
  const ONCE: Action := (n, s) => if "again" in s && s["again"] == Text("yes") then Raise else Done(Text("done"))

  lemma PairNames(condition: Condition, first: Action, second: Action)
    ensures var pair := Pair(condition, first, second);
      && TopNames([pair]) == {USER_MESSAGE, "all"} && Declared(pair) == {"all"}
      && InnerWrites(pair) == InnerNames(pair.inner) == {"a", "b"} && RetryNames(pair) == {"again"}
      && Scratch(pair) == {"item", "again", "a", "b"}
  {
    var pair, a, b := Pair(condition, first, second), StageA(condition, first), StageB(second);
    assert pair.inner[0] == a && pair.inner[1] == b && |pair.inner| == 2;
    assert [pair][0] == pair && Declared(pair) == {"all"};
    assert TopNames([pair]) == {USER_MESSAGE, "all"};
    assert Writes(a) == {"a"} && Writes(b) == {"b"};
    assert InnerWrites(pair) == {"a", "b"};
    assert InnerNames(pair.inner) == {"a", "b"} by {
      assert pair.inner[0].name in InnerNames(pair.inner) && pair.inner[1].name in InnerNames(pair.inner);
    }
    assert RetryNames(pair) == {"again"} by {
      assert pair.onRetry[0].0 in RetryNames(pair);
    }
  }

  lemma PairWellNamed(condition: Condition, first: Action, second: Action)
    ensures var stages := [Pair(condition, first, second)];
      WellNamed(stages) && DistinctOutputs(stages) && ListedAt(stages, B_AT)
  {
    var pair := Pair(condition, first, second);
    PairNames(condition, first, second);
    PairTidy(condition, first, second, TopNames([pair]));
    PairListed(condition, first, second);
    hide *;
    OneNamed(pair);
  }

  lemma OneNamed(stage: StageDef)
    requires stage.Loop? && Tidy(stage, TopNames([stage])) && Declared(stage) == {"all"}
    ensures WellNamed([stage]) && DistinctOutputs([stage])
  {
    hide Scratch, InnerWrites, Tidy, TopNames, Declared;
  }

  lemma PairListed(condition: Condition, first: Action, second: Action)
    ensures ListedAt([Pair(condition, first, second)], B_AT)
  {
    var pair, b := Pair(condition, first, second), StageB(second);
    assert pair.inner[1] == b && IndexOf([pair], "each") == 0 && IndexOf(pair.inner, "b") == 1;
    assert B_AT[1..] == [Item(1), Stage("b")] && B_AT[1..][2..] == [];
    assert ListedPath(b, []);
    assert ListedPath(pair, B_AT[1..]);
  }

  lemma PairTidy(condition: Condition, first: Action, second: Action, used: set<Name>)
    requires used == {USER_MESSAGE, "all"}
    ensures Tidy(Pair(condition, first, second), used)
  {
    var pair := Pair(condition, first, second);
    PairNames(condition, first, second);
    hide Scratch, InnerWrites, InnerNames, RetryNames, OutsOf, NamesOf, OwnScratch;
    forall k | 0 <= k < |pair.inner|
      ensures Tidy(pair.inner[k], used + OwnScratch(pair) + OutsOf(pair.inner, NamesOf(pair.inner[..k])))
    {
      assert pair.inner[k].Work?;
    }
  }

  function PairContext(attempt: nat): LoopContext
  {
    LoopContext(1, 1, attempt, 2)
  }

  // A stage whose condition holds, run without the stop button.
  lemma WorkRuns(stage: StageDef, attempt: nat, st: State)
    requires stage.Work? && st.stop.None? && Gate(stage, st.slots).Holds?
    requires forall m: nat, n: nat, s: Slots :: stage.action(m, s) == stage.action(n, s)
    ensures var (flow, after) := Dispatch(stage, ITEM_AT, Some(PairContext(attempt)), None, st);
      var result := stage.action(0, st.slots);
      && flow == (match result case Done(value) => Next(value, None) case Raise => Raised case Abort => Aborted)
      && after.slots == (if result.Done? then Write(st.slots, stage.output, result.value) else st.slots)
      && after.stop == None
  {
    hide PathOf, Leave, Enter, Gate;
    var at, context := ITEM_AT + [Stage(stage.name)], Some(PairContext(attempt));
    DispatchUnfold(stage, ITEM_AT, context, None, st);
    EnteredSlots(stage, ITEM_AT, context, st);
    var count := Count(st.counters, PathOf(at)) + 1;
    var st2 := Entered(stage, ITEM_AT, context, st);
    assert stage.action(count, st.slots) == stage.action(0, st.slots);
    assert RunByType(stage, at, count, None, st2) == Perform(stage, count, st2);
    var (flow, st3) := Perform(stage, count, st2);
    LeaveSlots(st3, at, count, context, StatusOf(flow), ResultOf(flow));
  }

  lemma TwoStages(pair: StageDef, context: LoopContext, st: State)
    requires pair.Loop? && |pair.inner| == 2
    ensures var (f, x) := Dispatch(pair.inner[0], ITEM_AT, Some(context), None, st);
      var (g, y) := Dispatch(pair.inner[1], ITEM_AT, Some(context), None, x);
      RunInner(pair, 0, ITEM_AT, context, None, st) ==
        if !f.Next? then (f, x) else if !g.Next? then (g, y) else (Next(Null, None), y)
  {
    hide Dispatch;
    var x := Dispatch(pair.inner[0], ITEM_AT, Some(context), None, st).1;
    var (g, y) := Dispatch(pair.inner[1], ITEM_AT, Some(context), None, x);
    assert RunInner(pair, 2, ITEM_AT, context, None, y) == (Next(Null, None), y);
    assert RunInner(pair, 1, ITEM_AT, context, None, x) == if g.Next? then (Next(Null, None), y) else (g, y);
  }

  // The state the item's first attempt starts in.
  lemma PairStart(condition: Condition, first: Action, second: Action, message: Value)
    returns (entry: State)
    ensures var pair := Pair(condition, first, second);
      var st2 := Entered(pair, [], None, Start(message, None));
      && entry == Prepared(pair, ONE_ITEM, 0, st2)
      && ItemRun(pair, LOOP_AT, ONE_ITEM, 0, st2) == RunAttempts(pair, LOOP_AT, 1, 1, 0, None, entry)
      && entry.stop == None && "again" in entry.slots && entry.slots["again"] == Text("") && "a" !in entry.slots
  {
    hide PathOf, Enter, RunAttempts;
    var pair, st0 := Pair(condition, first, second), Start(message, None);
    var st2 := Entered(pair, [], None, st0);
    EnteredSlots(pair, [], None, st0);
    entry := Prepared(pair, ONE_ITEM, 0, st2);
    PreparedRun(pair, LOOP_AT, ONE_ITEM, 0, st2);
    PairNames(condition, first, second);
    assert "again" in RetryNames(pair) && "again" !in InnerNames(pair.inner) && "a" in InnerNames(pair.inner);
  }

  // Attempt 1: a done, b raises. Attempt 2: a raises. The item fails, the loop and the run complete.
  lemma RetryRun(message: Value)
    returns (entry: State, x1: State, x2: State, x3: State, b: State)
    ensures var pair := Pair(ALWAYS, ONCE, RAISES);
      && entry == Prepared(pair, ONE_ITEM, 0, Entered(pair, [], None, Start(message, None)))
      && Dispatch(pair.inner[0], ITEM_AT, Some(PairContext(1)), None, entry) == (Next(Text("done"), None), x1)
      && Dispatch(pair.inner[1], ITEM_AT, Some(PairContext(1)), None, x1) == (Raised, x2)
      && x3 == Retried(pair, 1, x2)
      && Dispatch(pair.inner[0], ITEM_AT, Some(PairContext(2)), None, x3) == (Raised, b)
      && ItemRun(pair, LOOP_AT, ONE_ITEM, 0, Entered(pair, [], None, Start(message, None))) == (ItemFailed, 2, b)
      && x1.slots == entry.slots["a" := Text("done")]
  {
    hide Leave, Enter, Dispatch, Prepared, Entered, ItemRun;
    var pair := Pair(ALWAYS, ONCE, RAISES);
    entry := PairStart(ALWAYS, ONCE, RAISES, message);
    assert pair.inner == [StageA(ALWAYS, ONCE), StageB(RAISES)];
    WorkRuns(pair.inner[0], 1, entry);
    x1 := Dispatch(pair.inner[0], ITEM_AT, Some(PairContext(1)), None, entry).1;
    WorkRuns(pair.inner[1], 1, x1);
    x2 := Dispatch(pair.inner[1], ITEM_AT, Some(PairContext(1)), None, x1).1;
    x3 := Retried(pair, 1, x2);
    RetryTells(x2);
    WorkRuns(pair.inner[0], 2, x3);
    b := Dispatch(pair.inner[0], ITEM_AT, Some(PairContext(2)), None, x3).1;
    TwoStages(pair, PairContext(1), entry);
    TwoStages(pair, PairContext(2), x3);
    hide Retried;
    TwoAttempts(pair, entry, x2, x3, b);
  }

  lemma RetryTells(st: State)
    ensures var x := Retried(Pair(ALWAYS, ONCE, RAISES), 1, st);
      x.slots == st.slots["again" := Text("yes")] && x.stop == st.stop
  {
    var pair := Pair(ALWAYS, ONCE, RAISES);
    assert pair.onRetry[1..] == [];
    var slots1 := st.slots["again" := Text("yes")];
    assert ApplyRetry([], slots1) == slots1;
    assert ApplyRetry(pair.onRetry, st.slots) == ApplyRetry(pair.onRetry[1..], slots1);
  }

  lemma TwoAttempts(pair: StageDef, entry: State, x2: State, x3: State, b: State)
    requires pair == Pair(ALWAYS, ONCE, RAISES) && x3 == Retried(pair, 1, x2)
    requires RunInner(pair, 0, ITEM_AT, PairContext(1), None, entry) == (Raised, x2)
    requires RunInner(pair, 0, ITEM_AT, PairContext(2), None, x3) == (Raised, b)
    ensures RunAttempts(pair, LOOP_AT, 1, 1, 0, None, entry) == (ItemFailed, 2, b)
  {
    hide RunInner, ApplyRetry;
    assert LOOP_AT + [Item(1)] == ITEM_AT;
    assert RunAttempts(pair, LOOP_AT, 1, 1, 2, None, b) == (ItemFailed, 2, b);
    assert RunAttempts(pair, LOOP_AT, 1, 1, 1, None, x2) == (ItemFailed, 2, b);
  }

  // The loop closes its only item and ends.
  lemma PairLoop(pair: StageDef, st2: State, count: nat)
    requires pair.Loop? && pair.over.Some? && LoopItems(pair, st2.slots) == Some(ONE_ITEM) && !pair.abortOnMaxRetries
    requires var end := ItemRun(pair, LOOP_AT, ONE_ITEM, 0, st2).0; end.ItemFailed? || end.ItemDone?
    ensures var (flow, st3) := RunByType(pair, LOOP_AT, count, None, st2);
      flow.Next? && flow.jump.None? && st3.tree == ClosedAfter(pair, LOOP_AT, ONE_ITEM, 0, st2).tree
  {
    hide ItemRun, ClosedAfter, ProgressAfter;
    LoopUnfold(pair, LOOP_AT, count, None, st2);
    ItemsUnfold(pair, LOOP_AT, ONE_ITEM, 0, Progress([], 0, 0), st2);
  }

  lemma PairClosed(pair: StageDef, st2: State, b: State)
    requires pair.Loop? && ItemRun(pair, LOOP_AT, ONE_ITEM, 0, st2).2 == b
    ensures var closed := ClosedAfter(pair, LOOP_AT, ONE_ITEM, 0, st2);
      && NodeAt(closed.tree.disk, ITEM_AT).item.Some?
      && forall a: Address :: a != ITEM_AT ==> SameAt(b.tree.disk, closed.tree.disk, a)
  {
    hide RecordOf, ItemRun;
    assert LOOP_AT + [Item(1)] == ITEM_AT;
    var (end, used, _) := ItemRun(pair, LOOP_AT, ONE_ITEM, 0, st2);
    RecordNumber(pair, b.slots, ONE_ITEM[0], 1, 1, end, used);
  }

  lemma PairEnds(condition: Condition, first: Action, second: Action, message: Value, b: State)
    returns (final: State)
    requires var pair := Pair(condition, first, second);
      var (end, used, st) := ItemRun(pair, LOOP_AT, ONE_ITEM, 0, Entered(pair, [], None, Start(message, None)));
      (end.ItemFailed? || end.ItemDone?) && st == b
    ensures var (flow, end) := RunSequence([Pair(condition, first, second)], 0, [], None, 1, Start(message, None));
      && flow.Next? && end == final && NodeAt(final.tree.disk, ITEM_AT).item.Some?
      && (forall a: Address :: a != LOOP_AT && a != ITEM_AT ==> SameAt(b.tree.disk, final.tree.disk, a))
  {
    hide PathOf, Enter, Entered, ItemRun, ClosedAfter, OnStageExit, RunByType;
    var pair, st0 := Pair(condition, first, second), Start(message, None);
    assert [] + [Stage("each")] == LOOP_AT;
    var st2 := Entered(pair, [], None, st0);
    EnteredSlots(pair, [], None, st0);
    DispatchUnfold(pair, [], None, None, st0);
    var count := Count(st0.counters, PathOf(LOOP_AT)) + 1;
    PairLoop(pair, st2, count);
    PairClosed(pair, st2, b);
    var (flow, st3) := RunByType(pair, LOOP_AT, count, None, st2);
    ExitFacts(st3.tree, LOOP_AT, count, None, StatusOf(flow), ResultOf(flow));
    final := Leave(st3, LOOP_AT, count, None, StatusOf(flow), ResultOf(flow));
    OneStage(pair, st0, flow, final);
    var closed := ClosedAfter(pair, LOOP_AT, ONE_ITEM, 0, st2);
    assert SameAt(closed.tree.disk, final.tree.disk, ITEM_AT);
    forall a: Address | a != LOOP_AT && a != ITEM_AT
      ensures SameAt(b.tree.disk, final.tree.disk, a)
    {
      assert SameAt(b.tree.disk, closed.tree.disk, a) && SameAt(closed.tree.disk, final.tree.disk, a);
    }
  }

  lemma OneStage(stage: StageDef, st: State, flow: Flow, final: State)
    requires Dispatch(stage, [], None, None, st) == (flow, final) && flow.Next? && flow.jump.None?
    ensures RunSequence([stage], 0, [], None, 1, st) == (Next(Null, None), final)
  {
    hide Dispatch;
  }

  // The files a dispatched stage of the item leaves, and what it leaves of its sibling's.
  lemma FilesLeft(stage: StageDef, attempt: nat, st: State, sibling: Name)
    requires stage.name != sibling && !Gate(stage, st.slots).Broken?
    ensures var (flow, after) := Dispatch(stage, ITEM_AT, Some(PairContext(attempt)), None, st);
      var at := ITEM_AT + [Stage(stage.name)];
      var before, node := NodeAt(st.tree.disk, at), NodeAt(after.tree.disk, at);
      && at in after.tree.disk && node.meta.Some? && node.meta.value.attemptCount == attempt
      && attempt in node.attempts && node.attempts[attempt].status == EndStatus(stage, flow, st.slots)
      && node.attempts[attempt].result == ResultOf(flow)
      && (forall n: nat :: n != attempt && n in before.attempts ==>
            n in node.attempts && node.attempts[n] == before.attempts[n])
      && SameAt(st.tree.disk, after.tree.disk, ITEM_AT + [Stage(sibling)])
  {
    hide Dispatch, PathOf, Gate, Step;
    var context := Some(PairContext(attempt));
    var after := Dispatch(stage, ITEM_AT, context, None, st).1;
    DispatchFiles(stage, ITEM_AT, context, st);
    DispatchSteps(stage, ITEM_AT, context, None, st);
    StepOutside(st, after, ITEM_AT + [Stage(stage.name)], None);
    SiblingSame(st.tree.disk, after.tree.disk, ITEM_AT, stage.name, sibling);
  }

  // Seen at the end of the run: what the two dispatches of a and the one of b left.
  lemma RetryFiles(pair: StageDef, entry: State, x1: State, x2: State, x3: State, b: State, disk: Disk)
    requires pair == Pair(ALWAYS, ONCE, RAISES)
    requires Dispatch(pair.inner[0], ITEM_AT, Some(PairContext(1)), None, entry) == (Next(Text("done"), None), x1)
    requires Dispatch(pair.inner[1], ITEM_AT, Some(PairContext(1)), None, x1) == (Raised, x2)
    requires x3 == Retried(pair, 1, x2)
    requires Dispatch(pair.inner[0], ITEM_AT, Some(PairContext(2)), None, x3) == (Raised, b)
    requires forall a: Address :: a != LOOP_AT && a != ITEM_AT ==> SameAt(b.tree.disk, disk, a)
    ensures var a, b := NodeAt(disk, A_AT), NodeAt(disk, B_AT);
      && a.meta.Some? && a.meta.value.attemptCount == 2 && 1 in a.attempts && 2 in a.attempts
      && a.attempts[1].status == Succeeded && a.attempts[1].result == Text("done") && a.attempts[2].result == Null
      && B_AT in disk && b.meta.Some? && b.meta.value.attemptCount == 1
  {
    hide Dispatch, ApplyRetry;
    assert pair.inner == [StageA(ALWAYS, ONCE), StageB(RAISES)];
    assert ITEM_AT + [Stage("a")] == A_AT && ITEM_AT + [Stage("b")] == B_AT;
    FilesLeft(pair.inner[0], 1, entry, "b");
    FilesLeft(pair.inner[1], 1, x1, "a");
    FilesLeft(pair.inner[0], 2, x3, "b");
    assert SameAt(b.tree.disk, disk, A_AT) && SameAt(b.tree.disk, disk, B_AT);
  }

  // The state b was last announced in is that of the first attempt.
  lemma RetryReached(pair: StageDef, message: Value, entry: State, x1: State, x2: State, x3: State, b: State)
    requires pair == Pair(ALWAYS, ONCE, RAISES)
    requires entry == Prepared(pair, ONE_ITEM, 0, Entered(pair, [], None, Start(message, None)))
    requires Dispatch(pair.inner[0], ITEM_AT, Some(PairContext(1)), None, entry) == (Next(Text("done"), None), x1)
    requires Dispatch(pair.inner[1], ITEM_AT, Some(PairContext(1)), None, x1) == (Raised, x2)
    requires x3 == Retried(pair, 1, x2)
    requires Dispatch(pair.inner[0], ITEM_AT, Some(PairContext(2)), None, x3) == (Raised, b)
    ensures SequenceReached([pair], 0, 1, Start(message, None), B_AT) == Some(x1)
  {
    hide Dispatch, ApplyRetry, PathOf, Enter, Entered, Prepared, Retried, RunInner, PassReached;
    var st0 := Start(message, None);
    var rest := B_AT[1..];
    assert pair.inner == [StageA(ALWAYS, ONCE), StageB(RAISES)];
    assert rest == [Item(1), Stage("b")] && rest[2..] == [] && [] + [Stage("each")] == LOOP_AT;
    assert LOOP_AT + [Item(1)] == ITEM_AT && IndexOf(pair.inner, "b") == 1;
    TwoStages(pair, PairContext(1), entry);
    TwoStages(pair, PairContext(2), x3);
    PassesReach(pair, entry, x1, x3);
    var st2 := Entered(pair, [], None, st0);
    assert LastPass(pair, LOOP_AT, 1, 1, 2, b, 1) == None;
    assert LastPass(pair, LOOP_AT, 1, 1, 1, x2, 1) == None;
    assert Retried(pair, 0, entry) == entry by { RetryTouches(pair, 0, entry); }
    assert LastPass(pair, LOOP_AT, 1, 1, 0, entry, 1) == Some((PairContext(1), entry));
    ReachedHere(pair.inner[1], ITEM_AT, Some(PairContext(1)), x1);
    assert ItemReached(pair, LOOP_AT, ONE_ITEM, 0, st2, rest) == Some(x1);
    assert StageReached(pair, [], None, st0, rest) == Some(x1);
    assert SequenceReached([pair], 0, 1, st0, B_AT) == Some(x1);
  }

  lemma PassesReach(pair: StageDef, entry: State, x1: State, x3: State)
    requires pair == Pair(ALWAYS, ONCE, RAISES)
    requires Dispatch(pair.inner[0], ITEM_AT, Some(PairContext(1)), None, entry) == (Next(Text("done"), None), x1)
    requires Dispatch(pair.inner[0], ITEM_AT, Some(PairContext(2)), None, x3).0.Raised?
    ensures PassReached(pair, 0, ITEM_AT, PairContext(1), entry, 1) == Some(x1)
    ensures PassReached(pair, 0, ITEM_AT, PairContext(2), x3, 1) == None
  {
    hide Dispatch;
    assert PassReached(pair, 1, ITEM_AT, PairContext(1), x1, 1) == Some(x1);
  }

  // The conditions of the way to b, from the files.
  lemma PairWay(condition: Condition, first: Action, second: Action, disk: Disk)
    requires NodeAt(disk, ITEM_AT).item.Some?
    ensures var pair := Pair(condition, first, second);
      && (IntactAt(disk, [pair], B_AT) <==> Faithful(disk, A_AT, pair.inner[0], LastAttempt(disk, B_AT)))
      && (JudgedAt(disk, [pair], B_AT) <==>
            Telling(disk, A_AT, pair.inner[0], LastAttempt(disk, B_AT), InnerNames(pair.inner)))
      && SingleAt(disk, [pair], B_AT) && "a" in ShownAt(disk, [pair], B_AT)
  {
    var pair, a, b := Pair(condition, first, second), StageA(condition, first), StageB(second);
    var rest := [Item(1), Stage("b")];
    assert pair.inner == [a, b] && IndexOf([pair], "each") == 0;
    assert B_AT[1..] == rest && [B_AT[0]] == LOOP_AT;
    PairInner(condition, first, second, disk);
    PairShown(condition, first, second, disk);
    hide Telling, Faithful, InnerNames, LastAttempt, Intact, Judged, Single, Shown, TopNames;
    FirstUnskipped(disk, [pair]);
  }

  lemma FirstUnskipped(disk: Disk, stages: seq<StageDef>)
    ensures Unskipped(disk, [], stages, 0)
  {
  }

  lemma PairInner(condition: Condition, first: Action, second: Action, disk: Disk)
    requires NodeAt(disk, ITEM_AT).item.Some?
    ensures var pair := Pair(condition, first, second);
      var rest := [Item(1), Stage("b")];
      && (Intact(disk, LOOP_AT, pair, rest) <==> Faithful(disk, A_AT, pair.inner[0], LastAttempt(disk, B_AT)))
      && (Judged(disk, LOOP_AT, pair, rest) <==>
            Telling(disk, A_AT, pair.inner[0], LastAttempt(disk, B_AT), InnerNames(pair.inner)))
      && Single(disk, LOOP_AT, pair, rest)
  {
    var pair, a, b := Pair(condition, first, second), StageA(condition, first), StageB(second);
    var rest := [Item(1), Stage("b")];
    assert pair.inner == [a, b] && IndexOf(pair.inner, "b") == 1;
    assert rest[2..] == [] && LOOP_AT + [rest[0]] == ITEM_AT && ITEM_AT + [rest[1]] == B_AT;
    assert Entering(pair, rest) && Declared(a) == {"a"} && Declared(b) == {"b"};
    hide Declared, Telling, Faithful, InnerNames, LastAttempt;
    assert OutputsApart(pair.inner);
    IntactHere(disk, B_AT, b);
    assert Judged(disk, B_AT, b, []);
    PairBefore(pair, disk, a, b);
    assert pair.inner[0] == a;
  }

  lemma PairShown(condition: Condition, first: Action, second: Action, disk: Disk)
    ensures var pair := Pair(condition, first, second);
      "a" in Shown(disk, LOOP_AT, pair, TopNames([pair]), [Item(1), Stage("b")])
  {
    var pair, a, b := Pair(condition, first, second), StageA(condition, first), StageB(second);
    var rest := [Item(1), Stage("b")];
    assert pair.inner == [a, b] && IndexOf(pair.inner, "b") == 1;
    assert rest[2..] == [] && LOOP_AT + [rest[0]] == ITEM_AT && ITEM_AT + [rest[1]] == B_AT && Entering(pair, rest);
    assert "a" in Declared(a) && pair.inner[0] == a;
    hide Declared, OutsOf, NamesOf, LastAttempt, TopNames;
    OutsHas(pair.inner, 0, 1, "a");
    var inside := ShownInside(pair, TopNames([pair]), 1, LastAttempt(disk, B_AT));
    ShownKeeps(disk, B_AT, b, inside, []);
    assert Shown(disk, LOOP_AT, pair, TopNames([pair]), rest) == Shown(disk, B_AT, b, inside, []);
  }

  lemma PairBefore(pair: StageDef, disk: Disk, a: StageDef, b: StageDef)
    requires pair.Loop? && pair.inner == [a, b] && a.name == "a" && b.name == "b"
    ensures IntactBefore(disk, ITEM_AT, pair, 1) <==> Faithful(disk, A_AT, a, LastAttempt(disk, B_AT))
    ensures JudgedBefore(disk, ITEM_AT, pair, 1) <==>
        Telling(disk, A_AT, a, LastAttempt(disk, B_AT), InnerNames(pair.inner))
  {
    hide Telling, Faithful, InnerNames, LastAttempt;
    assert ITEM_AT + [Stage("b")] == B_AT && ITEM_AT + [Stage("a")] == A_AT;
    assert pair.inner[0] == a && pair.inner[1] == b;
  }

  // What is rebuilt for a at b, from the files.
  lemma PairRebuilt(condition: Condition, first: Action, second: Action, message: Value, found: State)
    requires var stages := [Pair(condition, first, second)];
      var disk := RunSequence(stages, 0, [], None, 1, Start(message, None)).1.tree.disk;
      && SequenceReached(stages, 0, 1, Start(message, None), B_AT) == Some(found)
      && B_AT in disk && NodeAt(disk, A_AT).meta.Some? && LastAttempt(disk, A_AT) in NodeAt(disk, A_AT).attempts
    ensures var stages := [Pair(condition, first, second)];
      var disk := RunSequence(stages, 0, [], None, 1, Start(message, None)).1.tree.disk;
      var rebuilt := ReconstructSlots(disk, stages, message, B_AT);
      "a" in rebuilt && rebuilt["a"] == NodeAt(disk, A_AT).attempts[LastAttempt(disk, A_AT)].result
  {
    hide RunSequence, Dispatch, Tidy, SequencesOk, Clear, Children, Sorted, Named, Gate, WalkStages, WalkInto,
      ReplayAll, StageReached, Level, ReplayStage, TopNames, LastAttempt, Scratch, WellNamed, DistinctOutputs;
    var pair, st0 := Pair(condition, first, second), Start(message, None);
    var disk := RunSequence([pair], 0, [], None, 1, st0).1.tree.disk;
    var start: Slots := map[USER_MESSAGE := message];
    var rest := B_AT[1..];
    PairWellNamed(condition, first, second);
    FreshSlots([pair], message, None);
    ClearChildren(st0.tree.disk, []);
    assert B_AT == [Stage("each")] + rest && [] + [Stage(pair.name)] == LOOP_AT;
    TopWalk([pair], 0, 1, st0, [], start, rest);
    EntryFacts([pair], 0, 1, st0, rest);
    OnlyStage(pair, st0, rest);
    NothingYet(st0.tree.disk, [pair], start);
    PairInside(condition, first, second, st0, disk, rest, start, found);
  }

  lemma NothingYet(disk: Disk, stages: seq<StageDef>, start: Slots)
    ensures ReplayAll(disk, [], stages, [], start) == start
  {
  }

  lemma OnlyStage(pair: StageDef, st: State, rest: Address)
    requires pair.name == "each"
    ensures SequenceReached([pair], 0, 1, st, [Stage("each")] + rest) == StageReached(pair, [], None, st, rest)
  {
    hide StageReached, Dispatch;
    assert ([Stage("each")] + rest)[1..] == rest;
  }

  lemma PairInside(condition: Condition, first: Action, second: Action, st: State, disk: Disk, rest: Address,
                   start: Slots, found: State)
    requires rest == [Item(1), Stage("b")] && SequencesOk(st.tree)
    requires var pair := Pair(condition, first, second);
      && Named(pair) && Sorted(st.tree.disk, LOOP_AT, pair) && !Gate(pair, st.slots).Broken?
      && StageReached(pair, [], None, st, rest) == Some(found)
      && SameUnder(Dispatch(pair, [], None, None, st).1.tree.disk, disk, LOOP_AT)
    requires NodeAt(disk, A_AT).meta.Some? && LastAttempt(disk, A_AT) in NodeAt(disk, A_AT).attempts
    ensures var rebuilt := WalkInto(disk, LOOP_AT, Pair(condition, first, second), rest, start);
      "a" in rebuilt && rebuilt["a"] == NodeAt(disk, A_AT).attempts[LastAttempt(disk, A_AT)].result
  {
    hide Dispatch, SequencesOk, Children, Sorted, Named, Gate, WalkStages, WalkInto, ReplayAll, StageReached, Level,
      ReplayStage, LastAttempt, Scratch;
    var pair := Pair(condition, first, second);
    assert [] + [Stage(pair.name)] == LOOP_AT && pair.inner == [StageA(condition, first), StageB(second)];
    var items, m, s, pass, s1, t, j := ReachedLevel(pair, [], None, st, disk, rest);
    LevelParts(pair, [], None, st, disk, rest, items, m, s, pass, s1, t, j);
    LevelStage(pair, [], None, st, disk, rest, items, m, s, pass, s1, t, j);
    LevelListed(pair, [], None, st, disk, rest, items, m, s, pass, s1, t, j);
    assert m == 0 && j == 1;
    NamedInner(pair);
    WalkLevel(disk, LOOP_AT, pair, rest, start, 1, 1);
    var start1 := Bound(disk, ITEM_AT, pair.itemVar, start);
    assert LOOP_AT + [Item(1)] == ITEM_AT && ITEM_AT + [Stage("a")] == A_AT && ITEM_AT + [Stage("b")] == B_AT;
    ReplayNext(disk, ITEM_AT, pair.inner, 0, start1);
    NoneReplayed(disk, ITEM_AT, pair.inner, start1);
    assert pair.inner[0] == StageA(condition, first);
    ReplayWrites(disk, A_AT, pair.inner[0], start1, "a");
    WalkNothing(disk, B_AT, pair.inner[1], rest[2..],
                ReplayAll(disk, ITEM_AT, pair.inner, NamesOf(pair.inner[..1]), start1));
  }

  // A failed item: at b the files of a are those of the second attempt, which raised, so a is rebuilt
  // as nothing, while b was dispatched with what a had written in the first.
  lemma RetrySpoils(message: Value)
    returns (found: State)
    ensures var stages := [Pair(ALWAYS, ONCE, RAISES)];
      var (flow, final) := RunSequence(stages, 0, [], None, 1, Start(message, None));
      var rebuilt := ReconstructSlots(final.tree.disk, stages, message, B_AT);
      && flow.Next? && SequenceReached(stages, 0, 1, Start(message, None), B_AT) == Some(found)
      && JudgedAt(final.tree.disk, stages, B_AT) && !IntactAt(final.tree.disk, stages, B_AT)
      && "a" in ShownAt(final.tree.disk, stages, B_AT)
      && "a" in rebuilt && rebuilt["a"] == Null && "a" in found.slots && found.slots["a"] == Text("done")
  {
    hide Dispatch, RunSequence, SequenceReached, ItemRun, Entered, Prepared, Retried, ShownAt, JudgedAt, IntactAt,
      SingleAt, ReconstructSlots, InnerNames;
    var pair := Pair(ALWAYS, ONCE, RAISES);
    var entry, x1, x2, x3, b := RetryRun(message);
    var final := PairEnds(ALWAYS, ONCE, RAISES, message, b);
    RetryFiles(pair, entry, x1, x2, x3, b, final.tree.disk);
    RetryReached(pair, message, entry, x1, x2, x3, b);
    found := x1;
    PairWay(ALWAYS, ONCE, RAISES, final.tree.disk);
    assert pair.inner[0] == StageA(ALWAYS, ONCE) && Declared(pair.inner[0]) == {"a"};
    PairRebuilt(ALWAYS, ONCE, RAISES, message, found);
  }

  // a is skipped, b is done, and so is the item.
  lemma SkipRun(message: Value)
    returns (entry: State, x1: State, b: State)
    ensures var pair := Pair(NEVER, WAITS, WAITS);
      var st2 := Entered(pair, [], None, Start(message, None));
      && entry == Prepared(pair, ONE_ITEM, 0, st2)
      && Dispatch(pair.inner[0], ITEM_AT, Some(PairContext(1)), None, entry) == (Next(Null, None), x1)
      && Dispatch(pair.inner[1], ITEM_AT, Some(PairContext(1)), None, x1) == (Next(Text("done"), None), b)
      && ItemRun(pair, LOOP_AT, ONE_ITEM, 0, st2) == (ItemDone, 1, b) && "a" !in x1.slots
  {
    hide Leave, Enter, Dispatch, Prepared, Entered, ItemRun;
    var pair := Pair(NEVER, WAITS, WAITS);
    entry := PairStart(NEVER, WAITS, WAITS, message);
    assert pair.inner == [StageA(NEVER, WAITS), StageB(WAITS)];
    var context := Some(PairContext(1));
    WorkSkips(pair.inner[0], entry);
    x1 := Dispatch(pair.inner[0], ITEM_AT, context, None, entry).1;
    WorkRuns(pair.inner[1], 1, x1);
    b := Dispatch(pair.inner[1], ITEM_AT, context, None, x1).1;
    TwoStages(pair, PairContext(1), entry);
    OneAttempt(pair, entry, b);
  }

  lemma WorkSkips(stage: StageDef, st: State)
    requires Gate(stage, st.slots).Fails?
    ensures var (flow, after) := Dispatch(stage, ITEM_AT, Some(PairContext(1)), None, st);
      flow == Next(Null, None) && after.slots == st.slots && after.stop == st.stop
  {
    hide PathOf, Leave, Enter, Gate, Entered;
    var at, context := ITEM_AT + [Stage(stage.name)], Some(PairContext(1));
    DispatchSkips(stage, ITEM_AT, context, None, st);
    hide Dispatch;
    EnteredSlots(stage, ITEM_AT, context, st);
    var count := Count(st.counters, PathOf(at)) + 1;
    LeaveSlots(Entered(stage, ITEM_AT, context, st), at, count, context, Skipped, Null);
  }

  lemma OneAttempt(pair: StageDef, entry: State, b: State)
    requires pair == Pair(NEVER, WAITS, WAITS)
    requires RunInner(pair, 0, ITEM_AT, PairContext(1), None, entry) == (Next(Null, None), b)
    ensures RunAttempts(pair, LOOP_AT, 1, 1, 0, None, entry) == (ItemDone, 1, b)
  {
    hide RunInner;
    assert LOOP_AT + [Item(1)] == ITEM_AT;
  }

  // Seen at the end of the run: what the dispatches of a and b left.
  lemma SkipFiles(pair: StageDef, entry: State, x1: State, b: State, disk: Disk)
    requires pair == Pair(NEVER, WAITS, WAITS)
    requires Dispatch(pair.inner[0], ITEM_AT, Some(PairContext(1)), None, entry) == (Next(Null, None), x1)
    requires Dispatch(pair.inner[1], ITEM_AT, Some(PairContext(1)), None, x1) == (Next(Text("done"), None), b)
    requires forall a: Address :: a != LOOP_AT && a != ITEM_AT ==> SameAt(b.tree.disk, disk, a)
    ensures var a, b := NodeAt(disk, A_AT), NodeAt(disk, B_AT);
      && HasStatus(disk, A_AT, Skipped) && a.meta.Some? && a.meta.value.attemptCount == 1 && 1 in a.attempts
      && a.attempts[1].status == Skipped && a.attempts[1].result == Null
      && B_AT in disk && b.meta.Some? && b.meta.value.attemptCount == 1
  {
    hide Dispatch, HasStatus;
    assert pair.inner == [StageA(NEVER, WAITS), StageB(WAITS)];
    assert ITEM_AT + [Stage("a")] == A_AT && ITEM_AT + [Stage("b")] == B_AT;
    FilesLeft(pair.inner[0], 1, entry, "b");
    FilesLeft(pair.inner[1], 1, x1, "a");
    assert SameAt(b.tree.disk, disk, A_AT) && SameAt(b.tree.disk, disk, B_AT);
    SkippedRecorded(pair.inner[0], ITEM_AT, Some(PairContext(1)), None, entry);
    SameStatus(x1.tree.disk, disk, A_AT, Skipped);
  }

  lemma SkipReached(pair: StageDef, message: Value, entry: State, x1: State, b: State)
    requires pair == Pair(NEVER, WAITS, WAITS)
    requires entry == Prepared(pair, ONE_ITEM, 0, Entered(pair, [], None, Start(message, None)))
    requires Dispatch(pair.inner[0], ITEM_AT, Some(PairContext(1)), None, entry) == (Next(Null, None), x1)
    requires Dispatch(pair.inner[1], ITEM_AT, Some(PairContext(1)), None, x1) == (Next(Text("done"), None), b)
    ensures SequenceReached([pair], 0, 1, Start(message, None), B_AT) == Some(x1)
  {
    hide Dispatch, PathOf, Enter, Entered, Prepared, RunInner, PassReached;
    var st0 := Start(message, None);
    var rest := B_AT[1..];
    assert pair.inner == [StageA(NEVER, WAITS), StageB(WAITS)];
    assert rest == [Item(1), Stage("b")] && rest[2..] == [] && [] + [Stage("each")] == LOOP_AT;
    assert LOOP_AT + [Item(1)] == ITEM_AT && IndexOf(pair.inner, "b") == 1;
    assert B_AT == [Stage("each")] + rest;
    TwoStages(pair, PairContext(1), entry);
    SkipPass(pair, entry, x1);
    var st2 := Entered(pair, [], None, st0);
    assert LastPass(pair, LOOP_AT, 1, 1, 0, entry, 1) == Some((PairContext(1), entry));
    ReachedHere(pair.inner[1], ITEM_AT, Some(PairContext(1)), x1);
    assert ItemReached(pair, LOOP_AT, ONE_ITEM, 0, st2, rest) == Some(x1);
    assert StageReached(pair, [], None, st0, rest) == Some(x1);
    OnlyStage(pair, st0, rest);
  }

  lemma SkipPass(pair: StageDef, entry: State, x1: State)
    requires pair == Pair(NEVER, WAITS, WAITS)
    requires Dispatch(pair.inner[0], ITEM_AT, Some(PairContext(1)), None, entry) == (Next(Null, None), x1)
    ensures PassReached(pair, 0, ITEM_AT, PairContext(1), entry, 1) == Some(x1)
  {
    hide Dispatch;
    assert PassReached(pair, 1, ITEM_AT, PairContext(1), x1, 1) == Some(x1);
  }

  // A skipped stage: at b the slot of a is rebuilt as nothing, while b was dispatched without that slot.
  lemma SkipSpoilsItem(message: Value)
    returns (found: State)
    ensures var stages := [Pair(NEVER, WAITS, WAITS)];
      var (flow, final) := RunSequence(stages, 0, [], None, 1, Start(message, None));
      var rebuilt := ReconstructSlots(final.tree.disk, stages, message, B_AT);
      && flow.Next? && HasStatus(final.tree.disk, A_AT, Skipped)
      && SequenceReached(stages, 0, 1, Start(message, None), B_AT) == Some(found)
      && JudgedAt(final.tree.disk, stages, B_AT) && !IntactAt(final.tree.disk, stages, B_AT)
      && "a" in ShownAt(final.tree.disk, stages, B_AT) && "a" in rebuilt && rebuilt["a"] == Null && "a" !in found.slots
  {
    hide Dispatch, RunSequence, SequenceReached, ItemRun, Entered, Prepared, ShownAt, JudgedAt, IntactAt, SingleAt,
      ReconstructSlots;
    var pair := Pair(NEVER, WAITS, WAITS);
    var entry, x1, b := SkipRun(message);
    var final := PairEnds(NEVER, WAITS, WAITS, message, b);
    SkipFiles(pair, entry, x1, b, final.tree.disk);
    SkipReached(pair, message, entry, x1, b);
    found := x1;
    PairWay(NEVER, WAITS, WAITS, final.tree.disk);
    PairNames(NEVER, WAITS, WAITS);
    assert pair.inner[0] == StageA(NEVER, WAITS) && Declared(pair.inner[0]) == {"a"};
    PairRebuilt(NEVER, WAITS, WAITS, message, found);
  }
}
