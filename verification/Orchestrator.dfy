// The orchestrator object: it drives the stages step by step over its own mutable slots, counters,
// item stack and loop context, and records every event; each method refines the engine's semantics.
module Orchestrator {
  import opened Options
  import opened Addresses
  import opened WorkflowModel
  import opened Engine
  import opened EngineSteps
  import opened Reconstruction
  import opened WorkflowRuns
  import opened Scoping
  import opened RecorderHistory
  import opened Recorder
  import opened ResumeProof
  import opened Resumption

  // Opening an id that was not open and closing it again leaves the open ids as they were.
  lemma Reclosed(before: map<InvocationId, Option<LoopContext>>, id: InvocationId, context: Option<LoopContext>)
    requires id !in before
    ensures before[id := context] - {id} == before
  {
  }

  lemma ItemReused(stage: StageDef, at: Address, items: seq<Value>, i: nat, cursor: Option<Address>,
                   progress: Progress, st: State)
    requires stage.Loop? && i < |items| && Reused(stage, at, cursor, i + 1, st.tree.disk)
    ensures var record := NodeAt(st.tree.disk, at + [Item(i + 1)]).item.value;
      RunItems(stage, at, items, i, cursor, progress, st) ==
        RunItems(stage, at, items, i + 1, cursor, Tallied(progress, Some(record.result), record.success),
                 CloseItem(st, at, record))
  {
  }

  lemma ItemsEnd(stage: StageDef, at: Address, items: seq<Value>, cursor: Option<Address>, progress: Progress,
                 st: State)
    requires stage.Loop?
    ensures RunItems(stage, at, items, |items|, cursor, progress, st) ==
      (Next(Tally(|items|, progress.succeeded, progress.failed), None),
       st.(slots := if stage.over.Some? then Write(st.slots, stage.output, Aggregate(progress.entries)) else st.slots))
  {
  }

  // How a loop goes on after item i + 1 was run live and, unless it escaped its bookkeeping, closed.
  function GoesOn(stage: StageDef, at: Address, items: seq<Value>, i: nat, cursor: Option<Address>,
                  progress: Progress, end: ItemEnd, after: State): (r: (Flow, State))
    requires stage.Loop? && i < |items|
  {
    if end.ItemAborted? then (Aborted, after)
    else if end.ItemRaised? then (Raised, after)
    else if end.ItemCancelled? then (Cancelled, after)
    else if end.ItemFailed? && stage.abortOnMaxRetries then (Aborted, after)
    else
      var entry := if stage.over.Some? then Some(Collect(stage, after.slots, items[i], end.ItemDone?)) else None;
      RunItems(stage, at, items, i + 1, cursor, Tallied(progress, entry, end.ItemDone?), after)
  }

  lemma ItemRan(stage: StageDef, at: Address, items: seq<Value>, i: nat, cursor: Option<Address>,
                progress: Progress, before: State, end: ItemEnd, after: State)
    requires stage.Loop? && i < |items| && !Reused(stage, at, cursor, i + 1, before.tree.disk)
    requires var inside := InnerCursor(cursor, i + 1);
      var (e, used, st) := RunAttempts(stage, at, i + 1, |items|, 0, inside,
                                       before.(slots := PrepareItem(stage, items[i], inside.Some?, before.slots)));
      && end == e
      && after == if e.ItemAborted? || e.ItemRaised? then st
                  else CloseItem(st, at, RecordOf(stage, st.slots, items[i], i + 1, |items|, e, used))
    ensures RunItems(stage, at, items, i, cursor, progress, before) ==
        GoesOn(stage, at, items, i, cursor, progress, end, after)
  {
    hide RunAttempts, RunItems, PrepareItem, RecordOf, Collect, Reused;
    LiveItem(stage, at, items, i, cursor, progress, before);
  }

  class CustomWorkflowOrchestrator {
    const recorder: WorkflowRunRecorder
    var slots: Slots
    var activeItems: ItemStack
    var counters: map<Path, nat>
    var loopContext: Option<LoopContext>
    var trace: seq<Event>
    var stop: Option<nat>

    // No execution id still open is newer than its path's counter.
    ghost predicate Valid()
      reads this, recorder
    {
      recorder.Valid() && forall id <- recorder.invocations :: id.1 <= Count(counters, id.0)
    }

    function Snapshot(): State
      reads this, recorder
    {
      State(slots, recorder.Contents(), counters, trace, stop)
    }

    // The dotted path and the item stack in force below a directory.
    ghost predicate At(dir: Address, path: Path)
      reads this
    {
      Proper(dir) && path == PathOf(dir) && activeItems == StackOf(dir)
    }

    constructor (recorder: WorkflowRunRecorder, slots: Slots, stop: Option<nat>)
      requires recorder.Valid() && recorder.invocations == map[]
      ensures this.recorder == recorder && Valid() && At([], [])
      ensures Snapshot() == State(slots, recorder.Contents(), map[], [], stop) && loopContext == None
    {
      this.recorder, this.slots, this.stop := recorder, slots, stop;
      activeItems, counters, loopContext, trace := [], map[], None, [];
    }

    method NextExecutionId(path: Path) returns (count: nat)
      requires Valid()
      modifies this`counters
      ensures Valid() && count == Count(old(counters), path) + 1 && counters == old(counters)[path := count]
      ensures (path, count) !in recorder.invocations
    {
      count := Count(counters, path) + 1;
      counters := counters[path := count];
    }

    method EmitStageEnter(path: Path, count: nat, context: Option<LoopContext>, ghost at: Address)
      requires Valid() && AddressFor(path, activeItems) == at && count <= Count(counters, path)
      modifies this`trace, recorder
      ensures Valid() && Snapshot() == Enter(old(Snapshot()), at, count, context)
      ensures recorder.invocations == old(recorder.invocations)[(path, count) := context]
    {
      var address := recorder.AddressOf(path, activeItems);
      recorder.OnStageEnter(path, count, context, activeItems);
      trace := trace + [StageEnter(address, count, context)];
    }

    method EmitStageExit(path: Path, count: nat, status: Status, result: Value, ghost at: Address)
      requires Valid() && AddressFor(path, activeItems) == at && (path, count) in recorder.invocations
      modifies this`trace, recorder
      ensures Valid()
      ensures Snapshot() == Leave(old(Snapshot()), at, count, old(recorder.invocations)[(path, count)], status, result)
      ensures recorder.invocations == old(recorder.invocations) - {(path, count)}
    {
      var address := recorder.AddressOf(path, activeItems);
      recorder.OnStageExit(path, count, status, result, activeItems);
      trace := trace + [StageExit(address, count, status, result)];
    }

    method EmitLoopItemExit(path: Path, record: ItemRecord, ghost at: Address)
      requires Valid() && AddressFor(path, activeItems) == at
      modifies this`trace, recorder`disk
      ensures Valid() && Snapshot() == CloseItem(old(Snapshot()), at, record)
    {
      var address := recorder.AddressOf(path, activeItems);
      recorder.OnLoopItemExit(path, record, activeItems);
      trace := trace + [ItemExit(address, record)];
    }

    // One stage, bracketed by its enter and exit events whatever its runner does.
    method Dispatch(stage: StageDef, prefix: Path, cursor: Option<Address>, ghost base: Address) returns (flow: Flow)
      requires Valid() && At(base, prefix)
      modifies this, recorder
      ensures Valid() && At(base, prefix) && recorder.invocations == old(recorder.invocations)
      ensures (flow, Snapshot()) == Engine.Dispatch(stage, base, old(loopContext), cursor, old(Snapshot()))
      ensures flow.Next? ==> loopContext == old(loopContext)
      decreases stage, 4
    {
      hide Valid, Engine.Dispatch, Engine.RunByType, Gate, Enter, Leave, AddressFor, PathOf, StackOf, Proper;
      ghost var before := recorder.invocations;
      var path := prefix + [stage.name];
      ghost var at := base + [Stage(stage.name)];
      StageAddress(base, stage.name);
      var count := NextExecutionId(path);
      var gate := Gate(stage, slots);
      if gate.Broken? {
        DispatchBroken(stage, base, loopContext, cursor, old(Snapshot()));
        return Aborted;
      }
      EmitStageEnter(path, count, loopContext, at);
      if gate.Fails? {
        DispatchSkips(stage, base, loopContext, cursor, old(Snapshot()));
        EmitStageExit(path, count, Skipped, Null, at);
        Reclosed(before, (path, count), loopContext);
        return Next(Null, None);
      }
      DispatchUnfold(stage, base, loopContext, cursor, old(Snapshot()));
      flow := RunByType(stage, path, count, cursor, at);
      EmitStageExit(path, count, StatusOf(flow), ResultOf(flow), at);
      Reclosed(before, (path, count), old(loopContext));
    }

    method RunByType(stage: StageDef, path: Path, count: nat, cursor: Option<Address>, ghost at: Address)
      returns (flow: Flow)
      requires Valid() && At(at, path) && at != [] && at[|at| - 1].Stage?
      modifies this, recorder
      ensures Valid() && At(at, path) && recorder.invocations == old(recorder.invocations)
      ensures (flow, Snapshot()) == Engine.RunByType(stage, at, count, cursor, old(Snapshot()))
      ensures flow.Next? ==> loopContext == old(loopContext)
      decreases stage, 3
    {
      match stage
      case Work(_, _, _, _, _) => flow := Perform(stage, count);
      case Branch(_, _, _, _) => flow := Decide(stage, Snapshot());
      case Loop(_, _, _, _, _, _, _, _, _, _, _, _) => flow := RunLoop(stage, path, cursor, at);
      case Nested(_, _, _, _, _, _) => flow := RunSubWorkflow(stage, path, at);
    }

    // A nested workflow: its stages over their own slots and outside any loop context, with this
    // orchestrator's counters, item stack and recorder.
    method RunSubWorkflow(stage: StageDef, path: Path, ghost at: Address) returns (flow: Flow)
      requires stage.Nested? && Valid() && At(at, path)
      modifies this, recorder
      ensures Valid() && At(at, path) && recorder.invocations == old(recorder.invocations)
      ensures (flow, Snapshot()) == Engine.RunSubWorkflow(stage, at, old(Snapshot()))
      ensures loopContext == old(loopContext)
      decreases stage, 2
    {
      hide Engine.RunStages, AddressFor, PathOf, StackOf, Proper;
      var seeded := stage.seed(slots);
      if seeded.None? { return Raised; }
      var callerSlots, callerContext := slots, loopContext;
      slots, loopContext := seeded.value, None;
      flow := RunStages(stage, path, at);
      slots, loopContext := callerSlots, callerContext;
      if flow.Next? { slots := slots[stage.name := flow.result]; }
    }

    // The stages of a nested workflow, following branch jumps; its result is the tallies among theirs.
    method RunStages(stage: StageDef, path: Path, ghost at: Address) returns (flow: Flow)
      requires stage.Nested? && Valid() && At(at, path) && loopContext == None
      modifies this, recorder
      ensures Valid() && At(at, path) && recorder.invocations == old(recorder.invocations)
      ensures (flow, Snapshot()) == Engine.RunStages(stage, 0, at, stage.limit, map[], old(Snapshot()))
      decreases stage, 1
    {
      hide Engine.Dispatch;
      var current: nat, left, outcomes := 0, stage.limit, map[];
      while current < |stage.stages| && left > 0
        invariant current <= |stage.stages| && Valid() && At(at, path) && loopContext == None
        invariant recorder.invocations == old(recorder.invocations)
        invariant Engine.RunStages(stage, current, at, left, outcomes, Snapshot()) ==
          Engine.RunStages(stage, 0, at, stage.limit, map[], old(Snapshot()))
        decreases left
      {
        flow := Dispatch(stage.stages[current], path, None, at);
        if !flow.Next? { return; }
        outcomes, left := outcomes[stage.stages[current].name := flow.result], left - 1;
        if flow.jump.Some? {
          var target := IndexOf(stage.stages, flow.jump.value);
          if target == |stage.stages| { return Raised; }
          current := target;
        } else {
          current := current + 1;
        }
      }
      if current < |stage.stages| { return Raised; }
      flow := Next(Record(Tallies(outcomes)), None);
    }

    method Perform(stage: StageDef, count: nat) returns (flow: Flow)
      requires Valid() && stage.Work?
      modifies this`slots, this`stop
      ensures Valid() && (flow, Snapshot()) == Engine.Perform(stage, count, old(Snapshot()))
    {
      if stop == Some(0) { return Cancelled; }
      if stop.Some? { stop := Some(stop.value - 1); }
      match stage.action(count, slots)
      case Done(value) =>
        if stage.output.Some? { slots := slots[stage.output.value := value]; }
        flow := Next(value, None);
      case Raise => flow := Raised;
      case Abort => flow := Aborted;
    }

    // On a resume, the persisted record of an item that is not dispatched again.
    method ReadReusable(stage: StageDef, path: Path, cursor: Option<Address>, number: nat, ghost at: Address)
      returns (record: Option<ItemRecord>)
      requires stage.Loop? && Valid() && At(at, path)
      requires cursor.Some? && cursor.value != [] ==> cursor.value[0].Item?
      ensures record.Some? <==> Reused(stage, at, cursor, number, Snapshot().tree.disk)
      ensures record.Some? ==> record == NodeAt(Snapshot().tree.disk, at + [Item(number)]).item
    {
      if cursor.Some? && cursor.value != [] && number != cursor.value[0].number {
        if number < cursor.value[0].number || stage.assumeIndependent {
          AddressRebuilt(at);
          var loopAddress := recorder.AddressOf(path, activeItems);
          record := recorder.ReadItemResult(loopAddress, number);
          return;
        }
      }
      record := None;
    }

    method PrepareSlots(stage: StageDef, item: Value, resumedInside: bool)
      requires stage.Loop?
      modifies this`slots
      ensures slots == PrepareItem(stage, item, resumedInside, old(slots))
    {
      if stage.over.Some? { slots := slots[stage.itemVar := item]; }
      slots := slots + (map n | n in RetryNames(stage) :: Text(""));
      if !resumedInside { slots := slots - InnerNames(stage.inner); }
    }

    // One live item: all its attempts with the item on the stack, then its own exit event, unless
    // an exception escapes the item.
    method RunItem(stage: StageDef, path: Path, item: Value, number: nat, total: nat, inside: Option<Address>,
                   ghost at: Address) returns (end: ItemEnd)
      requires stage.Loop? && Valid() && At(at, path) && at != [] && at[|at| - 1].Stage?
      modifies this, recorder
      ensures Valid() && At(at, path) && recorder.invocations == old(recorder.invocations)
      ensures var (e, used, st) := Engine.RunAttempts(stage, at, number, total, 0, inside,
                                                      old(Snapshot()).(slots := PrepareItem(stage, item, inside.Some?,
                                                          old(slots))));
        && end == e
        && Snapshot() == if e.ItemAborted? || e.ItemRaised? then st
                         else CloseItem(st, at, RecordOf(stage, st.slots, item, number, total, e, used))
      ensures !end.ItemAborted? && !end.ItemRaised? ==> loopContext == old(loopContext)
      decreases stage, 1, 1
    {
      hide Engine.RunAttempts, AddressFor, PathOf, StackOf, Proper, PrepareItem, RecordOf, CloseItem;
      var enclosing := loopContext;
      AddressRebuilt(at);
      PrepareSlots(stage, item, inside.Some?);
      activeItems := activeItems + [(path, number)];
      ItemAddress(at, number);
      var used;
      end, used := RunAttempts(stage, path, number, total, inside, at);
      activeItems := activeItems[..|activeItems| - 1];
      if end.ItemAborted? || end.ItemRaised? { return; }
      loopContext := enclosing;
      EmitLoopItemExit(path, RecordOf(stage, slots, item, number, total, end, used), at);
    }

    // A loop: every item in input order, reused from disk or dispatched live, then the aggregate.
    method RunLoop(stage: StageDef, path: Path, cursor: Option<Address>, ghost at: Address) returns (flow: Flow)
      requires stage.Loop? && Valid() && At(at, path) && at != [] && at[|at| - 1].Stage?
      modifies this, recorder
      ensures Valid() && At(at, path) && recorder.invocations == old(recorder.invocations)
      ensures (flow, Snapshot()) == Engine.RunLoop(stage, at, cursor, old(Snapshot()))
      ensures flow.Next? ==> loopContext == old(loopContext)
      decreases stage, 2
    {
      hide Engine.RunAttempts, RunItems, AddressFor, PathOf, StackOf, Proper, PrepareItem, RecordOf, Collect,
        CloseItem, Engine.Reused, InnerCursor, LoopItems;
      var enclosing := loopContext;
      var list := LoopItems(stage, slots);
      if list.None? || (cursor.Some? && cursor.value != [] && cursor.value[0].Stage?) { return Raised; }
      var items := list.value;
      var aggregated, succeeded, failed := [], 0, 0;
      var i := 0;
      while i < |items|
        invariant i <= |items| && Valid() && At(at, path) && recorder.invocations == old(recorder.invocations)
        invariant loopContext == enclosing
        invariant RunItems(stage, at, items, i, cursor, Progress(aggregated, succeeded, failed), Snapshot()) ==
          RunItems(stage, at, items, 0, cursor, Progress([], 0, 0), old(Snapshot()))
      {
        var reused := ReadReusable(stage, path, cursor, i + 1, at);
        ghost var progress := Progress(aggregated, succeeded, failed);
        if reused.Some? {
          ItemReused(stage, at, items, i, cursor, progress, Snapshot());
          assert AddressFor(path, activeItems) == at by { AddressRebuilt(at); }
          EmitLoopItemExit(path, reused.value, at);
          aggregated := aggregated + [reused.value.result];
          if reused.value.success { succeeded := succeeded + 1; } else { failed := failed + 1; }
        } else {
          ghost var before := Snapshot();
          var end := RunItem(stage, path, items[i], i + 1, |items|, InnerCursor(cursor, i + 1), at);
          ItemRan(stage, at, items, i, cursor, progress, before, end, Snapshot());
          if end.ItemAborted? { return Aborted; }
          if end.ItemRaised? { return Raised; }
          if end.ItemCancelled? { return Cancelled; }
          if end.ItemFailed? {
            if stage.abortOnMaxRetries { return Aborted; }
            failed := failed + 1;
          } else {
            succeeded := succeeded + 1;
          }
          if stage.over.Some? { aggregated := aggregated + [Collect(stage, slots, items[i], end.ItemDone?)]; }
        }
        i := i + 1;
      }
      ItemsEnd(stage, at, items, cursor, Progress(aggregated, succeeded, failed), Snapshot());
      if stage.output.Some? && stage.over.Some? { slots := slots[stage.output.value := Aggregate(aggregated)]; }
      flow := Next(Tally(|items|, succeeded, failed), None);
    }

    // The attempts of one item, until one succeeds, aborts or is cancelled.
    method RunAttempts(stage: StageDef, path: Path, number: nat, total: nat, inside: Option<Address>,
                       ghost at: Address) returns (end: ItemEnd, used: nat)
      requires stage.Loop? && Valid() && At(at + [Item(number)], path)
      modifies this, recorder
      ensures Valid() && At(at + [Item(number)], path) && recorder.invocations == old(recorder.invocations)
      ensures (end, used, Snapshot()) == Engine.RunAttempts(stage, at, number, total, 0, inside, old(Snapshot()))
      decreases stage, 1, 0
    {
      hide Engine.RunInner, ApplyRetry, PathOf, StackOf, Proper;
      var attempt := 0;
      while attempt < stage.maxRetries + 1
        invariant attempt <= stage.maxRetries + 1 && Valid() && At(at + [Item(number)], path)
        invariant recorder.invocations == old(recorder.invocations)
        invariant Engine.RunAttempts(stage, at, number, total, attempt, inside, Snapshot()) ==
          Engine.RunAttempts(stage, at, number, total, 0, inside, old(Snapshot()))
      {
        loopContext := Some(LoopContext(number, total, attempt + 1, stage.maxRetries + 1));
        if attempt > 0 { ResolveRetryTemplates(stage.onRetry); }
        var start, first := 0, None;
        if attempt == 0 && inside.Some? && inside.value != [] {
          start := if inside.value[0].Stage? then IndexOf(stage.inner, inside.value[0].name) else |stage.inner|;
          if start == |stage.inner| { return ItemRaised, 1; }
          first := Some(inside.value[1..]);
        }
        var flow := RunInner(stage, start, path, first, at + [Item(number)]);
        if flow.Aborted? { return ItemAborted, attempt + 1; }
        if flow.Cancelled? { return ItemCancelled, attempt + 1; }
        if flow.Next? {
          var exit := stage.exit(slots);
          if exit.Broken? { return ItemAborted, attempt + 1; }
          if exit.Holds? { return ItemDone, attempt + 1; }
        }
        attempt := attempt + 1;
      }
      return ItemFailed, attempt;
    }

    method ResolveRetryTemplates(templates: seq<(Name, Slots -> Value)>)
      modifies this`slots
      ensures slots == ApplyRetry(templates, old(slots))
    {
      var i := 0;
      while i < |templates|
        invariant i <= |templates| && ApplyRetry(templates[i..], slots) == ApplyRetry(templates, old(slots))
      {
        slots := slots[templates[i].0 := templates[i].1(slots)];
        assert templates[i..][1..] == templates[i + 1..];
        i := i + 1;
      }
    }

    // One pass over the inner stages from the given one on; only the first gets the cursor.
    method RunInner(stage: StageDef, start: nat, path: Path, first: Option<Address>, ghost base: Address)
      returns (flow: Flow)
      requires stage.Loop? && start <= |stage.inner| && Valid() && At(base, path) && loopContext.Some?
      modifies this, recorder
      ensures Valid() && At(base, path) && recorder.invocations == old(recorder.invocations)
      ensures (flow, Snapshot()) == Engine.RunInner(stage, start, base, old(loopContext).value, first, old(Snapshot()))
      decreases stage, 0
    {
      hide Engine.Dispatch;
      var k, cursor := start, first;
      while k < |stage.inner|
        invariant k <= |stage.inner| && Valid() && At(base, path) && recorder.invocations == old(recorder.invocations)
        invariant loopContext == old(loopContext)
        invariant Engine.RunInner(stage, k, base, old(loopContext).value, cursor, Snapshot()) ==
          Engine.RunInner(stage, start, base, old(loopContext).value, first, old(Snapshot()))
      {
        flow := Dispatch(stage.inner[k], path, cursor, base);
        if !flow.Next? { return; }
        k, cursor := k + 1, None;
      }
      flow := Next(Null, None);
    }

    // The whole stage list, following branch jumps.
    method RunStagesFrom(stages: seq<StageDef>, start: nat, cursor: Option<Address>, budget: nat) returns (flow: Flow)
      requires start <= |stages| && Valid() && At([], []) && loopContext == None
      modifies this, recorder
      ensures Valid() && At([], []) && recorder.invocations == old(recorder.invocations)
      ensures (flow, Snapshot()) == RunSequence(stages, start, [], cursor, budget, old(Snapshot()))
    {
      hide Engine.Dispatch;
      var current: nat, pending, left := start, cursor, budget;
      while current < |stages| && left > 0
        invariant current <= |stages| && Valid() && At([], []) && loopContext == None
        invariant recorder.invocations == old(recorder.invocations)
        invariant RunSequence(stages, current, [], pending, left, Snapshot()) ==
          RunSequence(stages, start, [], cursor, budget, old(Snapshot()))
        decreases left
      {
        flow := Dispatch(stages[current], [], pending, []);
        pending, left := None, left - 1;
        if !flow.Next? { return; }
        if flow.jump.Some? {
          var target := IndexOf(stages, flow.jump.value);
          if target == |stages| { return Raised; }
          current := target;
        } else {
          current := current + 1;
        }
      }
      flow := if current == |stages| then Next(Null, None) else Cancelled;
    }

    // Tells the event stream again about one loop's recorded items.
    method ReplayLoopItems(path: Path, ghost at: Address)
      requires Valid() && AddressFor(path, activeItems) == at
      modifies this`trace, recorder`disk
      ensures Valid() && Snapshot() == ReplayItems(old(Snapshot()), at,
                                                   SortedNumbers(ItemNumbers(old(recorder.disk), at)))
    {
      hide CloseItem, SortedNumbers;
      var address := recorder.AddressOf(path, activeItems);
      var numbers := ListItemNumbers(recorder.disk, address);
      var i := 0;
      while i < |numbers|
        invariant i <= |numbers| && Valid()
        invariant ReplayItems(Snapshot(), at, numbers[i..]) == ReplayItems(old(Snapshot()), at, numbers)
      {
        assert numbers[i..][0] == numbers[i] && numbers[i..][1..] == numbers[i + 1..];
        var record := recorder.ReadItemResult(address, numbers[i]);
        if record.Some? { EmitLoopItemExit(path, record.value, at); }
        i := i + 1;
      }
    }

    // Tells the event stream again about the stages before the resume point.
    method ReplayStagesBeforeResume(stages: seq<StageDef>)
      requires Valid() && At([], []) && recorder.invocations == map[]
      modifies this`trace, this`counters, recorder
      ensures Valid() && recorder.invocations == map[]
      ensures Snapshot() == Narrate(stages, [], old(Snapshot()))
    {
      hide Narrate, NarrateStage;
      NarrateNone(Snapshot());
      var i := 0;
      while i < |stages|
        invariant i <= |stages| && Valid() && recorder.invocations == map[]
        invariant Snapshot() == Narrate(stages[..i], [], old(Snapshot()))
      {
        ReplayStage(stages[i]);
        NarrateNext(stages, i, old(Snapshot()));
        i := i + 1;
      }
      assert stages[..|stages|] == stages;
    }

    method ReplayStage(stage: StageDef)
      requires Valid() && At([], []) && recorder.invocations == map[]
      modifies this`trace, this`counters, recorder
      ensures Valid() && recorder.invocations == map[]
      ensures Snapshot() == NarrateStage(stage, [], old(Snapshot()))
    {
      hide Enter, Leave, ReplayItems, SortedNumbers, ItemNumbers, StackOf, PathOf, AddressFor;
      var path := [stage.name];
      ghost var at := [] + [Stage(stage.name)];
      StageAddress([], stage.name);
      NoPath();
      assert [] + [stage.name] == path;
      var address := recorder.AddressOf(path, activeItems);
      var node := NodeAt(recorder.disk, address);
      if node.meta.None? || node.meta.value.attemptCount !in node.attempts { return; }
      var attempt := node.attempts[node.meta.value.attemptCount];
      counters := counters[path := Max(Count(counters, path), attempt.invocation)];
      EmitStageEnter(path, attempt.invocation, attempt.context, at);
      EmitStageExit(path, attempt.invocation, node.meta.value.status, attempt.result, at);
      Reclosed(map[], (path, attempt.invocation), attempt.context);
      if stage.Loop? { ReplayLoopItems(path, at); }
    }

    // The stage list from its start, or from the resume cursor with everything before it narrated.
    method RunStageSequence(stages: seq<StageDef>, resumeCursor: Option<Address>, budget: nat) returns (flow: Flow)
      requires Valid() && At([], []) && recorder.invocations == map[] && loopContext == None
      modifies this, recorder
      ensures Valid() && At([], []) && recorder.invocations == map[]
      ensures resumeCursor.None? ==> (flow, Snapshot()) == RunSequence(stages, 0, [], None, budget, old(Snapshot()))
      ensures resumeCursor.Some? ==>
          (flow, Snapshot()) == ResumeFrom(stages, resumeCursor.value, budget, old(Snapshot()))
    {
      hide RunSequence, Narrate;
      if resumeCursor.None? {
        flow := RunStagesFrom(stages, 0, None, budget);
      } else {
        var cursor := resumeCursor.value;
        if cursor == [] || cursor[0].Item? || IndexOf(stages, cursor[0].name) == |stages| { return Raised; }
        var current := IndexOf(stages, cursor[0].name);
        ReplayStagesBeforeResume(stages[..current]);
        flow := RunStagesFrom(stages, current, Some(cursor[1..]), budget);
      }
    }

    // A fresh run: the slots start with the user's message.
    method Run(stages: seq<StageDef>, message: Value, budget: nat) returns (flow: Flow)
      requires Valid() && At([], []) && recorder.invocations == map[] && loopContext == None
      requires counters == map[] && trace == [] && recorder.Contents() == Tree(map[], map[])
      modifies this, recorder
      ensures Valid() && (flow, Snapshot()) == RunSequence(stages, 0, [], None, budget, Start(message, old(stop)))
    {
      hide RunSequence;
      slots := map[USER_MESSAGE := message];
      flow := RunStageSequence(stages, None, budget);
    }

    // A resumed run: the slots are rebuilt from the reopened tree, then live from the cursor on.
    method Resume(stages: seq<StageDef>, cursor: Address, message: Value, budget: nat) returns (flow: Flow)
      requires Valid() && At([], []) && recorder.invocations == map[] && loopContext == None
      requires counters == map[] && trace == [] && SequencesOk(recorder.Contents())
      modifies this, recorder
      ensures Valid() && (flow, Snapshot()) ==
                         WorkflowRuns.Resume(stages, cursor, old(recorder.Contents()), message, old(stop), budget)
    {
      hide RunSequence, Narrate, SequencesOk, WalkStages;
      slots := RebuildStages(recorder.disk, [], stages, cursor, map[USER_MESSAGE := message], recorder.nextSequence);
      flow := RunStageSequence(stages, Some(cursor), budget);
    }
  }

  // Counters recovered from the files number siblings as the run did.
  lemma LoadedNumbers(t: Tree, next: map<Address, nat>)
    requires SequencesOk(t) && LoadedFrom(t.disk, next)
    ensures SequencesOk(Tree(t.disk, next))
  {
  }

  // Stop and resume, end to end: a run is stopped by the user, its files are reopened by a new
  // recorder, and a new orchestrator resumes at a stopped address. It ends as the run would have
  // ended, with the same value in every declared output slot but those of stages skipped before the stop.
  method StopThenResume(stages: seq<StageDef>, message: Value, presses: nat, budget: nat, cursor: Address, more: nat)
    returns (flow: Flow, slots: Slots)
    requires StoppedAt(stages, message, presses, budget, cursor) && more >= |stages|
    ensures var (whole, final) := RunSequence(stages, 0, [], None, budget, Start(message, None));
      var stopped := RunSequence(stages, 0, [], None, budget, Start(message, Some(presses))).1;
      flow == whole && Agree(slots, final.slots, Settled(stopped.tree.disk, stages))
  {
    hide RunSequence, StoppedAt, SequencesOk, LoadedFrom, WorkflowRuns.Resume, Scan, Settled, Agree;
    var recorder := new WorkflowRunRecorder();
    var first := new CustomWorkflowOrchestrator(recorder, map[], Some(presses));
    var stopped := first.Run(stages, message, budget);
    RunBracketed(stages, message, Some(presses), budget);
    var files := recorder.disk;
    var reopened := new WorkflowRunRecorder.Load(files);
    ghost var tree := reopened.Contents();
    LoadedNumbers(first.Snapshot().tree, tree.nextSequence);
    var second := new CustomWorkflowOrchestrator(reopened, map[], None);
    flow := second.Resume(stages, cursor, message, more);
    slots := second.slots;
    ResumeEquivalence(stages, message, presses, budget, more, cursor, tree);
  }

  lemma NoPath()
    ensures PathOf([]) == [] && StackOf([]) == []
  {
  }

  lemma NarrateNone(st: State)
    ensures Narrate([], [], st) == st
  {
  }

  lemma NarrateNext(stages: seq<StageDef>, i: nat, st: State)
    requires i < |stages|
    ensures Narrate(stages[..i + 1], [], st) == NarrateStage(stages[i], [], Narrate(stages[..i], [], st))
  {
    assert stages[..i + 1][..i] == stages[..i];
  }
}
