// What attempts leave in the records of the stages they dispatch: one attempt file per attempt, and a
// meta file that names the last.
module AttemptRecords {
  import opened Options
  import opened Addresses
  import opened WorkflowModel
  import opened Engine
  import opened EngineSteps
  import opened EngineRuns
  import opened Reconstruction
  import opened FreshRuns
  import opened ReplayProof
  import opened CutProof
  import opened ResumeProof

  // ---------- a stage's own files ----------

  lemma {:induction false} BodyKeepsNode(stage: StageDef, at: Address, count: nat, st: State)
    ensures SameAt(st.tree.disk, RunByType(stage, at, count, None, st).1.tree.disk, at)
  {
    hide RunItems, RunStages;
    match stage
    case Work(_, _, _, _, _) =>
    case Branch(_, _, _, _) =>
    case Loop(_, _, _, _, _, _, _, _, _, _, _, _) =>
      assert RunByType(stage, at, count, None, st) == RunLoop(stage, at, None, st);
      if LoopItems(stage, st.slots).Some? {
        ItemsKeepNode(stage, at, LoopItems(stage, st.slots).value, 0, Progress([], 0, 0), st);
      }
    case Nested(_, _, _, _, _, _) =>
      assert RunByType(stage, at, count, None, st) == RunSubWorkflow(stage, at, st);
      var seeded := stage.seed(st.slots);
      if seeded.Some? { StagesKeepNode(stage, 0, at, stage.limit, map[], st.(slots := seeded.value)); }
  }

  lemma {:induction false} ItemsKeepNode(stage: StageDef, at: Address, items: seq<Value>, i: nat, progress: Progress,
                                         st: State)
    requires stage.Loop? && i <= |items|
    ensures SameAt(st.tree.disk, RunItems(stage, at, items, i, None, progress, st).1.tree.disk, at)
    decreases |items| - i
  {
    hide RunAttempts, ProgressAfter, RecordOf;
    if i < |items| {
      ItemsUnfold(stage, at, items, i, progress, st);
      var st1 := st.(slots := PrepareItem(stage, items[i], false, st.slots));
      AttemptsSteps(stage, at, i + 1, |items|, 0, None, st1);
      var b := ItemRun(stage, at, items, i, st).2;
      StepOutside(st1, b, at + [Item(i + 1)], Some(at));
      assert SameAt(st.tree.disk, b.tree.disk, at);
      var closed := ClosedAfter(stage, at, items, i, st);
      assert SameAt(b.tree.disk, closed.tree.disk, at);
      if Continues(stage, ItemRun(stage, at, items, i, st).0) {
        ItemsKeepNode(stage, at, items, i + 1, ProgressAfter(stage, at, items, i, progress, st), closed);
      }
    }
  }

  lemma {:induction false} StagesKeepNode(stage: StageDef, k: nat, at: Address, left: nat, outcomes: map<Name, Value>,
                                          st: State)
    requires stage.Nested? && k <= |stage.stages|
    ensures SameAt(st.tree.disk, RunStages(stage, k, at, left, outcomes, st).1.tree.disk, at)
    decreases left
  {
    hide Dispatch;
    if k < |stage.stages| && left > 0 {
      var (flow, st1) := Dispatch(stage.stages[k], at, None, None, st);
      DispatchSteps(stage.stages[k], at, None, None, st);
      assert SameAt(st.tree.disk, st1.tree.disk, at);
      if flow.Next? {
        var next := if flow.jump.None? then k + 1 else IndexOf(stage.stages, flow.jump.value);
        if flow.jump.None? || next < |stage.stages| {
          StagesKeepNode(stage, next, at, left - 1, outcomes[stage.stages[k].name := flow.result], st1);
        }
      }
    }
  }

  // The sequence number an address has, or is about to get.
  function NumberFor(t: Tree, at: Address): nat
  {
    if NodeAt(t.disk, at).meta.Some? then NodeAt(t.disk, at).meta.value.sequence else NextSequence(t, Parent(at))
  }

  // The files of a stage after a dispatch that ended with the given status and result.
  function FilesAfter(t: Tree, at: Address, count: nat, context: Option<LoopContext>, status: Status,
                      result: Value): Node
  {
    var node := NodeAt(t.disk, at);
    var number := AttemptNumber(context);
    node.(meta := Some(Meta(status, number, NumberFor(t, at))),
          attempts := node.attempts[number := Attempt(count, context, status, result)])
  }

  function EndStatus(stage: StageDef, flow: Flow, slots: Slots): Status
  {
    if Gate(stage, slots).Fails? then Skipped else StatusOf(flow)
  }

  // A dispatch that announces its stage leaves exactly this attempt file and this meta file behind.
  lemma DispatchFiles(stage: StageDef, base: Address, context: Option<LoopContext>, st: State)
    requires !Gate(stage, st.slots).Broken?
    ensures var at := base + [Stage(stage.name)];
      var (flow, st') := Dispatch(stage, base, context, None, st);
      var files := FilesAfter(st.tree, at, Count(st.counters, PathOf(at)) + 1, context,
                              EndStatus(stage, flow, st.slots), ResultOf(flow));
      at in st'.tree.disk && st'.tree.disk[at] == files
  {
    hide RunByType, PathOf, Gate, Dispatch;
    var at := base + [Stage(stage.name)];
    var count := Count(st.counters, PathOf(at)) + 1;
    var st2 := Entered(stage, base, context, st);
    if Gate(stage, st.slots).Holds? {
      DispatchUnfold(stage, base, context, None, st);
      BodyKeepsNode(stage, at, count, st2);
    } else {
      DispatchSkips(stage, base, context, None, st);
    }
  }
}
