// Which parts of a run announce no stage at a given address.
module Entries {
  import opened Options
  import opened Addresses
  import opened WorkflowModel
  import opened Engine
  import opened EngineSteps
  import opened FreshRuns
  import opened ReplayProof
  import opened CutProof
  import opened ResumeProof
  import opened AttemptRecords
  import opened Reaching

  // The events grow, without another entry of the stage at an address.
  ghost predicate Unentered(t: seq<Event>, t': seq<Event>, c: Address)
  {
    t <= t' && forall i | |t| <= i < |t'| :: t'[i].StageEnter? ==> t'[i].at != c
  }

  // The next event is the entry of the stage at an address, and it is the last one.
  ghost predicate EntersLast(before: seq<Event>, after: seq<Event>, c: Address)
  {
    && before <= after && |before| < |after| && after[|before|].StageEnter? && after[|before|].at == c
    && forall i | |before| < i < |after| :: after[i].StageEnter? ==> after[i].at != c
  }

  lemma UnenteredSelf(t: seq<Event>, c: Address)
    ensures Unentered(t, t, c)
  {
  }

  lemma UnenteredTrans(t0: seq<Event>, t1: seq<Event>, t2: seq<Event>, c: Address)
    requires Unentered(t0, t1, c) && Unentered(t1, t2, c)
    ensures Unentered(t0, t2, c)
  {
    forall i | |t0| <= i < |t2|
      ensures t2[i].StageEnter? ==> t2[i].at != c
    {
      if i < |t1| { assert t2[i] == t1[i]; }
    }
  }

  lemma StepUnentered(st: State, st': State, zone: Address, host: Option<Address>, c: Address)
    requires Step(st, st', zone, host) && !(zone <= c)
    ensures Unentered(st.trace, st'.trace, c)
  {
  }

  lemma ExitUnentered(t: seq<Event>, e: Event, c: Address)
    requires !e.StageEnter?
    ensures Unentered(t, t + [e], c)
  {
  }

  lemma LastThen(before: seq<Event>, middle: seq<Event>, after: seq<Event>, c: Address)
    requires EntersLast(before, middle, c) && Unentered(middle, after, c)
    ensures EntersLast(before, after, c)
  {
    forall i | |before| < i < |after|
      ensures after[i].StageEnter? ==> after[i].at != c
    {
      if i < |middle| { assert after[i] == middle[i]; }
    }
  }

  // ---------- a stage's own entry ----------

  lemma {:induction false} StagesUnentered(stage: StageDef, k: nat, at: Address, left: nat, outcomes: map<Name, Value>,
                                           st: State)
    requires stage.Nested? && k <= |stage.stages|
    ensures Unentered(st.trace, RunStages(stage, k, at, left, outcomes, st).1.trace, at)
    decreases left
  {
    hide Dispatch, Step, Unentered;
    if k < |stage.stages| && left > 0 {
      var (flow, st1) := Dispatch(stage.stages[k], at, None, None, st);
      DispatchSteps(stage.stages[k], at, None, None, st);
      StepUnentered(st, st1, at + [Stage(stage.stages[k].name)], None, at);
      if flow.Next? {
        var next := if flow.jump.None? then k + 1 else IndexOf(stage.stages, flow.jump.value);
        if flow.jump.None? || next < |stage.stages| {
          var outcomes1 := outcomes[stage.stages[k].name := flow.result];
          StagesUnentered(stage, next, at, left - 1, outcomes1, st1);
          UnenteredTrans(st.trace, st1.trace, RunStages(stage, next, at, left - 1, outcomes1, st1).1.trace, at);
        }
      }
    } else {
      UnenteredSelf(st.trace, at);
    }
  }

  // Items from i on announce nothing at the loop itself, nor in the items before.
  lemma {:induction false} ItemsUnentered(stage: StageDef, at: Address, items: seq<Value>, i: nat, progress: Progress,
                                          st: State, c: Address)
    requires stage.Loop? && i <= |items|
    requires at <= c ==> c == at || (c[|at|].Item? && c[|at|].number <= i)
    ensures Unentered(st.trace, RunItems(stage, at, items, i, None, progress, st).1.trace, c)
    decreases |items| - i
  {
    hide RunAttempts, ProgressAfter, RecordOf, Step, Unentered, ItemRun, ClosedAfter;
    if i == |items| {
      UnenteredSelf(st.trace, c);
    } else {
      ItemsUnfold(stage, at, items, i, progress, st);
      hide RunItems;
      ItemUnentered(stage, at, items, i, st, c);
      var closed, p := ClosedAfter(stage, at, items, i, st), ProgressAfter(stage, at, items, i, progress, st);
      if Continues(stage, ItemRun(stage, at, items, i, st).0) {
        ItemsUnentered(stage, at, items, i + 1, p, closed, c);
        UnenteredTrans(st.trace, closed.trace, RunItems(stage, at, items, i + 1, None, p, closed).1.trace, c);
      }
    }
  }

  lemma ItemUnentered(stage: StageDef, at: Address, items: seq<Value>, i: nat, st: State, c: Address)
    requires stage.Loop? && i < |items| && !(at + [Item(i + 1)] <= c)
    ensures Unentered(st.trace, ItemRun(stage, at, items, i, st).2.trace, c)
    ensures Unentered(st.trace, ClosedAfter(stage, at, items, i, st).trace, c)
  {
    hide RunAttempts, RecordOf, Step;
    var st1 := Prepared(stage, items, i, st);
    AttemptsSteps(stage, at, i + 1, |items|, 0, None, st1);
    var b := ItemRun(stage, at, items, i, st).2;
    StepUnentered(st1, b, at + [Item(i + 1)], Some(at), c);
    ClosedUnentered(stage, at, items, i, st, c);
    UnenteredTrans(st.trace, b.trace, ClosedAfter(stage, at, items, i, st).trace, c);
  }

  lemma ClosedUnentered(stage: StageDef, at: Address, items: seq<Value>, i: nat, st: State, c: Address)
    requires stage.Loop? && i < |items|
    ensures Unentered(ItemRun(stage, at, items, i, st).2.trace, ClosedAfter(stage, at, items, i, st).trace, c)
  {
    hide RunAttempts, RecordOf, ItemRun;
    var (end, used, b) := ItemRun(stage, at, items, i, st);
    ExitUnentered(b.trace, ItemExit(at, RecordOf(stage, b.slots, items[i], i + 1, |items|, end, used)), c);
  }

  // A stage's body does not announce the stage again.
  lemma BodyUnentered(stage: StageDef, at: Address, count: nat, st: State)
    ensures Unentered(st.trace, RunByType(stage, at, count, None, st).1.trace, at)
  {
    hide RunItems, RunStages, Unentered;
    UnenteredSelf(st.trace, at);
    match stage
    case Work(_, _, _, _, _) =>
    case Branch(_, _, _, _) =>
    case Loop(_, _, _, _, _, _, _, _, _, _, _, _) =>
      assert RunByType(stage, at, count, None, st) == RunLoop(stage, at, None, st);
      if LoopItems(stage, st.slots).Some? {
        ItemsUnentered(stage, at, LoopItems(stage, st.slots).value, 0, Progress([], 0, 0), st, at);
      }
    case Nested(_, _, _, _, _, _) =>
      assert RunByType(stage, at, count, None, st) == RunSubWorkflow(stage, at, st);
      var seeded := stage.seed(st.slots);
      if seeded.Some? { StagesUnentered(stage, 0, at, stage.limit, map[], st.(slots := seeded.value)); }
  }

  // A dispatch that announces its stage does so first, and once.
  lemma EntersOnce(stage: StageDef, base: Address, context: Option<LoopContext>, st: State)
    requires !Gate(stage, st.slots).Broken?
    ensures EntersLast(st.trace, Dispatch(stage, base, context, None, st).1.trace, base + [Stage(stage.name)])
  {
    hide RunByType, PathOf, Gate, OnStageEnter, OnStageExit;
    var at := base + [Stage(stage.name)];
    var count := Count(st.counters, PathOf(at)) + 1;
    var st2 := Entered(stage, base, context, st);
    if Gate(stage, st.slots).Fails? {
      DispatchSkips(stage, base, context, None, st);
    } else {
      DispatchUnfold(stage, base, context, None, st);
      BodyUnentered(stage, at, count, st2);
    }
  }

  // ---------- the attempts of an item ----------

  lemma BesideStage(dir: Address, x: Name, y: Name, c: Address)
    requires x != y && dir + [Stage(y)] <= c
    ensures !(dir + [Stage(x)] <= c)
  {
    assert c[|dir|] == Stage(y) && (dir + [Stage(x)])[|dir|] == Stage(x);
  }

  // Stages other than the one an address lies in do not announce it.
  lemma SiblingUnentered(stage: StageDef, k: nat, j: nat, dir: Address, context: LoopContext, st: State, c: Address)
    requires stage.Loop? && k < |stage.inner| && j < |stage.inner| && k != j && Distinct(stage.inner)
    requires dir + [Stage(stage.inner[j].name)] <= c
    ensures Unentered(st.trace, Dispatch(stage.inner[k], dir, Some(context), None, st).1.trace, c)
  {
    hide Dispatch, Step;
    var zone := dir + [Stage(stage.inner[k].name)];
    DispatchSteps(stage.inner[k], dir, Some(context), None, st);
    BesideStage(dir, stage.inner[k].name, stage.inner[j].name, c);
    StepUnentered(st, Dispatch(stage.inner[k], dir, Some(context), None, st).1, zone, None, c);
  }

  lemma {:induction false} InnerUnentered(stage: StageDef, k: nat, j: nat, dir: Address, context: LoopContext,
                                          st: State,
                                          c: Address)
    requires stage.Loop? && j < k <= |stage.inner| && Distinct(stage.inner)
    requires dir + [Stage(stage.inner[j].name)] <= c
    ensures Unentered(st.trace, RunInner(stage, k, dir, context, None, st).1.trace, c)
    decreases |stage.inner| - k
  {
    hide Dispatch, Unentered;
    if k == |stage.inner| {
      UnenteredSelf(st.trace, c);
    } else {
      var (flow, st1) := Dispatch(stage.inner[k], dir, Some(context), None, st);
      SiblingUnentered(stage, k, j, dir, context, st, c);
      if flow.Next? {
        InnerUnentered(stage, k + 1, j, dir, context, st1, c);
        UnenteredTrans(st.trace, st1.trace, RunInner(stage, k + 1, dir, context, None, st1).1.trace, c);
      }
    }
  }

  lemma {:induction false} PassUnentered(stage: StageDef, k: nat, dir: Address, context: LoopContext, st: State, j: nat,
                                         c: Address)
    requires stage.Loop? && k <= j < |stage.inner| && Distinct(stage.inner)
    requires PassReached(stage, k, dir, context, st, j).None? && dir + [Stage(stage.inner[j].name)] <= c
    ensures Unentered(st.trace, RunInner(stage, k, dir, context, None, st).1.trace, c)
    decreases j - k
  {
    hide Dispatch, Unentered;
    var (flow, st1) := Dispatch(stage.inner[k], dir, Some(context), None, st);
    if k == j {
      DispatchBroken(stage.inner[j], dir, Some(context), None, st);
      UnenteredSelf(st.trace, c);
    } else {
      SiblingUnentered(stage, k, j, dir, context, st, c);
      if flow.Next? {
        PassUnentered(stage, k + 1, dir, context, st1, j, c);
        UnenteredTrans(st.trace, st1.trace, RunInner(stage, k + 1, dir, context, None, st1).1.trace, c);
      }
    }
  }

  lemma {:induction false} AttemptsUnentered(stage: StageDef, at: Address, number: nat, total: nat, attempt: nat,
                                             st: State, j: nat, c: Address)
    requires stage.Loop? && attempt <= stage.maxRetries + 1 && j < |stage.inner| && Distinct(stage.inner)
    requires LastPass(stage, at, number, total, attempt, st, j).None?
    requires at + [Item(number)] + [Stage(stage.inner[j].name)] <= c
    ensures Unentered(st.trace, RunAttempts(stage, at, number, total, attempt, None, st).2.trace, c)
    decreases stage.maxRetries + 1 - attempt
  {
    hide RunInner, PassReached, Unentered, ApplyRetry;
    if attempt == stage.maxRetries + 1 {
      UnenteredSelf(st.trace, c);
    } else {
      var (flow, st2) := AfterPassing(stage, at, number, total, attempt, st);
      PassUnentered(stage, 0, at + [Item(number)], ContextOf(stage, number, total, attempt),
                    Retried(stage, attempt, st), j, c);
      AttemptsUnfold(stage, at, number, total, attempt, st);
      if TriesAgain(stage, flow, st2) {
        AttemptsUnentered(stage, at, number, total, attempt + 1, st2, j, c);
        UnenteredTrans(st.trace, st2.trace, RunAttempts(stage, at, number, total, attempt + 1, None, st2).2.trace, c);
      }
    }
  }

  // After the last attempt that announces inner stage j has dispatched it, nothing below that stage is
  // announced in the item again.
  lemma {:induction false} LastPassUnentered(stage: StageDef, at: Address, number: nat, total: nat, attempt: nat,
                                             st: State, j: nat, c: Address)
    requires stage.Loop? && attempt <= stage.maxRetries + 1 && j < |stage.inner| && Distinct(stage.inner)
    requires LastPass(stage, at, number, total, attempt, st, j).Some?
    requires at + [Item(number)] + [Stage(stage.inner[j].name)] <= c
    ensures var (context, st1) := LastPass(stage, at, number, total, attempt, st, j).value;
      var dir := at + [Item(number)];
      var t := PassReached(stage, 0, dir, context, st1, j);
      && t.Some?
      && Unentered(Dispatch(stage.inner[j], dir, Some(context), None, t.value).1.trace,
                   RunAttempts(stage, at, number, total, attempt, None, st).2.trace, c)
    decreases stage.maxRetries + 1 - attempt
  {
    hide RunInner, PassReached, Unentered, ApplyRetry, Dispatch, SequencesOk, Gate;
    var dir, context := at + [Item(number)], ContextOf(stage, number, total, attempt);
    var st1 := Retried(stage, attempt, st);
    var (flow, st2) := AfterPassing(stage, at, number, total, attempt, st);
    AttemptsUnfold(stage, at, number, total, attempt, st);
    if TriesAgain(stage, flow, st2) && LastPass(stage, at, number, total, attempt + 1, st2, j).Some? {
      LastPassUnentered(stage, at, number, total, attempt + 1, st2, j, c);
    } else {
      var t := PassReached(stage, 0, dir, context, st1, j).value;
      var t1 := Dispatch(stage.inner[j], dir, Some(context), None, t).1;
      PassReaches(stage, 0, dir, context, st1, j);
      RestUnentered(stage, j, dir, context, t, c);
      if TriesAgain(stage, flow, st2) {
        AttemptsUnentered(stage, at, number, total, attempt + 1, st2, j, c);
        UnenteredTrans(t1.trace, st2.trace, RunAttempts(stage, at, number, total, attempt + 1, None, st2).2.trace, c);
      }
    }
  }

  lemma RestUnentered(stage: StageDef, j: nat, dir: Address, context: LoopContext, t: State, c: Address)
    requires stage.Loop? && j < |stage.inner| && Distinct(stage.inner) && dir + [Stage(stage.inner[j].name)] <= c
    ensures Unentered(Dispatch(stage.inner[j], dir, Some(context), None, t).1.trace,
                      RunInner(stage, j, dir, context, None, t).1.trace, c)
  {
    hide Dispatch, Unentered;
    var (flow, t1) := Dispatch(stage.inner[j], dir, Some(context), None, t);
    UnenteredSelf(t1.trace, c);
    if flow.Next? { InnerUnentered(stage, j + 1, j, dir, context, t1, c); }
  }
}
