// Which slots a dispatch may write, when it can be cancelled, and what the stop button changes.
module EngineRuns {
  import opened Options
  import opened Addresses
  import opened WorkflowModel
  import opened Engine
  import opened EngineSteps

  // The scratch slots a stage may write or clear besides its declared output.
  ghost function Scratch(stage: StageDef): set<Name>
    decreases stage, 0
  {
    if stage.Loop? then OwnScratch(stage) + set k, n | 0 <= k < |stage.inner|
        && n in Writes(stage.inner[k]) :: n else {}
  }

  ghost function Writes(stage: StageDef): set<Name>
    decreases stage, 1
  {
    Declared(stage) + Scratch(stage)
  }

  // The slot a completed stage leaves its product in; a loop without a list has none.
  function Declared(stage: StageDef): set<Name>
  {
    if stage.Branch? || (stage.Loop? && stage.over.None?) then {}
    else if stage.Nested? then {stage.name}
    else OutputSet(stage.output)
  }

  // The declared output is written only by a dispatch that completes.
  ghost function Touched(stage: StageDef, flow: Flow): set<Name>
  {
    if flow.Next? then Writes(stage) else Scratch(stage)
  }

  function OutputSet(output: Option<Name>): set<Name>
  {
    if output.Some? then {output.value} else {}
  }

  ghost function OwnScratch(stage: StageDef): set<Name>
    requires stage.Loop?
  {
    {stage.itemVar} + RetryNames(stage) + InnerNames(stage.inner)
  }

  ghost predicate SameSlot(s: Slots, s': Slots, n: Name)
  {
    (n in s <==> n in s') && (n in s ==> s[n] == s'[n])
  }

  ghost predicate ChangesOnly(s: Slots, s': Slots, names: set<Name>)
  {
    forall n: Name :: n !in names ==> SameSlot(s, s', n)
  }

  ghost predicate Quiet(st: State, st': State, names: set<Name>, cancelled: bool)
  {
    && ChangesOnly(st.slots, st'.slots, names)
    && (st.stop.None? <==> st'.stop.None?)
    && (st.stop.None? ==> !cancelled)
    && (!cancelled ==> NoNewHalted(st.tree.disk, st'.tree.disk))
  }

  lemma QuietTrans(s0: State, s1: State, s2: State, names: set<Name>, c1: bool, c2: bool)
    requires Quiet(s0, s1, names, c1) && Quiet(s1, s2, names, c2)
    ensures Quiet(s0, s2, names, c1 || c2)
  {
    forall n: Name | n !in names
      ensures SameSlot(s0.slots, s2.slots, n)
    {
      assert SameSlot(s0.slots, s1.slots, n) && SameSlot(s1.slots, s2.slots, n);
    }
  }

  lemma QuietRefl(s0: State, s1: State, names: set<Name>)
    requires ChangesOnly(s0.slots, s1.slots, names) && s1.stop == s0.stop && s1.tree == s0.tree
    ensures Quiet(s0, s1, names, false)
  {
  }

  lemma QuietWiden(s0: State, s1: State, names: set<Name>, more: set<Name>, cancelled: bool)
    requires Quiet(s0, s1, names, cancelled) && names <= more
    ensures Quiet(s0, s1, more, cancelled)
  {
  }

  lemma QuietEnter(st: State, at: Address, count: nat, context: Option<LoopContext>, names: set<Name>)
    ensures Quiet(st, Enter(st.(counters := st.counters[PathOf(at) := count]), at, count, context), names, false)
  {
  }

  // Only a cancelled body leaves with the status of a stopped stage.
  lemma QuietLeave(s0: State, st: State, at: Address, count: nat, context: Option<LoopContext>, status: Status,
                   result: Value, names: set<Name>)
    requires Quiet(s0, st, names, status == Halted)
    ensures Quiet(s0, Leave(st, at, count, context, status, result), names, status == Halted)
  {
    var st' := Leave(st, at, count, context, status, result);
    if status != Halted {
      forall a: Address | HasStatus(st'.tree.disk, a, Halted)
        ensures HasStatus(s0.tree.disk, a, Halted)
      {
        assert HasStatus(st.tree.disk, a, Halted);
      }
    }
  }

  lemma QuietClose(s0: State, st: State, at: Address, record: ItemRecord, names: set<Name>)
    requires Quiet(s0, st, names, record.status == Halted)
    ensures Quiet(s0, CloseItem(st, at, record), names, record.status == Halted)
  {
    var st' := CloseItem(st, at, record);
    if record.status != Halted {
      forall a: Address | HasStatus(st'.tree.disk, a, Halted)
        ensures HasStatus(s0.tree.disk, a, Halted)
      {
        assert HasStatus(st.tree.disk, a, Halted);
      }
    }
  }

  lemma PrepareChanges(stage: StageDef, item: Value, resumedInside: bool, slots: Slots)
    requires stage.Loop?
    ensures ChangesOnly(slots, PrepareItem(stage, item, resumedInside, slots), OwnScratch(stage))
  {
  }

  lemma {:induction false} RetryChanges(templates: seq<(Name, Slots -> Value)>, slots: Slots)
    ensures ChangesOnly(slots, ApplyRetry(templates, slots), set k | 0 <= k < |templates| :: templates[k].0)
  {
    if templates != [] {
      var slots1 := slots[templates[0].0 := templates[0].1(slots)];
      RetryChanges(templates[1..], slots1);
      forall n: Name | n !in set k | 0 <= k < |templates| :: templates[k].0
        ensures SameSlot(slots, ApplyRetry(templates, slots), n)
      {
        assert n != templates[0].0;
        assert forall k | 0 <= k < |templates[1..]| :: templates[1..][k] == templates[k + 1];
        assert SameSlot(slots1, ApplyRetry(templates[1..], slots1), n);
      }
    }
  }

  // ---------- every run: slots written, cancellation, halted statuses ----------

  ghost function InnerWrites(stage: StageDef): set<Name>
    requires stage.Loop?
  {
    set k, n | 0 <= k < |stage.inner| && n in Writes(stage.inner[k]) :: n
  }

  lemma {:induction false} DispatchQuiet(stage: StageDef, base: Address, context: Option<LoopContext>, st: State)
    ensures var (flow, st') := Dispatch(stage, base, context, None, st);
      Quiet(st, st', Touched(stage, flow), flow.Cancelled?)
    decreases stage, 4, 0
  {
    hide Quiet, Writes, Scratch;
    var at := base + [Stage(stage.name)];
    var count := Count(st.counters, PathOf(at)) + 1;
    var st1 := st.(counters := st.counters[PathOf(at) := count]);
    var st2 := Enter(st1, at, count, context);
    var W := Touched(stage, Dispatch(stage, base, context, None, st).0);
    match Gate(stage, st.slots)
    case Broken => QuietRefl(st, st1, W);
    case Fails =>
      QuietEnter(st, at, count, context, W);
      QuietLeave(st, st2, at, count, context, Skipped, Null, W);
    case Holds =>
      var (flow, st3) := RunByType(stage, at, count, None, st2);
      QuietEnter(st, at, count, context, W);
      BodyQuiet(stage, at, count, st2);
      QuietTrans(st, st2, st3, W, false, flow.Cancelled?);
      QuietLeave(st, st3, at, count, context, StatusOf(flow), ResultOf(flow), W);
  }

  lemma {:induction false} BodyQuiet(stage: StageDef, at: Address, count: nat, st: State)
    ensures var (flow, st') := RunByType(stage, at, count, None, st);
      Quiet(st, st', Touched(stage, flow), flow.Cancelled?)
    decreases stage, 3, 1
  {
    match stage
    case Work(_, _, _, _, _) =>
    case Branch(_, _, _, _) =>
    case Loop(_, _, _, _, _, _, _, _, _, _, _, _) =>
      assert RunByType(stage, at, count, None, st) == RunLoop(stage, at, None, st);
      if LoopItems(stage, st.slots).Some? {
        ItemsQuiet(stage, at, LoopItems(stage, st.slots).value, 0, Progress([], 0, 0), st);
      }
    case Nested(_, _, _, _, _, _) =>
      assert RunByType(stage, at, count, None, st) == RunSubWorkflow(stage, at, st);
      var seeded := stage.seed(st.slots);
      if seeded.Some? {
        var st1 := st.(slots := seeded.value);
        StagesQuiet(stage, 0, at, stage.limit, map[], st1);
      }
  }

  // What a nested workflow does besides its own slots.
  ghost predicate Calm(st: State, st': State, cancelled: bool)
  {
    && (st.stop.None? <==> st'.stop.None?)
    && (st.stop.None? ==> !cancelled)
    && (!cancelled ==> NoNewHalted(st.tree.disk, st'.tree.disk))
  }

  lemma {:induction false} StagesQuiet(stage: StageDef, k: nat, at: Address, left: nat, outcomes: map<Name, Value>,
                                       st: State)
    requires stage.Nested? && k <= |stage.stages|
    ensures var (flow, st') := RunStages(stage, k, at, left, outcomes, st); Calm(st, st', flow.Cancelled?)
    decreases stage, 2, left
  {
    hide Scratch, Writes, Dispatch;
    if k < |stage.stages| && left > 0 {
      var (flow, st1) := Dispatch(stage.stages[k], at, None, None, st);
      DispatchQuiet(stage.stages[k], at, None, st);
      if flow.Next? {
        var next := if flow.jump.None? then k + 1 else IndexOf(stage.stages, flow.jump.value);
        if flow.jump.None? || next < |stage.stages| {
          StagesQuiet(stage, next, at, left - 1, outcomes[stage.stages[k].name := flow.result], st1);
        }
      }
    }
  }

  lemma {:induction false} ItemsQuiet(stage: StageDef, at: Address, items: seq<Value>, i: nat, progress: Progress,
                                      st: State)
    requires stage.Loop? && i <= |items|
    ensures var (flow, st') := RunItems(stage, at, items, i, None, progress, st);
      Quiet(st, st', Touched(stage, flow), flow.Cancelled?)
    decreases stage, 2, |items| - i
  {
    hide Quiet;
    var (flow, st') := RunItems(stage, at, items, i, None, progress, st);
    var W := Touched(stage, flow);
    if i == |items| {
      QuietRefl(st, st', W);
    } else {
      var st1 := st.(slots := PrepareItem(stage, items[i], false, st.slots));
      PrepareChanges(stage, items[i], false, st.slots);
      assert OwnScratch(stage) <= Scratch(stage) <= W;
      QuietRefl(st, st1, W);
      var (end, used, st2) := RunAttempts(stage, at, i + 1, |items|, 0, None, st1);
      AttemptsQuiet(stage, at, i + 1, |items|, 0, st1);
      QuietWiden(st1, st2, Scratch(stage), W, end.ItemCancelled?);
      QuietTrans(st, st1, st2, W, false, end.ItemCancelled?);
      if !end.ItemAborted? && !end.ItemRaised? {
        var record := RecordOf(stage, st2.slots, items[i], i + 1, |items|, end, used);
        var st3 := CloseItem(st2, at, record);
        QuietClose(st, st2, at, record, W);
        if end.ItemDone? || (end.ItemFailed? && !stage.abortOnMaxRetries) {
          var entry := if stage.over.Some? then Some(Collect(stage, st3.slots, items[i], end.ItemDone?)) else None;
          ItemsQuiet(stage, at, items, i + 1, Tallied(progress, entry, end.ItemDone?), st3);
          QuietTrans(st, st3, st', W, false, flow.Cancelled?);
        }
      }
    }
  }

  lemma {:induction false} AttemptsQuiet(stage: StageDef, at: Address, number: nat, total: nat, attempt: nat, st: State)
    requires stage.Loop? && attempt <= stage.maxRetries + 1
    ensures var (end, used, st') := RunAttempts(stage, at, number, total, attempt, None, st);
      Quiet(st, st', Scratch(stage), end.ItemCancelled?)
    decreases stage, 1, stage.maxRetries + 1 - attempt
  {
    hide Quiet;
    var W := Scratch(stage);
    var (end, used, st') := RunAttempts(stage, at, number, total, attempt, None, st);
    if attempt == stage.maxRetries + 1 {
      QuietRefl(st, st', W);
    } else {
      var context := LoopContext(number, total, attempt + 1, stage.maxRetries + 1);
      var st1 := if attempt > 0 then st.(slots := ApplyRetry(stage.onRetry, st.slots)) else st;
      RetryChanges(stage.onRetry, st.slots);
      QuietRefl(st, st1, W);
      var (flow, st2) := RunInner(stage, 0, at + [Item(number)], context, None, st1);
      InnerQuiet(stage, 0, at + [Item(number)], context, st1);
      QuietWiden(st1, st2, InnerWrites(stage), W, flow.Cancelled?);
      QuietTrans(st, st1, st2, W, false, flow.Cancelled?);
      if flow.Raised? || (flow.Next? && stage.exit(st2.slots).Fails?) {
        AttemptsQuiet(stage, at, number, total, attempt + 1, st2);
        QuietTrans(st, st2, st', W, false, end.ItemCancelled?);
      }
    }
  }

  lemma {:induction false} InnerQuiet(stage: StageDef, k: nat, base: Address, context: LoopContext, st: State)
    requires stage.Loop? && k <= |stage.inner|
    ensures var (flow, st') := RunInner(stage, k, base, context, None, st);
      Quiet(st, st', InnerWrites(stage), flow.Cancelled?)
    decreases stage, 0, |stage.inner| - k
  {
    hide Quiet;
    var W := InnerWrites(stage);
    var (flow', st') := RunInner(stage, k, base, context, None, st);
    if k == |stage.inner| {
      QuietRefl(st, st', W);
    } else {
      var (flow, st1) := Dispatch(stage.inner[k], base, Some(context), None, st);
      DispatchQuiet(stage.inner[k], base, Some(context), st);
      assert Writes(stage.inner[k]) <= W;
      QuietWiden(st, st1, Touched(stage.inner[k], flow), W, flow.Cancelled?);
      if flow.Next? {
        InnerQuiet(stage, k + 1, base, context, st1);
        QuietTrans(st, st1, st', W, false, flow'.Cancelled?);
      }
    }
  }

  // ---------- a run that is not cancelled does not depend on the stop button ----------

  function Unstopped(st: State): State
  {
    st.(stop := None)
  }

  lemma {:induction false} DispatchUnstopped(stage: StageDef, base: Address, context: Option<LoopContext>,
                                             cursor: Option<Address>, st: State)
    requires !Dispatch(stage, base, context, cursor, st).0.Cancelled?
    ensures var (flow, st') := Dispatch(stage, base, context, cursor, st);
      Dispatch(stage, base, context, cursor, Unstopped(st)) == (flow, Unstopped(st'))
    decreases stage, 4, 0
  {
    hide RunByType, PathOf, Gate;
    var at := base + [Stage(stage.name)];
    var count := Count(st.counters, PathOf(at)) + 1;
    var st2 := Enter(st.(counters := st.counters[PathOf(at) := count]), at, count, context);
    if Gate(stage, st.slots).Holds? {
      BodyUnstopped(stage, at, count, cursor, st2);
    }
  }

  lemma {:induction false} BodyUnstopped(stage: StageDef, at: Address, count: nat, cursor: Option<Address>, st: State)
    requires !RunByType(stage, at, count, cursor, st).0.Cancelled?
    ensures var (flow, st') := RunByType(stage, at, count, cursor, st);
      RunByType(stage, at, count, cursor, Unstopped(st)) == (flow, Unstopped(st'))
    decreases stage, 3, 1
  {
    match stage
    case Work(_, _, _, _, _) =>
    case Branch(_, _, _, _) =>
    case Loop(_, _, _, _, _, _, _, _, _, _, _, _) =>
      assert RunByType(stage, at, count, cursor, st) == RunLoop(stage, at, cursor, st);
      assert RunByType(stage, at, count, cursor, Unstopped(st)) == RunLoop(stage, at, cursor, Unstopped(st));
      if LoopItems(stage, st.slots).Some? && !(cursor.Some? && cursor.value != [] && cursor.value[0].Stage?) {
        ItemsUnstopped(stage, at, LoopItems(stage, st.slots).value, 0, cursor, Progress([], 0, 0), st);
      }
    case Nested(_, _, _, _, _, _) =>
      assert RunByType(stage, at, count, cursor, st) == RunSubWorkflow(stage, at, st);
      assert RunByType(stage, at, count, cursor, Unstopped(st)) == RunSubWorkflow(stage, at, Unstopped(st));
      var seeded := stage.seed(st.slots);
      if seeded.Some? { StagesUnstopped(stage, 0, at, stage.limit, map[], st.(slots := seeded.value)); }
  }

  lemma {:induction false} StagesUnstopped(stage: StageDef, k: nat, at: Address, left: nat, outcomes: map<Name, Value>,
                                           st: State)
    requires stage.Nested? && k <= |stage.stages|
    requires !RunStages(stage, k, at, left, outcomes, st).0.Cancelled?
    ensures var (flow, st') := RunStages(stage, k, at, left, outcomes, st);
      RunStages(stage, k, at, left, outcomes, Unstopped(st)) == (flow, Unstopped(st'))
    decreases stage, 2, left
  {
    hide Dispatch;
    if k < |stage.stages| && left > 0 {
      var (flow, st1) := Dispatch(stage.stages[k], at, None, None, st);
      DispatchUnstopped(stage.stages[k], at, None, None, st);
      if flow.Next? {
        var next := if flow.jump.None? then k + 1 else IndexOf(stage.stages, flow.jump.value);
        if flow.jump.None? || next < |stage.stages| {
          StagesUnstopped(stage, next, at, left - 1, outcomes[stage.stages[k].name := flow.result], st1);
        }
      }
    }
  }

  lemma {:induction false} ItemsUnstopped(stage: StageDef, at: Address, items: seq<Value>, i: nat,
                                          cursor: Option<Address>, progress: Progress, st: State)
    requires stage.Loop? && i <= |items|
    requires !RunItems(stage, at, items, i, cursor, progress, st).0.Cancelled?
    ensures var (flow, st') := RunItems(stage, at, items, i, cursor, progress, st);
      RunItems(stage, at, items, i, cursor, progress, Unstopped(st)) == (flow, Unstopped(st'))
    decreases stage, 2, |items| - i
  {
    hide RunAttempts, Dispatch;
    if i < |items| && Reused(stage, at, cursor, i + 1, st.tree.disk) {
      var record := NodeAt(st.tree.disk, at + [Item(i + 1)]).item.value;
      ItemsUnstopped(stage, at, items, i + 1, cursor, Tallied(progress, Some(record.result), record.success),
                     CloseItem(st, at, record));
    } else if i < |items| {
      var inside := InnerCursor(cursor, i + 1);
      var st1 := st.(slots := PrepareItem(stage, items[i], inside.Some?, st.slots));
      var (end, used, st2) := RunAttempts(stage, at, i + 1, |items|, 0, inside, st1);
      AttemptsUnstopped(stage, at, i + 1, |items|, 0, inside, st1);
      if end.ItemDone? || (end.ItemFailed? && !stage.abortOnMaxRetries) {
        var st3 := CloseItem(st2, at, RecordOf(stage, st2.slots, items[i], i + 1, |items|, end, used));
        var entry := if stage.over.Some? then Some(Collect(stage, st3.slots, items[i], end.ItemDone?)) else None;
        ItemsUnstopped(stage, at, items, i + 1, cursor, Tallied(progress, entry, end.ItemDone?), st3);
      }
    }
  }

  lemma {:induction false} AttemptsUnstopped(stage: StageDef, at: Address, number: nat, total: nat, attempt: nat,
                                             inside: Option<Address>, st: State)
    requires stage.Loop? && attempt <= stage.maxRetries + 1
    requires !RunAttempts(stage, at, number, total, attempt, inside, st).0.ItemCancelled?
    ensures var (end, used, st') := RunAttempts(stage, at, number, total, attempt, inside, st);
      RunAttempts(stage, at, number, total, attempt, inside, Unstopped(st)) == (end, used, Unstopped(st'))
    decreases stage, 1, stage.maxRetries + 1 - attempt
  {
    hide RunInner;
    if attempt < stage.maxRetries + 1 {
      var context := LoopContext(number, total, attempt + 1, stage.maxRetries + 1);
      var st1 := if attempt > 0 then st.(slots := ApplyRetry(stage.onRetry, st.slots)) else st;
      var resumed := attempt == 0 && inside.Some? && inside.value != [];
      var start := if !resumed then 0 else if inside.value[0].Stage? then IndexOf(stage.inner, inside.value[0].name)
                   else |stage.inner|;
      if !(resumed && start == |stage.inner|) {
        var cursor := if resumed then Some(inside.value[1..]) else None;
        var (flow, st2) := RunInner(stage, start, at + [Item(number)], context, cursor, st1);
        InnerUnstopped(stage, start, at + [Item(number)], context, cursor, st1);
        if flow.Raised? || (flow.Next? && stage.exit(st2.slots).Fails?) {
          AttemptsUnstopped(stage, at, number, total, attempt + 1, inside, st2);
        }
      }
    }
  }

  lemma {:induction false} InnerUnstopped(stage: StageDef, k: nat, base: Address, context: LoopContext,
                                          cursor: Option<Address>, st: State)
    requires stage.Loop? && k <= |stage.inner|
    requires !RunInner(stage, k, base, context, cursor, st).0.Cancelled?
    ensures var (flow, st') := RunInner(stage, k, base, context, cursor, st);
      RunInner(stage, k, base, context, cursor, Unstopped(st)) == (flow, Unstopped(st'))
    decreases stage, 0, |stage.inner| - k
  {
    if k < |stage.inner| {
      var (flow, st1) := Dispatch(stage.inner[k], base, Some(context), cursor, st);
      DispatchUnstopped(stage.inner[k], base, Some(context), cursor, st);
      if flow.Next? { InnerUnstopped(stage, k + 1, base, context, None, st1); }
    }
  }
}
