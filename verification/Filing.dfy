// Where a run files what it records: an item result lies in the directory of its own number, and an
// address spells out a way down the workflow's own stages.
module Filing {
  import opened Options
  import opened Addresses
  import opened DirectoryNames
  import opened WorkflowModel
  import opened Engine
  import opened EngineSteps
  import opened Reconstruction
  import opened FreshRuns
  import opened ReplayProof
  import opened CutProof
  import opened WorkflowRuns

  // ---------- item results ----------

  ghost predicate FiledAt(disk: Disk, a: Address)
    requires a in disk
  {
    disk[a].item.Some? ==> a != [] && a[|a| - 1] == Item(disk[a].item.value.number)
  }

  ghost predicate Filed(disk: Disk)
  {
    forall a: Address | a in disk :: FiledAt(disk, a)
  }

  lemma MetaFiled(t: Tree, base: Address, name: Name, status: Status, context: Option<LoopContext>)
    requires Filed(t.disk)
    ensures Filed(WriteMeta(t, base + [Stage(name)], status, context).disk)
  {
    var at := base + [Stage(name)];
    var d := WriteMeta(t, at, status, context).disk;
    forall a: Address | a in d
      ensures FiledAt(d, a)
    {
      if a in t.disk { assert FiledAt(t.disk, a); }
    }
  }

  lemma LeaveFiled(st: State, base: Address, name: Name, count: nat, context: Option<LoopContext>, status: Status,
                   result: Value)
    requires Filed(st.tree.disk)
    ensures Filed(Leave(st, base + [Stage(name)], count, context, status, result).tree.disk)
  {
    var at := base + [Stage(name)];
    MetaFiled(st.tree, base, name, status, context);
    var d1 := WriteMeta(st.tree, at, status, context).disk;
    var d := Leave(st, at, count, context, status, result).tree.disk;
    forall a: Address | a in d
      ensures FiledAt(d, a)
    {
      assert FiledAt(d1, a);
    }
  }

  lemma CloseFiled(st: State, at: Address, record: ItemRecord)
    requires Filed(st.tree.disk)
    ensures Filed(CloseItem(st, at, record).tree.disk)
  {
    var d := CloseItem(st, at, record).tree.disk;
    forall a: Address | a in d
      ensures FiledAt(d, a)
    {
      if a != at + [Item(record.number)] { assert FiledAt(st.tree.disk, a); }
    }
  }

  lemma {:induction false} DispatchFiled(stage: StageDef, base: Address, context: Option<LoopContext>,
                                         cursor: Option<Address>, st: State)
    requires Filed(st.tree.disk)
    ensures Filed(Dispatch(stage, base, context, cursor, st).1.tree.disk)
    decreases stage, 4, 0
  {
    hide Filed, Leave, RunByType, PathOf;
    var at := base + [Stage(stage.name)];
    var count := Count(st.counters, PathOf(at)) + 1;
    var st2 := Enter(st.(counters := st.counters[PathOf(at) := count]), at, count, context);
    MetaFiled(st.tree, base, stage.name, Running, context);
    match Gate(stage, st.slots)
    case Broken =>
    case Fails => LeaveFiled(st2, base, stage.name, count, context, Skipped, Null);
    case Holds =>
      BodyFiled(stage, at, count, cursor, st2);
      var (flow, st3) := RunByType(stage, at, count, cursor, st2);
      LeaveFiled(st3, base, stage.name, count, context, StatusOf(flow), ResultOf(flow));
  }

  lemma {:induction false} BodyFiled(stage: StageDef, at: Address, count: nat, cursor: Option<Address>, st: State)
    requires Filed(st.tree.disk)
    ensures Filed(RunByType(stage, at, count, cursor, st).1.tree.disk)
    decreases stage, 3, 1
  {
    hide Filed;
    match stage
    case Work(_, _, _, _, _) =>
    case Branch(_, _, _, _) =>
    case Loop(_, _, _, _, _, _, _, _, _, _, _, _) =>
      assert RunByType(stage, at, count, cursor, st) == RunLoop(stage, at, cursor, st);
      if LoopItems(stage, st.slots).Some? && !(cursor.Some? && cursor.value != [] && cursor.value[0].Stage?) {
        ItemsFiled(stage, at, LoopItems(stage, st.slots).value, 0, cursor, Progress([], 0, 0), st);
      }
    case Nested(_, _, _, _, _, _) =>
      assert RunByType(stage, at, count, cursor, st) == RunSubWorkflow(stage, at, st);
      var seeded := stage.seed(st.slots);
      if seeded.Some? { StagesFiled(stage, 0, at, stage.limit, map[], st.(slots := seeded.value)); }
  }

  lemma {:induction false} StagesFiled(stage: StageDef, k: nat, at: Address, left: nat, outcomes: map<Name, Value>,
                                       st: State)
    requires stage.Nested? && k <= |stage.stages| && Filed(st.tree.disk)
    ensures Filed(RunStages(stage, k, at, left, outcomes, st).1.tree.disk)
    decreases stage, 2, left
  {
    hide Filed, Dispatch;
    if k < |stage.stages| && left > 0 {
      var (flow, st1) := Dispatch(stage.stages[k], at, None, None, st);
      DispatchFiled(stage.stages[k], at, None, None, st);
      if flow.Next? {
        var next := if flow.jump.None? then k + 1 else IndexOf(stage.stages, flow.jump.value);
        if flow.jump.None? || next < |stage.stages| {
          StagesFiled(stage, next, at, left - 1, outcomes[stage.stages[k].name := flow.result], st1);
        }
      }
    }
  }

  lemma {:induction false} ItemsFiled(stage: StageDef, at: Address, items: seq<Value>, i: nat, cursor: Option<Address>,
                                      progress: Progress, st: State)
    requires stage.Loop? && i <= |items| && Filed(st.tree.disk)
    ensures Filed(RunItems(stage, at, items, i, cursor, progress, st).1.tree.disk)
    decreases stage, 2, |items| - i
  {
    hide Filed, RunAttempts, CloseItem, PrepareItem, RecordOf, Collect;
    if i == |items| {
    } else if Reused(stage, at, cursor, i + 1, st.tree.disk) {
      var record := NodeAt(st.tree.disk, at + [Item(i + 1)]).item.value;
      CloseFiled(st, at, record);
      ItemsFiled(stage, at, items, i + 1, cursor, Tallied(progress, Some(record.result), record.success),
                 CloseItem(st, at, record));
    } else {
      var inside := InnerCursor(cursor, i + 1);
      var st1 := st.(slots := PrepareItem(stage, items[i], inside.Some?, st.slots));
      var (end, used, st2) := RunAttempts(stage, at, i + 1, |items|, 0, inside, st1);
      AttemptsFiled(stage, at, i + 1, |items|, 0, inside, st1);
      if !end.ItemAborted? && !end.ItemRaised? {
        var record := RecordOf(stage, st2.slots, items[i], i + 1, |items|, end, used);
        var st3 := CloseItem(st2, at, record);
        CloseFiled(st2, at, record);
        if end.ItemDone? || (end.ItemFailed? && !stage.abortOnMaxRetries) {
          var entry := if stage.over.Some? then Some(Collect(stage, st3.slots, items[i], end.ItemDone?)) else None;
          ItemsFiled(stage, at, items, i + 1, cursor, Tallied(progress, entry, end.ItemDone?), st3);
        }
      }
    }
  }

  lemma {:induction false} AttemptsFiled(stage: StageDef, at: Address, number: nat, total: nat, attempt: nat,
                                         inside: Option<Address>, st: State)
    requires stage.Loop? && attempt <= stage.maxRetries + 1 && Filed(st.tree.disk)
    ensures Filed(RunAttempts(stage, at, number, total, attempt, inside, st).2.tree.disk)
    decreases stage, 1, stage.maxRetries + 1 - attempt
  {
    hide Filed, RunInner, ApplyRetry, IndexOf;
    if attempt < stage.maxRetries + 1 {
      var context := LoopContext(number, total, attempt + 1, stage.maxRetries + 1);
      var st1 := if attempt > 0 then st.(slots := ApplyRetry(stage.onRetry, st.slots)) else st;
      var resumed := attempt == 0 && inside.Some? && inside.value != [];
      var start := if !resumed then 0 else if inside.value[0].Stage? then IndexOf(stage.inner,
          inside.value[0].name) else |stage.inner|;
      if !(resumed && start == |stage.inner|) {
        var cursor := if resumed then Some(inside.value[1..]) else None;
        var (flow, st2) := RunInner(stage, start, at + [Item(number)], context, cursor, st1);
        InnerFiled(stage, start, at + [Item(number)], context, cursor, st1);
        if flow.Raised? || (flow.Next? && stage.exit(st2.slots).Fails?) {
          AttemptsFiled(stage, at, number, total, attempt + 1, inside, st2);
        }
      }
    }
  }

  lemma {:induction false} InnerFiled(stage: StageDef, k: nat, base: Address, context: LoopContext,
                                      cursor: Option<Address>, st: State)
    requires stage.Loop? && k <= |stage.inner| && Filed(st.tree.disk)
    ensures Filed(RunInner(stage, k, base, context, cursor, st).1.tree.disk)
    decreases stage, 0, |stage.inner| - k
  {
    hide Filed;
    if k < |stage.inner| {
      var (flow, st1) := Dispatch(stage.inner[k], base, Some(context), cursor, st);
      DispatchFiled(stage.inner[k], base, Some(context), cursor, st);
      if flow.Next? { InnerFiled(stage, k + 1, base, context, None, st1); }
    }
  }

  // ---------- every run ----------

  lemma {:induction false} SequenceFiled(stages: seq<StageDef>, k: nat, cursor: Option<Address>, budget: nat, st: State)
    requires k <= |stages| && Filed(st.tree.disk)
    ensures Filed(RunSequence(stages, k, [], cursor, budget, st).1.tree.disk)
    decreases budget
  {
    hide Filed, Dispatch;
    if k < |stages| && budget > 0 {
      var (flow, st1) := Dispatch(stages[k], [], None, cursor, st);
      DispatchFiled(stages[k], [], None, cursor, st);
      if flow.Next? {
        var next := NextIndex(stages, k, flow);
        if flow.jump.None? || next < |stages| { SequenceFiled(stages, next, None, budget - 1, st1); }
      }
    }
  }

  lemma {:induction false} ReplayedFiled(st: State, at: Address, numbers: seq<nat>)
    requires Filed(st.tree.disk)
    ensures Filed(ReplayItems(st, at, numbers).tree.disk)
    decreases |numbers|
  {
    hide Filed, CloseItem;
    if numbers != [] {
      var record := NodeAt(st.tree.disk, at + [Item(numbers[0])]).item;
      if record.Some? { CloseFiled(st, at, record.value); }
      ReplayedFiled(if record.Some? then CloseItem(st, at, record.value) else st, at, numbers[1..]);
    }
  }

  lemma {:induction false} NarrateFiled(stages: seq<StageDef>, st: State)
    requires Filed(st.tree.disk)
    ensures Filed(Narrate(stages, [], st).tree.disk)
    decreases |stages|
  {
    hide Filed, Leave, ReplayItems, SortedNumbers, ItemNumbers, PathOf;
    if stages != [] {
      var earlier, stage := stages[..|stages| - 1], stages[|stages| - 1];
      NarrateFiled(earlier, st);
      var st0 := Narrate(earlier, [], st);
      var at := [] + [Stage(stage.name)];
      var node := NodeAt(st0.tree.disk, at);
      if node.meta.Some? && node.meta.value.attemptCount in node.attempts {
        var attempt := node.attempts[node.meta.value.attemptCount];
        var st1 := st0.(counters := st0.counters[PathOf(at) :=
            Max(Count(st0.counters, PathOf(at)), attempt.invocation)]);
        MetaFiled(st1.tree, [], stage.name, Running, attempt.context);
        var st2 := Enter(st1, at, attempt.invocation, attempt.context);
        LeaveFiled(st2, [], stage.name, attempt.invocation, attempt.context, node.meta.value.status, attempt.result);
        var st3 := Leave(st2, at, attempt.invocation, attempt.context, node.meta.value.status, attempt.result);
        if stage.Loop? { ReplayedFiled(st3, at, SortedNumbers(ItemNumbers(st3.tree.disk, at))); }
      }
    }
  }

  // A fresh run files everything in its place, and so does every later resume of it.
  lemma RunsFiled(stages: seq<StageDef>, message: Value, stop: Option<nat>, budget: nat)
    ensures Filed(RunSequence(stages, 0, [], None, budget, Start(message, stop)).1.tree.disk)
  {
    SequenceFiled(stages, 0, None, budget, Start(message, stop));
  }

  lemma ResumesFiled(stages: seq<StageDef>, c: Address, tree: Tree, message: Value, stop: Option<nat>, budget: nat)
    requires Filed(tree.disk)
    ensures Filed(Resume(stages, c, tree, message, stop, budget).1.tree.disk)
  {
    hide RunSequence, Narrate, Filed;
    var st0 := Reopened(stages, c, tree, message, stop);
    if c != [] && c[0].Stage? && IndexOf(stages, c[0].name) < |stages| {
      var k := IndexOf(stages, c[0].name);
      NarrateFiled(stages[..k], st0);
      SequenceFiled(stages, k, Some(c[1..]), budget, Narrate(stages[..k], [], st0));
    }
  }

  // ---------- the shape of addresses ----------

  // The address spells out a way down a list of stages: after a loop comes an item, after a nested
  // workflow one of its stages, and any other stage is the end.
  ghost predicate Shaped(stages: seq<StageDef>, a: Address)
    decreases |a|, 0
  {
    a == [] || exists k :: 0 <= k < |stages| && Heads(stages[k], a)
  }

  ghost predicate Heads(stage: StageDef, a: Address)
    requires a != []
    decreases |a|, 0, 0
  {
    a[0] == Stage(stage.name) && ShapedBelow(stage, a[1..])
  }

  ghost predicate ShapedBelow(stage: StageDef, rest: Address)
    decreases |rest|, 1
  {
    || rest == []
    || (stage.Loop? && rest[0].Item? && Shaped(stage.inner, rest[1..]))
    || (stage.Nested? && Shaped(stage.stages, rest))
  }

  // Stage names are distinct in every list of the workflow.
  ghost predicate AllDistinct(stages: seq<StageDef>)
  {
    && Distinct(stages)
    && forall k | 0 <= k < |stages| ::
         && (stages[k].Loop? ==> AllDistinct(stages[k].inner))
         && (stages[k].Nested? ==> AllDistinct(stages[k].stages))
  }

  // Addresses of one workflow never share a directory, whatever its stages are named.
  lemma {:induction false} ShapedDistinct(stages: seq<StageDef>, a: Address, b: Address)
    requires AllDistinct(stages) && Shaped(stages, a) && Shaped(stages, b)
    requires |a| == |b| && forall i | 0 <= i < |a| :: SameName(a[i], b[i])
    ensures a == b
    decreases |a|
  {
    if a != [] {
      var j :| 0 <= j < |stages| && Heads(stages[j], a);
      var k :| 0 <= k < |stages| && Heads(stages[k], b);
      assert SameName(a[0], b[0]);
      assert stages[j].name == stages[k].name;
      assert j == k;
      var stage := stages[j];
      if |a| > 1 {
        assert a[1..][0] == a[1] && b[1..][0] == b[1] && a[1..][1..] == a[2..] && b[1..][1..] == b[2..];
        assert ShapedBelow(stage, a[1..]) && ShapedBelow(stage, b[1..]);
        if stage.Loop? {
          assert a[1..][0].Item? && b[1..][0].Item?;
          assert SameName(a[1], b[1]);
          assert a[1] == b[1] by { DecimalRead(a[1].number); DecimalRead(b[1].number); }
          forall i | 0 <= i < |a| - 2
            ensures SameName(a[2..][i], b[2..][i])
          {
            assert SameName(a[i + 2], b[i + 2]);
          }
          ShapedDistinct(stage.inner, a[2..], b[2..]);
          assert a == [a[0], a[1]] + a[2..] && b == [b[0], b[1]] + b[2..];
        } else {
          forall i | 0 <= i < |a| - 1
            ensures SameName(a[1..][i], b[1..][i])
          {
            assert SameName(a[i + 1], b[i + 1]);
          }
          assert stage.Nested? && AllDistinct(stage.stages);
          ShapedDistinct(stage.stages, a[1..], b[1..]);
          assert a == [a[0]] + a[1..] && b == [b[0]] + b[1..];
        }
      }
    }
  }

  // What is new below a directory spells out a way down its stages, or below one stage.
  ghost predicate NewShaped(d: Disk, d': Disk, dir: Address, stages: seq<StageDef>)
  {
    forall rest: Address :: dir + rest in d' && dir + rest !in d ==> Shaped(stages, rest)
  }

  ghost predicate NewBelow(d: Disk, d': Disk, at: Address, stage: StageDef)
  {
    forall rest: Address :: at + rest in d' && at + rest !in d ==> ShapedBelow(stage, rest)
  }

  lemma ShapedTrans(d0: Disk, d1: Disk, d2: Disk, dir: Address, stages: seq<StageDef>)
    requires NewShaped(d0, d1, dir, stages) && NewShaped(d1, d2, dir, stages)
    ensures NewShaped(d0, d2, dir, stages)
  {
  }

  lemma BelowTrans(d0: Disk, d1: Disk, d2: Disk, at: Address, stage: StageDef)
    requires NewBelow(d0, d1, at, stage) && NewBelow(d1, d2, at, stage)
    ensures NewBelow(d0, d2, at, stage)
  {
  }

  // A dispatch in a directory writes below its own stage.
  lemma DispatchShape(stages: seq<StageDef>, k: nat, dir: Address, context: Option<LoopContext>,
                      cursor: Option<Address>,
                      st: State)
    requires k < |stages|
    requires var st' := Dispatch(stages[k], dir, context, cursor, st).1;
      NewBelow(st.tree.disk, st'.tree.disk, dir + [Stage(stages[k].name)], stages[k])
    ensures NewShaped(st.tree.disk, Dispatch(stages[k], dir, context, cursor, st).1.tree.disk, dir, stages)
  {
    hide Dispatch;
    var stage := stages[k];
    var st' := Dispatch(stage, dir, context, cursor, st).1;
    var at := dir + [Stage(stage.name)];
    DispatchSteps(stage, dir, context, cursor, st);
    forall rest: Address | dir + rest in st'.tree.disk && dir + rest !in st.tree.disk
      ensures Shaped(stages, rest)
    {
      var a := dir + rest;
      assert !(at <= a) ==> SameAt(st.tree.disk, st'.tree.disk, a);
      assert a[|dir|] == at[|dir|];
      assert a == at + rest[1..] && rest[0] == Stage(stage.name);
      assert Heads(stage, rest);
    }
  }

  lemma {:induction false} DispatchBelow(stage: StageDef, base: Address, context: Option<LoopContext>,
                                         cursor: Option<Address>, st: State)
    ensures NewBelow(st.tree.disk, Dispatch(stage, base, context, cursor, st).1.tree.disk, base + [Stage(stage.name)],
                     stage)
    decreases stage, 4, 0
  {
    hide NewBelow, Leave, Enter, RunByType, PathOf, ShapedBelow;
    var at := base + [Stage(stage.name)];
    var count := Count(st.counters, PathOf(at)) + 1;
    var st1 := st.(counters := st.counters[PathOf(at) := count]);
    var st2 := Enter(st1, at, count, context);
    SameBelow(st.tree.disk, at, stage);
    EnterBelow(st1, at, count, context, stage);
    match Gate(stage, st.slots)
    case Broken =>
    case Fails =>
      LeaveBelow(st2, at, count, context, Skipped, Null, stage);
      BelowTrans(st.tree.disk, st2.tree.disk, Leave(st2, at, count, context, Skipped, Null).tree.disk, at, stage);
    case Holds =>
      BodyBelow(stage, at, count, cursor, st2);
      var (flow, st3) := RunByType(stage, at, count, cursor, st2);
      LeaveBelow(st3, at, count, context, StatusOf(flow), ResultOf(flow), stage);
      BelowTrans(st.tree.disk, st2.tree.disk, st3.tree.disk, at, stage);
      BelowTrans(st.tree.disk, st3.tree.disk,
                 Leave(st3, at, count, context, StatusOf(flow), ResultOf(flow)).tree.disk, at, stage);
  }

  lemma SameBelow(d: Disk, at: Address, stage: StageDef)
    ensures NewBelow(d, d, at, stage)
  {
  }

  lemma OwnBelow(d: Disk, d': Disk, at: Address, stage: StageDef)
    requires OnlyAt(d, d', at)
    ensures NewBelow(d, d', at, stage)
  {
    forall rest: Address | at + rest in d' && at + rest !in d
      ensures ShapedBelow(stage, rest)
    {
      assert at + rest != at ==> SameAt(d, d', at + rest);
    }
  }

  lemma EnterBelow(st: State, at: Address, count: nat, context: Option<LoopContext>, stage: StageDef)
    requires at != []
    ensures NewBelow(st.tree.disk, Enter(st, at, count, context).tree.disk, at, stage)
  {
    WriteMetaFacts(st.tree, at, Running, context);
    OwnBelow(st.tree.disk, Enter(st, at, count, context).tree.disk, at, stage);
  }

  lemma LeaveBelow(st: State, at: Address, count: nat, context: Option<LoopContext>, status: Status, result: Value,
                   stage: StageDef)
    requires at != []
    ensures NewBelow(st.tree.disk, Leave(st, at, count, context, status, result).tree.disk, at, stage)
  {
    ExitFacts(st.tree, at, count, context, status, result);
    OwnBelow(st.tree.disk, Leave(st, at, count, context, status, result).tree.disk, at, stage);
  }

  lemma CloseBelow(st: State, at: Address, record: ItemRecord, stage: StageDef)
    requires stage.Loop?
    ensures NewBelow(st.tree.disk, CloseItem(st, at, record).tree.disk, at, stage)
  {
    var d' := CloseItem(st, at, record).tree.disk;
    forall rest: Address | at + rest in d' && at + rest !in st.tree.disk
      ensures ShapedBelow(stage, rest)
    {
      assert at + rest == at + [Item(record.number)];
      assert rest == (at + rest)[|at|..] == [Item(record.number)];
      assert Shaped(stage.inner, rest[1..]);
    }
  }

  lemma {:induction false} BodyBelow(stage: StageDef, at: Address, count: nat, cursor: Option<Address>, st: State)
    ensures NewBelow(st.tree.disk, RunByType(stage, at, count, cursor, st).1.tree.disk, at, stage)
    decreases stage, 3, 1
  {
    hide NewBelow, NewShaped;
    SameBelow(st.tree.disk, at, stage);
    match stage
    case Work(_, _, _, _, _) =>
    case Branch(_, _, _, _) =>
    case Loop(_, _, _, _, _, _, _, _, _, _, _, _) =>
      assert RunByType(stage, at, count, cursor, st) == RunLoop(stage, at, cursor, st);
      if LoopItems(stage, st.slots).Some? && !(cursor.Some? && cursor.value != [] && cursor.value[0].Stage?) {
        ItemsBelow(stage, at, LoopItems(stage, st.slots).value, 0, cursor, Progress([], 0, 0), st);
      }
    case Nested(_, _, _, _, _, _) =>
      assert RunByType(stage, at, count, cursor, st) == RunSubWorkflow(stage, at, st);
      var seeded := stage.seed(st.slots);
      if seeded.Some? {
        var st1 := st.(slots := seeded.value);
        StagesShaped(stage, 0, at, stage.limit, map[], st1);
        ShapedUnder(st.tree.disk, RunStages(stage, 0, at, stage.limit, map[], st1).1.tree.disk, at, stage);
      }
  }

  lemma ShapedUnder(d: Disk, d': Disk, at: Address, stage: StageDef)
    requires stage.Nested? && NewShaped(d, d', at, stage.stages)
    ensures NewBelow(d, d', at, stage)
  {
  }

  lemma SameShaped(d: Disk, dir: Address, stages: seq<StageDef>)
    ensures NewShaped(d, d, dir, stages)
  {
  }

  lemma {:induction false} StagesShaped(stage: StageDef, k: nat, at: Address, left: nat, outcomes: map<Name, Value>,
                                        st: State)
    requires stage.Nested? && k <= |stage.stages|
    ensures NewShaped(st.tree.disk, RunStages(stage, k, at, left, outcomes, st).1.tree.disk, at, stage.stages)
    decreases stage, 2, left
  {
    hide NewBelow, NewShaped, Dispatch;
    SameShaped(st.tree.disk, at, stage.stages);
    if k < |stage.stages| && left > 0 {
      var (flow, st1) := Dispatch(stage.stages[k], at, None, None, st);
      DispatchBelow(stage.stages[k], at, None, None, st);
      DispatchShape(stage.stages, k, at, None, None, st);
      if flow.Next? {
        var next := if flow.jump.None? then k + 1 else IndexOf(stage.stages, flow.jump.value);
        if flow.jump.None? || next < |stage.stages| {
          var outcomes1 := outcomes[stage.stages[k].name := flow.result];
          StagesShaped(stage, next, at, left - 1, outcomes1, st1);
          ShapedTrans(st.tree.disk, st1.tree.disk, RunStages(stage, next, at, left - 1, outcomes1, st1).1.tree.disk, at,
                      stage.stages);
        }
      }
    }
  }

  lemma {:induction false} ItemsBelow(stage: StageDef, at: Address, items: seq<Value>, i: nat, cursor: Option<Address>,
                                      progress: Progress, st: State)
    requires stage.Loop? && i <= |items|
    ensures NewBelow(st.tree.disk, RunItems(stage, at, items, i, cursor, progress, st).1.tree.disk, at, stage)
    decreases stage, 2, |items| - i
  {
    hide NewBelow, NewShaped, RunAttempts, CloseItem, PrepareItem, RecordOf, Collect, Step, InnerCursor, Tallied,
      SameOutside;
    var st' := RunItems(stage, at, items, i, cursor, progress, st).1;
    if i == |items| {
      SameBelow(st.tree.disk, at, stage);
    } else if Reused(stage, at, cursor, i + 1, st.tree.disk) {
      var record := NodeAt(st.tree.disk, at + [Item(i + 1)]).item.value;
      var st1 := CloseItem(st, at, record);
      CloseBelow(st, at, record, stage);
      ItemsBelow(stage, at, items, i + 1, cursor, Tallied(progress, Some(record.result), record.success), st1);
      BelowTrans(st.tree.disk, st1.tree.disk, st'.tree.disk, at, stage);
    } else {
      var inside := InnerCursor(cursor, i + 1);
      var st1 := st.(slots := PrepareItem(stage, items[i], inside.Some?, st.slots));
      var (end, used, st2) := RunAttempts(stage, at, i + 1, |items|, 0, inside, st1);
      AttemptsShaped(stage, at, i + 1, |items|, 0, inside, st1);
      AttemptsSteps(stage, at, i + 1, |items|, 0, inside, st1);
      StepOutside(st1, st2, at + [Item(i + 1)], Some(at));
      ItemBelow(st1.tree.disk, st2.tree.disk, at, i + 1, stage);
      if !end.ItemAborted? && !end.ItemRaised? {
        var record := RecordOf(stage, st2.slots, items[i], i + 1, |items|, end, used);
        var st3 := CloseItem(st2, at, record);
        CloseBelow(st2, at, record, stage);
        BelowTrans(st.tree.disk, st2.tree.disk, st3.tree.disk, at, stage);
        if end.ItemDone? || (end.ItemFailed? && !stage.abortOnMaxRetries) {
          var entry := if stage.over.Some? then Some(Collect(stage, st3.slots, items[i], end.ItemDone?)) else None;
          ItemsBelow(stage, at, items, i + 1, cursor, Tallied(progress, entry, end.ItemDone?), st3);
          BelowTrans(st.tree.disk, st3.tree.disk, st'.tree.disk, at, stage);
        }
      }
    }
  }

  lemma ItemBelow(d: Disk, d': Disk, at: Address, number: nat, stage: StageDef)
    requires stage.Loop? && SameOutside(d, d', at + [Item(number)])
    requires NewShaped(d, d', at + [Item(number)], stage.inner)
    ensures NewBelow(d, d', at, stage)
  {
    var dir := at + [Item(number)];
    forall rest: Address | at + rest in d' && at + rest !in d
      ensures ShapedBelow(stage, rest)
    {
      assert !(dir <= at + rest) ==> SameAt(d, d', at + rest);
      assert (at + rest)[|at|] == dir[|at|];
      assert at + rest == dir + rest[1..] && rest[0] == Item(number);
    }
  }

  lemma {:induction false} AttemptsShaped(stage: StageDef, at: Address, number: nat, total: nat, attempt: nat,
                                          inside: Option<Address>, st: State)
    requires stage.Loop? && attempt <= stage.maxRetries + 1
    ensures NewShaped(st.tree.disk, RunAttempts(stage, at, number, total, attempt, inside, st).2.tree.disk,
                      at + [Item(number)], stage.inner)
    decreases stage, 1, stage.maxRetries + 1 - attempt
  {
    hide NewShaped, RunInner, ApplyRetry, IndexOf;
    var dir := at + [Item(number)];
    var st' := RunAttempts(stage, at, number, total, attempt, inside, st).2;
    SameShaped(st.tree.disk, dir, stage.inner);
    if attempt < stage.maxRetries + 1 {
      var context := LoopContext(number, total, attempt + 1, stage.maxRetries + 1);
      var st1 := if attempt > 0 then st.(slots := ApplyRetry(stage.onRetry, st.slots)) else st;
      var resumed := attempt == 0 && inside.Some? && inside.value != [];
      var start := if !resumed then 0 else if inside.value[0].Stage? then IndexOf(stage.inner, inside.value[0].name)
                   else |stage.inner|;
      if !(resumed && start == |stage.inner|) {
        var cursor := if resumed then Some(inside.value[1..]) else None;
        var (flow, st2) := RunInner(stage, start, dir, context, cursor, st1);
        InnerShaped(stage, start, dir, context, cursor, st1);
        if flow.Raised? || (flow.Next? && stage.exit(st2.slots).Fails?) {
          AttemptsShaped(stage, at, number, total, attempt + 1, inside, st2);
          ShapedTrans(st.tree.disk, st2.tree.disk, st'.tree.disk, dir, stage.inner);
        }
      }
    }
  }

  lemma {:induction false} InnerShaped(stage: StageDef, k: nat, dir: Address, context: LoopContext,
                                       cursor: Option<Address>, st: State)
    requires stage.Loop? && k <= |stage.inner|
    ensures NewShaped(st.tree.disk, RunInner(stage, k, dir, context, cursor, st).1.tree.disk, dir, stage.inner)
    decreases stage, 0, |stage.inner| - k
  {
    hide NewShaped, NewBelow, Dispatch;
    SameShaped(st.tree.disk, dir, stage.inner);
    if k < |stage.inner| {
      var (flow, st1) := Dispatch(stage.inner[k], dir, Some(context), cursor, st);
      DispatchBelow(stage.inner[k], dir, Some(context), cursor, st);
      DispatchShape(stage.inner, k, dir, Some(context), cursor, st);
      if flow.Next? {
        InnerShaped(stage, k + 1, dir, context, None, st1);
        ShapedTrans(st.tree.disk, st1.tree.disk, RunInner(stage, k + 1, dir, context, None, st1).1.tree.disk, dir,
                    stage.inner);
      }
    }
  }

  lemma {:induction false} SequenceShaped(stages: seq<StageDef>, k: nat, budget: nat, st: State)
    requires k <= |stages|
    ensures NewShaped(st.tree.disk, RunSequence(stages, k, [], None, budget, st).1.tree.disk, [], stages)
    decreases budget
  {
    hide NewShaped, NewBelow, Dispatch;
    SameShaped(st.tree.disk, [], stages);
    if k < |stages| && budget > 0 {
      var (flow, st1) := Dispatch(stages[k], [], None, None, st);
      DispatchBelow(stages[k], [], None, None, st);
      DispatchShape(stages, k, [], None, None, st);
      if flow.Next? {
        var next := NextIndex(stages, k, flow);
        if flow.jump.None? || next < |stages| {
          SequenceShaped(stages, next, budget - 1, st1);
          ShapedTrans(st.tree.disk, st1.tree.disk, RunSequence(stages, next, [], None, budget - 1, st1).1.tree.disk, [],
                      stages);
        }
      }
    }
  }

  // No two addresses a run records are one directory, whatever its stages are named.
  lemma RunDirectoriesDistinct(stages: seq<StageDef>, message: Value, stop: Option<nat>, budget: nat, a: Address,
                               b: Address)
    requires AllDistinct(stages)
    requires var disk := RunSequence(stages, 0, [], None, budget, Start(message, stop)).1.tree.disk;
      a in disk && b in disk
    ensures RenderedAll(a) == RenderedAll(b) <==> a == b
  {
    hide RunSequence, RenderedAll, Shaped, AllDistinct;
    SequenceShaped(stages, 0, budget, Start(message, stop));
    assert [] + a == a && [] + b == b;
    DirectoriesShared(a, b);
    if RenderedAll(a) == RenderedAll(b) { ShapedDistinct(stages, a, b); }
  }
}
