// Replaying recorded stages gives the live slots back, one completed stage at a time.
module ReplayProof {
  import opened Options
  import opened Addresses
  import opened WorkflowModel
  import opened Engine
  import opened EngineSteps
  import opened EngineRuns
  import opened Scoping
  import opened Reconstruction
  import opened FreshRuns

  ghost predicate Distinct(stages: seq<StageDef>)
  {
    forall i, j | 0 <= i < j < |stages| :: stages[i].name != stages[j].name
  }

  lemma DistinctIndex(stages: seq<StageDef>, k: nat)
    requires Distinct(stages) && k < |stages|
    ensures IndexOf(stages, stages[k].name) == k && StageNamed(stages, stages[k].name) == Some(stages[k])
  {
  }

  ghost function OutsOf(stages: seq<StageDef>, done: seq<Name>): set<Name>
  {
    if done == [] then {}
    else
      var stage := StageNamed(stages, done[|done| - 1]);
      OutsOf(stages, done[..|done| - 1]) + (if stage.Some? then Declared(stage.value) else {})
  }

  ghost function ReplayAll(disk: Disk, dir: Address, stages: seq<StageDef>, done: seq<Name>, slots: Slots): Slots
  {
    if done == [] then slots
    else ReplayNamed(disk, dir, stages, done[|done| - 1], ReplayAll(disk, dir, stages, done[..|done| - 1], slots))
  }

  lemma {:induction false} ReplayAllLocal(d: Disk, d': Disk, dir: Address, stages: seq<StageDef>, done: seq<Name>,
                                          slots: Slots)
    requires forall n: Name :: n in done ==> SameUnder(d, d', dir + [Stage(n)])
    ensures ReplayAll(d, dir, stages, done, slots) == ReplayAll(d', dir, stages, done, slots)
  {
    if done != [] {
      var last := done[|done| - 1];
      var earlier := done[..|done| - 1];
      ReplayAllLocal(d, d', dir, stages, earlier, slots);
      assert last in done;
      if StageNamed(stages, last).Some? {
        ReplayLocal(d, d', dir + [Stage(last)], StageNamed(stages, last).value,
                    ReplayAll(d, dir, stages, earlier, slots));
      }
    }
  }

  // The recorded stages of a directory are exactly those done so far, in order, and replaying them
  // on the given slots agrees with the live slots on the given names and on everything they declare.
  ghost predicate Replayed(disk: Disk, live: Slots, dir: Address, stages: seq<StageDef>, done: seq<Name>,
                           start: Slots, names: set<Name>)
  {
    && Children(disk, dir) == done
    && Agree(ReplayAll(disk, dir, stages, done, start), live, names + OutsOf(stages, done))
  }

  lemma ReplayedParts(disk: Disk, live: Slots, dir: Address, stages: seq<StageDef>, done: seq<Name>, start: Slots,
                      names: set<Name>)
    requires Replayed(disk, live, dir, stages, done, start, names)
    ensures Children(disk, dir) == done
    ensures Agree(ReplayAll(disk, dir, stages, done, start), live, names + OutsOf(stages, done))
  {
  }

  lemma OutsideStage(dir: Address, x: Name, y: Name)
    requires x != y
    ensures !(dir + [Stage(x)] <= dir + [Stage(y)])
  {
    assert (dir + [Stage(x)])[|dir|] != (dir + [Stage(y)])[|dir|];
  }

  // Work inside one stage's directory leaves its siblings' directories alone.
  lemma SiblingSame(d: Disk, d': Disk, dir: Address, x: Name, y: Name)
    requires SameOutside(d, d', dir + [Stage(x)]) && x != y
    ensures SameUnder(d, d', dir + [Stage(y)])
  {
    forall a: Address | dir + [Stage(y)] <= a
      ensures SameAt(d, d', a)
    {
      OutsideStage(dir, x, y);
      assert a[|dir|] == (dir + [Stage(y)])[|dir|] != (dir + [Stage(x)])[|dir|];
    }
  }

  // ---------- one stage is recorded as the last child ----------

  lemma EnterFacts(st: State, at: Address, count: nat, context: Option<LoopContext>)
    requires at != [] && NodeAt(st.tree.disk, at).meta.None?
    ensures var st2 := Enter(st.(counters := st.counters[PathOf(at) := count]), at, count, context);
      NodeAt(st2.tree.disk, at).meta.Some?
          && NodeAt(st2.tree.disk, at).meta.value.sequence == NextSequence(st.tree, Parent(at))
  {
  }

  lemma LeaveKeepsSequence(st: State, at: Address, count: nat, context: Option<LoopContext>, status: Status,
                           result: Value)
    requires NodeAt(st.tree.disk, at).meta.Some?
    ensures var node := NodeAt(Leave(st, at, count, context, status, result).tree.disk, at);
      && node.meta == Some(Meta(status, AttemptNumber(context), NodeAt(st.tree.disk, at).meta.value.sequence))
      && AttemptNumber(context) in node.attempts && node.attempts[AttemptNumber(context)].result == result
  {
  }

  lemma KeptByStep(st: State, st': State, at: Address, host: Option<Address>)
    requires Step(st, st', at, host) && NodeAt(st.tree.disk, at).meta.Some?
    ensures NodeAt(st'.tree.disk, at).meta.Some?
    ensures NodeAt(st'.tree.disk, at).meta.value.sequence == NodeAt(st.tree.disk, at).meta.value.sequence
  {
  }

  // A dispatched stage that had no record gets the next sequence number of its directory.
  lemma DispatchRecorded(stage: StageDef, base: Address, context: Option<LoopContext>, cursor: Option<Address>,
                         st: State)
    requires NodeAt(st.tree.disk, base + [Stage(stage.name)]).meta.None? && !Gate(stage, st.slots).Broken?
    ensures var node := NodeAt(Dispatch(stage, base, context, cursor, st).1.tree.disk, base + [Stage(stage.name)]);
      node.meta.Some? && node.meta.value.sequence == NextSequence(st.tree, base)
  {
    hide RunByType, Step, Leave, Dispatch, PathOf, Gate;
    var at := base + [Stage(stage.name)];
    assert Parent(at) == base;
    var count := Count(st.counters, PathOf(at)) + 1;
    var st2 := Entered(stage, base, context, st);
    EnterFacts(st, at, count, context);
    if Gate(stage, st.slots).Holds? {
      DispatchUnfold(stage, base, context, cursor, st);
      BodySteps(stage, at, count, cursor, st2);
      var (flow, st3) := RunByType(stage, at, count, cursor, st2);
      KeptByStep(st2, st3, at, Some(at));
      LeaveKeepsSequence(st3, at, count, context, StatusOf(flow), ResultOf(flow));
    } else {
      DispatchSkips(stage, base, context, cursor, st);
      LeaveKeepsSequence(st2, at, count, context, Skipped, Null);
    }
  }

  lemma SequencesAppend(d: Disk, d': Disk, dir: Address, name: Name, v: nat)
    requires SameOutside(d, d', dir + [Stage(name)])
    requires NodeAt(d, dir + [Stage(name)]).meta.None?
    requires NodeAt(d', dir + [Stage(name)]).meta.Some? && NodeAt(d', dir + [Stage(name)]).meta.value.sequence == v
    ensures Sequences(d', dir) == Sequences(d, dir)[name := v]
  {
    forall n: Name
      ensures n in ChildNames(d', dir) <==> n == name || n in ChildNames(d, dir)
      ensures n != name ==> NodeAt(d', dir + [Stage(n)]) == NodeAt(d, dir + [Stage(n)])
    {
      ChildHasMeta(d, dir, n);
      ChildHasMeta(d', dir, n);
      if n != name {
        OutsideStage(dir, name, n);
        assert SameAt(d, d', dir + [Stage(n)]);
      }
    }
    ChildHasMeta(d, dir, name);
    ChildHasMeta(d', dir, name);
  }

  lemma ChildrenAppend(stage: StageDef, base: Address, context: Option<LoopContext>, cursor: Option<Address>, st: State)
    requires SequencesOk(st.tree) && NodeAt(st.tree.disk, base + [Stage(stage.name)]).meta.None?
      && !Gate(stage, st.slots).Broken?
    ensures Children(Dispatch(stage, base, context, cursor, st).1.tree.disk, base) ==
        Children(st.tree.disk, base) + [stage.name]
  {
    var st' := Dispatch(stage, base, context, cursor, st).1;
    var at := base + [Stage(stage.name)];
    DispatchSteps(stage, base, context, cursor, st);
    DispatchRecorded(stage, base, context, cursor, st);
    var v := NextSequence(st.tree, base);
    SequencesAppend(st.tree.disk, st'.tree.disk, base, stage.name, v);
    var m := Sequences(st.tree.disk, base);
    ChildHasMeta(st.tree.disk, base, stage.name);
    forall y | y in m
      ensures m[y] < v
    {
      ChildHasMeta(st.tree.disk, base, y);
      assert Parent(base + [Stage(y)]) == base;
      assert base + [Stage(y)] in st.tree.disk;
    }
    AscendingAppend(m, stage.name, v);
  }

  // ---------- replaying one completed stage ----------

  // An atomic stage: the persisted attempt holds the value written live.
  lemma WorkReplayed(stage: StageDef, base: Address, context: Option<LoopContext>, st: State, start: Slots,
                     names: set<Name>)
    requires stage.Work? && Agree(start, st.slots, names)
    requires Gate(stage, st.slots).Holds? && Dispatch(stage, base, context, None, st).0.Next?
    ensures var st' := Dispatch(stage, base, context, None, st).1;
      Agree(ReplayStage(st'.tree.disk, base + [Stage(stage.name)], stage, start), st'.slots, names + Declared(stage))
  {
    var at := base + [Stage(stage.name)];
    var count := Count(st.counters, PathOf(at)) + 1;
    var st2 := Enter(st.(counters := st.counters[PathOf(at) := count]), at, count, context);
    var (flow, st3) := RunByType(stage, at, count, None, st2);
    assert RunByType(stage, at, count, None, st2) == Perform(stage, count, st2);
    var st' := Dispatch(stage, base, context, None, st).1;
    assert NodeAt(st'.tree.disk, at).meta.value.attemptCount == AttemptNumber(context);
    assert NodeAt(st'.tree.disk, at).attempts[AttemptNumber(context)].result == flow.result;
    WriteAgrees(start, st.slots, stage.output, flow.result, names);
  }

  // A nested workflow: the persisted attempt holds the tallies its caller got.
  lemma NestedReplayed(stage: StageDef, base: Address, context: Option<LoopContext>, st: State, start: Slots,
                       names: set<Name>)
    requires stage.Nested? && Agree(start, st.slots, names)
    requires Gate(stage, st.slots).Holds? && Dispatch(stage, base, context, None, st).0.Next?
    ensures var st' := Dispatch(stage, base, context, None, st).1;
      Agree(ReplayStage(st'.tree.disk, base + [Stage(stage.name)], stage, start), st'.slots, names + Declared(stage))
  {
    hide RunStages, PathOf, Step, Leave, Enter, Gate;
    var at := base + [Stage(stage.name)];
    var count := Count(st.counters, PathOf(at)) + 1;
    var st2 := Entered(stage, base, context, st);
    EnteredSlots(stage, base, context, st);
    EnteredMeta(stage, base, context, st);
    DispatchUnfold(stage, base, context, None, st);
    assert RunByType(stage, at, count, None, st2) == RunSubWorkflow(stage, at, st2);
    BodySteps(stage, at, count, None, st2);
    var (flow, st3) := RunByType(stage, at, count, None, st2);
    KeptByStep(st2, st3, at, Some(at));
    LeaveKeepsSequence(st3, at, count, context, StatusOf(flow), ResultOf(flow));
    LeaveSlots(st3, at, count, context, StatusOf(flow), ResultOf(flow));
    WriteAgrees(start, st.slots, Some(stage.name), flow.result, names);
  }

  lemma EnteredMeta(stage: StageDef, base: Address, context: Option<LoopContext>, st: State)
    ensures NodeAt(Entered(stage, base, context, st).tree.disk, base + [Stage(stage.name)]).meta.Some?
  {
    WriteMetaFacts(st.tree, base + [Stage(stage.name)], Running, context);
  }

  lemma {:induction false} EntriesRecounted(disk: Disk, at: Address, numbers: seq<nat>)
    requires forall k | 0 <= k < |numbers| :: numbers[k] == k + 1
    ensures ItemEntries(disk, at, numbers) == Recounted(disk, at, |numbers|).entries
  {
    if numbers != [] { EntriesRecounted(disk, at, numbers[..|numbers| - 1]); }
  }

  lemma {:induction false} FirstNumbers(s: set<nat>, n: nat)
    requires forall k: nat :: k in s <==> 1 <= k <= n
    ensures |SortedNumbers(s)| == n && forall k | 0 <= k < n :: SortedNumbers(s)[k] == k + 1
    decreases n
  {
    if n == 0 {
      assert s == {};
    } else {
      assert n in s;
      var x :| x in s && forall y | y in s :: y <= x;
      assert x == n;
      FirstNumbers(s - {n}, n - 1);
      assert SortedNumbers(s) == SortedNumbers(s - {n}) + [n];
    }
  }

  lemma NumbersOnDisk(disk: Disk, at: Address, n: nat)
    requires ItemsOnDisk(disk, at, n)
    ensures forall k: nat :: k in ItemNumbers(disk, at) <==> 1 <= k <= n
  {
    forall k: nat
      ensures k in ItemNumbers(disk, at) <==> 1 <= k <= n
    {
      if 1 <= k <= n {
        var a := at + [Item(k)];
        assert ItemClosedOnDisk(disk, at, k);
        assert a in disk && a[|at|] == Item(k) && at <= a;
      }
    }
  }

  lemma EntriesOnDisk(disk: Disk, at: Address, n: nat)
    requires ItemsOnDisk(disk, at, n)
    ensures ItemEntries(disk, at, SortedNumbers(ItemNumbers(disk, at))) == Recounted(disk, at, n).entries
  {
    NumbersOnDisk(disk, at, n);
    FirstNumbers(ItemNumbers(disk, at), n);
    EntriesRecounted(disk, at, SortedNumbers(ItemNumbers(disk, at)));
  }

  lemma ClearItems(disk: Disk, at: Address)
    requires forall a: Address :: at <= a && a != at ==> a !in disk
    ensures ItemsOnDisk(disk, at, 0)
  {
  }

  // A list loop: the persisted item results are the aggregate written live.
  lemma LoopReplayed(stage: StageDef, base: Address, context: Option<LoopContext>, st: State, start: Slots,
                     names: set<Name>)
    requires stage.Loop? && Agree(start, st.slots, names) && Scratch(stage) !! names
    requires Clear(st.tree.disk, base + [Stage(stage.name)])
    requires Gate(stage, st.slots).Holds? && Dispatch(stage, base, context, None, st).0.Next?
    ensures var st' := Dispatch(stage, base, context, None, st).1;
      Agree(ReplayStage(st'.tree.disk, base + [Stage(stage.name)], stage, start), st'.slots, names + Declared(stage))
  {
    DispatchQuiet(stage, base, context, st);
    var st' := Dispatch(stage, base, context, None, st).1;
    if stage.over.Some? { LoopAggregate(stage, base, context, st); }
    hide Dispatch, Scratch;
    var replayed := ReplayStage(st'.tree.disk, base + [Stage(stage.name)], stage, start);
    forall n: Name | n in names + Declared(stage)
      ensures SameSlot(replayed, st'.slots, n)
    {
      if n !in Declared(stage) {
        assert SameSlot(start, st.slots, n) && SameSlot(st.slots, st'.slots, n);
      }
    }
  }

  // The aggregate that the recorded items of a loop replay to.
  ghost function RecordedAggregate(disk: Disk, at: Address): Value
  {
    Aggregate(ItemEntries(disk, at, SortedNumbers(ItemNumbers(disk, at))))
  }

  lemma LoopUnfold(stage: StageDef, at: Address, count: nat, cursor: Option<Address>, st: State)
    requires stage.Loop? && LoopItems(stage, st.slots).Some?
    requires !(cursor.Some? && cursor.value != [] && cursor.value[0].Stage?)
    ensures RunByType(stage, at, count, cursor, st) ==
      RunItems(stage, at, LoopItems(stage, st.slots).value, 0, cursor, Progress([], 0, 0), st)
  {
    assert RunByType(stage, at, count, cursor, st) == RunLoop(stage, at, cursor, st);
  }

  lemma LoopNeedsItems(stage: StageDef, at: Address, count: nat, st: State)
    requires stage.Loop? && LoopItems(stage, st.slots).None?
    ensures RunByType(stage, at, count, None, st) == (Raised, st)
  {
    assert RunByType(stage, at, count, None, st) == RunLoop(stage, at, None, st);
  }

  lemma EnteredClear(stage: StageDef, base: Address, context: Option<LoopContext>, st: State)
    requires Clear(st.tree.disk, base + [Stage(stage.name)])
    ensures ItemsOnDisk(Entered(stage, base, context, st).tree.disk, base + [Stage(stage.name)], 0)
    ensures Entered(stage, base, context, st).slots == st.slots
  {
    ClearItems(Entered(stage, base, context, st).tree.disk, base + [Stage(stage.name)]);
  }

  lemma LoopAggregate(stage: StageDef, base: Address, context: Option<LoopContext>, st: State)
    requires stage.Loop? && stage.over.Some? && Clear(st.tree.disk, base + [Stage(stage.name)])
    requires Gate(stage, st.slots).Holds? && Dispatch(stage, base, context, None, st).0.Next?
    ensures var st' := Dispatch(stage, base, context, None, st).1;
      stage.output.None? ||
      (stage.output.value in st'.slots && st'.slots[stage.output.value] ==
          RecordedAggregate(st'.tree.disk, base + [Stage(stage.name)]))
  {
    hide Dispatch, RunByType, RunItems, ItemsOnDisk, Leave, Enter, OnlyAt;
    var at := base + [Stage(stage.name)];
    var count := Count(st.counters, PathOf(at)) + 1;
    var st2 := Entered(stage, base, context, st);
    DispatchUnfold(stage, base, context, None, st);
    EnteredClear(stage, base, context, st);
    if LoopItems(stage, st2.slots).None? {
      LoopNeedsItems(stage, at, count, st2);
    } else {
      var items := LoopItems(stage, st2.slots).value;
      LoopUnfold(stage, at, count, None, st2);
      ItemsComplete(stage, at, items, 0, Progress([], 0, 0), st2);
      var (flow, st3) := RunByType(stage, at, count, None, st2);
      LeaveTree(st3, at, count, context, flow);
      ExitFacts(st3.tree, at, count, context, Succeeded, flow.result);
      var d' := OnStageExit(st3.tree, at, count, context, Succeeded, flow.result).disk;
      LeftOnDisk(st3.tree.disk, d', at, |items|);
      EntriesOnDisk(d', at, |items|);
    }
  }

  lemma LeaveTree(st: State, at: Address, count: nat, context: Option<LoopContext>, flow: Flow)
    requires flow.Next?
    ensures var st' := Leave(st, at, count, context, StatusOf(flow), ResultOf(flow));
      st'.slots == st.slots && st'.tree == OnStageExit(st.tree, at, count, context, Succeeded, flow.result)
  {
  }

  // The exit record of the loop itself leaves its item records alone.
  lemma LeftOnDisk(d: Disk, d': Disk, at: Address, n: nat)
    requires ItemsOnDisk(d, at, n) && OnlyAt(d, d', at)
    ensures ItemsOnDisk(d', at, n) && Recounted(d', at, n) == Recounted(d, at, n)
  {
    forall k: nat | 1 <= k <= n
      ensures SameAt(d, d', at + [Item(k)])
    {
      assert at + [Item(k)] != at;
    }
    forall k: nat | 1 <= k <= n
      ensures ItemClosedOnDisk(d', at, k)
    {
      assert ItemClosedOnDisk(d, at, k) && SameAt(d, d', at + [Item(k)]);
    }
    forall a: Address | a in d' && at <= a && |a| > |at|
      ensures a[|at|].Item? && 1 <= a[|at|].number <= n
    {
      assert SameAt(d, d', a);
    }
    RecountedLocal(d, d', at, n);
  }

  lemma StageReplayed(stage: StageDef, base: Address, context: Option<LoopContext>, st: State, start: Slots,
                      names: set<Name>)
    requires Agree(start, st.slots, names) && Scratch(stage) !! names
    requires Clear(st.tree.disk, base + [Stage(stage.name)])
    requires Gate(stage, st.slots).Holds? && Dispatch(stage, base, context, None, st).0.Next?
    ensures var st' := Dispatch(stage, base, context, None, st).1;
      Agree(ReplayStage(st'.tree.disk, base + [Stage(stage.name)], stage, start), st'.slots, names + Declared(stage))
  {
    match stage
    case Work(_, _, _, _, _) => WorkReplayed(stage, base, context, st, start, names);
    case Branch(_, _, _, _) =>
    case Loop(_, _, _, _, _, _, _, _, _, _, _, _) => LoopReplayed(stage, base, context, st, start, names);
    case Nested(_, _, _, _, _, _) => NestedReplayed(stage, base, context, st, start, names);
  }
}
