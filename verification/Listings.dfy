// The order in which the stages of an item are listed: whatever attempts it went through, their first
// records follow the order of the stage list.
module Listings {
  import opened Options
  import opened Addresses
  import opened WorkflowModel
  import opened Engine
  import opened EngineSteps
  import opened EngineRuns
  import opened Scoping
  import opened Reconstruction
  import opened FreshRuns
  import opened ReplayProof
  import opened CutProof
  import opened ReconstructionProof
  import opened ResumeProof
  import opened AttemptRecords

  // The recorded stages of a directory are the first so many of the list, in its order.
  ghost predicate Listed(disk: Disk, dir: Address, stages: seq<StageDef>, count: nat)
  {
    count <= |stages| && Children(disk, dir) == NamesOf(stages[..count])
  }

  // So they are in every item directory below a stage.
  ghost predicate Sorted(disk: Disk, at: Address, stage: StageDef)
    decreases stage, 1
  {
    stage.Loop? ==> forall n: nat :: SortedIn(disk, at + [Item(n)], stage)
  }

  ghost predicate SortedIn(disk: Disk, dir: Address, stage: StageDef)
    requires stage.Loop?
    decreases stage, 0
  {
    && (exists count :: Listed(disk, dir, stage.inner, count))
    && forall k | 0 <= k < |stage.inner| :: Sorted(disk, dir + [Stage(stage.inner[k].name)], stage.inner[k])
  }

  // Only what lies strictly below matters.
  ghost predicate SameBeneath(d: Disk, d': Disk, at: Address)
  {
    forall a: Address :: at <= a && a != at ==> SameAt(d, d', a)
  }

  lemma {:induction false} SortedLocal(d: Disk, d': Disk, at: Address, stage: StageDef)
    requires SameBeneath(d, d', at) && Sorted(d, at, stage)
    ensures Sorted(d', at, stage)
    decreases stage, 1
  {
    hide Children;
    if stage.Loop? {
      forall n: nat
        ensures SortedIn(d', at + [Item(n)], stage)
      {
        assert SortedIn(d, at + [Item(n)], stage);
        BeneathInner(d, d', at, at + [Item(n)]);
        SortedInLocal(d, d', at + [Item(n)], stage);
      }
    }
  }

  lemma BeneathInner(d: Disk, d': Disk, at: Address, dir: Address)
    requires SameBeneath(d, d', at) && at <= dir
    ensures SameBeneath(d, d', dir)
  {
    forall a: Address | dir <= a && a != dir
      ensures SameAt(d, d', a)
    {
      PrefixTrans(at, dir, a);
    }
  }

  lemma {:induction false} SortedInLocal(d: Disk, d': Disk, dir: Address, stage: StageDef)
    requires stage.Loop? && SameBeneath(d, d', dir) && SortedIn(d, dir, stage)
    ensures SortedIn(d', dir, stage)
    decreases stage, 0
  {
    hide Children;
    forall n: Name
      ensures SameAt(d, d', dir + [Stage(n)])
    {
    }
    ChildrenLocal(d, d', dir);
    var count :| Listed(d, dir, stage.inner, count);
    assert Listed(d', dir, stage.inner, count);
    forall k | 0 <= k < |stage.inner|
      ensures Sorted(d', dir + [Stage(stage.inner[k].name)], stage.inner[k])
    {
      BeneathInner(d, d', dir, dir + [Stage(stage.inner[k].name)]);
      SortedLocal(d, d', dir + [Stage(stage.inner[k].name)], stage.inner[k]);
    }
  }

  lemma {:induction false} ClearSorted(disk: Disk, at: Address, stage: StageDef)
    requires Clear(disk, at)
    ensures Sorted(disk, at, stage)
    decreases stage, 1
  {
    if stage.Loop? {
      forall n: nat
        ensures SortedIn(disk, at + [Item(n)], stage)
      {
        ClearInner(disk, at, at + [Item(n)]);
        ClearSortedIn(disk, at + [Item(n)], stage);
      }
    }
  }

  lemma ClearInner(disk: Disk, at: Address, dir: Address)
    requires Clear(disk, at) && at <= dir
    ensures Clear(disk, dir)
  {
    forall a: Address | dir <= a
      ensures a !in disk
    {
      PrefixTrans(at, dir, a);
    }
  }

  lemma {:induction false} ClearSortedIn(disk: Disk, dir: Address, stage: StageDef)
    requires stage.Loop? && Clear(disk, dir)
    ensures SortedIn(disk, dir, stage)
    decreases stage, 0
  {
    ClearChildren(disk, dir);
    assert stage.inner[..0] == [];
    assert Listed(disk, dir, stage.inner, 0);
    forall k | 0 <= k < |stage.inner|
      ensures Sorted(disk, dir + [Stage(stage.inner[k].name)], stage.inner[k])
    {
      ClearInner(disk, dir, dir + [Stage(stage.inner[k].name)]);
      ClearSorted(disk, dir + [Stage(stage.inner[k].name)], stage.inner[k]);
    }
  }

  // ---------- one dispatch in a listed directory ----------

  lemma InNames(stages: seq<StageDef>, count: nat, k: nat)
    requires Distinct(stages) && count <= |stages| && k < |stages|
    ensures stages[k].name in NamesOf(stages[..count]) <==> k < count
  {
    if k < count { assert NamesOf(stages[..count])[k] == stages[k].name; }
    forall i | 0 <= i < count && NamesOf(stages[..count])[i] == stages[k].name
      ensures i == k
    {
      assert stages[i].name == stages[k].name;
    }
  }

  lemma ListedHas(disk: Disk, dir: Address, stages: seq<StageDef>, count: nat, k: nat)
    requires Distinct(stages) && Listed(disk, dir, stages, count) && k < |stages|
    ensures NodeAt(disk, dir + [Stage(stages[k].name)]).meta.Some? <==> k < count
  {
    InNames(stages, count, k);
    ChildHasMeta(disk, dir, stages[k].name);
  }

  ghost predicate SameNumber(d: Disk, d': Disk, a: Address)
  {
    && NodeAt(d, a).meta.Some? && NodeAt(d', a).meta.Some?
    && NodeAt(d', a).meta.value.sequence == NodeAt(d, a).meta.value.sequence
  }

  lemma ChildrenSame(d: Disk, d': Disk, dir: Address, name: Name)
    requires SameOutside(d, d', dir + [Stage(name)]) && SequencesKept(d, d')
    requires NodeAt(d, dir + [Stage(name)]).meta.Some?
    ensures Children(d', dir) == Children(d, dir)
  {
    forall n: Name
      ensures n in ChildNames(d', dir) <==> n in ChildNames(d, dir)
      ensures n in ChildNames(d, dir) ==> SameNumber(d, d', dir + [Stage(n)])
    {
      ChildHasMeta(d, dir, n);
      ChildHasMeta(d', dir, n);
      if n != name {
        OutsideStage(dir, name, n);
        assert SameAt(d, d', dir + [Stage(n)]);
      }
    }
    forall n | n in ChildNames(d, dir)
      ensures Sequences(d', dir)[n] == Sequences(d, dir)[n]
    {
      assert SameNumber(d, d', dir + [Stage(n)]);
      ChildHasMeta(d, dir, n);
      ChildHasMeta(d', dir, n);
    }
    assert Sequences(d, dir) == Sequences(d', dir);
  }

  // A stage at the end of the listing, or before, leaves it listed and itself in it.
  lemma DispatchListed(stages: seq<StageDef>, k: nat, dir: Address, context: Option<LoopContext>, st: State, count: nat)
    returns (more: nat)
    requires Distinct(stages) && SequencesOk(st.tree) && Listed(st.tree.disk, dir, stages, count) && k < |stages|
      && k <= count
    ensures var (flow, st') := Dispatch(stages[k], dir, context, None, st);
      && Listed(st'.tree.disk, dir, stages, more) && SequencesOk(st'.tree)
      && (!Gate(stages[k], st.slots).Broken? ==> k < more) && (flow.Next? ==> k < more)
  {
    hide Dispatch, Step, SequencesOk, Children, Gate, SequencesKept;
    var stage := stages[k];
    var zone := dir + [Stage(stage.name)];
    var st' := Dispatch(stage, dir, context, None, st).1;
    DispatchSteps(stage, dir, context, None, st);
    StepOutside(st, st', zone, None);
    StepSequences(st, st', zone, None);
    StepKept(st, st', zone, None);
    ListedHas(st.tree.disk, dir, stages, count, k);
    if Gate(stage, st.slots).Broken? {
      DispatchBroken(stage, dir, context, None, st);
      more := count;
    } else if k < count {
      ChildrenSame(st.tree.disk, st'.tree.disk, dir, stage.name);
      more := count;
    } else {
      ChildrenAppend(stage, dir, context, None, st);
      NamesOfNext(stages, k);
      more := k + 1;
    }
  }

  lemma StepKept(st: State, st': State, zone: Address, host: Option<Address>)
    requires Step(st, st', zone, host)
    ensures SequencesKept(st.tree.disk, st'.tree.disk)
  {
  }

  // ---------- every dispatch keeps directories sorted ----------

  // Stage names are distinct in every list below a loop.
  ghost predicate Named(stage: StageDef)
    decreases stage
  {
    stage.Loop? ==> Distinct(stage.inner) && forall k | 0 <= k < |stage.inner| :: Named(stage.inner[k])
  }

  lemma {:induction false} TidyNamed(stage: StageDef, used: set<Name>)
    requires Tidy(stage, used)
    ensures Named(stage)
    decreases stage
  {
    if stage.Loop? {
      forall k | 0 <= k < |stage.inner|
        ensures Named(stage.inner[k])
      {
        TidyInner(stage, used, k);
        TidyNamed(stage.inner[k], used + OwnScratch(stage) + OutsOf(stage.inner, NamesOf(stage.inner[..k])));
      }
      if |stage.inner| > 0 { TidyInner(stage, used, 0); }
    }
  }

  lemma {:induction false} DispatchSorted(stage: StageDef, base: Address, context: Option<LoopContext>, st: State)
    requires Named(stage) && SequencesOk(st.tree) && Sorted(st.tree.disk, base + [Stage(stage.name)], stage)
    ensures Sorted(Dispatch(stage, base, context, None, st).1.tree.disk, base + [Stage(stage.name)], stage)
    decreases stage, 4
  {
    hide Sorted, Dispatch, RunItems, Gate, PathOf, SequencesOk, LoopItems, Entered, Leave, SameBeneath;
    var at := base + [Stage(stage.name)];
    if !stage.Loop? {
      NotLoopSorted(Dispatch(stage, base, context, None, st).1.tree.disk, at, stage);
    } else {
      var count := Count(st.counters, PathOf(at)) + 1;
      var st2 := Entered(stage, base, context, st);
      EnteredDisk(stage, base, context, st);
      EnteredSlots(stage, base, context, st);
      EnterSequences(stage, base, context, st);
      OwnBeneath(st.tree.disk, st2.tree.disk, at);
      SortedLocal(st.tree.disk, st2.tree.disk, at, stage);
      match Gate(stage, st.slots) {
        case Broken => DispatchBroken(stage, base, context, None, st);
        case Fails =>
          DispatchSkips(stage, base, context, None, st);
          LeaveSorted(st2, at, count, context, Skipped, Null, stage);
        case Holds =>
          DispatchUnfold(stage, base, context, None, st);
          var (flow, st3) := RunByType(stage, at, count, None, st2);
          if LoopItems(stage, st2.slots).None? {
            LoopNeedsItems(stage, at, count, st2);
          } else {
            LoopUnfold(stage, at, count, None, st2);
            ItemsSorted(stage, at, LoopItems(stage, st2.slots).value, 0, Progress([], 0, 0), st2);
          }
          LeaveSorted(st3, at, count, context, StatusOf(flow), ResultOf(flow), stage);
      }
    }
  }

  lemma NotLoopSorted(disk: Disk, at: Address, stage: StageDef)
    requires !stage.Loop?
    ensures Sorted(disk, at, stage)
  {
  }

  lemma OwnBeneath(d: Disk, d': Disk, at: Address)
    requires OnlyAt(d, d', at)
    ensures SameBeneath(d, d', at)
  {
  }

  lemma LeaveSorted(st: State, at: Address, count: nat, context: Option<LoopContext>, status: Status, result: Value,
                    stage: StageDef)
    requires at != [] && Sorted(st.tree.disk, at, stage)
    ensures Sorted(Leave(st, at, count, context, status, result).tree.disk, at, stage)
  {
    hide Sorted, SameBeneath, OnStageExit;
    ExitFacts(st.tree, at, count, context, status, result);
    var d' := Leave(st, at, count, context, status, result).tree.disk;
    OwnBeneath(st.tree.disk, d', at);
    SortedLocal(st.tree.disk, d', at, stage);
  }

  // Work in one item's directory, which stays sorted, keeps the loop sorted.
  lemma ItemSorted(d: Disk, d': Disk, at: Address, number: nat, stage: StageDef)
    requires stage.Loop? && Sorted(d, at, stage) && SameOutside(d, d', at + [Item(number)])
    requires SortedIn(d', at + [Item(number)], stage)
    ensures Sorted(d', at, stage)
  {
    hide SortedIn;
    forall n: nat
      ensures SortedIn(d', at + [Item(n)], stage)
    {
      if n != number {
        assert SortedIn(d, at + [Item(n)], stage);
        OtherItem(d, d', at, number, n);
        SortedInLocal(d, d', at + [Item(n)], stage);
      }
    }
  }

  lemma OtherItem(d: Disk, d': Disk, at: Address, number: nat, n: nat)
    requires SameOutside(d, d', at + [Item(number)]) && n != number
    ensures SameBeneath(d, d', at + [Item(n)])
  {
    forall a: Address | at + [Item(n)] <= a && a != at + [Item(n)]
      ensures SameAt(d, d', a)
    {
      assert a[|at|] == (at + [Item(n)])[|at|] != (at + [Item(number)])[|at|];
    }
  }

  lemma CloseSorted(st: State, at: Address, record: ItemRecord, stage: StageDef)
    requires stage.Loop? && Sorted(st.tree.disk, at, stage)
    ensures Sorted(CloseItem(st, at, record).tree.disk, at, stage)
  {
    hide SortedIn;
    var d, d' := st.tree.disk, CloseItem(st, at, record).tree.disk;
    var dir := at + [Item(record.number)];
    assert SortedIn(d, dir, stage);
    OwnBeneath(d, d', dir);
    SortedInLocal(d, d', dir, stage);
    assert SameOutside(d, d', dir);
    ItemSorted(d, d', at, record.number, stage);
  }

  lemma {:induction false} ItemsSorted(stage: StageDef, at: Address, items: seq<Value>, i: nat, progress: Progress,
                                       st: State)
    requires stage.Loop? && i <= |items| && Named(stage) && SequencesOk(st.tree) && Sorted(st.tree.disk, at, stage)
    ensures Sorted(RunItems(stage, at, items, i, None, progress, st).1.tree.disk, at, stage)
    decreases stage, 3, |items| - i
  {
    hide Sorted, SortedIn, RunAttempts, ItemRun, ClosedAfter, ProgressAfter, SequencesOk, Step, Named;
    if i < |items| {
      ItemsUnfold(stage, at, items, i, progress, st);
      OneItemSorted(stage, at, items, i, st);
      if Continues(stage, ItemRun(stage, at, items, i, st).0) {
        ItemPassedOk(stage, at, items, i, progress, st);
        ItemsSorted(stage, at, items, i + 1, ProgressAfter(stage, at, items, i, progress, st),
                    ClosedAfter(stage, at, items, i, st));
      }
    }
  }

  lemma ItemPassedOk(stage: StageDef, at: Address, items: seq<Value>, i: nat, progress: Progress, st: State)
    requires stage.Loop? && i < |items| && Continues(stage, ItemRun(stage, at, items, i, st).0) && SequencesOk(st.tree)
    ensures SequencesOk(ClosedAfter(stage, at, items, i, st).tree)
  {
    hide SequencesOk, Step, ItemRun, ClosedAfter, Quiet, RunItems, ProgressAfter;
    ItemPassed(stage, at, items, i, progress, st);
    StepSequences(st, ClosedAfter(stage, at, items, i, st), at, Some(at));
  }

  lemma {:induction false} OneItemSorted(stage: StageDef, at: Address, items: seq<Value>, i: nat, st: State)
    requires stage.Loop? && i < |items| && Named(stage) && SequencesOk(st.tree) && Sorted(st.tree.disk, at, stage)
    ensures Sorted(ItemRun(stage, at, items, i, st).2.tree.disk, at, stage)
    ensures Sorted(ClosedAfter(stage, at, items, i, st).tree.disk, at, stage)
    decreases stage, 2
  {
    hide Sorted, SortedIn, RunAttempts, SequencesOk, Step, Named, RecordOf, CloseItem;
    var st1 := st.(slots := PrepareItem(stage, items[i], false, st.slots));
    SortedItem(st.tree.disk, at, stage, i + 1);
    AttemptsSorted(stage, at, i + 1, |items|, 0, st1);
    AttemptsSteps(stage, at, i + 1, |items|, 0, None, st1);
    var (end, used, b) := ItemRun(stage, at, items, i, st);
    StepOutside(st1, b, at + [Item(i + 1)], Some(at));
    ItemSorted(st.tree.disk, b.tree.disk, at, i + 1, stage);
    CloseSorted(b, at, RecordOf(stage, b.slots, items[i], i + 1, |items|, end, used), stage);
  }

  lemma SortedItem(disk: Disk, at: Address, stage: StageDef, n: nat)
    requires stage.Loop? && Sorted(disk, at, stage)
    ensures SortedIn(disk, at + [Item(n)], stage)
  {
  }

  lemma {:induction false} AttemptsSorted(stage: StageDef, at: Address, number: nat, total: nat, attempt: nat,
                                          st: State)
    requires stage.Loop? && attempt <= stage.maxRetries + 1 && Named(stage) && SequencesOk(st.tree)
    requires SortedIn(st.tree.disk, at + [Item(number)], stage)
    ensures SortedIn(RunAttempts(stage, at, number, total, attempt, None, st).2.tree.disk, at + [Item(number)], stage)
    decreases stage, 1, stage.maxRetries + 1 - attempt
  {
    hide SortedIn, RunInner, ApplyRetry, SequencesOk, Step, Named;
    if attempt < stage.maxRetries + 1 {
      var dir := at + [Item(number)];
      var context := LoopContext(number, total, attempt + 1, stage.maxRetries + 1);
      var st1 := if attempt > 0 then st.(slots := ApplyRetry(stage.onRetry, st.slots)) else st;
      var (flow, st2) := RunInner(stage, 0, dir, context, None, st1);
      var count := SomeListed(st1.tree.disk, dir, stage);
      InnerSorted(stage, 0, dir, context, st1, count);
      InnerSteps(stage, 0, at, number, context, None, st1);
      StepSequences(st1, st2, dir, Some(at));
      if flow.Raised? || (flow.Next? && stage.exit(st2.slots).Fails?) {
        AttemptsSorted(stage, at, number, total, attempt + 1, st2);
      }
    }
  }

  lemma SomeListed(disk: Disk, dir: Address, stage: StageDef) returns (count: nat)
    requires stage.Loop? && SortedIn(disk, dir, stage)
    ensures Listed(disk, dir, stage.inner, count)
  {
    count :| Listed(disk, dir, stage.inner, count);
  }

  lemma {:induction false} InnerSorted(stage: StageDef, k: nat, dir: Address, context: LoopContext, st: State,
                                       count: nat)
    requires stage.Loop? && k <= |stage.inner| && Named(stage) && SequencesOk(st.tree)
    requires SortedIn(st.tree.disk, dir, stage) && Listed(st.tree.disk, dir, stage.inner, count) && k <= count
    ensures SortedIn(RunInner(stage, k, dir, context, None, st).1.tree.disk, dir, stage)
    decreases stage, 0, |stage.inner| - k
  {
    hide Sorted, Dispatch, SequencesOk, Step, Listed;
    if k < |stage.inner| {
      var (flow, st1) := Dispatch(stage.inner[k], dir, Some(context), None, st);
      var more := DispatchListed(stage.inner, k, dir, Some(context), st, count);
      DispatchSorted(stage.inner[k], dir, Some(context), st);
      DispatchSteps(stage.inner[k], dir, Some(context), None, st);
      StepOutside(st, st1, dir + [Stage(stage.inner[k].name)], None);
      forall i | 0 <= i < |stage.inner|
        ensures Sorted(st1.tree.disk, dir + [Stage(stage.inner[i].name)], stage.inner[i])
      {
        if i != k {
          SiblingSame(st.tree.disk, st1.tree.disk, dir, stage.inner[k].name, stage.inner[i].name);
          UnderBeneath(st.tree.disk, st1.tree.disk, dir + [Stage(stage.inner[i].name)]);
          SortedLocal(st.tree.disk, st1.tree.disk, dir + [Stage(stage.inner[i].name)], stage.inner[i]);
        }
      }
      if flow.Next? { InnerSorted(stage, k + 1, dir, context, st1, more); }
    }
  }

  lemma UnderBeneath(d: Disk, d': Disk, zone: Address)
    requires SameUnder(d, d', zone)
    ensures SameBeneath(d, d', zone)
  {
  }
}
