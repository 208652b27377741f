// Replaying a stage that ran in any directory, whatever earlier attempts left there.
module ReplayAnywhere {
  import opened Options
  import opened Addresses
  import opened WorkflowModel
  import opened Engine
  import opened EngineSteps
  import opened EngineRuns
  import opened Scoping
  import opened Reconstruction
  import opened FreshRuns
  import opened ReplayProof
  import opened CutProof
  import opened AttemptRecords

  // ---------- a loop in any directory ----------

  ghost predicate ItemsClosed(disk: Disk, at: Address, i: nat)
  {
    forall n: nat :: 1 <= n <= i ==> ItemClosedOnDisk(disk, at, n)
  }

  // Closing item i + 1 extends the tally of the closed items, whatever else is recorded.
  lemma ClosedNext(stage: StageDef, at: Address, items: seq<Value>, i: nat, progress: Progress, st: State)
    requires stage.Loop? && stage.over.Some? && i < |items|
    requires ItemsClosed(st.tree.disk, at, i) && progress == Recounted(st.tree.disk, at, i)
    ensures var st3 := ClosedAfter(stage, at, items, i, st);
      && ItemsClosed(st3.tree.disk, at, i + 1)
      && ProgressAfter(stage, at, items, i, progress, st) == Recounted(st3.tree.disk, at, i + 1)
  {
    hide RunAttempts, Step, RecordOf;
    var st1 := st.(slots := PrepareItem(stage, items[i], false, st.slots));
    var (end, used, b) := ItemRun(stage, at, items, i, st);
    AttemptsSteps(stage, at, i + 1, |items|, 0, None, st1);
    StepOutside(st1, b, at + [Item(i + 1)], Some(at));
    var record := RecordOf(stage, b.slots, items[i], i + 1, |items|, end, used);
    RecordIs(stage, b.slots, items[i], i + 1, |items|, end, used);
    var d, d3 := st.tree.disk, ClosedAfter(stage, at, items, i, st).tree.disk;
    forall n: nat | 1 <= n <= i
      ensures SameAt(d, d3, at + [Item(n)])
    {
      OutsideItem(at, i + 1, n);
      assert SameAt(d, b.tree.disk, at + [Item(n)]);
    }
    forall n: nat | 1 <= n <= i + 1
      ensures ItemClosedOnDisk(d3, at, n)
    {
      if n <= i { assert ItemClosedOnDisk(d, at, n) && SameAt(d, d3, at + [Item(n)]); }
    }
    RecountedLocal(d, d3, at, i);
  }

  lemma RecordIs(stage: StageDef, slots: Slots, item: Value, number: nat, total: nat, end: ItemEnd, used: nat)
    requires stage.Loop? && stage.over.Some?
    ensures var record := RecordOf(stage, slots, item, number, total, end, used);
      && record.number == number && record.success == end.ItemDone?
      && record.result == Collect(stage, slots, item, end.ItemDone?)
  {
  }

  lemma {:induction false} ItemsComplete(stage: StageDef, at: Address, items: seq<Value>, i: nat, progress: Progress,
                                         st: State)
    requires stage.Loop? && stage.over.Some? && i <= |items|
    requires ItemsClosed(st.tree.disk, at, i) && progress == Recounted(st.tree.disk, at, i)
    requires RunItems(stage, at, items, i, None, progress, st).0.Next?
    ensures var (flow, st') := RunItems(stage, at, items, i, None, progress, st);
      && ItemsClosed(st'.tree.disk, at, |items|)
      && flow.result.Tally? && flow.result.total == |items|
      && (stage.output.Some? ==>
            stage.output.value in st'.slots && st'.slots[stage.output.value] ==
                Aggregate(Recounted(st'.tree.disk, at, |items|).entries))
    decreases |items| - i
  {
    hide ItemRun, ClosedAfter, ProgressAfter, RunItems, ItemsClosed, Recounted;
    if i == |items| {
      ItemsLast(stage, at, items, progress, st);
    } else {
      ItemsUnfold(stage, at, items, i, progress, st);
      ClosedNext(stage, at, items, i, progress, st);
      ItemsComplete(stage, at, items, i + 1, ProgressAfter(stage, at, items, i, progress, st),
                    ClosedAfter(stage, at, items, i, st));
    }
  }

  lemma ItemsLast(stage: StageDef, at: Address, items: seq<Value>, progress: Progress, st: State)
    requires stage.Loop? && stage.over.Some?
    ensures var (flow, st') := RunItems(stage, at, items, |items|, None, progress, st);
      && st'.tree == st.tree && flow.Next? && flow.result.Tally? && flow.result.total == |items|
      && (stage.output.Some? ==>
            stage.output.value in st'.slots && st'.slots[stage.output.value] == Aggregate(progress.entries))
  {
    hide RunAttempts;
  }

  // A list loop that completes: its result names the number of items, they are all closed on disk, and
  // its output slot holds their results.
  lemma LoopLeaves(stage: StageDef, base: Address, context: Option<LoopContext>, st: State)
    requires stage.Loop? && stage.over.Some?
    requires Gate(stage, st.slots).Holds? && Dispatch(stage, base, context, None, st).0.Next?
    ensures var at := base + [Stage(stage.name)];
      var (flow, st') := Dispatch(stage, base, context, None, st);
      && flow.result.Tally? && ItemsClosed(st'.tree.disk, at, flow.result.total)
      && (stage.output.Some? ==>
            stage.output.value in st'.slots && st'.slots[stage.output.value] ==
                Aggregate(Recounted(st'.tree.disk, at, flow.result.total).entries))
  {
    hide RunByType, RunItems, Leave, Entered, Gate, PathOf, LoopItems, Recounted, ItemsClosed, Dispatch;
    var at := base + [Stage(stage.name)];
    var count := Count(st.counters, PathOf(at)) + 1;
    var st2 := Entered(stage, base, context, st);
    DispatchUnfold(stage, base, context, None, st);
    if LoopItems(stage, st2.slots).None? {
      LoopNeedsItems(stage, at, count, st2);
    } else {
      var items := LoopItems(stage, st2.slots).value;
      LoopUnfold(stage, at, count, None, st2);
      NoneClosed(st2.tree.disk, at);
      ItemsComplete(stage, at, items, 0, Progress([], 0, 0), st2);
      var (flow, st3) := RunByType(stage, at, count, None, st2);
      LeaveSlots(st3, at, count, context, StatusOf(flow), ResultOf(flow));
      LeaveItems(st3, at, count, context, StatusOf(flow), ResultOf(flow), |items|);
    }
  }

  lemma NoneClosed(disk: Disk, at: Address)
    ensures ItemsClosed(disk, at, 0) && Recounted(disk, at, 0) == Progress([], 0, 0)
  {
  }

  lemma LeaveItems(st: State, at: Address, count: nat, context: Option<LoopContext>, status: Status, result: Value,
                   n: nat)
    requires at != [] && ItemsClosed(st.tree.disk, at, n)
    ensures var d' := Leave(st, at, count, context, status, result).tree.disk;
      ItemsClosed(d', at, n) && Recounted(d', at, n) == Recounted(st.tree.disk, at, n)
  {
    hide OnStageExit;
    ExitFacts(st.tree, at, count, context, status, result);
    var d, d' := st.tree.disk, Leave(st, at, count, context, status, result).tree.disk;
    forall k: nat | 1 <= k <= n
      ensures SameAt(d, d', at + [Item(k)]) && ItemClosedOnDisk(d', at, k)
    {
      assert at + [Item(k)] != at;
      assert ItemClosedOnDisk(d, at, k) && SameAt(d, d', at + [Item(k)]);
    }
    RecountedLocal(d, d', at, n);
  }

  // ---------- listing the items ----------

  // The numbers at which an item result is recorded.
  ghost predicate HasResult(disk: Disk, at: Address, n: nat)
  {
    NodeAt(disk, at + [Item(n)]).item.Some?
  }

  // No item result is recorded outside 1 to total.
  ghost predicate OnlyItems(disk: Disk, at: Address, total: nat)
  {
    forall n: nat :: HasResult(disk, at, n) ==> 1 <= n <= total
  }

  lemma {:induction false} EntriesOver(disk: Disk, at: Address, s: set<nat>, total: nat)
    requires forall n: nat :: 1 <= n <= total ==> n in s && HasResult(disk, at, n)
    requires forall n: nat :: n in s && !(1 <= n <= total) ==> !HasResult(disk, at, n)
    ensures ItemEntries(disk, at, SortedNumbers(s)) == Recounted(disk, at, total).entries
    decreases |s|
  {
    hide SortedNumbers, ItemEntries, Recounted, HasResult;
    if s == {} {
      assert total > 0 ==> total in s;
      NothingListed(disk, at);
    } else {
      SomeGreatest(s);
      var x :| x in s && forall y | y in s :: y <= x;
      GreatestLast(s, x);
      EntriesLast(disk, at, SortedNumbers(s - {x}), x);
      if 1 <= x <= total {
        assert total in s;
        RecountedLast(disk, at, total);
        EntriesOver(disk, at, s - {x}, total - 1);
      } else {
        EntriesOver(disk, at, s - {x}, total);
      }
    }
  }

  lemma NothingListed(disk: Disk, at: Address)
    ensures ItemEntries(disk, at, SortedNumbers({})) == [] && Recounted(disk, at, 0).entries == []
  {
  }

  lemma RecountedLast(disk: Disk, at: Address, n: nat)
    requires n > 0 && HasResult(disk, at, n)
    ensures Recounted(disk, at, n).entries ==
      Recounted(disk, at, n - 1).entries + [NodeAt(disk, at + [Item(n)]).item.value.result]
  {
  }

  lemma EntriesLast(disk: Disk, at: Address, numbers: seq<nat>, x: nat)
    ensures ItemEntries(disk, at, numbers + [x]) ==
      ItemEntries(disk, at, numbers) + (if HasResult(disk, at,
                                                     x) then [NodeAt(disk, at + [Item(x)]).item.value.result] else [])
  {
    assert (numbers + [x])[..|numbers|] == numbers;
  }

  // One entry per recorded number.
  lemma {:induction false} EntriesCount(disk: Disk, at: Address, s: set<nat>)
    ensures |ItemEntries(disk, at, SortedNumbers(s))| == |set n | n in s && HasResult(disk, at, n)|
    decreases |s|
  {
    hide SortedNumbers, ItemEntries, HasResult;
    if s != {} {
      SomeGreatest(s);
      var x :| x in s && forall y | y in s :: y <= x;
      GreatestLast(s, x);
      EntriesLast(disk, at, SortedNumbers(s - {x}), x);
      EntriesCount(disk, at, s - {x});
      OneLess(disk, at, s, x);
    } else {
      NothingListed(disk, at);
      assert (set n | n in s && HasResult(disk, at, n)) == {};
    }
  }

  lemma OneLess(disk: Disk, at: Address, s: set<nat>, x: nat)
    requires x in s
    ensures |set n | n in s && HasResult(disk, at, n)| ==
      |set n | n in s - {x} && HasResult(disk, at, n)| + (if HasResult(disk, at, x) then 1 else 0)
  {
    hide HasResult;
    var all, rest := set n | n in s && HasResult(disk, at, n), set n | n in s - {x} && HasResult(disk, at, n);
    if HasResult(disk, at, x) { assert all == rest + {x}; } else { assert all == rest; }
  }

  lemma ResultNumbered(disk: Disk, at: Address, n: nat)
    requires HasResult(disk, at, n)
    ensures n in ItemNumbers(disk, at)
  {
    var a := at + [Item(n)];
    assert a in disk && a[|at|] == Item(n) && at <= a;
  }

  // The recorded items are exactly the loop's own when no other result is recorded.
  lemma EntriesExact(disk: Disk, at: Address, total: nat)
    requires ItemsClosed(disk, at, total) && OnlyItems(disk, at, total)
    ensures RecordedAggregate(disk, at) == Aggregate(Recounted(disk, at, total).entries)
  {
    hide ItemNumbers, SortedNumbers, ItemEntries, Recounted;
    forall n: nat | 1 <= n <= total
      ensures n in ItemNumbers(disk, at) && HasResult(disk, at, n)
    {
      assert ItemClosedOnDisk(disk, at, n);
      ResultNumbered(disk, at, n);
    }
    EntriesOver(disk, at, ItemNumbers(disk, at), total);
  }

  lemma {:induction false} RecountedLength(disk: Disk, at: Address, n: nat)
    ensures |Recounted(disk, at, n).entries| <= n
  {
    if n > 0 { RecountedLength(disk, at, n - 1); }
  }

  lemma {:induction false} UpTo(total: nat) returns (s: set<nat>)
    ensures |s| == total && forall n: nat :: n in s <==> 1 <= n <= total
  {
    if total == 0 {
      s := {};
    } else {
      var less := UpTo(total - 1);
      s := less + {total};
    }
  }

  // Any other result on disk makes them more.
  lemma EntriesMore(disk: Disk, at: Address, total: nat)
    requires ItemsClosed(disk, at, total) && !OnlyItems(disk, at, total)
    ensures RecordedAggregate(disk, at) != Aggregate(Recounted(disk, at, total).entries)
  {
    hide ItemNumbers, SortedNumbers, ItemEntries, Recounted;
    var extra: nat :| HasResult(disk, at, extra) && !(1 <= extra <= total);
    var s := UpTo(total);
    var recorded := set n | n in ItemNumbers(disk, at) && HasResult(disk, at, n);
    forall n | n in s + {extra}
      ensures n in recorded
    {
      if n in s { assert ItemClosedOnDisk(disk, at, n); }
      ResultNumbered(disk, at, n);
    }
    Subset(s + {extra}, recorded);
    EntriesCount(disk, at, ItemNumbers(disk, at));
    RecountedLength(disk, at, total);
  }

  lemma {:induction false} Subset(a: set<nat>, b: set<nat>)
    requires a <= b
    ensures |a| <= |b|
    decreases |a|
  {
    if a != {} {
      var x :| x in a;
      Subset(a - {x}, b - {x});
    }
  }

  // ---------- any stage in any directory ----------

  // Replaying a stage that was not skipped gives its live write: any stage but a list loop wherever it
  // ran, a list loop when no item result of a longer earlier run is left.
  lemma StageReplays(stage: StageDef, base: Address, context: Option<LoopContext>, st: State, start: Slots,
                     names: set<Name>)
    requires Agree(start, st.slots, names) && Scratch(stage) !! names
    requires Dispatch(stage, base, context, None, st).0.Next?
    requires Gate(stage, st.slots).Fails? ==> Declared(stage) == {}
    requires var (flow, st') := Dispatch(stage, base, context, None, st);
      stage.Loop? && Declared(stage) != {} ==> flow.result.Tally? ==>
          OnlyItems(st'.tree.disk, base + [Stage(stage.name)], flow.result.total)
    ensures var st' := Dispatch(stage, base, context, None, st).1;
      Agree(ReplayStage(st'.tree.disk, base + [Stage(stage.name)], stage, start), st'.slots, names + Declared(stage))
  {
    hide Dispatch, Scratch, Gate, ReplayStage, Declared;
    NextNotBroken(stage, base, context, st);
    if Gate(stage, st.slots).Fails? {
      SilentReplayed(stage, base, context, st, start, names);
    } else {
      match stage
      case Work(_, _, _, _, _) => WorkReplayed(stage, base, context, st, start, names);
      case Branch(_, _, _, _) => BranchReplays(stage, base, context, st, start, names);
      case Loop(_, _, _, _, _, _, _, _, _, _, _, _) => LoopReplays(stage, base, context, st, start, names);
      case Nested(_, _, _, _, _, _) => NestedReplayed(stage, base, context, st, start, names);
    }
  }

  lemma BranchReplays(stage: StageDef, base: Address, context: Option<LoopContext>, st: State, start: Slots,
                      names: set<Name>)
    requires stage.Branch? && Agree(start, st.slots, names) && Gate(stage, st.slots).Holds?
    ensures var st' := Dispatch(stage, base, context, None, st).1;
      Agree(ReplayStage(st'.tree.disk, base + [Stage(stage.name)], stage, start), st'.slots, names + Declared(stage))
  {
    hide PathOf, Leave, Enter;
    DispatchUnfold(stage, base, context, None, st);
    LeaveSlots(Entered(stage, base, context, st), base + [Stage(stage.name)],
               Count(st.counters, PathOf(base + [Stage(stage.name)])) + 1, context,
               StatusOf(Decide(stage, Entered(stage, base, context, st))),
               ResultOf(Decide(stage, Entered(stage, base, context, st))));
    EnteredSlots(stage, base, context, st);
  }

  lemma LoopReplays(stage: StageDef, base: Address, context: Option<LoopContext>, st: State, start: Slots,
                    names: set<Name>)
    requires stage.Loop? && Agree(start, st.slots, names) && Scratch(stage) !! names
    requires Gate(stage, st.slots).Holds? && Dispatch(stage, base, context, None, st).0.Next?
    requires var (flow, st') := Dispatch(stage, base, context, None, st);
      Declared(stage) != {} ==> flow.result.Tally? ==>
          OnlyItems(st'.tree.disk, base + [Stage(stage.name)], flow.result.total)
    ensures var st' := Dispatch(stage, base, context, None, st).1;
      Agree(ReplayStage(st'.tree.disk, base + [Stage(stage.name)], stage, start), st'.slots, names + Declared(stage))
  {
    hide Dispatch, Scratch, Gate, OnlyItems, ItemsClosed, Recounted, ItemEntries, SortedNumbers, ItemNumbers;
    var at := base + [Stage(stage.name)];
    var (flow, st') := Dispatch(stage, base, context, None, st);
    DispatchQuiet(stage, base, context, st);
    QuietChanges(st, st', Touched(stage, flow), false);
    if stage.over.Some? && stage.output.Some? {
      assert stage.output.value in Declared(stage);
      LoopLeaves(stage, base, context, st);
      EntriesExact(st'.tree.disk, at, flow.result.total);
    }
    var replayed := ReplayStage(st'.tree.disk, at, stage, start);
    forall n: Name | n in names + Declared(stage)
      ensures SameSlot(replayed, st'.slots, n)
    {
      if n !in Declared(stage) {
        assert n !in Touched(stage, flow);
        assert SameSlot(start, st.slots, n) && SameSlot(st.slots, st'.slots, n);
      }
    }
  }
}
