// What a run leaves on disk when its directory was empty before: item records that recount to the
// loop's own tally, and stage results whose replay gives the live slots back.
module FreshRuns {
  import opened Options
  import opened Addresses
  import opened WorkflowModel
  import opened Engine
  import opened EngineSteps
  import opened EngineRuns
  import opened Scoping
  import opened Reconstruction

  ghost predicate Clear(disk: Disk, zone: Address)
  {
    forall a: Address :: zone <= a ==> a !in disk
  }

  // The tally of the first n item records on disk.
  function Recounted(disk: Disk, at: Address, n: nat): Progress
  {
    if n == 0 then Progress([], 0, 0)
    else
      var record := NodeAt(disk, at + [Item(n)]).item;
      if record.None? then Recounted(disk, at, n - 1)
      else Tallied(Recounted(disk, at, n - 1), Some(record.value.result), record.value.success)
  }

  ghost predicate ItemClosedOnDisk(disk: Disk, at: Address, n: nat)
  {
    var item := NodeAt(disk, at + [Item(n)]).item;
    item.Some? && item.value.number == n
  }

  // Exactly the items 1 to i are on disk below the loop, all of them closed.
  ghost predicate ItemsOnDisk(disk: Disk, at: Address, i: nat)
  {
    && (forall n: nat :: 1 <= n <= i ==> ItemClosedOnDisk(disk, at, n))
    && (forall a: Address :: a in disk && at <= a && |a| > |at| ==> a[|at|].Item? && 1 <= a[|at|].number <= i)
  }

  lemma {:induction false} RecountedLocal(d: Disk, d': Disk, at: Address, n: nat)
    requires forall k: nat :: 1 <= k <= n ==> SameAt(d, d', at + [Item(k)])
    ensures Recounted(d, at, n) == Recounted(d', at, n)
  {
    if n > 0 {
      assert SameAt(d, d', at + [Item(n)]);
      RecountedLocal(d, d', at, n - 1);
    }
  }

  lemma OutsideItem(at: Address, m: nat, n: nat)
    requires m != n
    ensures !(at + [Item(m)] <= at + [Item(n)]) && !(at + [Item(m)] <= at)
  {
    assert (at + [Item(m)])[|at|] != (at + [Item(n)])[|at|];
  }

  // Closing item i + 1 after work inside its own directory extends the records by one.
  lemma ItemClosed(d: Disk, s2: State, at: Address, i: nat, record: ItemRecord)
    requires ItemsOnDisk(d, at, i) && SameOutside(d, s2.tree.disk, at + [Item(i + 1)]) && record.number == i + 1
    ensures var d3 := CloseItem(s2, at, record).tree.disk;
      ItemsOnDisk(d3, at, i + 1) && Recounted(d3, at, i + 1) ==
          Tallied(Recounted(d, at, i), Some(record.result), record.success)
  {
    var d2, d3 := s2.tree.disk, CloseItem(s2, at, record).tree.disk;
    var zone := at + [Item(i + 1)];
    forall n: nat | 1 <= n <= i
      ensures SameAt(d, d3, at + [Item(n)])
    {
      OutsideItem(at, i + 1, n);
      assert SameAt(d, d2, at + [Item(n)]);
    }
    forall n: nat | 1 <= n <= i + 1
      ensures ItemClosedOnDisk(d3, at, n)
    {
      if n <= i { assert ItemClosedOnDisk(d, at, n) && SameAt(d, d3, at + [Item(n)]); }
    }
    RecountedLocal(d, d3, at, i);
    forall a: Address | a in d3 && at <= a && |a| > |at|
      ensures a[|at|].Item? && 1 <= a[|at|].number <= i + 1
    {
      if zone <= a {
        assert a[|at|] == zone[|at|];
      } else {
        assert SameAt(d, d2, a);
      }
    }
  }

  // One item of a list loop, from its preparation to its closing.
  function ItemRun(stage: StageDef, at: Address, items: seq<Value>, i: nat, st: State): (r: (ItemEnd, nat, State))
    requires stage.Loop? && i < |items|
  {
    RunAttempts(stage, at, i + 1, |items|, 0, None, st.(slots := PrepareItem(stage, items[i], false, st.slots)))
  }

  function ClosedAfter(stage: StageDef, at: Address, items: seq<Value>, i: nat, st: State): State
    requires stage.Loop? && i < |items|
  {
    var (end, used, st2) := ItemRun(stage, at, items, i, st);
    CloseItem(st2, at, RecordOf(stage, st2.slots, items[i], i + 1, |items|, end, used))
  }

  function ProgressAfter(stage: StageDef, at: Address, items: seq<Value>, i: nat, progress: Progress,
                         st: State): Progress
    requires stage.Loop? && i < |items|
  {
    var (end, used, st2) := ItemRun(stage, at, items, i, st);
    Tallied(progress, if stage.over.Some? then Some(Collect(stage, st2.slots, items[i], end.ItemDone?)) else None,
            end.ItemDone?)
  }

  predicate Continues(stage: StageDef, end: ItemEnd)
    requires stage.Loop?
  {
    end.ItemDone? || (end.ItemFailed? && !stage.abortOnMaxRetries)
  }

  lemma ItemsUnfold(stage: StageDef, at: Address, items: seq<Value>, i: nat, progress: Progress, st: State)
    requires stage.Loop? && i < |items|
    ensures var end := ItemRun(stage, at, items, i, st).0;
      RunItems(stage, at, items, i, None, progress, st) ==
        if Continues(stage, end) then
          RunItems(stage, at, items, i + 1, None, ProgressAfter(stage, at, items, i, progress, st),
                   ClosedAfter(stage, at, items, i, st))
        else if end.ItemAborted? then (Aborted, ItemRun(stage, at, items, i, st).2)
        else if end.ItemRaised? then (Raised, ItemRun(stage, at, items, i, st).2)
        else if end.ItemCancelled? then (Cancelled, ClosedAfter(stage, at, items, i, st))
        else (Aborted, ClosedAfter(stage, at, items, i, st))
  {
  }

  lemma ItemRecorded(stage: StageDef, at: Address, items: seq<Value>, i: nat, progress: Progress, st: State)
    requires stage.Loop? && stage.over.Some? && i < |items|
    requires ItemsOnDisk(st.tree.disk, at, i) && progress == Recounted(st.tree.disk, at, i)
    ensures var st3 := ClosedAfter(stage, at, items, i, st);
      ItemsOnDisk(st3.tree.disk, at, i + 1)
          && ProgressAfter(stage, at, items, i, progress, st) == Recounted(st3.tree.disk, at, i + 1)
  {
    var st1 := st.(slots := PrepareItem(stage, items[i], false, st.slots));
    var (end, used, st2) := ItemRun(stage, at, items, i, st);
    AttemptsSteps(stage, at, i + 1, |items|, 0, None, st1);
    ItemClosed(st.tree.disk, st2, at, i, RecordOf(stage, st2.slots, items[i], i + 1, |items|, end, used));
  }

  function ResultOnDisk(disk: Disk, at: Address, n: nat): Option<Value>
  {
    var item := NodeAt(disk, at + [Item(n)]).item;
    if item.Some? then Some(item.value.result) else None
  }

  lemma {:induction false} RecountedTotals(disk: Disk, at: Address, n: nat)
    requires forall k: nat :: 1 <= k <= n ==> ItemClosedOnDisk(disk, at, k)
    ensures var p := Recounted(disk, at, n);
      && p.succeeded + p.failed == n && |p.entries| == n
      && forall k: nat :: k < n ==> Some(p.entries[k]) == ResultOnDisk(disk, at, k + 1)
  {
    if n > 0 {
      assert ItemClosedOnDisk(disk, at, n);
      RecountedTotals(disk, at, n - 1);
    }
  }

  lemma ClosedUpTo(disk: Disk, at: Address, n: nat)
    requires ItemsOnDisk(disk, at, n)
    ensures forall k: nat :: 1 <= k <= n ==> ItemClosedOnDisk(disk, at, k)
  {
  }

  // What a list loop that has run its items ends with.
  ghost predicate LoopEnd(stage: StageDef, at: Address, n: nat, flow: Flow, st: State)
    requires stage.Loop?
  {
    var final := Recounted(st.tree.disk, at, n);
    && ItemsOnDisk(st.tree.disk, at, n)
    && flow == Next(Tally(n, final.succeeded, final.failed), None)
    && final.succeeded + final.failed == n == |final.entries|
    && (forall k: nat :: k < n ==> Some(final.entries[k]) == ResultOnDisk(st.tree.disk, at, k + 1))
    && (stage.output.Some? ==>
         stage.output.value in st.slots && st.slots[stage.output.value] == Aggregate(final.entries))
  }

  lemma LastItem(stage: StageDef, at: Address, items: seq<Value>, progress: Progress, st: State)
    requires stage.Loop? && stage.over.Some?
    requires ItemsOnDisk(st.tree.disk, at, |items|) && progress == Recounted(st.tree.disk, at, |items|)
    ensures var (flow, st') := RunItems(stage, at, items, |items|, None, progress, st);
      LoopEnd(stage, at, |items|, flow, st')
  {
    hide ItemsOnDisk, Recounted, ResultOnDisk, RunAttempts;
    ClosedUpTo(st.tree.disk, at, |items|);
    RecountedTotals(st.tree.disk, at, |items|);
  }

  // Loop accounting: a list loop that completes in an empty directory has one closed record per
  // item, its result tallies them all, and its output slot is the aggregate of their results.
  lemma {:induction false} ItemsComplete(stage: StageDef, at: Address, items: seq<Value>, i: nat, progress: Progress,
                                         st: State)
    requires stage.Loop? && stage.over.Some? && i <= |items|
    requires ItemsOnDisk(st.tree.disk, at, i) && progress == Recounted(st.tree.disk, at, i)
    requires RunItems(stage, at, items, i, None, progress, st).0.Next?
    ensures var (flow, st') := RunItems(stage, at, items, i, None, progress, st);
      LoopEnd(stage, at, |items|, flow, st')
    decreases |items| - i
  {
    hide ItemRun, ClosedAfter, ProgressAfter, ItemsOnDisk, Recounted, RunItems, LoopEnd;
    if i == |items| {
      LastItem(stage, at, items, progress, st);
    } else {
      ItemsUnfold(stage, at, items, i, progress, st);
      ItemRecorded(stage, at, items, i, progress, st);
      ItemsComplete(stage, at, items, i + 1, ProgressAfter(stage, at, items, i, progress, st),
                    ClosedAfter(stage, at, items, i, st));
    }
  }

  // Where a cancelled list loop was when it stopped: every earlier item closed on disk, and the
  // attempts of item m + 1 cancelled. The state s there is reached with or without the stop button.
  lemma {:induction false} ItemsCut(stage: StageDef, at: Address, items: seq<Value>, i: nat, progress: Progress,
                                    st: State)
    returns (m: nat, p: Progress, s: State)
    requires stage.Loop? && stage.over.Some? && i <= |items|
    requires ItemsOnDisk(st.tree.disk, at, i) && progress == Recounted(st.tree.disk, at, i)
    requires RunItems(stage, at, items, i, None, progress, st).0.Cancelled?
    ensures i <= m < |items|
    ensures ItemsOnDisk(s.tree.disk, at, m) && p == Recounted(s.tree.disk, at, m)
    ensures ItemRun(stage, at, items, m, s).0.ItemCancelled?
    ensures RunItems(stage, at, items, i, None, progress, st) == (Cancelled, ClosedAfter(stage, at, items, m, s))
    ensures RunItems(stage, at, items, i, None, progress, Unstopped(st)) ==
        RunItems(stage, at, items, m, None, p, Unstopped(s))
    ensures Quiet(st, s, Scratch(stage), false)
    ensures Step(st, s, at, Some(at))
    decreases |items| - i
  {
    if i == |items| { assert false; }
    ItemsUnfold(stage, at, items, i, progress, st);
    var end := ItemRun(stage, at, items, i, st).0;
    if end.ItemCancelled? {
      m, p, s := i, progress, st;
      StepRefl(st, st, at, Some(at));
    } else {
      ItemRecorded(stage, at, items, i, progress, st);
      var st3 := ClosedAfter(stage, at, items, i, st);
      m, p, s := ItemsCut(stage, at, items, i + 1, ProgressAfter(stage, at, items, i, progress, st), st3);
      ItemPassed(stage, at, items, i, progress, st);
      QuietTrans(st, st3, s, Scratch(stage), false, false);
      StepTrans(st, st3, s, at, Some(at));
    }
  }

  // An item that is not cancelled goes the same way without the stop button.
  lemma ItemPassed(stage: StageDef, at: Address, items: seq<Value>, i: nat, progress: Progress, st: State)
    requires stage.Loop? && i < |items| && Continues(stage, ItemRun(stage, at, items, i, st).0)
    ensures var st3 := ClosedAfter(stage, at, items, i, st);
      && RunItems(stage, at, items, i, None, progress, Unstopped(st)) ==
         RunItems(stage, at, items, i + 1, None, ProgressAfter(stage, at, items, i, progress, st), Unstopped(st3))
      && Quiet(st, st3, Scratch(stage), false)
      && Step(st, st3, at, Some(at))
  {
    var st1 := st.(slots := PrepareItem(stage, items[i], false, st.slots));
    var (end, used, st2) := ItemRun(stage, at, items, i, st);
    var record := RecordOf(stage, st2.slots, items[i], i + 1, |items|, end, used);
    AttemptsUnstopped(stage, at, i + 1, |items|, 0, None, st1);
    ItemsUnfold(stage, at, items, i, progress, Unstopped(st));
    PrepareChanges(stage, items[i], false, st.slots);
    QuietRefl(st, st1, Scratch(stage));
    AttemptsQuiet(stage, at, i + 1, |items|, 0, st1);
    QuietTrans(st, st1, st2, Scratch(stage), false, false);
    QuietClose(st, st2, at, record, Scratch(stage));
    StepRefl(st, st1, at, Some(at));
    AttemptsSteps(stage, at, i + 1, |items|, 0, None, st1);
    StepWiden(st1, st2, at + [Item(i + 1)], at, Some(at), Some(at));
    StepTrans(st, st1, st2, at, Some(at));
    ClosedItem(st2, at, record);
    StepTrans(st, st2, CloseItem(st2, at, record), at, Some(at));
  }
}
