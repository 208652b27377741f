// Loop accounting: what a completed list loop has reported, item by item, on any run.
module LoopAccounting {
  import opened Options
  import opened Addresses
  import opened WorkflowModel
  import opened Engine
  import opened EngineSteps
  import opened EngineRuns
  import opened Reconstruction
  import opened FreshRuns
  import opened ReplayProof
  import opened CutProof
  import opened ResumeProof
  import opened Filing

  // The item exits a loop has emitted, in order; those of nested loops have other addresses.
  function ExitsOf(trace: seq<Event>, at: Address): seq<ItemRecord>
  {
    if trace == [] then []
    else
      var last := trace[|trace| - 1];
      var earlier := ExitsOf(trace[..|trace| - 1], at);
      if last.ItemExit? && last.at == at then earlier + [last.record] else earlier
  }

  lemma {:induction false} ExitsElsewhere(t: seq<Event>, t': seq<Event>, at: Address, zone: Address)
    requires t <= t' && EventsWithin(t, t', zone) && !(zone <= at)
    ensures ExitsOf(t', at) == ExitsOf(t, at)
    decreases |t'|
  {
    if |t'| > |t| {
      var n := |t'| - 1;
      assert zone <= t'[n].at;
      assert forall i | |t| <= i < n :: t'[..n][i] == t'[i];
      ExitsElsewhere(t, t'[..n], at, zone);
    } else {
      assert t == t';
    }
  }

  // The records are numbered as their directories are.
  ghost predicate NumberedRight(disk: Disk, at: Address)
  {
    forall n: nat :: NodeAt(disk, at + [Item(n)]).item.Some? ==> ItemClosedOnDisk(disk, at, n)
  }

  // Exits numbered i + 1 to n, in order.
  ghost predicate Numbered(records: seq<ItemRecord>, i: nat, n: nat)
  {
    i <= n && |records| == n - i && forall k | 0 <= k < |records| :: records[k].number == i + k + 1
  }

  lemma NumberedKept(d: Disk, s2: State, at: Address, i: nat, record: ItemRecord)
    requires NumberedRight(d, at) && SameOutside(d, s2.tree.disk, at + [Item(i + 1)]) && record.number == i + 1
    ensures NumberedRight(CloseItem(s2, at, record).tree.disk, at)
  {
    var d3 := CloseItem(s2, at, record).tree.disk;
    forall n: nat | NodeAt(d3, at + [Item(n)]).item.Some?
      ensures ItemClosedOnDisk(d3, at, n)
    {
      if n != i + 1 {
        OutsideItem(at, i + 1, n);
        assert SameAt(d, s2.tree.disk, at + [Item(n)]);
        assert ItemClosedOnDisk(d, at, n);
      }
    }
  }

  lemma ItemEmits(stage: StageDef, at: Address, number: nat, total: nat, inside: Option<Address>, st1: State,
                  record: ItemRecord)
    requires stage.Loop?
    ensures var st2 := RunAttempts(stage, at, number, total, 0, inside, st1).2;
      && SameOutside(st1.tree.disk, st2.tree.disk, at + [Item(number)])
      && ExitsOf(CloseItem(st2, at, record).trace, at) == ExitsOf(st1.trace, at) + [record]
  {
    var st2 := RunAttempts(stage, at, number, total, 0, inside, st1).2;
    AttemptsSteps(stage, at, number, total, 0, inside, st1);
    ExitsElsewhere(st1.trace, st2.trace, at, at + [Item(number)]);
    var t := CloseItem(st2, at, record).trace;
    assert t[..|t| - 1] == st2.trace;
  }

  function Results(records: seq<ItemRecord>): seq<Value>
  {
    if records == [] then [] else [records[0].result] + Results(records[1..])
  }

  function Successes(records: seq<ItemRecord>): (n: nat)
    ensures n <= |records|
  {
    if records == [] then 0 else (if records[0].success then 1 else 0) + Successes(records[1..])
  }

  // What a completed list loop has reported since the exits before, with the given progress made
  // by then: one item exit per item in input order, a tally of exactly their successes and
  // failures, and exactly their results as the aggregate.
  ghost predicate Accounted(stage: StageDef, flow: Flow, st': State, at: Address, before: seq<ItemRecord>, i: nat,
                            n: nat, progress: Progress)
    requires stage.Loop?
  {
    before <= ExitsOf(st'.trace, at) &&
    var exits := ExitsOf(st'.trace, at)[|before|..];
    && Numbered(exits, i, n)
    && flow == Next(Tally(n, progress.succeeded + Successes(exits), progress.failed + |exits| - Successes(exits)), None)
    && (stage.output.Some? ==>
         stage.output.value in st'.slots && st'.slots[stage.output.value] ==
             Aggregate(progress.entries + Results(exits)))
  }

  // Any run of a list loop that completes, resumed or not, is fully accounted for.
  lemma {:induction false} ItemsCounted(stage: StageDef, at: Address, items: seq<Value>, i: nat,
                                        cursor: Option<Address>, progress: Progress, st: State)
    requires stage.Loop? && stage.over.Some? && i <= |items| && NumberedRight(st.tree.disk, at)
    requires RunItems(stage, at, items, i, cursor, progress, st).0.Next?
    ensures var (flow, st') := RunItems(stage, at, items, i, cursor, progress, st);
      Accounted(stage, flow, st', at, ExitsOf(st.trace, at), i, |items|, progress)
    decreases |items| - i
  {
    hide RunAttempts, Accounted;
    if i == |items| {
      DoneAccounted(stage, at, items, progress, st);
    } else if Reused(stage, at, cursor, i + 1, st.tree.disk) {
      assert ItemClosedOnDisk(st.tree.disk, at, i + 1);
      var record := NodeAt(st.tree.disk, at + [Item(i + 1)]).item.value;
      var st1 := CloseItem(st, at, record);
      assert st1.tree.disk == st.tree.disk;
      assert st1.trace[..|st1.trace| - 1] == st.trace;
      var p1 := Tallied(progress, Some(record.result), record.success);
      ItemsCounted(stage, at, items, i + 1, cursor, p1, st1);
      AccountedBack(stage, RunItems(stage, at, items, i + 1, cursor, p1, st1).0,
                    RunItems(stage, at, items, i + 1, cursor, p1, st1).1,
                    at, ExitsOf(st.trace, at), record, i, |items|, progress);
    } else {
      LiveCounted(stage, at, items, i, cursor, progress, st);
    }
  }

  lemma {:induction false} LiveCounted(stage: StageDef, at: Address, items: seq<Value>, i: nat,
                                       cursor: Option<Address>, progress: Progress, st: State)
    requires stage.Loop? && stage.over.Some? && i < |items| && NumberedRight(st.tree.disk, at)
    requires RunItems(stage, at, items, i, cursor, progress, st).0.Next?
      && !Reused(stage, at, cursor, i + 1, st.tree.disk)
    ensures var (flow, st') := RunItems(stage, at, items, i, cursor, progress, st);
      Accounted(stage, flow, st', at, ExitsOf(st.trace, at), i, |items|, progress)
    decreases |items| - i, 0
  {
    hide RunAttempts, Accounted, Reused, PrepareItem;
    var inside := InnerCursor(cursor, i + 1);
    var st1 := st.(slots := PrepareItem(stage, items[i], inside.Some?, st.slots));
    var (end, used, st2) := RunAttempts(stage, at, i + 1, |items|, 0, inside, st1);
    LiveItem(stage, at, items, i, cursor, progress, st);
    hide RunItems, RecordOf, Collect, ExitsOf, NumberedRight;
    var record := RecordOf(stage, st2.slots, items[i], i + 1, |items|, end, used);
    RecordParts(stage, st2.slots, items[i], i + 1, |items|, end, used);
    ItemEmits(stage, at, i + 1, |items|, inside, st1, record);
    NumberedKept(st.tree.disk, st2, at, i, record);
    var st3 := CloseItem(st2, at, record);
    var p1 := Tallied(progress, Some(Collect(stage, st3.slots, items[i], end.ItemDone?)), end.ItemDone?);
    ItemsCounted(stage, at, items, i + 1, cursor, p1, st3);
    AccountedBack(stage, RunItems(stage, at, items, i + 1, cursor, p1, st3).0,
                  RunItems(stage, at, items, i + 1, cursor, p1, st3).1,
                  at, ExitsOf(st.trace, at), record, i, |items|, progress);
  }

  lemma RecordParts(stage: StageDef, slots: Slots, item: Value, number: nat, total: nat, end: ItemEnd, used: nat)
    requires stage.Loop? && stage.over.Some?
    ensures var record := RecordOf(stage, slots, item, number, total, end, used);
      record.number == number && record.success == end.ItemDone?
          && record.result == Collect(stage, slots, item, end.ItemDone?)
  {
  }

  lemma DoneAccounted(stage: StageDef, at: Address, items: seq<Value>, progress: Progress, st: State)
    requires stage.Loop? && stage.over.Some?
    ensures var slots := Write(st.slots, stage.output, Aggregate(progress.entries));
      Accounted(stage, Next(Tally(|items|, progress.succeeded, progress.failed), None), st.(slots := slots), at,
                ExitsOf(st.trace, at), |items|, |items|, progress)
  {
    assert ExitsOf(st.trace, at)[|ExitsOf(st.trace, at)|..] == [];
    assert progress.entries + [] == progress.entries;
  }

  lemma AccountedBack(stage: StageDef, flow: Flow, st': State, at: Address, before: seq<ItemRecord>,
                      record: ItemRecord, i: nat, n: nat, progress: Progress)
    requires stage.Loop? && i < n && record.number == i + 1
    requires Accounted(stage, flow, st', at, before + [record], i + 1, n,
                       Tallied(progress, Some(record.result), record.success))
    ensures Accounted(stage, flow, st', at, before, i, n, progress)
  {
    hide ExitsOf, Numbered, Results, Successes;
    var after := ExitsOf(st'.trace, at);
    ExitsExtend(before, record, after, i, n);
    var rest, more := after[|before|..], after[|before| + 1..];
    FirstExit(record, more);
    assert progress.entries + [record.result] + Results(more) == progress.entries + ([record.result] + Results(more));
  }

  lemma FirstExit(record: ItemRecord, more: seq<ItemRecord>)
    ensures Results([record] + more) == [record.result] + Results(more)
    ensures Successes([record] + more) == (if record.success then 1 else 0) + Successes(more)
  {
    assert ([record] + more)[1..] == more;
  }

  lemma ExitsExtend(before: seq<ItemRecord>, record: ItemRecord, after: seq<ItemRecord>, i: nat, n: nat)
    requires i < n && record.number == i + 1
    requires before + [record] <= after && Numbered(after[|before + [record]|..], i + 1, n)
    ensures before <= after && after[|before|..] == [record] + after[|before| + 1..]
      && Numbered(after[|before|..], i, n)
  {
    var rest, more := after[|before|..], after[|before| + 1..];
    assert after == before + [record] + more;
    assert rest == [record] + more;
  }

  // ---------- each live item ----------

  lemma {:induction false} AttemptsBounded(stage: StageDef, at: Address, number: nat, total: nat, attempt: nat,
                                           inside: Option<Address>, st: State)
    requires stage.Loop? && attempt <= stage.maxRetries + 1
    ensures var (end, used, st') := RunAttempts(stage, at, number, total, attempt, inside, st);
      attempt <= used <= stage.maxRetries + 1 && (end.ItemFailed? ==> used == stage.maxRetries + 1)
    decreases stage.maxRetries + 1 - attempt
  {
    hide RunInner;
    if attempt < stage.maxRetries + 1 {
      var context := LoopContext(number, total, attempt + 1, stage.maxRetries + 1);
      var st1 := if attempt > 0 then st.(slots := ApplyRetry(stage.onRetry, st.slots)) else st;
      var resumed := attempt == 0 && inside.Some? && inside.value != [];
      var start := if !resumed then 0 else if inside.value[0].Stage? then IndexOf(stage.inner,
          inside.value[0].name) else |stage.inner|;
      if !(resumed && start == |stage.inner|) {
        var (flow, st2) := RunInner(stage, start, at + [Item(number)], context,
                                    if resumed then Some(inside.value[1..]) else None, st1);
        AttemptsBounded(stage, at, number, total, attempt + 1, inside, st2);
      }
    }
  }

  lemma {:induction false} InnerResultKeys(inner: seq<StageDef>, slots: Slots)
    ensures forall n: Name :: n in InnerResults(inner, slots) ==>
        n in InnerNames(inner) && n in slots && InnerResults(inner, slots)[n] == slots[n]
  {
    if inner != [] {
      var k := |inner| - 1;
      InnerResultKeys(inner[..k], slots);
      assert inner[k].name in InnerNames(inner);
      forall n | n in InnerNames(inner[..k])
        ensures n in InnerNames(inner)
      {
        var i :| 0 <= i < k && inner[..k][i].name == n;
        assert inner[i].name == n;
      }
    }
  }

  // The record of a freshly run item: attempts within bounds, all of them used before giving up,
  // its own input, and no result left over from an earlier item - every reported slot was absent
  // when the item started.
  lemma ItemIsolated(stage: StageDef, at: Address, items: seq<Value>, i: nat, st: State)
    requires stage.Loop? && stage.over.Some? && i < |items|
    ensures var (end, used, st2) := ItemRun(stage, at, items, i, st);
      var record := RecordOf(stage, st2.slots, items[i], i + 1, |items|, end, used);
      && record.result.Entry? && record.result.input == items[i]
           && record.result.success == record.success == end.ItemDone?
      && used <= stage.maxRetries + 1 && (end.ItemFailed? ==> used == stage.maxRetries + 1)
      && forall n: Name :: n in record.result.result ==>
           && n !in PrepareItem(stage, items[i], false, st.slots)
           && n in st2.slots && record.result.result[n] == st2.slots[n]
  {
    var st1 := st.(slots := PrepareItem(stage, items[i], false, st.slots));
    var (end, used, st2) := ItemRun(stage, at, items, i, st);
    AttemptsBounded(stage, at, i + 1, |items|, 0, None, st1);
    hide RunAttempts;
    InnerResultKeys(stage.inner, st2.slots);
  }

  lemma ExitsUnchanged(trace: seq<Event>, e: Event, at: Address)
    requires !e.ItemExit?
    ensures ExitsOf(trace + [e], at) == ExitsOf(trace, at)
  {
    assert (trace + [e])[..|trace|] == trace;
  }

  lemma FiledNumbers(disk: Disk, at: Address)
    requires Filed(disk)
    ensures NumberedRight(disk, at)
  {
    forall n: nat | NodeAt(disk, at + [Item(n)]).item.Some?
      ensures ItemClosedOnDisk(disk, at, n)
    {
      assert FiledAt(disk, at + [Item(n)]);
    }
  }

  // Loop accounting, for every dispatch of a list loop that completes, fresh or resumed; what any
  // run has recorded so far is filed in its place.
  lemma LoopAccounted(stage: StageDef, base: Address, context: Option<LoopContext>, cursor: Option<Address>, st: State)
    requires stage.Loop? && stage.over.Some? && Filed(st.tree.disk)
    requires Gate(stage, st.slots).Holds? && Dispatch(stage, base, context, cursor, st).0.Next?
    ensures var (flow, st') := Dispatch(stage, base, context, cursor, st); var at := base + [Stage(stage.name)];
      && LoopItems(stage, st.slots).Some?
      && Accounted(stage, flow, st', at, ExitsOf(st.trace, at), 0, |LoopItems(stage, st.slots).value|,
                   Progress([], 0, 0))
  {
    hide RunByType, RunItems, Enter, Accounted, NumberedRight, Leave, ExitsOf, LoopItems, Dispatch, Entered, Gate,
      PathOf, Filed;
    var at := base + [Stage(stage.name)];
    FiledNumbers(st.tree.disk, at);
    var count := Count(st.counters, PathOf(at)) + 1;
    var st2 := Entered(stage, base, context, st);
    DispatchUnfold(stage, base, context, cursor, st);
    EnteredSlots(stage, base, context, st);
    if LoopItems(stage, st2.slots).None? || (cursor.Some? && cursor.value != [] && cursor.value[0].Stage?) {
      NoLoopItems(stage, at, count, cursor, st2);
    } else {
      LoopUnfold(stage, at, count, cursor, st2);
      LoopBody(stage, base, context, cursor, st, LoopItems(stage, st2.slots).value);
    }
  }

  lemma LoopBody(stage: StageDef, base: Address, context: Option<LoopContext>, cursor: Option<Address>, st: State,
                 items: seq<Value>)
    requires stage.Loop? && stage.over.Some? && NumberedRight(st.tree.disk, base + [Stage(stage.name)])
    requires var st2 := Entered(stage, base, context, st);
      RunItems(stage, base + [Stage(stage.name)], items, 0, cursor, Progress([], 0, 0), st2).0.Next?
    ensures var at := base + [Stage(stage.name)];
      var count := Count(st.counters, PathOf(at)) + 1;
      var (flow, st3) := RunItems(stage, at, items, 0, cursor, Progress([], 0, 0), Entered(stage, base, context, st));
      Accounted(stage, flow, Leave(st3, at, count, context, StatusOf(flow), ResultOf(flow)), at, ExitsOf(st.trace, at),
                0, |items|, Progress([], 0, 0))
  {
    hide RunItems, Enter, Accounted, NumberedRight, Leave, ExitsOf, Entered, PathOf;
    var at := base + [Stage(stage.name)];
    var count := Count(st.counters, PathOf(at)) + 1;
    var st2 := Entered(stage, base, context, st);
    NumberedEntered(stage, base, context, st);
    EnteredTrace(stage, base, context, st);
    ItemsCounted(stage, at, items, 0, cursor, Progress([], 0, 0), st2);
    var (flow, st3) := RunItems(stage, at, items, 0, cursor, Progress([], 0, 0), st2);
    AccountedAround(stage, flow, st, st2, st3, at, count, context, |items|);
  }

  lemma EnteredTrace(stage: StageDef, base: Address, context: Option<LoopContext>, st: State)
    ensures Entered(stage, base, context, st).trace ==
      st.trace + [StageEnter(base + [Stage(stage.name)], Count(st.counters, PathOf(base + [Stage(stage.name)])) + 1,
                             context)]
    ensures Entered(stage, base, context, st).slots == st.slots
  {
  }

  lemma AccountedAround(stage: StageDef, flow: Flow, st: State, st2: State, st3: State, at: Address, count: nat,
                        context: Option<LoopContext>, n: nat)
    requires stage.Loop? && st2.trace == st.trace + [StageEnter(at, count, context)]
    requires Accounted(stage, flow, st3, at, ExitsOf(st2.trace, at), 0, n, Progress([], 0, 0))
    ensures Accounted(stage, flow, Leave(st3, at, count, context, StatusOf(flow), ResultOf(flow)), at,
                      ExitsOf(st.trace, at), 0, n, Progress([], 0, 0))
  {
    hide OnStageExit;
    ExitsUnchanged(st.trace, StageEnter(at, count, context), at);
    ExitsUnchanged(st3.trace, StageExit(at, count, StatusOf(flow), ResultOf(flow)), at);
  }

  lemma NoLoopItems(stage: StageDef, at: Address, count: nat, cursor: Option<Address>, st: State)
    requires stage.Loop?
    requires LoopItems(stage, st.slots).None? || (cursor.Some? && cursor.value != [] && cursor.value[0].Stage?)
    ensures RunByType(stage, at, count, cursor, st).0 == Raised
  {
    assert RunByType(stage, at, count, cursor, st) == RunLoop(stage, at, cursor, st);
  }

  lemma NumberedEntered(stage: StageDef, base: Address, context: Option<LoopContext>, st: State)
    requires NumberedRight(st.tree.disk, base + [Stage(stage.name)])
    ensures NumberedRight(Entered(stage, base, context, st).tree.disk, base + [Stage(stage.name)])
  {
    var at := base + [Stage(stage.name)];
    var d2 := Entered(stage, base, context, st).tree.disk;
    forall n: nat | NodeAt(d2, at + [Item(n)]).item.Some?
      ensures ItemClosedOnDisk(d2, at, n)
    {
      assert at + [Item(n)] != at;
      assert NodeAt(d2, at + [Item(n)]) == NodeAt(st.tree.disk, at + [Item(n)]);
      assert ItemClosedOnDisk(st.tree.disk, at, n);
    }
  }
}
