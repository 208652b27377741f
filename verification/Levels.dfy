// The way to a stage that a run dispatched, one loop level at a time: the item, the attempt and the
// inner stage it leads through, and what the finished run leaves of them on disk.
module Levels {
  import opened Options
  import opened Addresses
  import opened WorkflowModel
  import opened Engine
  import opened EngineSteps
  import opened EngineRuns
  import opened Scoping
  import opened Reconstruction
  import opened FreshRuns
  import opened ReplayProof
  import opened CutProof
  import opened ReconstructionProof
  import opened ResumeProof
  import opened AttemptRecords
  import opened Reaching
  import opened Entries
  import opened Listings

  // ---------- the other items of a loop ----------

  lemma ItemSpares(stage: StageDef, at: Address, items: seq<Value>, i: nat, st: State, n: nat)
    requires stage.Loop? && i < |items| && n != i + 1
    ensures SameUnder(st.tree.disk, ItemRun(stage, at, items, i, st).2.tree.disk, at + [Item(n)])
    ensures SameUnder(st.tree.disk, ClosedAfter(stage, at, items, i, st).tree.disk, at + [Item(n)])
  {
    hide RunAttempts, RecordOf;
    var here := at + [Item(i + 1)];
    AttemptsSteps(stage, at, i + 1, |items|, 0, None, Prepared(stage, items, i, st));
    var (end, used, b) := ItemRun(stage, at, items, i, st);
    StepOutside(Prepared(stage, items, i, st), b, here, Some(at));
    RecordNumber(stage, b.slots, items[i], i + 1, |items|, end, used);
    forall a: Address | at + [Item(n)] <= a
      ensures SameAt(st.tree.disk, b.tree.disk, a)
      ensures SameAt(st.tree.disk, ClosedAfter(stage, at, items, i, st).tree.disk, a)
    {
      assert a[|at|] == (at + [Item(n)])[|at|] != here[|at|];
      assert SameAt(st.tree.disk, b.tree.disk, a);
    }
  }

  // Items after the first i leave the directories of those before alone.
  lemma {:induction false} ItemsSpare(stage: StageDef, at: Address, items: seq<Value>, i: nat, progress: Progress,
                                      st: State, n: nat)
    requires stage.Loop? && i <= |items| && n <= i
    ensures SameUnder(st.tree.disk, RunItems(stage, at, items, i, None, progress, st).1.tree.disk, at + [Item(n)])
    decreases |items| - i
  {
    hide RunAttempts, ItemRun, ClosedAfter, ProgressAfter;
    if i < |items| {
      ItemsUnfold(stage, at, items, i, progress, st);
      hide RunItems;
      ItemSpares(stage, at, items, i, st, n);
      if Continues(stage, ItemRun(stage, at, items, i, st).0) {
        var next, p := ClosedAfter(stage, at, items, i, st), ProgressAfter(stage, at, items, i, progress, st);
        ItemsSpare(stage, at, items, i + 1, p, next, n);
        SameUnderTrans(st.tree.disk, next.tree.disk, RunItems(stage, at, items, i + 1, None, p, next).1.tree.disk,
                       at + [Item(n)]);
      }
    }
  }

  // The item a reached address lies in, and the state before it.
  lemma {:induction false} ItemsAt(stage: StageDef, at: Address, items: seq<Value>, i: nat, progress: Progress,
                                   st: State, rest: Address)
    returns (m: nat, p: Progress, s: State)
    requires stage.Loop? && i <= |items| && rest != [] && ItemReached(stage, at, items, i, st, rest).Some?
    requires Named(stage) && SequencesOk(st.tree) && Sorted(st.tree.disk, at, stage)
    ensures i <= m < |items| && rest[0] == Item(m + 1)
    ensures RunItems(stage, at, items, i, None, progress, st) == RunItems(stage, at, items, m, None, p, s)
    ensures ItemReached(stage, at, items, i, st, rest) == ItemReached(stage, at, items, m, s, rest)
    ensures ChangesOnly(st.slots, s.slots, Scratch(stage)) && SequencesOk(s.tree) && Sorted(s.tree.disk, at, stage)
    ensures SameUnder(st.tree.disk, s.tree.disk, at + [Item(m + 1)])
    decreases |items| - i
  {
    hide RunAttempts, ItemRun, ClosedAfter, ProgressAfter, Scratch, LastPass, PassReached, StageReached, Quiet, Step,
      Sorted, Named, SequencesOk;
    if rest[0] == Item(i + 1) {
      m, p, s := i, progress, st;
      ChangesSelf(st.slots, Scratch(stage));
    } else {
      ItemsUnfold(stage, at, items, i, progress, st);
      hide RunItems;
      var st3, p3 := ClosedAfter(stage, at, items, i, st), ProgressAfter(stage, at, items, i, progress, st);
      ItemPassed(stage, at, items, i, progress, st);
      OneItemSorted(stage, at, items, i, st);
      StepSequences(st, st3, at, Some(at));
      m, p, s := ItemsAt(stage, at, items, i + 1, p3, st3, rest);
      ItemSpares(stage, at, items, i, st, m + 1);
      SameUnderTrans(st.tree.disk, st3.tree.disk, s.tree.disk, at + [Item(m + 1)]);
      QuietChanges(st, st3, Scratch(stage), false);
      ChangesTrans(st.slots, st3.slots, s.slots, Scratch(stage));
    }
  }

  // The item result an item leaves: its own, unless it was aborted; then what was there before.
  function ItemLeft(stage: StageDef, at: Address, items: seq<Value>, m: nat, s: State): Option<ItemRecord>
    requires stage.Loop? && m < |items|
  {
    var (end, used, b) := ItemRun(stage, at, items, m, s);
    if end.ItemAborted? || end.ItemRaised? then NodeAt(s.tree.disk, at + [Item(m + 1)]).item
    else Some(RecordOf(stage, b.slots, items[m], m + 1, |items|, end, used))
  }

  // What the rest of a loop leaves of the item it has just run.
  lemma ItemKept(stage: StageDef, at: Address, items: seq<Value>, m: nat, p: Progress, s: State)
    requires stage.Loop? && m < |items|
    ensures var b := ItemRun(stage, at, items, m, s).2;
      var final := RunItems(stage, at, items, m, None, p, s).1;
      && (forall x: Segment :: SameUnder(b.tree.disk, final.tree.disk, at + [Item(m + 1)] + [x]))
      && (forall c: Address :: at + [Item(m + 1)] <= c ==> Unentered(b.trace, final.trace, c))
      && NodeAt(final.tree.disk, at + [Item(m + 1)]).item == ItemLeft(stage, at, items, m, s)
      && (ItemRun(stage, at, items, m, s).0.ItemAborted? ==> RunItems(stage, at, items, m, None, p, s).0.Aborted?)
  {
    hide RunAttempts, Step, ItemRun, ClosedAfter, ProgressAfter, RecordOf, Unentered;
    var dir := at + [Item(m + 1)];
    var (end, used, b) := ItemRun(stage, at, items, m, s);
    ItemsUnfold(stage, at, items, m, p, s);
    ItemNodeKept(stage, at, items, m, s);
    var closed := ClosedAfter(stage, at, items, m, s);
    var final := RunItems(stage, at, items, m, None, p, s).1;
    hide RunItems;
    ClosedKept(stage, at, items, m, s);
    forall c: Address
      ensures Unentered(b.trace, b.trace, c) && Unentered(b.trace, closed.trace, c)
    {
      UnenteredSelf(b.trace, c);
      ClosedUnentered(stage, at, items, m, s, c);
    }
    if Continues(stage, end) {
      var p1 := ProgressAfter(stage, at, items, m, p, s);
      forall c: Address | dir <= c
        ensures Unentered(b.trace, final.trace, c)
      {
        assert c[|at|] == dir[|at|];
        ItemsUnentered(stage, at, items, m + 1, p1, closed, c);
        UnenteredTrans(b.trace, closed.trace, final.trace, c);
      }
      ItemsSpare(stage, at, items, m + 1, p1, closed, m + 1);
      assert SameAt(closed.tree.disk, final.tree.disk, dir);
      forall x: Segment
        ensures SameUnder(b.tree.disk, final.tree.disk, dir + [x])
      {
        NarrowZone(closed.tree.disk, final.tree.disk, dir, dir + [x]);
        SameUnderTrans(b.tree.disk, closed.tree.disk, final.tree.disk, dir + [x]);
      }
    }
  }

  lemma ClosedKept(stage: StageDef, at: Address, items: seq<Value>, m: nat, s: State)
    requires stage.Loop? && m < |items|
    ensures var (end, used, b) := ItemRun(stage, at, items, m, s);
      var closed := ClosedAfter(stage, at, items, m, s);
      && (forall x: Segment :: SameUnder(b.tree.disk, closed.tree.disk, at + [Item(m + 1)] + [x]))
      && NodeAt(closed.tree.disk, at + [Item(m + 1)]).item ==
           Some(RecordOf(stage, b.slots, items[m], m + 1, |items|, end, used))
  {
    hide RunAttempts;
  }

  // Attempts write below the item's directory, not to its own files.
  lemma ItemNodeKept(stage: StageDef, at: Address, items: seq<Value>, m: nat, s: State)
    requires stage.Loop? && m < |items|
    ensures SameAt(s.tree.disk, ItemRun(stage, at, items, m, s).2.tree.disk, at + [Item(m + 1)])
  {
    hide RunAttempts, PrepareItem;
    AttemptsKeepNode(stage, at, m + 1, |items|, 0, Prepared(stage, items, m, s));
  }

  lemma {:induction false} AttemptsKeepNode(stage: StageDef, at: Address, number: nat, total: nat, attempt: nat,
                                            st: State)
    requires stage.Loop? && attempt <= stage.maxRetries + 1
    ensures SameAt(st.tree.disk, RunAttempts(stage, at, number, total, attempt, None, st).2.tree.disk,
                   at + [Item(number)])
    decreases stage.maxRetries + 1 - attempt
  {
    hide RunInner, ApplyRetry;
    if attempt < stage.maxRetries + 1 {
      var (flow, st2) := AfterPassing(stage, at, number, total, attempt, st);
      InnerKeepsNode(stage, 0, at + [Item(number)], ContextOf(stage, number, total, attempt),
                     Retried(stage, attempt, st));
      AttemptsUnfold(stage, at, number, total, attempt, st);
      if TriesAgain(stage, flow, st2) { AttemptsKeepNode(stage, at, number, total, attempt + 1, st2); }
    }
  }

  lemma {:induction false} InnerKeepsNode(stage: StageDef, k: nat, dir: Address, context: LoopContext, st: State)
    requires stage.Loop? && k <= |stage.inner|
    ensures SameAt(st.tree.disk, RunInner(stage, k, dir, context, None, st).1.tree.disk, dir)
    decreases |stage.inner| - k
  {
    hide Dispatch, Step;
    if k < |stage.inner| {
      var (flow, st1) := Dispatch(stage.inner[k], dir, Some(context), None, st);
      DispatchSteps(stage.inner[k], dir, Some(context), None, st);
      StepOutside(st, st1, dir + [Stage(stage.inner[k].name)], None);
      assert SameAt(st.tree.disk, st1.tree.disk, dir);
      if flow.Next? { InnerKeepsNode(stage, k + 1, dir, context, st1); }
    }
  }

  // What a dispatched loop leaves below its directory is what its items left.
  lemma LoopBelow(stage: StageDef, base: Address, context: Option<LoopContext>, st: State, items: seq<Value>)
    requires stage.Loop? && Gate(stage, st.slots).Holds? && LoopItems(stage, st.slots) == Some(items)
    ensures var at := base + [Stage(stage.name)];
      var final := RunItems(stage, at, items, 0, None, Progress([], 0, 0), Entered(stage, base, context, st)).1;
      var done := Dispatch(stage, base, context, None, st).1;
      && OnlyAt(final.tree.disk, done.tree.disk, at)
      && (forall c: Address :: Unentered(final.trace, done.trace, c))
      && Dispatch(stage, base, context, None, st).0 ==
         RunItems(stage, at, items, 0, None, Progress([], 0, 0), Entered(stage, base, context, st)).0
  {
    hide RunByType, RunItems, PathOf, Gate, LoopItems, Entered;
    var at := base + [Stage(stage.name)];
    var count := Count(st.counters, PathOf(at)) + 1;
    var st2 := Entered(stage, base, context, st);
    EnteredSlots(stage, base, context, st);
    DispatchUnfold(stage, base, context, None, st);
    LoopUnfold(stage, at, count, None, st2);
    var (flow, st3) := RunByType(stage, at, count, None, st2);
    ExitFacts(st3.tree, at, count, context, StatusOf(flow), ResultOf(flow));
  }

  lemma ThroughOwn(d: Disk, d1: Disk, d2: Disk, d3: Disk, at: Address, zone: Address)
    requires SameUnder(d, d1, zone) && OnlyAt(d1, d2, at) && SameUnder(d2, d3, at) && at <= zone && at != zone
    ensures SameUnder(d, d3, zone)
  {
    forall a: Address | zone <= a
      ensures SameAt(d, d3, a)
    {
      PrefixTrans(at, zone, a);
      assert SameAt(d, d1, a) && SameAt(d1, d2, a) && SameAt(d2, d3, a);
    }
  }

  lemma OwnThen(d: Disk, d1: Disk, d2: Disk, at: Address, zone: Address)
    requires OnlyAt(d, d1, at) && SameUnder(d1, d2, zone) && at <= zone && at != zone
    ensures SameUnder(d, d2, zone)
  {
    forall a: Address | zone <= a
      ensures SameAt(d, d2, a)
    {
      PrefixTrans(at, zone, a);
      assert a != at;
      assert SameAt(d, d1, a) && SameAt(d1, d2, a);
    }
  }

  // ---------- one level of the way to an address ----------

  // The loop enters an item and one of its inner stages.
  predicate Entering(stage: StageDef, rest: Address)
  {
    && stage.Loop? && |rest| > 1 && rest[0].Item? && rest[1].Stage?
         && IndexOf(stage.inner, rest[1].name) < |stage.inner|
  }

  // The item, the attempt and the inner stage a reached address lies in: the state s before the item,
  // the state s1 its last attempt for that stage starts in, and the state t that attempt announces
  // the stage in.
  ghost predicate Level(stage: StageDef, base: Address, context: Option<LoopContext>, st: State, disk: Disk,
                        rest: Address,
                        items: seq<Value>, m: nat, s: State, pass: LoopContext, s1: State, t: State, j: nat)
    requires stage.Loop?
  {
    var at := base + [Stage(stage.name)];
    var dir := at + [Item(m + 1)];
    && m < |items| && |rest| > 1 && rest[0] == Item(m + 1) && j < |stage.inner| && rest[1] == Stage(stage.inner[j].name)
    && LastPass(stage, at, m + 1, |items|, 0, Prepared(stage, items, m, s), j) == Some((pass, s1))
    && PassReached(stage, 0, dir, pass, s1, j) == Some(t)
    && ChangesOnly(st.slots, s.slots, Scratch(stage)) && SequencesOk(s.tree) && Sorted(s.tree.disk, at, stage)
    && StageReached(stage, base, context, st, rest) == StageReached(stage.inner[j], dir, Some(pass), t, rest[2..])
    && SameUnder(st.tree.disk, s.tree.disk, dir) && NodeAt(disk, dir).item == ItemLeft(stage, at, items, m, s)
    && (ItemRun(stage, at, items, m, s).0.ItemAborted? ==> Dispatch(stage, base, context, None, st).0.Aborted?)
    && var b := ItemRun(stage, at, items, m, s).2;
       && (forall x: Segment :: SameUnder(b.tree.disk, disk, dir + [x]))
       && (forall c: Address :: dir <= c ==> Unentered(b.trace, Dispatch(stage, base, context, None, st).1.trace, c))
  }

  lemma ReachedLevel(stage: StageDef, base: Address, context: Option<LoopContext>, st: State, disk: Disk, rest: Address)
    returns (items: seq<Value>, m: nat, s: State, pass: LoopContext, s1: State, t: State, j: nat)
    requires rest != [] && StageReached(stage, base, context, st, rest).Some?
    requires Named(stage) && SequencesOk(st.tree) && Sorted(st.tree.disk, base + [Stage(stage.name)], stage)
    requires SameUnder(Dispatch(stage, base, context, None, st).1.tree.disk, disk, base + [Stage(stage.name)])
    ensures Entering(stage, rest) && Gate(stage, st.slots).Holds?
    ensures Level(stage, base, context, st, disk, rest, items, m, s, pass, s1, t, j)
  {
    hide Dispatch, RunItems, LastPass, PassReached, SequencesOk, Sorted, Scratch, Gate, LoopItems, ItemRun, Entered,
      Named, ItemLeft, Unentered;
    var at := base + [Stage(stage.name)];
    items := LoopItems(stage, st.slots).value;
    var st2 := Entered(stage, base, context, st);
    EnteredSlots(stage, base, context, st);
    EnteredDisk(stage, base, context, st);
    EnterSequences(stage, base, context, st);
    OwnBeneath(st.tree.disk, st2.tree.disk, at);
    SortedLocal(st.tree.disk, st2.tree.disk, at, stage);
    LoopBelow(stage, base, context, st, items);
    var final := RunItems(stage, at, items, 0, None, Progress([], 0, 0), st2).1;
    var p: Progress;
    m, p, s := ItemsAt(stage, at, items, 0, Progress([], 0, 0), st2, rest);
    ItemKept(stage, at, items, m, p, s);
    var b := ItemRun(stage, at, items, m, s).2;
    var dir := at + [Item(m + 1)];
    var done := Dispatch(stage, base, context, None, st).1;
    assert SameAt(final.tree.disk, done.tree.disk, dir) && SameAt(done.tree.disk, disk, dir);
    OwnThen(st.tree.disk, st2.tree.disk, s.tree.disk, at, dir);
    forall c: Address | dir <= c
      ensures Unentered(b.trace, done.trace, c)
    {
      UnenteredTrans(b.trace, final.trace, done.trace, c);
    }
    forall x: Segment
      ensures SameUnder(b.tree.disk, disk, dir + [x])
    {
      ThroughOwn(b.tree.disk, final.tree.disk, Dispatch(stage, base, context, None, st).1.tree.disk, disk, at,
                 dir + [x]);
    }
    j := IndexOf(stage.inner, rest[1].name);
    pass, s1 := LastPass(stage, at, m + 1, |items|, 0, Prepared(stage, items, m, s), j).value.0,
      LastPass(stage, at, m + 1, |items|, 0, Prepared(stage, items, m, s), j).value.1;
    t := PassReached(stage, 0, dir, pass, s1, j).value;
  }

  // The state the level's attempt starts in, and the one it announces the stage in.
  lemma LevelStart(stage: StageDef, base: Address, context: Option<LoopContext>, st: State, disk: Disk, rest: Address,
                   items: seq<Value>, m: nat, s: State, pass: LoopContext, s1: State, t: State, j: nat)
    requires stage.Loop? && Level(stage, base, context, st, disk, rest, items, m, s, pass, s1, t, j)
    requires Named(stage)
    ensures var entry := Prepared(stage, items, m, s);
      && Distinct(stage.inner) && Named(stage.inner[j]) && pass.attempt > 0
      && SequencesOk(s1.tree) && SequencesOk(t.tree)
      && ChangesOnly(entry.slots, s1.slots, InnerWrites(stage) + RetryNames(stage))
      && (pass.attempt == 1 ==> s1 == entry)
      && ChangesOnly(s1.slots, t.slots, InnerWrites(stage)) && !Gate(stage.inner[j], t.slots).Broken?
  {
    hide Dispatch, LastPass, PassReached, SequencesOk, Sorted, Scratch, Gate, ItemRun, StageReached, InnerWrites,
      RetryNames, Superseded, RunAttempts, PathOf;
    var at := base + [Stage(stage.name)];
    LastPassFacts(stage, at, m + 1, |items|, 0, Prepared(stage, items, m, s), j);
    PassReaches(stage, 0, at + [Item(m + 1)], pass, s1, j);
  }

  // What the final tree holds of the stage the level leads to.
  lemma LevelStage(stage: StageDef, base: Address, context: Option<LoopContext>, st: State, disk: Disk, rest: Address,
                   items: seq<Value>, m: nat, s: State, pass: LoopContext, s1: State, t: State, j: nat)
    requires stage.Loop? && Level(stage, base, context, st, disk, rest, items, m, s, pass, s1, t, j)
    requires Named(stage)
    ensures var dir := base + [Stage(stage.name)] + [Item(m + 1)];
      var zone := dir + [Stage(stage.inner[j].name)];
      var t1 := Dispatch(stage.inner[j], dir, Some(pass), None, t).1;
      && SameUnder(t1.tree.disk, disk, zone)
      && (forall c: Address :: zone <= c ==> Unentered(t1.trace, Dispatch(stage, base, context, None, st).1.trace, c))
      && zone in disk && NodeAt(disk, zone).meta.Some? && NodeAt(disk, zone).meta.value.attemptCount == pass.attempt
      && base + [Stage(stage.name)] + rest == zone + rest[2..]
  {
    hide Dispatch, LastPass, PassReached, SequencesOk, Sorted, Scratch, Gate, ItemRun, StageReached, InnerWrites,
      RetryNames, Superseded, RunAttempts, PathOf, Unentered;
    var at := base + [Stage(stage.name)];
    var dir := at + [Item(m + 1)];
    var zone := dir + [Stage(stage.inner[j].name)];
    PreparedRun(stage, at, items, m, s);
    var b := ItemRun(stage, at, items, m, s).2;
    LastPassFacts(stage, at, m + 1, |items|, 0, Prepared(stage, items, m, s), j);
    PassReaches(stage, 0, dir, pass, s1, j);
    var t1 := Dispatch(stage.inner[j], dir, Some(pass), None, t).1;
    assert SameUnder(b.tree.disk, disk, zone);
    SameUnderTrans(t1.tree.disk, b.tree.disk, disk, zone);
    DispatchFiles(stage.inner[j], dir, Some(pass), t);
    assert SameAt(t1.tree.disk, disk, zone);
    assert at + rest == zone + rest[2..];
    forall c: Address | zone <= c
      ensures Unentered(t1.trace, Dispatch(stage, base, context, None, st).1.trace, c)
    {
      PrefixTrans(dir, zone, c);
      LastPassUnentered(stage, at, m + 1, |items|, 0, Prepared(stage, items, m, s), j, c);
      UnenteredTrans(t1.trace, b.trace, Dispatch(stage, base, context, None, st).1.trace, c);
    }
  }

  // What the final tree holds of an earlier stage of the item.
  lemma LevelEarlier(stage: StageDef, base: Address, context: Option<LoopContext>, st: State, disk: Disk, rest: Address,
                     items: seq<Value>, m: nat, s: State, pass: LoopContext, s1: State, t: State, j: nat, i: nat)
    requires stage.Loop? && Level(stage, base, context, st, disk, rest, items, m, s, pass, s1, t, j)
    requires Named(stage) && i < j
    ensures var dir := base + [Stage(stage.name)] + [Item(m + 1)];
      Superseded(t.tree.disk, disk, dir + [Stage(stage.inner[i].name)], pass.attempt)
  {
    hide Dispatch, LastPass, PassReached, SequencesOk, Sorted, Scratch, Gate, ItemRun, StageReached, InnerWrites,
      RetryNames, Superseded, RunAttempts, PathOf;
    var at := base + [Stage(stage.name)];
    var zone := at + [Item(m + 1)] + [Stage(stage.inner[i].name)];
    PreparedRun(stage, at, items, m, s);
    var b := ItemRun(stage, at, items, m, s).2;
    LastPassFacts(stage, at, m + 1, |items|, 0, Prepared(stage, items, m, s), j);
    assert SameUnder(b.tree.disk, disk, zone);
    SupersededSame(b.tree.disk, disk, zone, pass.attempt);
    SupersededTrans(t.tree.disk, b.tree.disk, disk, zone, pass.attempt, pass.attempt);
  }

  // The level's directory is listed in the order of its stages, and so are those below it.
  lemma LevelListed(stage: StageDef, base: Address, context: Option<LoopContext>, st: State, disk: Disk, rest: Address,
                    items: seq<Value>, m: nat, s: State, pass: LoopContext, s1: State, t: State, j: nat)
    requires stage.Loop? && Level(stage, base, context, st, disk, rest, items, m, s, pass, s1, t, j)
    requires Named(stage)
    ensures var dir := base + [Stage(stage.name)] + [Item(m + 1)];
      && Sorted(t.tree.disk, dir + [Stage(stage.inner[j].name)], stage.inner[j])
      && NamesOf(stage.inner[..j]) + [stage.inner[j].name] <= Children(disk, dir)
  {
    hide Dispatch, LastPass, PassReached, SequencesOk, Sorted, SortedIn, Scratch, Gate, ItemRun, StageReached,
      InnerWrites, RetryNames, Superseded, RunAttempts, PathOf, Children;
    var at := base + [Stage(stage.name)];
    var dir := at + [Item(m + 1)];
    var zone := dir + [Stage(stage.inner[j].name)];
    var entry := Prepared(stage, items, m, s);
    PreparedRun(stage, at, items, m, s);
    LevelStage(stage, base, context, st, disk, rest, items, m, s, pass, s1, t, j);
    SortedItem(s.tree.disk, at, stage, m + 1);
    LastPassSorted(stage, at, m + 1, |items|, 0, entry, j);
    PassSpares(stage, 0, dir, pass, s1, j);
    SortedStage(s1.tree.disk, dir, stage, j);
    UnderBeneath(s1.tree.disk, t.tree.disk, zone);
    SortedLocal(s1.tree.disk, t.tree.disk, zone, stage.inner[j]);
    AttemptsSorted(stage, at, m + 1, |items|, 0, entry);
    ListedUpTo(ItemRun(stage, at, items, m, s).2.tree.disk, disk, dir, stage, j);
  }

  lemma PreparedRun(stage: StageDef, at: Address, items: seq<Value>, m: nat, s: State)
    requires stage.Loop? && m < |items|
    ensures ItemRun(stage, at, items, m, s) ==
        RunAttempts(stage, at, m + 1, |items|, 0, None, Prepared(stage, items, m, s))
    ensures Prepared(stage, items, m, s) == s.(slots := PrepareItem(stage, items[m], false, s.slots))
  {
  }

  lemma SortedStage(disk: Disk, dir: Address, stage: StageDef, j: nat)
    requires stage.Loop? && SortedIn(disk, dir, stage) && j < |stage.inner|
    ensures Sorted(disk, dir + [Stage(stage.inner[j].name)], stage.inner[j])
  {
    hide Listed;
  }

  // The stages listed up to a recorded one are those before it in the list.
  lemma ListedUpTo(d: Disk, disk: Disk, dir: Address, stage: StageDef, j: nat)
    requires stage.Loop? && Distinct(stage.inner) && SortedIn(d, dir, stage) && j < |stage.inner|
    requires forall x: Segment :: SameUnder(d, disk, dir + [x])
    requires NodeAt(disk, dir + [Stage(stage.inner[j].name)]).meta.Some?
    ensures NamesOf(stage.inner[..j]) + [stage.inner[j].name] <= Children(disk, dir)
  {
    hide Children, Sorted;
    forall n: Name
      ensures SameAt(d, disk, dir + [Stage(n)])
    {
      assert SameUnder(d, disk, dir + [Stage(n)]);
    }
    ChildrenLocal(d, disk, dir);
    var count := SomeListed(d, dir, stage);
    assert SameAt(d, disk, dir + [Stage(stage.inner[j].name)]);
    ListedHas(d, dir, stage.inner, count, j);
    NamesOfNext(stage.inner, j);
    var all, some := NamesOf(stage.inner[..count]), NamesOf(stage.inner[..j + 1]);
    assert some == all[..j + 1];
  }

  lemma {:induction false} LastPassSorted(stage: StageDef, at: Address, number: nat, total: nat, attempt: nat,
                                          st: State,
                                          j: nat)
    requires stage.Loop? && attempt <= stage.maxRetries + 1 && j < |stage.inner| && Named(stage) && SequencesOk(st.tree)
    requires SortedIn(st.tree.disk, at + [Item(number)], stage)
    requires LastPass(stage, at, number, total, attempt, st, j).Some?
    ensures SortedIn(LastPass(stage, at, number, total, attempt, st, j).value.1.tree.disk, at + [Item(number)], stage)
    decreases stage.maxRetries + 1 - attempt
  {
    hide SortedIn, RunInner, PassReached, SequencesOk, Step, Named, ApplyRetry;
    var dir, context := at + [Item(number)], ContextOf(stage, number, total, attempt);
    var st1 := Retried(stage, attempt, st);
    var (flow, st2) := AfterPassing(stage, at, number, total, attempt, st);
    if TriesAgain(stage, flow, st2) && LastPass(stage, at, number, total, attempt + 1, st2, j).Some? {
      var count := SomeListed(st1.tree.disk, dir, stage);
      InnerSorted(stage, 0, dir, context, st1, count);
      InnerSteps(stage, 0, at, number, context, None, st1);
      StepSequences(st1, st2, dir, Some(at));
      LastPassSorted(stage, at, number, total, attempt + 1, st2, j);
    }
  }

  // The walk up to a listed stage replays what is listed before it, then goes into that stage.
  lemma WalkToListed(disk: Disk, dir: Address, stages: seq<StageDef>, done: seq<Name>, k: nat, rest: Address,
                     slots: Slots)
    requires Distinct(stages) && k < |stages| && stages[k].name !in done
    requires done + [stages[k].name] <= Children(disk, dir)
    ensures WalkStages(disk, dir, stages, [Stage(stages[k].name)] + rest, slots) ==
      WalkInto(disk, dir + [Stage(stages[k].name)], stages[k], rest, ReplayAll(disk, dir, stages, done, slots))
  {
    hide Children, ReplayAll;
    var cursor := [Stage(stages[k].name)] + rest;
    var listing := Children(disk, dir);
    assert listing == done + listing[|done|..];
    WalkPrefix(disk, dir, stages, done, listing[|done|..], cursor, slots);
    assert listing[|done|..][0] == stages[k].name;
    DistinctIndex(stages, k);
    assert cursor[1..] == rest;
  }
}
