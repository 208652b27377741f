// From what is recorded to what was run: a recorded stage whose loops were each run once was reached,
// and the item results on its way belong to the items it was reached in.
module RecordedStages {
  import opened Options
  import opened Addresses
  import opened WorkflowModel
  import opened Engine
  import opened EngineSteps
  import opened EngineRuns
  import opened Scoping
  import opened Reconstruction
  import opened FreshRuns
  import opened ReplayProof
  import opened CutProof
  import opened ReconstructionProof
  import opened ResumeProof
  import opened AttemptRecords
  import opened Reaching
  import opened Listings
  import opened Levels
  import opened ReachedReconstruction

  // Every loop inside an item on the way was announced in one attempt of the item only.
  ghost predicate Single(disk: Disk, at: Address, stage: StageDef, rest: Address)
    decreases stage
  {
    Entering(stage, rest) && |rest| > 2 ==>
      var zone := at + [rest[0]] + [rest[1]];
      && NodeAt(disk, zone).attempts.Keys == {LastAttempt(disk, zone)}
      && Single(disk, zone, stage.inner[IndexOf(stage.inner, rest[1].name)], rest[2..])
  }

  lemma SingleInner(disk: Disk, at: Address, stage: StageDef, rest: Address, j: nat)
    requires stage.Loop? && Distinct(stage.inner) && |rest| > 2 && rest[0].Item?
    requires j < |stage.inner| && rest[1] == Stage(stage.inner[j].name) && Single(disk, at, stage, rest)
    ensures var zone := at + [rest[0]] + [rest[1]];
      NodeAt(disk, zone).attempts.Keys == {LastAttempt(disk, zone)} && Single(disk, zone, stage.inner[j], rest[2..])
  {
    DistinctIndex(stage.inner, j);
  }

  // ---------- a directory that only one attempt has touched ----------

  lemma ClearKept(d: Disk, d': Disk, zone: Address)
    requires SameUnder(d, d', zone) && Clear(d, zone)
    ensures Clear(d', zone)
  {
    forall a: Address | zone <= a
      ensures a !in d'
    {
      assert SameAt(d, d', a);
    }
  }

  // An attempt that announces inner stage j leaves its attempt file, which stays.
  lemma FileStays(stage: StageDef, at: Address, number: nat, total: nat, attempt: nat, st: State, j: nat)
    requires stage.Loop? && attempt < stage.maxRetries + 1 && j < |stage.inner| && Distinct(stage.inner)
    requires PassReached(stage, 0, at + [Item(number)], ContextOf(stage, number, total, attempt),
                         Retried(stage, attempt, st), j).Some?
    ensures var zone := at + [Item(number)] + [Stage(stage.inner[j].name)];
      attempt + 1 in NodeAt(RunAttempts(stage, at, number, total, attempt, None, st).2.tree.disk, zone).attempts
  {
    hide RunInner, PassReached, Dispatch, Gate, PathOf, RunAttempts;
    var dir, context := at + [Item(number)], ContextOf(stage, number, total, attempt);
    var zone := dir + [Stage(stage.inner[j].name)];
    var st1 := Retried(stage, attempt, st);
    var t := PassReached(stage, 0, dir, context, st1, j).value;
    PassReaches(stage, 0, dir, context, st1, j);
    PassRest(stage, j, dir, context, t);
    DispatchFiles(stage.inner[j], dir, Some(context), t);
    var t1 := Dispatch(stage.inner[j], dir, Some(context), None, t).1;
    var (flow, st2) := AfterPassing(stage, at, number, total, attempt, st);
    assert SameAt(t1.tree.disk, st2.tree.disk, zone);
    AttemptsUnfold(stage, at, number, total, attempt, st);
    if TriesAgain(stage, flow, st2) { AttemptsSupersede(stage, at, number, total, attempt + 1, st2, j); }
  }

  lemma {:induction false} LastPassClear(stage: StageDef, at: Address, number: nat, total: nat, attempt: nat, st: State,
                                         j: nat)
    requires stage.Loop? && attempt <= stage.maxRetries + 1 && j < |stage.inner| && Distinct(stage.inner)
    requires LastPass(stage, at, number, total, attempt, st, j).Some?
    requires var zone := at + [Item(number)] + [Stage(stage.inner[j].name)];
      && Clear(st.tree.disk, zone)
      && NodeAt(RunAttempts(stage, at, number, total, attempt, None, st).2.tree.disk, zone).attempts.Keys ==
         {LastPass(stage, at, number, total, attempt, st, j).value.0.attempt}
    ensures Clear(LastPass(stage, at, number, total, attempt, st, j).value.1.tree.disk,
                  at + [Item(number)] + [Stage(stage.inner[j].name)])
    decreases stage.maxRetries + 1 - attempt
  {
    hide RunInner, PassReached, Clear, ApplyRetry, Superseded, SequencesOk, InnerWrites, ChangesOnly;
    var dir, context := at + [Item(number)], ContextOf(stage, number, total, attempt);
    var zone := dir + [Stage(stage.inner[j].name)];
    var st1 := Retried(stage, attempt, st);
    var (flow, st2) := AfterPassing(stage, at, number, total, attempt, st);
    AttemptsUnfold(stage, at, number, total, attempt, st);
    hide RunAttempts;
    if TriesAgain(stage, flow, st2) && LastPass(stage, at, number, total, attempt + 1, st2, j).Some? {
      LastPassFacts(stage, at, number, total, attempt + 1, st2, j);
      if PassReached(stage, 0, dir, context, st1, j).Some? {
        FileStays(stage, at, number, total, attempt, st, j);
        assert false;
      } else {
        PassMisses(stage, 0, dir, context, st1, j);
        ClearKept(st.tree.disk, st2.tree.disk, zone);
        LastPassClear(stage, at, number, total, attempt + 1, st2, j);
      }
    }
  }

  // ---------- a stage below whose directory something was recorded ----------

  lemma SkippedOnly(stage: StageDef, base: Address, context: Option<LoopContext>, st: State)
    requires Gate(stage, st.slots).Fails?
    ensures OnlyAt(st.tree.disk, Dispatch(stage, base, context, None, st).1.tree.disk, base + [Stage(stage.name)])
  {
    hide PathOf, Gate, Entered, OnlyAt, OnStageExit;
    var at := base + [Stage(stage.name)];
    var st2 := Entered(stage, base, context, st);
    var count := Count(st.counters, PathOf(at)) + 1;
    DispatchSkips(stage, base, context, None, st);
    hide Dispatch;
    EnteredDisk(stage, base, context, st);
    ExitFacts(st2.tree, at, count, context, Skipped, Null);
    OnlyAtTrans(st.tree.disk, st2.tree.disk, Leave(st2, at, count, context, Skipped, Null).tree.disk, at);
  }

  lemma NoItemsOnly(stage: StageDef, base: Address, context: Option<LoopContext>, st: State)
    requires Gate(stage, st.slots).Holds? && !stage.Nested?
    requires !stage.Loop? || LoopItems(stage, st.slots).None?
    ensures OnlyAt(st.tree.disk, Dispatch(stage, base, context, None, st).1.tree.disk, base + [Stage(stage.name)])
  {
    hide RunByType, PathOf, Gate, LoopItems, Entered;
    var at := base + [Stage(stage.name)];
    var st2 := Entered(stage, base, context, st);
    var count := Count(st.counters, PathOf(at)) + 1;
    DispatchUnfold(stage, base, context, None, st);
    EnteredDisk(stage, base, context, st);
    EnteredSlots(stage, base, context, st);
    if stage.Loop? { LoopNeedsItems(stage, at, count, st2); } else { AtomicBody(stage, at, count, st2); }
    hide Dispatch;
    var (flow, st3) := RunByType(stage, at, count, None, st2);
    ExitFacts(st3.tree, at, count, context, StatusOf(flow), ResultOf(flow));
    OnlyAtTrans(st.tree.disk, st2.tree.disk,
                Leave(st3, at, count, context, StatusOf(flow), ResultOf(flow)).tree.disk, at);
  }

  lemma NotOnlyAt(d: Disk, d': Disk, at: Address, rest: Address)
    requires Clear(d, at) && rest != [] && at + rest in d'
    ensures !OnlyAt(d, d', at)
  {
    if OnlyAt(d, d', at) {
      assert at + rest != at && at <= at + rest;
      assert SameAt(d, d', at + rest);
      NotInClear(d, at, at + rest);
    }
  }

  // It was a loop, and its items were run.
  lemma GateEntered(stage: StageDef, base: Address, context: Option<LoopContext>, st: State, rest: Address)
    requires Clear(st.tree.disk, base + [Stage(stage.name)]) && rest != [] && !stage.Nested?
    requires base + [Stage(stage.name)] + rest in Dispatch(stage, base, context, None, st).1.tree.disk
    ensures Gate(stage, st.slots).Holds? && stage.Loop? && LoopItems(stage, st.slots).Some?
  {
    hide RunByType, PathOf, Gate, LoopItems, Dispatch, Entered;
    var at := base + [Stage(stage.name)];
    assert at <= at + rest && at + rest != at;
    var disk := Dispatch(stage, base, context, None, st).1.tree.disk;
    if Gate(stage, st.slots).Broken? {
      DispatchBroken(stage, base, context, None, st);
      NotInClear(st.tree.disk, at, at + rest);
    } else if Gate(stage, st.slots).Fails? {
      SkippedOnly(stage, base, context, st);
      NotOnlyAt(st.tree.disk, disk, at, rest);
    } else if !stage.Loop? || LoopItems(stage, st.slots).None? {
      NoItemsOnly(stage, base, context, st);
      NotOnlyAt(st.tree.disk, disk, at, rest);
    }
  }

  // ---------- the item a recorded address lies in ----------

  lemma NothingLater(disk: Disk, at: Address, i: nat, rest: Address)
    requires ItemsOnDisk(disk, at, i) && rest != [] && at + rest in disk
    ensures rest[0].Item? && 1 <= rest[0].number <= i
  {
    assert (at + rest)[|at|] == rest[0];
  }

  // Something recorded by one item's run lies in that item, or was there before.
  lemma ItemBound(stage: StageDef, at: Address, items: seq<Value>, i: nat, st: State, rest: Address)
    requires stage.Loop? && i < |items| && rest != [] && rest[0] != Item(i + 1)
    requires at + rest in ItemRun(stage, at, items, i, st).2.tree.disk
      || at + rest in ClosedAfter(stage, at, items, i, st).tree.disk
    ensures at + rest in st.tree.disk
  {
    hide RunAttempts, RecordOf;
    var here := at + [Item(i + 1)];
    AttemptsSteps(stage, at, i + 1, |items|, 0, None, Prepared(stage, items, i, st));
    var (end, used, b) := ItemRun(stage, at, items, i, st);
    StepOutside(Prepared(stage, items, i, st), b, here, Some(at));
    RecordNumber(stage, b.slots, items[i], i + 1, |items|, end, used);
    assert (at + rest)[|at|] != here[|at|];
    assert SameAt(st.tree.disk, b.tree.disk, at + rest);
  }

  lemma {:induction false} ItemsFind(stage: StageDef, at: Address, items: seq<Value>, i: nat, progress: Progress,
                                     st: State, rest: Address)
    returns (m: nat, p: Progress, s: State)
    requires stage.Loop? && stage.over.Some? && i <= |items| && rest != [] && ItemsOnDisk(st.tree.disk, at, i)
    requires at + rest in RunItems(stage, at, items, i, None, progress, st).1.tree.disk
    requires rest[0].Item? ==> rest[0].number == 0 || rest[0].number > i
    ensures i <= m < |items| && rest[0] == Item(m + 1) && ItemsOnDisk(s.tree.disk, at, m)
    ensures RunItems(stage, at, items, i, None, progress, st) == RunItems(stage, at, items, m, None, p, s)
    ensures ItemReached(stage, at, items, i, st, rest) == ItemReached(stage, at, items, m, s, rest)
    decreases |items| - i
  {
    hide RunAttempts, ItemRun, ClosedAfter, ProgressAfter, StageReached, ItemsOnDisk, LastPass, PassReached;
    if i == |items| {
      NothingLater(st.tree.disk, at, i, rest);
      assert false;
    } else if rest[0] == Item(i + 1) {
      m, p, s := i, progress, st;
    } else {
      ItemsUnfold(stage, at, items, i, progress, st);
      var end := ItemRun(stage, at, items, i, st).0;
      if !Continues(stage, end) {
        ItemBound(stage, at, items, i, st, rest);
        NothingLater(st.tree.disk, at, i, rest);
        assert false;
      } else {
        hide RunItems;
        var st3, p3 := ClosedAfter(stage, at, items, i, st), ProgressAfter(stage, at, items, i, progress, st);
        ItemRecorded(stage, at, items, i, Recounted(st.tree.disk, at, i), st);
        if rest[0].Item? { assert rest[0].number != i + 1; }
        m, p, s := ItemsFind(stage, at, items, i + 1, p3, st3, rest);
      }
    }
  }

  // ---------- the inner stage it lies in ----------

  lemma {:induction false} InnerWithinStages(stage: StageDef, k: nat, dir: Address, context: LoopContext, st: State,
                                             a: Address)
    requires stage.Loop? && k <= |stage.inner| && a !in st.tree.disk && dir <= a && a != dir
    requires a in RunInner(stage, k, dir, context, None, st).1.tree.disk
    ensures a[|dir|].Stage? && IndexOf(stage.inner, a[|dir|].name) < |stage.inner|
    decreases |stage.inner| - k
  {
    hide Dispatch, Step;
    if k < |stage.inner| {
      var (flow, st1) := Dispatch(stage.inner[k], dir, Some(context), None, st);
      DispatchSteps(stage.inner[k], dir, Some(context), None, st);
      var zone := dir + [Stage(stage.inner[k].name)];
      StepOutside(st, st1, zone, None);
      if zone <= a {
        assert a[|dir|] == zone[|dir|];
      } else {
        assert SameAt(st.tree.disk, st1.tree.disk, a);
        InnerWithinStages(stage, k + 1, dir, context, st1, a);
      }
    }
  }

  lemma {:induction false} AttemptsWithinStages(stage: StageDef, at: Address, number: nat, total: nat, attempt: nat,
                                                st: State, a: Address)
    requires stage.Loop? && attempt <= stage.maxRetries + 1
    requires a !in st.tree.disk && at + [Item(number)] <= a && a != at + [Item(number)]
    requires a in RunAttempts(stage, at, number, total, attempt, None, st).2.tree.disk
    ensures var i := |at| + 1; a[i].Stage? && IndexOf(stage.inner, a[i].name) < |stage.inner|
    decreases stage.maxRetries + 1 - attempt
  {
    hide RunInner, ApplyRetry;
    if attempt < stage.maxRetries + 1 {
      var (flow, st2) := AfterPassing(stage, at, number, total, attempt, st);
      AttemptsUnfold(stage, at, number, total, attempt, st);
      if a in st2.tree.disk {
        InnerWithinStages(stage, 0, at + [Item(number)], ContextOf(stage, number, total, attempt),
                          Retried(stage, attempt, st), a);
      } else {
        AttemptsWithinStages(stage, at, number, total, attempt + 1, st2, a);
      }
    }
  }

  // An inner stage announced by one attempt only was announced into an empty directory.
  lemma LevelClear(stage: StageDef, at: Address, items: seq<Value>, m: nat, s: State, disk: Disk, pass: LoopContext,
                   s1: State, t: State, j: nat)
    requires stage.Loop? && Distinct(stage.inner) && m < |items| && j < |stage.inner|
    requires LastPass(stage, at, m + 1, |items|, 0, Prepared(stage, items, m, s), j) == Some((pass, s1))
    requires PassReached(stage, 0, at + [Item(m + 1)], pass, s1, j) == Some(t)
    requires var dir := at + [Item(m + 1)];
      var zone := dir + [Stage(stage.inner[j].name)];
      && Clear(s.tree.disk, dir)
      && SameUnder(ItemRun(stage, at, items, m, s).2.tree.disk, disk, zone)
      && NodeAt(disk, zone).attempts.Keys == {LastAttempt(disk, zone)}
    ensures Clear(t.tree.disk, at + [Item(m + 1)] + [Stage(stage.inner[j].name)])
  {
    hide RunInner, RunAttempts, Clear, LastPass, PassReached, Dispatch, Superseded, SequencesOk, ItemRun, Prepared,
      Gate, PathOf;
    var dir := at + [Item(m + 1)];
    var zone := dir + [Stage(stage.inner[j].name)];
    PreparedRun(stage, at, items, m, s);
    var entry := Prepared(stage, items, m, s);
    var b := ItemRun(stage, at, items, m, s).2;
    ClearInner(entry.tree.disk, dir, zone);
    LastPassFacts(stage, at, m + 1, |items|, 0, entry, j);
    PassReaches(stage, 0, dir, pass, s1, j);
    DispatchFiles(stage.inner[j], dir, Some(pass), t);
    var t1 := Dispatch(stage.inner[j], dir, Some(pass), None, t).1;
    assert SameAt(t1.tree.disk, b.tree.disk, zone) && SameAt(b.tree.disk, disk, zone);
    LastPassClear(stage, at, m + 1, |items|, 0, entry, j);
    PassSpares(stage, 0, dir, pass, s1, j);
    ClearKept(s1.tree.disk, t.tree.disk, zone);
  }

  // The attempt that last announced the inner stage a recorded address lies in, for an item whose
  // directory was empty before.
  lemma RecordedPass(stage: StageDef, at: Address, items: seq<Value>, m: nat, s: State, disk: Disk, rest: Address)
    returns (pass: LoopContext, s1: State, t: State, j: nat)
    requires stage.Loop? && Distinct(stage.inner) && m < |items| && |rest| > 1 && rest[0] == Item(m + 1)
    requires Clear(s.tree.disk, at + [Item(m + 1)]) && at + rest in disk
    requires forall x: Segment :: SameUnder(ItemRun(stage, at, items, m, s).2.tree.disk, disk, at + [Item(m + 1)] + [x])
    ensures j < |stage.inner| && rest[1] == Stage(stage.inner[j].name)
    ensures LastPass(stage, at, m + 1, |items|, 0, Prepared(stage, items, m, s), j) == Some((pass, s1))
    ensures PassReached(stage, 0, at + [Item(m + 1)], pass, s1, j) == Some(t)
    ensures var dir := at + [Item(m + 1)];
      var zone := dir + [Stage(stage.inner[j].name)];
      && SameUnder(Dispatch(stage.inner[j], dir, Some(pass), None, t).1.tree.disk, disk, zone)
      && (NodeAt(disk, zone).attempts.Keys == {LastAttempt(disk, zone)} ==> Clear(t.tree.disk, zone))
      && at + rest == zone + rest[2..]
  {
    hide RunInner, RunAttempts, Clear, LastPass, PassReached, Dispatch, Superseded, SequencesOk, ItemRun, Prepared,
      Gate, PathOf;
    var dir := at + [Item(m + 1)];
    PreparedRun(stage, at, items, m, s);
    var entry := Prepared(stage, items, m, s);
    var b := ItemRun(stage, at, items, m, s).2;
    var a := at + rest;
    assert a == dir + [rest[1]] + rest[2..];
    assert SameUnder(b.tree.disk, disk, dir + [rest[1]]);
    assert SameAt(b.tree.disk, disk, a);
    assert dir <= a && a != dir && a[|at| + 1] == rest[1];
    NotInClear(s.tree.disk, dir, a);
    AttemptsWithinStages(stage, at, m + 1, |items|, 0, entry, a);
    j := IndexOf(stage.inner, rest[1].name);
    var zone := dir + [Stage(stage.inner[j].name)];
    ClearInner(entry.tree.disk, dir, zone);
    if LastPass(stage, at, m + 1, |items|, 0, entry, j).None? {
      AttemptsMiss(stage, at, m + 1, |items|, 0, entry, j);
      ClearKept(entry.tree.disk, b.tree.disk, zone);
      NotInClear(b.tree.disk, zone, a);
      assert false;
    }
    pass, s1 := LastPass(stage, at, m + 1, |items|, 0, entry, j).value.0,
      LastPass(stage, at, m + 1, |items|, 0, entry, j).value.1;
    LastPassFacts(stage, at, m + 1, |items|, 0, entry, j);
    t := PassReached(stage, 0, dir, pass, s1, j).value;
    var t1 := Dispatch(stage.inner[j], dir, Some(pass), None, t).1;
    SameUnderTrans(t1.tree.disk, b.tree.disk, disk, zone);
    if NodeAt(disk, zone).attempts.Keys == {LastAttempt(disk, zone)} {
      LevelClear(stage, at, items, m, s, disk, pass, s1, t, j);
    }
  }

  // A recorded stage was reached.
  lemma {:induction false} StageRecorded(stage: StageDef, base: Address, context: Option<LoopContext>, st: State,
                                         disk: Disk, rest: Address)
    returns (found: State)
    requires Named(stage) && ListedPath(stage, rest) && Single(disk, base + [Stage(stage.name)], stage, rest)
    requires Clear(st.tree.disk, base + [Stage(stage.name)])
    requires SameUnder(Dispatch(stage, base, context, None, st).1.tree.disk, disk, base + [Stage(stage.name)])
    requires base + [Stage(stage.name)] + rest in disk && (rest == [] || rest[|rest| - 1].Stage?)
    ensures StageReached(stage, base, context, st, rest) == Some(found)
    decreases stage
  {
    hide Dispatch, RunItems, Clear, LastPass, PassReached, ItemRun, Entered, ItemReached, Gate, LoopItems, ItemsOnDisk,
      Single, ListedPath, Named, Prepared, ItemLeft;
    var at := base + [Stage(stage.name)];
    if rest == [] {
      found := st;
    } else {
      var done := Dispatch(stage, base, context, None, st).1;
      assert SameAt(done.tree.disk, disk, at + rest) by { assert at <= at + rest; }
      WayListed(stage, rest);
      GateEntered(stage, base, context, st, rest);
      NamedInner(stage);
      var items := LoopItems(stage, st.slots).value;
      var st2 := Entered(stage, base, context, st);
      EnteredClear(stage, base, context, st);
      LoopBelow(stage, base, context, st, items);
      var final := RunItems(stage, at, items, 0, None, Progress([], 0, 0), st2).1;
      assert SameAt(final.tree.disk, done.tree.disk, at + rest) by { assert at + rest != at; }
      var m, p, s := ItemsFind(stage, at, items, 0, Progress([], 0, 0), st2, rest);
      var dir := at + [Item(m + 1)];
      ClearItem(s.tree.disk, at, m);
      ItemKept(stage, at, items, m, p, s);
      BelowThrough(ItemRun(stage, at, items, m, s).2.tree.disk, final.tree.disk, done.tree.disk, disk, at, dir);
      var pass, s1, t, j := RecordedPass(stage, at, items, m, s, disk, rest);
      ReachedThrough(stage, base, context, st, rest, items, m, s, pass, s1, t, j);
      if |rest| == 2 {
        found := t;
      } else {
        SingleInner(disk, at, stage, rest, j);
        ListedInner(stage, rest, j);
        assert rest[2..][|rest[2..]| - 1] == rest[|rest| - 1];
        found := StageRecorded(stage.inner[j], dir, Some(pass), t, disk, rest[2..]);
      }
    }
  }

  lemma WayListed(stage: StageDef, rest: Address)
    requires rest != [] && ListedPath(stage, rest)
    ensures !stage.Nested? && (stage.Loop? ==> stage.over.Some?)
  {
  }

  lemma NamedInner(stage: StageDef)
    requires stage.Loop? && Named(stage)
    ensures Distinct(stage.inner) && forall k | 0 <= k < |stage.inner| :: Named(stage.inner[k])
  {
  }

  lemma BelowThrough(b: Disk, final: Disk, done: Disk, disk: Disk, at: Address, dir: Address)
    requires forall x: Segment :: SameUnder(b, final, dir + [x])
    requires OnlyAt(final, done, at) && SameUnder(done, disk, at) && at <= dir
    ensures forall x: Segment :: SameUnder(b, disk, dir + [x])
  {
    forall x: Segment
      ensures SameUnder(b, disk, dir + [x])
    {
      ThroughOwn(b, final, done, disk, at, dir + [x]);
    }
  }

  lemma ReachedThrough(stage: StageDef, base: Address, context: Option<LoopContext>, st: State, rest: Address,
                       items: seq<Value>, m: nat, s: State, pass: LoopContext, s1: State, t: State, j: nat)
    requires stage.Loop? && Distinct(stage.inner) && Gate(stage, st.slots).Holds?
      && LoopItems(stage, st.slots) == Some(items)
    requires m < |items| && |rest| > 1 && rest[0] == Item(m + 1)
    requires j < |stage.inner| && rest[1] == Stage(stage.inner[j].name)
    requires var at := base + [Stage(stage.name)];
      && ItemReached(stage, at, items, 0, Entered(stage, base, context, st), rest) ==
         ItemReached(stage, at, items, m, s, rest)
      && LastPass(stage, at, m + 1, |items|, 0, Prepared(stage, items, m, s), j) == Some((pass, s1))
      && PassReached(stage, 0, at + [Item(m + 1)], pass, s1, j) == Some(t)
    ensures StageReached(stage, base, context, st, rest) ==
      StageReached(stage.inner[j], base + [Stage(stage.name)] + [Item(m + 1)], Some(pass), t, rest[2..])
  {
    hide LastPass, PassReached, Gate, LoopItems, Entered, Prepared, ItemRun, ClosedAfter;
    DistinctIndex(stage.inner, j);
  }

  // ---------- whose item results they are ----------

  // On a way into directories that were empty, and on any way of a run that was not aborted, the item
  // results are those of the items the way was reached in.
  lemma {:induction false} StageOwn(stage: StageDef, base: Address, context: Option<LoopContext>, st: State,
                                    disk: Disk, rest: Address, used: set<Name>, found: State)
    requires Tidy(stage, used) && ListedPath(stage, rest)
    requires SequencesOk(st.tree) && Sorted(st.tree.disk, base + [Stage(stage.name)], stage)
    requires SameUnder(Dispatch(stage, base, context, None, st).1.tree.disk, disk, base + [Stage(stage.name)])
    requires StageReached(stage, base, context, st, rest) == Some(found) && !Gate(stage, st.slots).Broken?
    requires !Dispatch(stage, base, context, None, st).0.Aborted?
      || (Clear(st.tree.disk, base + [Stage(stage.name)]) && Single(disk, base + [Stage(stage.name)], stage, rest))
    ensures Own(disk, base + [Stage(stage.name)], stage, rest, found.slots)
    decreases stage
  {
    hide Dispatch, Scratch, SequencesOk, Level, Tidy, StageReached, Sorted, Gate, Named, Own, ListedPath, Single,
      Clear, Prepared, InnerWrites, RetryNames;
    var at := base + [Stage(stage.name)];
    if rest == [] {
      OwnHere(disk, at, stage, found.slots);
    } else {
      TidyNamed(stage, used);
      var items, m, s, pass, s1, t, j := ReachedLevel(stage, base, context, st, disk, rest);
      LevelParts(stage, base, context, st, disk, rest, items, m, s, pass, s1, t, j);
      LevelStart(stage, base, context, st, disk, rest, items, m, s, pass, s1, t, j);
      LevelStage(stage, base, context, st, disk, rest, items, m, s, pass, s1, t, j);
      LevelListed(stage, base, context, st, disk, rest, items, m, s, pass, s1, t, j);
      TidyInner(stage, used, j);
      WayListed(stage, rest);
      ListedInner(stage, rest, j);
      var dir := at + [Item(m + 1)];
      var used1 := used + OwnScratch(stage) + OutsOf(stage.inner, NamesOf(stage.inner[..j]));
      StageFound(stage.inner[j], dir, Some(pass), t, disk, rest[2..], used1, found);
      VariableLive(stage, items, m, j, s, s1.slots, t.slots, found.slots, used);
      LevelOwn(stage, base, context, st, disk, rest, items, m, s, pass, s1, t, j, found.slots);
      OwnWay(disk, at, stage, rest, found.slots, j);
      if |rest| == 2 {
        OwnHere(disk, dir + [rest[1]], stage.inner[j], found.slots);
      } else {
        StageOwn(stage.inner[j], dir, Some(pass), t, disk, rest[2..], used1, found);
      }
    }
  }

  lemma OwnHere(disk: Disk, at: Address, stage: StageDef, live: Slots)
    ensures Own(disk, at, stage, [], live)
  {
  }

  lemma OwnWay(disk: Disk, at: Address, stage: StageDef, rest: Address, live: Slots, j: nat)
    requires stage.Loop? && Distinct(stage.inner) && |rest| > 1 && rest[0].Item?
    requires j < |stage.inner| && rest[1] == Stage(stage.inner[j].name)
    ensures Own(disk, at, stage, rest, live) <==>
      OwnItem(NodeAt(disk, at + [rest[0]]).item, live, stage.itemVar)
          && Own(disk, at + [rest[0]] + [rest[1]], stage.inner[j], rest[2..], live)
  {
    DistinctIndex(stage.inner, j);
  }

  // One level of it, and what the next one needs.
  lemma LevelOwn(stage: StageDef, base: Address, context: Option<LoopContext>, st: State, disk: Disk, rest: Address,
                 items: seq<Value>, m: nat, s: State, pass: LoopContext, s1: State, t: State, j: nat, live: Slots)
    requires stage.Loop? && stage.over.Some? && Distinct(stage.inner)
    requires Level(stage, base, context, st, disk, rest, items, m, s, pass, s1, t, j)
    requires !Dispatch(stage, base, context, None, st).0.Aborted?
      || (Clear(st.tree.disk, base + [Stage(stage.name)]) && Single(disk, base + [Stage(stage.name)], stage, rest))
    requires stage.itemVar in live && live[stage.itemVar] == items[m]
    ensures var dir := base + [Stage(stage.name)] + [Item(m + 1)];
      var zone := dir + [Stage(stage.inner[j].name)];
      && OwnItem(NodeAt(disk, dir).item, live, stage.itemVar)
      && (|rest| > 2 ==>
            !Dispatch(stage.inner[j], dir, Some(pass), None, t).0.Aborted?
            || (Clear(t.tree.disk, zone) && Single(disk, zone, stage.inner[j], rest[2..])))
  {
    hide Dispatch, SequencesOk, StageReached, Sorted, Gate, Single, Clear, LastPass, PassReached, ItemRun, RecordOf,
      Scratch, Superseded;
    var at := base + [Stage(stage.name)];
    var dir := at + [Item(m + 1)];
    var zone := dir + [Stage(stage.inner[j].name)];
    ItemNotRaised(stage, at, items, m, s);
    var (end, used, b) := ItemRun(stage, at, items, m, s);
    RecordCollects(stage, b.slots, items[m], m + 1, |items|, end, used);
    if Dispatch(stage, base, context, None, st).0.Aborted? {
      ClearInner(st.tree.disk, at, dir);
      ClearKept(st.tree.disk, s.tree.disk, dir);
      NotInClear(s.tree.disk, dir, dir);
      if |rest| > 2 {
        assert at + rest == zone + rest[2..];
        SingleInner(disk, at, stage, rest, j);
        LevelClear(stage, at, items, m, s, disk, pass, s1, t, j);
      }
    } else {
      LastPassAborts(stage, at, items, m, s, pass, s1, t, j);
    }
  }

  lemma RecordCollects(stage: StageDef, slots: Slots, item: Value, number: nat, total: nat, end: ItemEnd, used: nat)
    requires stage.Loop? && stage.over.Some?
    ensures var record := RecordOf(stage, slots, item, number, total, end, used);
      record.result.Entry? && record.result.input == item
  {
  }

  lemma ItemNotRaised(stage: StageDef, at: Address, items: seq<Value>, m: nat, s: State)
    requires stage.Loop? && m < |items|
    ensures !ItemRun(stage, at, items, m, s).0.ItemRaised?
  {
    hide RunAttempts, PrepareItem;
    AttemptsNotRaised(stage, at, m + 1, |items|, 0, Prepared(stage, items, m, s));
  }

  // Only a resumed item raises past its own bookkeeping.
  lemma {:induction false} AttemptsNotRaised(stage: StageDef, at: Address, number: nat, total: nat, attempt: nat,
                                             st: State)
    requires stage.Loop? && attempt <= stage.maxRetries + 1
    ensures !RunAttempts(stage, at, number, total, attempt, None, st).0.ItemRaised?
    decreases stage.maxRetries + 1 - attempt
  {
    hide RunInner, ApplyRetry;
    if attempt < stage.maxRetries + 1 {
      var (flow, st2) := AfterPassing(stage, at, number, total, attempt, st);
      if TriesAgain(stage, flow, st2) { AttemptsNotRaised(stage, at, number, total, attempt + 1, st2); }
    }
  }

  lemma LastPassAborts(stage: StageDef, at: Address, items: seq<Value>, m: nat, s: State, pass: LoopContext, s1: State,
                       t: State, j: nat)
    requires stage.Loop? && m < |items| && j < |stage.inner|
    requires LastPass(stage, at, m + 1, |items|, 0, Prepared(stage, items, m, s), j) == Some((pass, s1))
    requires PassReached(stage, 0, at + [Item(m + 1)], pass, s1, j) == Some(t)
    requires !ItemRun(stage, at, items, m, s).0.ItemAborted?
    ensures !Dispatch(stage.inner[j], at + [Item(m + 1)], Some(pass), None, t).0.Aborted?
  {
    hide RunAttempts, LastPass, PassReached, Dispatch, ItemRun, Prepared;
    PreparedRun(stage, at, items, m, s);
    if Dispatch(stage.inner[j], at + [Item(m + 1)], Some(pass), None, t).0.Aborted? {
      PassAborts(stage, at, m + 1, |items|, 0, Prepared(stage, items, m, s), j);
    }
  }

  // A stage that aborts in the last attempt that announces it aborts its item.
  lemma {:induction false} PassAborts(stage: StageDef, at: Address, number: nat, total: nat, attempt: nat, st: State,
                                      j: nat)
    requires stage.Loop? && attempt <= stage.maxRetries + 1 && j < |stage.inner|
    requires LastPass(stage, at, number, total, attempt, st, j).Some?
    requires var (context, s1) := LastPass(stage, at, number, total, attempt, st, j).value;
      var t := PassReached(stage, 0, at + [Item(number)], context, s1, j);
      t.Some? && Dispatch(stage.inner[j], at + [Item(number)], Some(context), None, t.value).0.Aborted?
    ensures RunAttempts(stage, at, number, total, attempt, None, st).0.ItemAborted?
    decreases stage.maxRetries + 1 - attempt
  {
    hide RunInner, PassReached, Dispatch, ApplyRetry, Gate, InnerWrites, SequencesOk;
    var dir, context := at + [Item(number)], ContextOf(stage, number, total, attempt);
    var st1 := Retried(stage, attempt, st);
    var (flow, st2) := AfterPassing(stage, at, number, total, attempt, st);
    if TriesAgain(stage, flow, st2) && LastPass(stage, at, number, total, attempt + 1, st2, j).Some? {
      PassAborts(stage, at, number, total, attempt + 1, st2, j);
    } else {
      var t := PassReached(stage, 0, dir, context, st1, j).value;
      PassReaches(stage, 0, dir, context, st1, j);
      InnerAborts(stage, j, dir, context, t);
    }
  }

  lemma InnerAborts(stage: StageDef, j: nat, dir: Address, context: LoopContext, t: State)
    requires stage.Loop? && j < |stage.inner| && Dispatch(stage.inner[j], dir, Some(context), None, t).0.Aborted?
    ensures RunInner(stage, j, dir, context, None, t).0.Aborted?
  {
    hide Dispatch;
  }
}
