// Where a cancelled run was when it stopped: which item of a loop, which inner stage of the item,
// and what the recorded tree holds of everything before it.
module CutProof {
  import opened Options
  import opened Addresses
  import opened WorkflowModel
  import opened Engine
  import opened EngineSteps
  import opened EngineRuns
  import opened Scoping
  import opened Reconstruction
  import opened FreshRuns
  import opened ReplayProof

  function NamesOf(stages: seq<StageDef>): (names: seq<Name>)
    ensures |names| == |stages| && forall k | 0 <= k < |stages| :: names[k] == stages[k].name
  {
    if stages == [] then [] else NamesOf(stages[..|stages| - 1]) + [stages[|stages| - 1].name]
  }

  lemma NamesOfNext(stages: seq<StageDef>, k: nat)
    requires k < |stages|
    ensures NamesOf(stages[..k + 1]) == NamesOf(stages[..k]) + [stages[k].name]
  {
    assert stages[..k + 1][..k] == stages[..k];
  }

  // No stage of the list that declares an output is recorded as skipped.
  ghost predicate NoneSkipped(disk: Disk, dir: Address, stages: seq<StageDef>)
  {
    forall i | 0 <= i < |stages| && Declared(stages[i]) != {} ::
        !HasStatus(disk, dir + [Stage(stages[i].name)], Skipped)
  }

  // ---------- one list of stages ----------

  // A skipped stage without an output writes nothing when it is replayed, as it wrote nothing live.
  lemma SilentReplayed(stage: StageDef, base: Address, context: Option<LoopContext>, st: State, start: Slots,
                       names: set<Name>)
    requires Agree(start, st.slots, names) && Gate(stage, st.slots).Fails? && Declared(stage) == {}
    ensures var st' := Dispatch(stage, base, context, None, st).1;
      Agree(ReplayStage(st'.tree.disk, base + [Stage(stage.name)], stage, start), st'.slots, names + Declared(stage))
  {
    hide PathOf, Gate, SortedNumbers, ItemNumbers;
    DispatchSkips(stage, base, context, None, st);
    assert Dispatch(stage, base, context, None, st).1.slots == st.slots;
    hide Dispatch;
    assert stage.Work? || (stage.Loop? && stage.over.Some?) ==> Declared(stage) == OutputSet(stage.output);
    assert forall n: Name :: n in OutputSet(Some(n));
  }

  lemma ReplayChanges(disk: Disk, at: Address, stage: StageDef, slots: Slots)
    ensures ChangesOnly(slots, ReplayStage(disk, at, stage, slots), Declared(stage))
  {
    hide ItemEntries, SortedNumbers, ItemNumbers;
  }

  // A skipped stage writes nothing live; replaying it writes to its output alone.
  lemma SkippedReplays(stage: StageDef, base: Address, context: Option<LoopContext>, st: State, start: Slots,
                       names: set<Name>)
    requires Agree(start, st.slots, names) && Gate(stage, st.slots).Fails? && Declared(stage) !! names
    ensures var st' := Dispatch(stage, base, context, None, st).1;
      Agree(ReplayStage(st'.tree.disk, base + [Stage(stage.name)], stage, start), st'.slots, names)
  {
    hide PathOf, Gate, ReplayStage, Declared;
    DispatchSkips(stage, base, context, None, st);
    var st' := Dispatch(stage, base, context, None, st).1;
    assert st'.slots == st.slots;
    hide Dispatch;
    var replayed := ReplayStage(st'.tree.disk, base + [Stage(stage.name)], stage, start);
    ReplayChanges(st'.tree.disk, base + [Stage(stage.name)], stage, start);
    forall n | n in names
      ensures SameSlot(replayed, st.slots, n)
    {
      assert SameSlot(start, replayed, n) && SameSlot(start, st.slots, n);
    }
  }

  // A stage that completes becomes the last of the listing, and replaying the listing agrees with the
  // live slots on its output too, unless it was skipped.
  lemma StageListed(stages: seq<StageDef>, k: nat, base: Address, context: Option<LoopContext>, st: State,
                    done: seq<Name>, start: Slots, names: set<Name>)
    requires Distinct(stages) && k < |stages| && stages[k].name !in done
    requires Children(st.tree.disk, base) == done
    requires Agree(ReplayAll(st.tree.disk, base, stages, done, start), st.slots, names)
    requires Clear(st.tree.disk, base + [Stage(stages[k].name)]) && SequencesOk(st.tree)
    requires Scratch(stages[k]) !! names && Dispatch(stages[k], base, context, None, st).0.Next?
    requires Gate(stages[k], st.slots).Fails? ==> Declared(stages[k]) !! names
    ensures var st' := Dispatch(stages[k], base, context, None, st).1;
      && Children(st'.tree.disk, base) == done + [stages[k].name]
      && Agree(ReplayAll(st'.tree.disk, base, stages, done + [stages[k].name], start), st'.slots,
               names + (if Gate(stages[k], st.slots).Fails? then {} else Declared(stages[k])))
  {
    hide Dispatch, Scratch, Gate, ReplayStage, Clear, SequencesOk, Agree, Declared, Children, Step;
    var stage := stages[k];
    var zone := base + [Stage(stage.name)];
    var st' := Dispatch(stage, base, context, None, st).1;
    var before := ReplayAll(st.tree.disk, base, stages, done, start);
    ClearNoMeta(st.tree.disk, zone);
    NextNotBroken(stage, base, context, st);
    ChildrenAppend(stage, base, context, None, st);
    if Gate(stage, st.slots).Fails? {
      SkippedReplays(stage, base, context, st, before, names);
      assert names + {} == names;
    } else {
      StageReplayed(stage, base, context, st, before, names);
    }
    ReplayedLast(stages, k, base, context, st, done, start);
  }

  lemma ReplayedLast(stages: seq<StageDef>, k: nat, base: Address, context: Option<LoopContext>, st: State,
                     done: seq<Name>, start: Slots)
    requires Distinct(stages) && k < |stages| && stages[k].name !in done
    ensures var d' := Dispatch(stages[k], base, context, None, st).1.tree.disk;
      ReplayAll(d', base, stages, done + [stages[k].name], start) ==
        ReplayStage(d', base + [Stage(stages[k].name)], stages[k], ReplayAll(st.tree.disk, base, stages, done, start))
  {
    hide Dispatch, ReplayStage, Step;
    var d, d' := st.tree.disk, Dispatch(stages[k], base, context, None, st).1.tree.disk;
    DispatchSteps(stages[k], base, context, None, st);
    StepOutside(st, Dispatch(stages[k], base, context, None, st).1, base + [Stage(stages[k].name)], None);
    forall n: Name | n in done
      ensures SameUnder(d, d', base + [Stage(n)])
    {
      SiblingSame(d, d', base, stages[k].name, n);
    }
    ReplayAllLocal(d, d', base, stages, done, start);
    DistinctIndex(stages, k);
    assert (done + [stages[k].name])[..|done|] == done;
  }

  // A stage that completes, and was not skipped if it declares an output, extends the replayable
  // prefix of its list.
  lemma StageDone(stages: seq<StageDef>, k: nat, base: Address, context: Option<LoopContext>, st: State,
                  done: seq<Name>, start: Slots, names: set<Name>)
    requires Distinct(stages) && k < |stages| && stages[k].name !in done
    requires Replayed(st.tree.disk, st.slots, base, stages, done, start, names)
    requires Clear(st.tree.disk, base + [Stage(stages[k].name)]) && SequencesOk(st.tree)
    requires Scratch(stages[k]) !! names + OutsOf(stages, done)
    requires Dispatch(stages[k], base, context, None, st).0.Next?
    requires Gate(stages[k], st.slots).Fails? ==> Declared(stages[k]) == {}
    ensures var st' := Dispatch(stages[k], base, context, None, st).1;
      Replayed(st'.tree.disk, st'.slots, base, stages, done + [stages[k].name], start, names)
  {
    hide Dispatch, Scratch, Gate, ReplayAll, Clear, SequencesOk, Agree, Declared, Children;
    StageListed(stages, k, base, context, st, done, start, names + OutsOf(stages, done));
    DistinctIndex(stages, k);
    var after := done + [stages[k].name];
    assert after[..|after| - 1] == done;
    assert names + OutsOf(stages, done) + Declared(stages[k]) == names + OutsOf(stages, after);
  }

  lemma ClearNoMeta(disk: Disk, zone: Address)
    requires Clear(disk, zone)
    ensures NodeAt(disk, zone).meta.None?
  {
    assert zone <= zone;
  }

  lemma NextNotBroken(stage: StageDef, base: Address, context: Option<LoopContext>, st: State)
    requires Dispatch(stage, base, context, None, st).0.Next?
    ensures !Gate(stage, st.slots).Broken?
  {
  }

  // Inner stages from k on leave the directory of any other stage alone.
  lemma {:induction false} InnerSpares(stage: StageDef, k: nat, base: Address, context: LoopContext,
                                       cursor: Option<Address>, st: State, name: Name)
    requires stage.Loop? && k <= |stage.inner|
    requires forall i | k <= i < |stage.inner| :: stage.inner[i].name != name
    ensures SameUnder(st.tree.disk, RunInner(stage, k, base, context, cursor, st).1.tree.disk, base + [Stage(name)])
    decreases |stage.inner| - k
  {
    hide Dispatch, Step, SameUnder;
    if k < |stage.inner| {
      var (flow, st1) := Dispatch(stage.inner[k], base, Some(context), cursor, st);
      DispatchSteps(stage.inner[k], base, Some(context), cursor, st);
      StepOutside(st, st1, base + [Stage(stage.inner[k].name)], None);
      SiblingSame(st.tree.disk, st1.tree.disk, base, stage.inner[k].name, name);
      if flow.Next? {
        InnerSpares(stage, k + 1, base, context, None, st1, name);
        SameUnderTrans(st.tree.disk, st1.tree.disk, RunInner(stage, k + 1, base, context, None, st1).1.tree.disk,
                       base + [Stage(name)]);
      }
    } else {
      SameSelfUnder(st.tree.disk, base + [Stage(name)]);
    }
  }

  lemma SameSelfUnder(disk: Disk, zone: Address)
    ensures SameUnder(disk, disk, zone)
  {
  }

  lemma SkippedRecorded(stage: StageDef, base: Address, context: Option<LoopContext>, cursor: Option<Address>,
                        st: State)
    requires Gate(stage, st.slots).Fails?
    ensures HasStatus(Dispatch(stage, base, context, cursor, st).1.tree.disk, base + [Stage(stage.name)], Skipped)
  {
    LeaveKeepsSequence(Entered(stage, base, context, st), base + [Stage(stage.name)],
                       Count(st.counters, PathOf(base + [Stage(stage.name)])) + 1, context, Skipped, Null);
  }

  ghost predicate StillClear(disk: Disk, base: Address, stages: seq<StageDef>, k: nat)
  {
    forall i | k <= i < |stages| :: Clear(disk, base + [Stage(stages[i].name)])
  }

  lemma StillClearAfter(d: Disk, d': Disk, base: Address, stages: seq<StageDef>, k: nat)
    requires Distinct(stages) && k < |stages| && StillClear(d, base, stages, k)
    requires SameOutside(d, d', base + [Stage(stages[k].name)])
    ensures StillClear(d', base, stages, k + 1)
  {
    forall i | k + 1 <= i < |stages|
      ensures Clear(d', base + [Stage(stages[i].name)])
    {
      SiblingSame(d, d', base, stages[k].name, stages[i].name);
      assert Clear(d, base + [Stage(stages[i].name)]);
      forall a: Address | base + [Stage(stages[i].name)] <= a
        ensures a !in d'
      {
        assert SameAt(d, d', a);
      }
    }
  }

  // Scratch slots of every stage of a list stay apart from the given names and all earlier outputs.
  ghost predicate Apart(stages: seq<StageDef>, names: set<Name>)
  {
    forall i | 0 <= i < |stages| :: Scratch(stages[i]) !! names + OutsOf(stages, NamesOf(stages[..i]))
  }

  // The inner stage at which a cancelled pass stopped; the state s before it is reached with or
  // without the stop button, and replaying the recorded stages on start agrees with it.
  lemma {:induction false} InnerCut(stage: StageDef, k: nat, base: Address, context: LoopContext, st: State,
                                    start: Slots, names: set<Name>)
    returns (j: nat, s: State)
    requires stage.Loop? && k <= |stage.inner| && Distinct(stage.inner) && Apart(stage.inner, names)
    requires SequencesOk(st.tree) && StillClear(st.tree.disk, base, stage.inner, k)
    requires Replayed(st.tree.disk, st.slots, base, stage.inner, NamesOf(stage.inner[..k]), start, names)
    requires RunInner(stage, k, base, context, None, st).0.Cancelled?
    requires NoneSkipped(RunInner(stage, k, base, context, None, st).1.tree.disk, base, stage.inner)
    ensures k <= j < |stage.inner|
    ensures Dispatch(stage.inner[j], base, Some(context), None, s) ==
        (Cancelled, RunInner(stage, k, base, context, None, st).1)
    ensures RunInner(stage, k, base, context, None, Unstopped(st)) ==
        RunInner(stage, j, base, context, None, Unstopped(s))
    ensures Replayed(s.tree.disk, s.slots, base, stage.inner, NamesOf(stage.inner[..j]), start, names)
    ensures Clear(s.tree.disk, base + [Stage(stage.inner[j].name)]) && SequencesOk(s.tree)
    ensures Quiet(st, s, InnerWrites(stage), false)
    decreases |stage.inner| - k
  {
    hide Dispatch, Replayed, SequencesOk, HasStatus, Quiet, Gate, Clear, Scratch, Declared, InnerWrites, Agree,
      SameUnder;
    if k == |stage.inner| { assert false; }
    var inner := stage.inner[k];
    var (flow, st1) := Dispatch(inner, base, Some(context), None, st);
    if flow.Cancelled? {
      j, s := k, st;
      QuietSelf(st, InnerWrites(stage));
    } else {
      assert flow.Next?;
      var st' := RunInner(stage, k + 1, base, context, None, st1).1;
      DispatchSteps(inner, base, Some(context), None, st);
      if Gate(inner, st.slots).Fails? && Declared(inner) != {} {
        SkippedRecorded(inner, base, Some(context), None, st);
        InnerSpares(stage, k + 1, base, context, None, st1, inner.name);
        SkippedStays(st1.tree.disk, st'.tree.disk, base + [Stage(inner.name)]);
        assert false;
      }
      NamesNotYet(stage.inner, k);
      StageDone(stage.inner, k, base, Some(context), st, NamesOf(stage.inner[..k]), start, names);
      NamesOfNext(stage.inner, k);
      StillClearAfter(st.tree.disk, st1.tree.disk, base, stage.inner, k);
      j, s := InnerCut(stage, k + 1, base, context, st1, start, names);
      DispatchUnstopped(inner, base, Some(context), None, st);
      DispatchQuiet(inner, base, Some(context), st);
      InnerWritesOf(stage, k, flow);
      QuietWiden(st, st1, Touched(inner, flow), InnerWrites(stage), false);
      QuietTrans(st, st1, s, InnerWrites(stage), false, false);
    }
  }

  lemma QuietSelf(st: State, names: set<Name>)
    ensures Quiet(st, st, names, false)
  {
  }

  lemma InnerWritesOf(stage: StageDef, k: nat, flow: Flow)
    requires stage.Loop? && k < |stage.inner|
    ensures Touched(stage.inner[k], flow) <= InnerWrites(stage)
  {
    assert Touched(stage.inner[k], flow) <= Writes(stage.inner[k]);
    hide Writes, Touched;
    forall n | n in Writes(stage.inner[k])
      ensures n in InnerWrites(stage)
    {
    }
  }

  lemma SkippedStays(d: Disk, d': Disk, zone: Address)
    requires SameUnder(d, d', zone) && HasStatus(d, zone, Skipped)
    ensures HasStatus(d', zone, Skipped)
  {
    assert SameAt(d, d', zone);
  }

  lemma NamesNotYet(stages: seq<StageDef>, k: nat)
    requires Distinct(stages) && k < |stages|
    ensures stages[k].name !in NamesOf(stages[..k])
  {
    forall n: Name | n in NamesOf(stages[..k])
      ensures n != stages[k].name
    {
      var i :| 0 <= i < k && NamesOf(stages[..k])[i] == n;
    }
  }

  // ---------- one loop ----------

  lemma {:induction false} AttemptsUsed(stage: StageDef, at: Address, number: nat, total: nat, attempt: nat, st: State)
    requires stage.Loop? && attempt <= stage.maxRetries + 1
    ensures var (end, used, st') := RunAttempts(stage, at, number, total, attempt, None, st);
      used >= attempt && (end.ItemCancelled? ==> used > attempt) && (used == attempt ==> st' == st)
    decreases stage.maxRetries + 1 - attempt
  {
    hide RunInner;
    if attempt < stage.maxRetries + 1 {
      var context := LoopContext(number, total, attempt + 1, stage.maxRetries + 1);
      var st1 := if attempt > 0 then st.(slots := ApplyRetry(stage.onRetry, st.slots)) else st;
      var (flow, st2) := RunInner(stage, 0, at + [Item(number)], context, None, st1);
      AttemptsUsed(stage, at, number, total, attempt + 1, st2);
    }
  }

  function FirstContext(stage: StageDef, number: nat, total: nat): LoopContext
    requires stage.Loop?
  {
    LoopContext(number, total, 1, stage.maxRetries + 1)
  }

  // A cancelled item that used one attempt was cancelled in its first pass.
  lemma FirstAttempt(stage: StageDef, at: Address, number: nat, total: nat, st: State)
    requires stage.Loop? && RunAttempts(stage, at, number, total, 0, None, st).0.ItemCancelled?
    requires RunAttempts(stage, at, number, total, 0, None, st).1 == 1
    ensures RunInner(stage, 0, at + [Item(number)], FirstContext(stage, number, total), None, st) ==
      (Cancelled, RunAttempts(stage, at, number, total, 0, None, st).2)
  {
    hide RunInner;
    var (flow, st2) := RunInner(stage, 0, at + [Item(number)], FirstContext(stage, number, total), None, st);
    AttemptsUsed(stage, at, number, total, 1, st2);
  }

  // Everything the later proofs need to know about a list loop that was cancelled: the items, the
  // item m + 1 in flight, the tally p and the state s before it, and the state b after its attempts.
  ghost predicate LoopStopped(stage: StageDef, base: Address, context: Option<LoopContext>, st: State,
                              items: seq<Value>, m: nat, p: Progress, s: State, b: State)
    requires stage.Loop?
  {
    var at := base + [Stage(stage.name)];
    var final := Dispatch(stage, base, context, None, st).1;
    var resumed := Dispatch(stage, base, context, None, Unstopped(st));
    && LoopItems(stage, st.slots) == Some(items) && m < |items|
    && ItemsOnDisk(s.tree.disk, at, m) && p == Recounted(s.tree.disk, at, m)
    && ItemRun(stage, at, items, m, s).0.ItemCancelled? && ItemRun(stage, at, items, m, s).2 == b
    && ChangesOnly(st.slots, s.slots, Scratch(stage))
    && SequencesOk(s.tree)
    && (forall a: Address :: at + [Item(m + 1)] <= a ==> !HasStatus(s.tree.disk, a, Halted))
    && (forall a: Address :: at <= a && HasStatus(final.tree.disk, a, Halted) ==> a == at || at + [Item(m + 1)] <= a)
    && final.slots == b.slots
    && (forall a: Address :: a != at && a != at + [Item(m + 1)] ==> SameAt(b.tree.disk, final.tree.disk, a))
    && NodeAt(final.tree.disk, at + [Item(m + 1)]).item ==
         Some(RecordOf(stage, b.slots, items[m], m + 1, |items|, ItemCancelled, ItemRun(stage, at, items, m, s).1))
    && resumed.0 == RunItems(stage, at, items, m, None, p, Unstopped(s)).0
    && resumed.1.slots == RunItems(stage, at, items, m, None, p, Unstopped(s)).1.slots
  }

  lemma LoopCut(stage: StageDef, base: Address, context: Option<LoopContext>, st: State)
    returns (items: seq<Value>, m: nat, p: Progress, s: State, b: State)
    requires stage.Loop? && stage.over.Some? && Clear(st.tree.disk, base + [Stage(stage.name)]) && SequencesOk(st.tree)
    requires Dispatch(stage, base, context, None, st).0.Cancelled?
    ensures Gate(stage, st.slots).Holds?
    ensures LoopStopped(stage, base, context, st, items, m, p, s, b)
  {
    hide RunByType, RunItems, ItemsOnDisk, Leave, Enter, OnlyAt, RunAttempts, Step, Scratch, Quiet, RecordOf, Clear,
      SequencesOk, HasStatus, LoopItems;
    var at := base + [Stage(stage.name)];
    var count := Count(st.counters, PathOf(at)) + 1;
    var st2 := Entered(stage, base, context, st);
    assert Gate(stage, st.slots).Holds?;
    DispatchUnfold(stage, base, context, None, st);
    DispatchUnfold(stage, base, context, None, Unstopped(st));
    hide Dispatch;
    EnteredClear(stage, base, context, st);
    if LoopItems(stage, st2.slots).None? {
      LoopNeedsItems(stage, at, count, st2);
      assert false;
    }
    items := LoopItems(stage, st2.slots).value;
    LoopUnfold(stage, at, count, None, st2);
    UnstoppedEntered(stage, base, context, st);
    LoopUnfold(stage, at, count, None, Unstopped(st2));
    m, p, s := ItemsCut(stage, at, items, 0, Progress([], 0, 0), st2);
    b := ItemRun(stage, at, items, m, s).2;
    CutStopped(stage, base, context, st, items, m, p, s, b);
  }

  lemma CutStopped(stage: StageDef, base: Address, context: Option<LoopContext>, st: State,
                   items: seq<Value>, m: nat, p: Progress, s: State, b: State)
    requires stage.Loop? && Clear(st.tree.disk, base + [Stage(stage.name)]) && SequencesOk(st.tree)
    requires Gate(stage, st.slots).Holds? && LoopItems(stage, st.slots) == Some(items) && m < |items|
    requires var at := base + [Stage(stage.name)];
      var st2 := Entered(stage, base, context, st);
      && ItemsOnDisk(s.tree.disk, at, m) && p == Recounted(s.tree.disk, at, m)
      && ItemRun(stage, at, items, m, s).0.ItemCancelled? && ItemRun(stage, at, items, m, s).2 == b
      && RunItems(stage, at, items, 0, None, Progress([], 0, 0), st2) ==
           (Cancelled, ClosedAfter(stage, at, items, m, s))
      && RunItems(stage, at, items, 0, None, Progress([], 0, 0), Unstopped(st2)) ==
           RunItems(stage, at, items, m, None, p, Unstopped(s))
      && Quiet(st2, s, Scratch(stage), false) && Step(st2, s, at, Some(at))
    ensures LoopStopped(stage, base, context, st, items, m, p, s, b)
  {
    hide RunByType, RunItems, ItemsOnDisk, Leave, Enter, RunAttempts, Step, Scratch, Quiet, RecordOf, Clear,
      SequencesOk, HasStatus, LoopItems, Dispatch, ChangesOnly, SameAt, Recounted, Gate, ClosedAfter;
    var at := base + [Stage(stage.name)];
    var count := Count(st.counters, PathOf(at)) + 1;
    var st2 := Entered(stage, base, context, st);
    EnteredSlots(stage, base, context, st);
    assert Dispatch(stage, base, context, None, st).1 ==
        Leave(ClosedAfter(stage, at, items, m, s), at, count, context, Halted, Null) by {
      DispatchUnfold(stage, base, context, None, st);
      LoopUnfold(stage, at, count, None, st2);
    }
    var (fA, sA) := RunItems(stage, at, items, m, None, p, Unstopped(s));
    assert Dispatch(stage, base, context, None, Unstopped(st)) ==
        (fA, Leave(sA, at, count, context, StatusOf(fA), ResultOf(fA))) by {
      DispatchUnfold(stage, base, context, None, Unstopped(st));
      UnstoppedEntered(stage, base, context, st);
      LoopUnfold(stage, at, count, None, Unstopped(st2));
    }
    LeaveTreeAny(sA, at, count, context, fA);
    NothingHalted(stage, base, context, st, s);
    var s1 := s.(slots := PrepareItem(stage, items[m], false, s.slots));
    AttemptsSteps(stage, at, m + 1, |items|, 0, None, s1);
    StepOutside(s1, b, at + [Item(m + 1)], Some(at));
    StoppedTree(stage, at, items, m, s, b, count, context);
    StepSequences(st2, s, at, Some(at));
    EnterSequences(stage, base, context, st);
    QuietChanges(st2, s, Scratch(stage), false);
    NotHaltedBelow(s.tree.disk, at, m + 1);
  }

  lemma NotHaltedBelow(disk: Disk, at: Address, number: nat)
    requires forall a: Address :: at <= a && a != at ==> !HasStatus(disk, a, Halted)
    ensures forall a: Address :: at + [Item(number)] <= a ==> !HasStatus(disk, a, Halted)
  {
  }

  lemma QuietChanges(st: State, st': State, names: set<Name>, cancelled: bool)
    requires Quiet(st, st', names, cancelled)
    ensures ChangesOnly(st.slots, st'.slots, names)
  {
  }

  lemma EnterSequences(stage: StageDef, base: Address, context: Option<LoopContext>, st: State)
    requires SequencesOk(st.tree)
    ensures SequencesOk(Entered(stage, base, context, st).tree)
  {
    WriteMetaFacts(st.tree, base + [Stage(stage.name)], Running, context);
  }

  lemma StepOutside(st: State, st': State, zone: Address, host: Option<Address>)
    requires Step(st, st', zone, host)
    ensures SameOutside(st.tree.disk, st'.tree.disk, zone)
  {
  }

  lemma StepSequences(st: State, st': State, zone: Address, host: Option<Address>)
    requires Step(st, st', zone, host)
    ensures SequencesOk(st.tree) ==> SequencesOk(st'.tree)
  {
  }

  lemma LeaveTreeAny(st: State, at: Address, count: nat, context: Option<LoopContext>, flow: Flow)
    ensures Leave(st, at, count, context, StatusOf(flow), ResultOf(flow)).slots == st.slots
  {
  }

  // Nothing below a fresh loop is halted before its cancelled item.
  lemma NothingHalted(stage: StageDef, base: Address, context: Option<LoopContext>, st: State, s: State)
    requires Clear(st.tree.disk, base + [Stage(stage.name)])
    requires Quiet(Entered(stage, base, context, st), s, Scratch(stage), false)
    ensures var at := base + [Stage(stage.name)];
      forall a: Address :: at <= a && a != at ==> !HasStatus(s.tree.disk, a, Halted)
  {
    var at := base + [Stage(stage.name)];
    var st2 := Entered(stage, base, context, st);
    forall a: Address | at <= a && a != at
      ensures !HasStatus(s.tree.disk, a, Halted)
    {
      assert a !in st.tree.disk && a !in st2.tree.disk;
      assert !HasStatus(st2.tree.disk, a, Halted);
    }
  }

  // The tree a cancelled loop leaves: only the item's own record and the loop's own meta follow.
  lemma StoppedTree(stage: StageDef, at: Address, items: seq<Value>, m: nat, s: State, b: State, count: nat,
                    context: Option<LoopContext>)
    requires stage.Loop? && m < |items| && at != []
    requires ItemRun(stage, at, items, m, s).0.ItemCancelled? && ItemRun(stage, at, items, m, s).2 == b
    requires forall a: Address :: at <= a && a != at ==> !HasStatus(s.tree.disk, a, Halted)
    requires SameOutside(s.tree.disk, b.tree.disk, at + [Item(m + 1)])
    ensures var final := Leave(ClosedAfter(stage, at, items, m, s), at, count, context, Halted, Null);
      && final.slots == b.slots
      && (forall a: Address :: a != at && a != at + [Item(m + 1)] ==> SameAt(b.tree.disk, final.tree.disk, a))
      && NodeAt(final.tree.disk, at + [Item(m + 1)]).item ==
           Some(RecordOf(stage, b.slots, items[m], m + 1, |items|, ItemCancelled, ItemRun(stage, at, items, m, s).1))
      && (forall a: Address :: at <= a && HasStatus(final.tree.disk, a, Halted) ==> a == at || at + [Item(m + 1)] <= a)
  {
    hide RunAttempts, RecordOf, HasStatus;
    var closed := ClosedAfter(stage, at, items, m, s);
    var final := Leave(closed, at, count, context, Halted, Null);
    var here := at + [Item(m + 1)];
    ExitFacts(closed.tree, at, count, context, Halted, Null);
    RecordNumber(stage, b.slots, items[m], m + 1, |items|, ItemCancelled, ItemRun(stage, at, items, m, s).1);
    assert here != at;
    forall a: Address | a != at && a != here
      ensures SameAt(b.tree.disk, final.tree.disk, a)
    {
      assert SameAt(closed.tree.disk, final.tree.disk, a);
    }
    assert SameAt(closed.tree.disk, final.tree.disk, here);
    forall a: Address | at <= a && HasStatus(final.tree.disk, a, Halted)
      ensures a == at || here <= a
    {
      if a != at && !(here <= a) {
        assert SameAt(s.tree.disk, b.tree.disk, a) && SameAt(b.tree.disk, final.tree.disk, a);
        SameStatus(s.tree.disk, b.tree.disk, a, Halted);
        SameStatus(b.tree.disk, final.tree.disk, a, Halted);
      }
    }
  }

  lemma RecordNumber(stage: StageDef, slots: Slots, item: Value, number: nat, total: nat, end: ItemEnd, used: nat)
    requires stage.Loop?
    ensures RecordOf(stage, slots, item, number, total, end, used).number == number
  {
  }

  lemma SameStatus(d: Disk, d': Disk, a: Address, status: Status)
    requires SameAt(d, d', a)
    ensures HasStatus(d, a, status) == HasStatus(d', a, status)
  {
  }

  lemma UnstoppedEntered(stage: StageDef, base: Address, context: Option<LoopContext>, st: State)
    ensures Entered(stage, base, context, Unstopped(st)) == Unstopped(Entered(stage, base, context, st))
  {
  }
}
