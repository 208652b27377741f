// Reconstruction refines live execution: at the stop of a cancelled run, the slots rebuilt from
// the recorded tree agree with the live ones on everything visible at the resume point.
module ReconstructionProof {
  import opened Options
  import opened Addresses
  import opened WorkflowModel
  import opened Engine
  import opened EngineSteps
  import opened EngineRuns
  import opened Scoping
  import opened Reconstruction
  import opened FreshRuns
  import opened ReplayProof
  import opened CutProof

  // Slot names are kept apart: the scratch slots of a loop and of everything in it are not among
  // the names used outside or earlier, and its item and retry slots are written by the loop alone.
  ghost predicate Tidy(stage: StageDef, used: set<Name>)
    decreases stage
  {
    stage.Loop? ==>
      && Distinct(stage.inner) && Scratch(stage) !! used
      && (InnerWrites(stage) + InnerNames(stage.inner)) !! ({stage.itemVar} + RetryNames(stage))
      && stage.itemVar !in RetryNames(stage)
      && (forall k | 0 <= k < |stage.inner| ::
           Tidy(stage.inner[k], used + OwnScratch(stage) + OutsOf(stage.inner, NamesOf(stage.inner[..k]))))
  }

  lemma TidyApart(stage: StageDef, used: set<Name>, names: set<Name>)
    requires stage.Loop? && Tidy(stage, used) && names <= used + OwnScratch(stage)
    ensures Apart(stage.inner, names)
  {
    forall i | 0 <= i < |stage.inner|
      ensures Scratch(stage.inner[i]) !! names + OutsOf(stage.inner, NamesOf(stage.inner[..i]))
    {
      assert Tidy(stage.inner[i], used + OwnScratch(stage) + OutsOf(stage.inner, NamesOf(stage.inner[..i])));
    }
  }

  // ---------- one item ----------

  lemma ClearItem(disk: Disk, at: Address, m: nat)
    requires ItemsOnDisk(disk, at, m)
    ensures Clear(disk, at + [Item(m + 1)])
  {
    forall a: Address | at + [Item(m + 1)] <= a
      ensures a !in disk
    {
      assert a[|at|] == (at + [Item(m + 1)])[|at|];
      assert at <= a;
    }
  }

  lemma ClearChildren(disk: Disk, dir: Address)
    requires Clear(disk, dir)
    ensures Children(disk, dir) == []
  {
    assert ChildNames(disk, dir) == {};
    assert Sequences(disk, dir) == map[];
  }

  lemma ClearStages(disk: Disk, dir: Address, stages: seq<StageDef>)
    requires Clear(disk, dir)
    ensures StillClear(disk, dir, stages, 0)
  {
    forall i | 0 <= i < |stages|
      ensures Clear(disk, dir + [Stage(stages[i].name)])
    {
      forall a: Address | dir + [Stage(stages[i].name)] <= a
        ensures a !in disk
      {
        PrefixTrans(dir, dir + [Stage(stages[i].name)], a);
      }
    }
  }

  // The inner stage of the item in flight at which a list loop was cancelled.
  lemma ItemCut(stage: StageDef, at: Address, items: seq<Value>, m: nat, s: State, b: State, start: Slots,
                names: set<Name>)
    returns (j: nat, t: State)
    requires stage.Loop? && m < |items| && Distinct(stage.inner) && Apart(stage.inner, names)
    requires ItemRun(stage, at, items, m, s) == (ItemCancelled, 1, b)
    requires SequencesOk(s.tree) && Clear(s.tree.disk, at + [Item(m + 1)])
    requires NoneSkipped(b.tree.disk, at + [Item(m + 1)], stage.inner)
    requires Agree(start, PrepareItem(stage, items[m], false, s.slots), names)
    ensures var dir := at + [Item(m + 1)];
      var context := FirstContext(stage, m + 1, |items|);
      var s1 := s.(slots := PrepareItem(stage, items[m], false, s.slots));
      && j < |stage.inner|
      && Dispatch(stage.inner[j], dir, Some(context), None, t) == (Cancelled, b)
      && RunInner(stage, 0, dir, context, None, Unstopped(s1)) == RunInner(stage, j, dir, context, None, Unstopped(t))
      && Replayed(t.tree.disk, t.slots, dir, stage.inner, NamesOf(stage.inner[..j]), start, names)
      && Clear(t.tree.disk, dir + [Stage(stage.inner[j].name)]) && SequencesOk(t.tree)
      && ChangesOnly(s1.slots, t.slots, InnerWrites(stage))
      && (forall a: Address :: dir <= a ==> !HasStatus(t.tree.disk, a, Halted))
  {
    hide RunInner, Dispatch, SequencesOk, HasStatus, Scratch, Gate;
    var dir := at + [Item(m + 1)];
    var context := FirstContext(stage, m + 1, |items|);
    var s1 := s.(slots := PrepareItem(stage, items[m], false, s.slots));
    FirstAttempt(stage, at, m + 1, |items|, s1);
    ClearChildren(s.tree.disk, dir);
    ClearStages(s.tree.disk, dir, stage.inner);
    assert stage.inner[..0] == [];
    j, t := InnerCut(stage, 0, dir, context, s1, start, names);
    NothingHaltedIn(s1, t, dir, InnerWrites(stage));
  }

  lemma NothingHaltedIn(s: State, t: State, dir: Address, names: set<Name>)
    requires Clear(s.tree.disk, dir) && Quiet(s, t, names, false)
    ensures forall a: Address :: dir <= a ==> !HasStatus(t.tree.disk, a, Halted)
  {
    forall a: Address | dir <= a
      ensures !HasStatus(t.tree.disk, a, Halted)
    {
      assert !HasStatus(s.tree.disk, a, Halted);
    }
  }

  // ---------- the resume point ----------

  // What a caller can check on disk before resuming at a point inside a stage: every item on the
  // way was in its first attempt, and no stage beside the way that declares an output was skipped.
  ghost predicate Resumable(disk: Disk, at: Address, stage: StageDef, rest: Address)
    decreases stage
  {
    |rest| > 1 && stage.Loop? ==>
      var dir := at + [rest[0]];
      && NodeAt(disk, dir).item.Some? && NodeAt(disk, dir).item.value.attemptsUsed == 1
      && NoneSkipped(disk, dir, stage.inner)
      && (rest[1].Stage? && IndexOf(stage.inner, rest[1].name) < |stage.inner| ==>
            Resumable(disk, dir + [rest[1]], stage.inner[IndexOf(stage.inner, rest[1].name)], rest[2..]))
  }

  // Only what is recorded below the stage matters.
  lemma {:induction false} ResumableLocal(d: Disk, d': Disk, at: Address, stage: StageDef, rest: Address)
    requires SameUnder(d, d', at) && Resumable(d, at, stage, rest)
    ensures Resumable(d', at, stage, rest)
    decreases stage
  {
    hide HasStatus;
    if |rest| > 1 && stage.Loop? {
      var dir := at + [rest[0]];
      assert SameAt(d, d', dir);
      SkippedLocal(d, d', at, dir, stage.inner);
      if rest[1].Stage? && IndexOf(stage.inner, rest[1].name) < |stage.inner| {
        NarrowZone(d, d', at, dir + [rest[1]]);
        ResumableLocal(d, d', dir + [rest[1]], stage.inner[IndexOf(stage.inner, rest[1].name)], rest[2..]);
      }
    }
  }

  lemma ResumableItem(disk: Disk, at: Address, stage: StageDef, rest: Address)
    requires stage.Loop? && |rest| > 1 && Resumable(disk, at, stage, rest)
    ensures var dir := at + [rest[0]];
      && NodeAt(disk, dir).item.Some? && NodeAt(disk, dir).item.value.attemptsUsed == 1
      && NoneSkipped(disk, dir, stage.inner)
  {
  }

  // The resume point inside the item is resumable inside its inner stage.
  lemma ResumableInner(disk: Disk, at: Address, stage: StageDef, rest: Address, j: nat)
    requires stage.Loop? && |rest| > 1 && Resumable(disk, at, stage, rest)
    requires Distinct(stage.inner) && j < |stage.inner| && rest[1] == Stage(stage.inner[j].name)
    ensures Resumable(disk, at + [rest[0]] + [rest[1]], stage.inner[j], rest[2..])
  {
    DistinctIndex(stage.inner, j);
  }

  lemma NarrowZone(d: Disk, d': Disk, wide: Address, zone: Address)
    requires SameUnder(d, d', wide) && wide <= zone
    ensures SameUnder(d, d', zone)
  {
    forall a: Address | zone <= a
      ensures SameAt(d, d', a)
    {
      PrefixTrans(wide, zone, a);
    }
  }

  lemma SkippedLocal(d: Disk, d': Disk, zone: Address, dir: Address, stages: seq<StageDef>)
    requires SameUnder(d, d', zone) && zone <= dir && NoneSkipped(d, dir, stages)
    ensures NoneSkipped(d', dir, stages)
  {
    hide HasStatus, Declared;
    forall i | 0 <= i < |stages| && Declared(stages[i]) != {}
      ensures !HasStatus(d', dir + [Stage(stages[i].name)], Skipped)
    {
      PrefixTrans(zone, dir, dir + [Stage(stages[i].name)]);
      SameStatus(d, d', dir + [Stage(stages[i].name)], Skipped);
    }
  }

  // The slots reconstruction must provide at the resume point: those given, and inside an item the
  // item variable, the inner stage names and the outputs of the inner stages before the point.
  ghost function Visible(stage: StageDef, names: set<Name>, rest: Address): set<Name>
    decreases stage
  {
    if |rest| <= 1 || !stage.Loop? || !rest[1].Stage? || IndexOf(stage.inner, rest[1].name) == |stage.inner| then names
    else
      var j := IndexOf(stage.inner, rest[1].name);
      Visible(stage.inner[j], InsideNames(stage, names, j), rest[2..])
  }

  ghost function InsideNames(stage: StageDef, names: set<Name>, j: nat): set<Name>
    requires stage.Loop? && j <= |stage.inner|
  {
    names + {stage.itemVar} + InnerNames(stage.inner) + OutsOf(stage.inner, NamesOf(stage.inner[..j]))
  }

  // Rebuilding descends into the stage at `at` the way the walk over its siblings does.
  ghost function WalkInto(disk: Disk, at: Address, stage: StageDef, rest: Address, slots: Slots): Slots
  {
    if rest != [] && stage.Loop? then WalkItems(disk, at, stage, rest, slots) else slots
  }

  lemma {:induction false} WalkPrefix(disk: Disk, dir: Address, stages: seq<StageDef>, done: seq<Name>,
                                      more: seq<Name>, cursor: Address, slots: Slots)
    requires forall n: Name :: n in done ==> !(cursor != [] && cursor[0] == Stage(n))
    ensures WalkChildren(disk, dir, stages, done + more, cursor, slots) ==
      WalkChildren(disk, dir, stages, more, cursor, ReplayAll(disk, dir, stages, done, slots))
    decreases |done|
  {
    if done == [] {
      assert done + more == more;
    } else {
      var earlier, last := done[..|done| - 1], done[|done| - 1];
      assert done + more == earlier + ([last] + more);
      assert last in done;
      WalkPrefix(disk, dir, stages, earlier, [last] + more, cursor, slots);
      assert ([last] + more)[1..] == more;
    }
  }

  // The walk of a directory whose recorded stages are those done and the cursor's own.
  lemma WalkToCursor(disk: Disk, dir: Address, stages: seq<StageDef>, done: seq<Name>, k: nat, rest: Address,
                     slots: Slots)
    requires Distinct(stages) && k < |stages| && stages[k].name !in done
    requires Children(disk, dir) == done + [stages[k].name]
    ensures WalkStages(disk, dir, stages, [Stage(stages[k].name)] + rest, slots) ==
      WalkInto(disk, dir + [Stage(stages[k].name)], stages[k], rest, ReplayAll(disk, dir, stages, done, slots))
  {
    var cursor := [Stage(stages[k].name)] + rest;
    WalkPrefix(disk, dir, stages, done, [stages[k].name], cursor, slots);
    DistinctIndex(stages, k);
    assert cursor[1..] == rest;
  }

  // Every loop the cursor enters iterates over a list, and it enters no nested workflow.
  ghost predicate ListedPath(stage: StageDef, rest: Address)
    decreases stage
  {
    rest != [] ==> !stage.Nested? && (stage.Loop? ==>
      && stage.over.Some?
      && (|rest| > 1 && rest[1].Stage? && IndexOf(stage.inner, rest[1].name) < |stage.inner| ==>
            ListedPath(stage.inner[IndexOf(stage.inner, rest[1].name)], rest[2..])))
  }

  // ---------- localities ----------

  lemma ChildrenLocal(d: Disk, d': Disk, dir: Address)
    requires forall n: Name :: SameAt(d, d', dir + [Stage(n)])
    ensures Children(d, dir) == Children(d', dir)
  {
    forall n: Name
      ensures n in ChildNames(d, dir) <==> n in ChildNames(d', dir)
      ensures NodeAt(d, dir + [Stage(n)]) == NodeAt(d', dir + [Stage(n)])
    {
      ChildHasMeta(d, dir, n);
      ChildHasMeta(d', dir, n);
      assert SameAt(d, d', dir + [Stage(n)]);
    }
    assert Sequences(d, dir) == Sequences(d', dir);
  }

  lemma {:induction false} ReplayKeys(disk: Disk, dir: Address, stages: seq<StageDef>, done: seq<Name>, slots: Slots)
    ensures ReplayAll(disk, dir, stages, done, slots).Keys <= slots.Keys + OutsOf(stages, done)
  {
    if done != [] { ReplayKeys(disk, dir, stages, done[..|done| - 1], slots); }
  }

  lemma AtomicBody(stage: StageDef, at: Address, count: nat, st: State)
    requires !stage.Loop? && !stage.Nested?
    ensures RunByType(stage, at, count, None, st).1.tree == st.tree
  {
  }

  lemma EnterLeaveOnly(t: Tree, at: Address, count: nat, context: Option<LoopContext>, status: Status, result: Value)
    requires at != []
    ensures OnlyAt(t.disk, OnStageExit(OnStageEnter(t, at, context), at, count, context, status, result).disk, at)
  {
    WriteMetaFacts(t, at, Running, context);
    var t1 := OnStageEnter(t, at, context);
    ExitFacts(t1, at, count, context, status, result);
    OnlyAtTrans(t.disk, t1.disk, OnStageExit(t1, at, count, context, status, result).disk, at);
  }

  lemma AtomicOnly(stage: StageDef, base: Address, context: Option<LoopContext>, st: State)
    requires !stage.Loop? && !stage.Nested?
    ensures OnlyAt(st.tree.disk, Dispatch(stage, base, context, None, st).1.tree.disk, base + [Stage(stage.name)])
  {
    hide RunByType, OnStageExit, OnStageEnter;
    var at := base + [Stage(stage.name)];
    var count := Count(st.counters, PathOf(at)) + 1;
    if Gate(stage, st.slots).Fails? {
      EnterLeaveOnly(st.tree, at, count, context, Skipped, Null);
    } else if Gate(stage, st.slots).Holds? {
      DispatchUnfold(stage, base, context, None, st);
      var (flow, st3) := RunByType(stage, at, count, None, Entered(stage, base, context, st));
      AtomicBody(stage, at, count, Entered(stage, base, context, st));
      EnterLeaveOnly(st.tree, at, count, context, StatusOf(flow), ResultOf(flow));
    }
  }

  lemma AtomicNotHalted(stage: StageDef, base: Address, context: Option<LoopContext>, st: State, rest: Address)
    requires !stage.Loop? && !stage.Nested? && rest != [] && Clear(st.tree.disk, base + [Stage(stage.name)])
    ensures !HasStatus(Dispatch(stage, base, context, None, st).1.tree.disk, base + [Stage(stage.name)] + rest, Halted)
  {
    AtomicOnly(stage, base, context, st);
    var a := base + [Stage(stage.name)] + rest;
    assert base + [Stage(stage.name)] <= a;
    assert SameAt(st.tree.disk, Dispatch(stage, base, context, None, st).1.tree.disk, a);
  }

  // A cancelled dispatch has changed no slot outside its scratch.
  lemma CancelledSlots(stage: StageDef, base: Address, context: Option<LoopContext>, st: State, start: Slots,
                       names: set<Name>)
    requires Dispatch(stage, base, context, None, st).0.Cancelled? && Scratch(stage) !! names
    requires Agree(start, st.slots, names)
    ensures Agree(start, Dispatch(stage, base, context, None, st).1.slots, names)
  {
    hide Dispatch, Scratch;
    DispatchQuiet(stage, base, context, st);
    var final := Dispatch(stage, base, context, None, st).1;
    forall n: Name | n in names
      ensures SameSlot(start, final.slots, n)
    {
      assert SameSlot(start, st.slots, n) && SameSlot(st.slots, final.slots, n);
    }
  }

  lemma TidyScratch(stage: StageDef, used: set<Name>, names: set<Name>)
    requires Tidy(stage, used) && names <= used
    ensures Scratch(stage) !! names
  {
  }

  // The slots an item is replayed from agree with those its first pass starts from.
  lemma ItemStart(stage: StageDef, st: State, s: State, item: Value, start: Slots, names: set<Name>, used: set<Name>)
    requires stage.Loop? && stage.over.Some? && Tidy(stage, used) && names <= used && start.Keys <= used
    requires ChangesOnly(st.slots, s.slots, Scratch(stage)) && Agree(start, st.slots, names)
    ensures Agree(start[stage.itemVar := item], PrepareItem(stage, item, false, s.slots),
                  names + {stage.itemVar} + InnerNames(stage.inner))
  {
    var start1 := start[stage.itemVar := item];
    var live := PrepareItem(stage, item, false, s.slots);
    TidyParts(stage, used);
    assert OwnScratch(stage) <= Scratch(stage);
    assert InnerNames(stage.inner) <= OwnScratch(stage);
    hide Scratch, Tidy, PrepareItem, InnerWrites, OwnScratch;
    hide InnerNames, SameSlot;
    forall n: Name | n in names + {stage.itemVar} + InnerNames(stage.inner)
      ensures SameSlot(start1, live, n)
    {
      PreparedAt(stage, item, s.slots, n);
      if n in names {
        assert n !in Scratch(stage);
        SameThrough(start, st.slots, s.slots, live, n);
        assert SameSlot(start1, start, n) by { OtherSlot(start, stage.itemVar, item, n); }
        SameThrough(start1, start, live, live, n);
      } else {
        StartSlot(start, live, stage.itemVar, item, n);
      }
    }
  }

  lemma OtherSlot(start: Slots, v: Name, item: Value, n: Name)
    requires n != v
    ensures SameSlot(start[v := item], start, n)
  {
  }

  lemma SameThrough(a: Slots, b: Slots, c: Slots, d: Slots, n: Name)
    requires SameSlot(a, b, n) && SameSlot(b, c, n) && SameSlot(c, d, n)
    ensures SameSlot(a, d, n)
  {
  }

  lemma StartSlot(start: Slots, live: Slots, v: Name, item: Value, n: Name)
    requires n == v ==> n in live && live[n] == item
    requires n != v ==> n !in start && n !in live
    ensures SameSlot(start[v := item], live, n)
  {
  }

  lemma TidyParts(stage: StageDef, used: set<Name>)
    requires stage.Loop? && Tidy(stage, used)
    ensures Scratch(stage) !! used && stage.itemVar !in InnerNames(stage.inner) && stage.itemVar !in RetryNames(stage)
  {
  }

  // A slot of a prepared item: the item variable is bound, inner stage names are cleared, and slots
  // that are none of the loop's own are untouched.
  lemma PreparedAt(stage: StageDef, item: Value, slots: Slots, n: Name)
    requires stage.Loop? && stage.over.Some?
    requires stage.itemVar !in InnerNames(stage.inner) && stage.itemVar !in RetryNames(stage)
    ensures var live := PrepareItem(stage, item, false, slots);
      && (n == stage.itemVar ==> n in live && live[n] == item)
      && (n in InnerNames(stage.inner) ==> n !in live)
      && (n !in OwnScratch(stage) ==> SameSlot(slots, live, n))
  {
  }

  // ---------- the walk along the cursor ----------

  // The item a halted address lies in is the item in flight.
  lemma HaltedItem(stage: StageDef, base: Address, context: Option<LoopContext>, st: State, disk: Disk, rest: Address,
                   items: seq<Value>, m: nat, p: Progress, s: State, b: State)
    requires stage.Loop? && LoopStopped(stage, base, context, st, items, m, p, s, b)
    requires SameUnder(Dispatch(stage, base, context, None, st).1.tree.disk, disk, base + [Stage(stage.name)])
    requires rest != [] && HasStatus(disk, base + [Stage(stage.name)] + rest, Halted)
    ensures rest[0] == Item(m + 1)
  {
    hide Dispatch, HasStatus;
    var at := base + [Stage(stage.name)];
    var final := Dispatch(stage, base, context, None, st).1.tree.disk;
    var a := at + rest;
    assert at <= a && a != at;
    assert SameAt(final, disk, a);
    SameStatus(final, disk, a, Halted);
    assert at + [Item(m + 1)] <= a;
    assert a[|at|] == (at + [Item(m + 1)])[|at|];
  }

  // Inside the item, the stage a halted address lies in is the inner stage in flight.
  lemma HaltedInner(stages: seq<StageDef>, dir: Address, context: Option<LoopContext>, j: nat, t: State, disk: Disk,
                    rest: Address)
    requires j < |stages| && rest != []
    requires forall a: Address :: dir <= a ==> !HasStatus(t.tree.disk, a, Halted)
    requires SameAt(Dispatch(stages[j], dir, context, None, t).1.tree.disk, disk, dir + rest)
    requires HasStatus(disk, dir + rest, Halted)
    ensures rest[0] == Stage(stages[j].name)
  {
    hide Dispatch, HasStatus;
    var b := Dispatch(stages[j], dir, context, None, t).1;
    var zone := dir + [Stage(stages[j].name)];
    DispatchSteps(stages[j], dir, context, None, t);
    SameStatus(b.tree.disk, disk, dir + rest, Halted);
    assert dir <= dir + rest;
    if !(zone <= dir + rest) {
      assert SameAt(t.tree.disk, b.tree.disk, dir + rest);
      SameStatus(t.tree.disk, b.tree.disk, dir + rest, Halted);
    }
    assert (dir + rest)[|dir|] == zone[|dir|];
  }

  // The recorded stages of a list in flight: those done before the stage in flight, then it.
  lemma ListingInFlight(stages: seq<StageDef>, dir: Address, context: Option<LoopContext>, j: nat, done: seq<Name>,
                        t: State, disk: Disk, start: Slots)
    requires Distinct(stages) && j < |stages| && stages[j].name !in done
    requires Dispatch(stages[j], dir, context, None, t).0.Cancelled?
    requires Children(t.tree.disk, dir) == done
    requires Clear(t.tree.disk, dir + [Stage(stages[j].name)]) && SequencesOk(t.tree)
    requires forall n: Name :: SameUnder(Dispatch(stages[j], dir, context, None, t).1.tree.disk, disk, dir + [Stage(n)])
    ensures Children(disk, dir) == done + [stages[j].name]
    ensures ReplayAll(disk, dir, stages, done, start) == ReplayAll(t.tree.disk, dir, stages, done, start)
  {
    hide Dispatch, SequencesOk, ReplayAll, Children;
    var stage := stages[j];
    var b := Dispatch(stage, dir, context, None, t).1;
    ClearNoMeta(t.tree.disk, dir + [Stage(stage.name)]);
    CancelledGate(stage, dir, context, t);
    ChildrenAppend(stage, dir, context, None, t);
    DispatchSteps(stage, dir, context, None, t);
    forall n: Name
      ensures SameAt(b.tree.disk, disk, dir + [Stage(n)])
    {
      assert SameUnder(b.tree.disk, disk, dir + [Stage(n)]);
    }
    ChildrenLocal(b.tree.disk, disk, dir);
    forall n: Name | n in done
      ensures SameUnder(t.tree.disk, disk, dir + [Stage(n)])
    {
      SiblingSame(t.tree.disk, b.tree.disk, dir, stage.name, n);
      SameUnderTrans(t.tree.disk, b.tree.disk, disk, dir + [Stage(n)]);
    }
    ReplayAllLocal(t.tree.disk, disk, dir, stages, done, start);
  }

  lemma CancelledGate(stage: StageDef, base: Address, context: Option<LoopContext>, st: State)
    requires Dispatch(stage, base, context, None, st).0.Cancelled?
    ensures Gate(stage, st.slots).Holds?
  {
  }

  // The inner stage in flight of a stopped list loop, for a resume point inside the item: every
  // fact the walk and the resumed run need about it.
  ghost predicate InnerStopped(stage: StageDef, at: Address, items: seq<Value>, m: nat, s: State, b: State, disk: Disk,
                               rest: Address, start: Slots, names: set<Name>, j: nat, t: State)
    requires stage.Loop? && m < |items| && rest != []
  {
    var dir := at + [Item(m + 1)];
    var context := FirstContext(stage, m + 1, |items|);
    var s1 := s.(slots := PrepareItem(stage, items[m], false, s.slots));
    && j < |stage.inner| && rest[0] == Stage(stage.inner[j].name)
    && Dispatch(stage.inner[j], dir, Some(context), None, t) == (Cancelled, b)
    && RunInner(stage, 0, dir, context, None, Unstopped(s1)) == RunInner(stage, j, dir, context, None, Unstopped(t))
    && Replayed(t.tree.disk, t.slots, dir, stage.inner, NamesOf(stage.inner[..j]), start, names)
    && Clear(t.tree.disk, dir + [Stage(stage.inner[j].name)]) && SequencesOk(t.tree)
    && ChangesOnly(s1.slots, t.slots, InnerWrites(stage))
    && SameUnder(b.tree.disk, disk, dir + [Stage(stage.inner[j].name)])
    && (forall n: Name :: SameUnder(b.tree.disk, disk, dir + [Stage(n)]))
  }

  lemma InnerInFlight(stage: StageDef, base: Address, context: Option<LoopContext>, st: State, disk: Disk,
                      rest: Address,
                      items: seq<Value>, m: nat, p: Progress, s: State, b: State, start: Slots, names: set<Name>)
    returns (j: nat, t: State)
    requires stage.Loop? && stage.over.Some? && LoopStopped(stage, base, context, st, items, m, p, s, b)
    requires Distinct(stage.inner) && Apart(stage.inner, names)
    requires SameUnder(Dispatch(stage, base, context, None, st).1.tree.disk, disk, base + [Stage(stage.name)])
    requires |rest| > 1 && rest[0] == Item(m + 1)
    requires HasStatus(disk, base + [Stage(stage.name)] + rest, Halted)
      && Resumable(disk, base + [Stage(stage.name)], stage, rest)
    requires Agree(start, PrepareItem(stage, items[m], false, s.slots), names)
    ensures InnerStopped(stage, base + [Stage(stage.name)], items, m, s, b, disk, rest[1..], start, names, j, t)
  {
    hide Dispatch, RunInner, HasStatus, Scratch, SequencesOk, Agree, Resumable, RunItems, LoopItems, Recounted,
      LoopStopped, Apart, NoneSkipped, Clear, ItemsOnDisk, RunAttempts;
    var at := base + [Stage(stage.name)];
    var dir := at + [Item(m + 1)];
    var final := Dispatch(stage, base, context, None, st).1.tree.disk;
    StoppedFacts(stage, base, context, st, items, m, p, s, b);
    assert SameAt(final, disk, dir);
    ResumableItem(disk, at, stage, rest);
    forall n: Name
      ensures SameUnder(b.tree.disk, disk, dir + [Stage(n)])
    {
      BelowItem(b.tree.disk, final, disk, at, m, n);
    }
    NoneSkippedBack(b.tree.disk, disk, dir, stage.inner);
    ClearItem(s.tree.disk, at, m);
    j, t := ItemCut(stage, at, items, m, s, b, start, names);
    SplitFirst(at, rest);
    BelowDir(b.tree.disk, final, disk, at, m, rest);
    HaltedInner(stage.inner, dir, Some(FirstContext(stage, m + 1, |items|)), j, t, disk, rest[1..]);
  }

  lemma StoppedFacts(stage: StageDef, base: Address, context: Option<LoopContext>, st: State,
                     items: seq<Value>, m: nat, p: Progress, s: State, b: State)
    requires stage.Loop? && LoopStopped(stage, base, context, st, items, m, p, s, b)
    ensures var at := base + [Stage(stage.name)];
      var final := Dispatch(stage, base, context, None, st).1;
      && m < |items| && LoopItems(stage, st.slots) == Some(items)
      && ItemsOnDisk(s.tree.disk, at, m) && p == Recounted(s.tree.disk, at, m) && SequencesOk(s.tree)
      && ItemRun(stage, at, items, m, s).0 == ItemCancelled && ItemRun(stage, at, items, m, s).2 == b
      && ChangesOnly(st.slots, s.slots, Scratch(stage))
      && final.slots == b.slots
      && (forall a: Address :: a != at && a != at + [Item(m + 1)] ==> SameAt(b.tree.disk, final.tree.disk, a))
      && NodeAt(final.tree.disk, at + [Item(m + 1)]).item.Some?
      && NodeAt(final.tree.disk, at + [Item(m + 1)]).item.value.attemptsUsed == ItemRun(stage, at, items, m, s).1
  {
    hide Dispatch, RunItems, Scratch, HasStatus, ItemRun, ItemsOnDisk, Recounted, LoopItems;
  }

  lemma InnerFacts(stage: StageDef, at: Address, items: seq<Value>, m: nat, s: State, b: State, disk: Disk,
                   rest: Address, start: Slots, names: set<Name>, j: nat, t: State)
    requires stage.Loop? && m < |items| && rest != []
    requires InnerStopped(stage, at, items, m, s, b, disk, rest, start, names, j, t)
    ensures var dir := at + [Item(m + 1)];
      && j < |stage.inner| && rest[0] == Stage(stage.inner[j].name)
      && Dispatch(stage.inner[j], dir, Some(FirstContext(stage, m + 1, |items|)), None, t) == (Cancelled, b)
      && Agree(ReplayAll(t.tree.disk, dir, stage.inner, NamesOf(stage.inner[..j]), start), t.slots,
               names + OutsOf(stage.inner, NamesOf(stage.inner[..j])))
      && Clear(t.tree.disk, dir + [Stage(stage.inner[j].name)]) && SequencesOk(t.tree)
      && SameUnder(b.tree.disk, disk, dir + [Stage(stage.inner[j].name)])
  {
    hide Dispatch, RunInner, Clear, SequencesOk;
  }

  lemma SplitFirst(at: Address, rest: Address)
    requires rest != []
    ensures at + rest == at + [rest[0]] + rest[1..]
  {
  }

  lemma SplitSecond(at: Address, rest: Address)
    requires |rest| > 1
    ensures at + rest == at + [rest[0]] + [rest[1]] + rest[2..] && rest[1..][0] == rest[1]
      && rest[1..][1..] == rest[2..]
  {
  }

  lemma BelowItem(d: Disk, final: Disk, disk: Disk, at: Address, m: nat, n: Name)
    requires forall a: Address :: a != at && a != at + [Item(m + 1)] ==> SameAt(d, final, a)
    requires SameUnder(final, disk, at)
    ensures SameUnder(d, disk, at + [Item(m + 1)] + [Stage(n)])
  {
    forall a: Address | at + [Item(m + 1)] + [Stage(n)] <= a
      ensures SameAt(d, disk, a)
    {
      PrefixTrans(at, at + [Item(m + 1)] + [Stage(n)], a);
      assert SameAt(d, final, a) && SameAt(final, disk, a);
    }
  }

  lemma BelowDir(d: Disk, final: Disk, disk: Disk, at: Address, m: nat, rest: Address)
    requires forall a: Address :: a != at && a != at + [Item(m + 1)] ==> SameAt(d, final, a)
    requires SameUnder(final, disk, at) && |rest| > 1
    ensures SameAt(d, disk, at + rest)
  {
    assert SameAt(d, final, at + rest) && at <= at + rest && SameAt(final, disk, at + rest);
  }

  lemma NoneSkippedBack(d: Disk, d': Disk, dir: Address, stages: seq<StageDef>)
    requires NoneSkipped(d', dir, stages) && forall n: Name :: SameUnder(d, d', dir + [Stage(n)])
    ensures NoneSkipped(d, dir, stages)
  {
    hide HasStatus, Declared;
    forall i | 0 <= i < |stages| && Declared(stages[i]) != {}
      ensures !HasStatus(d, dir + [Stage(stages[i].name)], Skipped)
    {
      var at := dir + [Stage(stages[i].name)];
      assert SameUnder(d, d', at);
      assert SameAt(d, d', at);
      SameStatus(d, d', at, Skipped);
    }
  }

  // The item a stopped loop was at is recorded with its own input.
  lemma StoppedRecord(stage: StageDef, base: Address, context: Option<LoopContext>, st: State, disk: Disk,
                      items: seq<Value>, m: nat, p: Progress, s: State, b: State)
    requires stage.Loop? && stage.over.Some? && LoopStopped(stage, base, context, st, items, m, p, s, b)
    requires SameUnder(Dispatch(stage, base, context, None, st).1.tree.disk, disk, base + [Stage(stage.name)])
    ensures m < |items|
    ensures var node := NodeAt(disk, base + [Stage(stage.name)] + [Item(m + 1)]);
      node.item.Some? && node.item.value.result.Entry? && node.item.value.result.input == items[m]
  {
    hide Dispatch, RunInner, SequencesOk, Agree, RunItems, LoopItems, Recounted;
    var dir := base + [Stage(stage.name)] + [Item(m + 1)];
    assert SameAt(Dispatch(stage, base, context, None, st).1.tree.disk, disk, dir);
    assert NodeAt(disk, dir).item.Some? && NodeAt(disk, dir).item.value.result ==
        Collect(stage, b.slots, items[m], false);
  }

  // The walk into one recorded item of a loop.
  lemma WalkIntoItem(disk: Disk, at: Address, stage: StageDef, rest: Address, start: Slots, item: Value, number: nat)
    requires stage.Loop? && |rest| > 1 && rest[0] == Item(number)
    requires var node := NodeAt(disk, at + [Item(number)]);
      node.item.Some? && node.item.value.result.Entry? && node.item.value.result.input == item
    ensures WalkInto(disk, at, stage, rest, start) ==
      WalkStages(disk, at + [Item(number)], stage.inner, rest[1..], start[stage.itemVar := item])
  {
    hide WalkStages;
    var dir := at + [Item(number)];
    assert number in ItemNumbers(disk, at) by {
      assert dir in disk && dir[|at|] == Item(number) && at <= dir;
    }
  }

  // The walk into a stopped list loop ends in the walk into its inner stage in flight.
  lemma WalkDescends(stage: StageDef, base: Address, context: Option<LoopContext>, st: State, disk: Disk,
                     rest: Address, start: Slots,
                     items: seq<Value>, m: nat, p: Progress, s: State, b: State, names: set<Name>, j: nat, t: State)
    requires stage.Loop? && stage.over.Some? && LoopStopped(stage, base, context, st, items, m, p, s, b)
    requires SameUnder(Dispatch(stage, base, context, None, st).1.tree.disk, disk, base + [Stage(stage.name)])
    requires |rest| > 1 && rest[0] == Item(m + 1) && Distinct(stage.inner)
    requires InnerStopped(stage, base + [Stage(stage.name)], items, m, s, b, disk, rest[1..],
                          start[stage.itemVar := items[m]], names, j, t)
    ensures var dir := base + [Stage(stage.name)] + [Item(m + 1)];
      WalkInto(disk, base + [Stage(stage.name)], stage, rest, start) ==
      WalkInto(disk, dir + [Stage(stage.inner[j].name)], stage.inner[j], rest[2..],
               ReplayAll(t.tree.disk, dir, stage.inner, NamesOf(stage.inner[..j]), start[stage.itemVar := items[m]]))
  {
    hide Dispatch, RunInner, SequencesOk, Agree, RunItems, LoopItems, Recounted, ReplayAll, WalkStages, Children,
      WalkInto, LoopStopped;
    var at := base + [Stage(stage.name)];
    var dir := at + [Item(m + 1)];
    StoppedRecord(stage, base, context, st, disk, items, m, p, s, b);
    var start1 := start[stage.itemVar := items[m]];
    hide SameUnder;
    WalkIntoItem(disk, at, stage, rest, start, items[m], m + 1);
    NamesNotYet(stage.inner, j);
    ListingInFlight(stage.inner, dir, Some(FirstContext(stage, m + 1, |items|)), j, NamesOf(stage.inner[..j]), t, disk,
                    start1);
    WalkToCursor(disk, dir, stage.inner, NamesOf(stage.inner[..j]), j, rest[2..], start1);
    assert rest[1..] == [Stage(stage.inner[j].name)] + rest[2..];
  }

  lemma WalkNothing(disk: Disk, at: Address, stage: StageDef, rest: Address, slots: Slots)
    requires |rest| <= 1
    ensures WalkInto(disk, at, stage, rest, slots) == slots
  {
  }

  // Reconstruction refines execution, at any loop nesting depth.
  lemma {:induction false} StageWalk(stage: StageDef, base: Address, context: Option<LoopContext>, st: State,
                                     disk: Disk, rest: Address,
                                     start: Slots, names: set<Name>, used: set<Name>)
    requires Tidy(stage, used) && names <= used && start.Keys <= used && ListedPath(stage, rest)
    requires Clear(st.tree.disk, base + [Stage(stage.name)]) && SequencesOk(st.tree)
    requires Dispatch(stage, base, context, None, st).0.Cancelled?
    requires SameUnder(Dispatch(stage, base, context, None, st).1.tree.disk, disk, base + [Stage(stage.name)])
    requires rest != [] ==>
        HasStatus(disk, base + [Stage(stage.name)] + rest, Halted)
            && Resumable(disk, base + [Stage(stage.name)], stage, rest)
    requires Agree(start, st.slots, names)
    ensures Agree(WalkInto(disk, base + [Stage(stage.name)], stage, rest, start),
                  Dispatch(stage, base, context, None, st).1.slots,
                  Visible(stage, names, rest))
    decreases stage
  {
    hide Dispatch, RunInner, HasStatus, Scratch, SequencesOk, Agree, Resumable, RunItems, LoopItems, Recounted, Clear,
      LoopStopped, InnerStopped, RunAttempts, ItemsOnDisk, WalkInto, Distinct, Apart, ReplayAll, OutsOf;
    var at := base + [Stage(stage.name)];
    TidyScratch(stage, used, names);
    CancelledSlots(stage, base, context, st, start, names);
    if |rest| <= 1 { WalkNothing(disk, at, stage, rest, start); }
    if rest != [] {
      if !stage.Loop? {
        AtomicNotHalted(stage, base, context, st, rest);
        assert at <= at + rest;
        assert SameAt(Dispatch(stage, base, context, None, st).1.tree.disk, disk, at + rest);
        SameStatus(Dispatch(stage, base, context, None, st).1.tree.disk, disk, at + rest, Halted);
        assert false;
      }
      var items, m, p, s, b := LoopCut(stage, base, context, st);
      HaltedItem(stage, base, context, st, disk, rest, items, m, p, s, b);
      StoppedFacts(stage, base, context, st, items, m, p, s, b);
      if |rest| > 1 {
        var names1 := names + {stage.itemVar} + InnerNames(stage.inner);
        var start1 := start[stage.itemVar := items[m]];
        ItemStart(stage, st, s, items[m], start, names, used);
        TidyApart(stage, used, names1);
        var j, t := InnerInFlight(stage, base, context, st, disk, rest, items, m, p, s, b, start1, names1);
        WalkDescends(stage, base, context, st, disk, rest, start, items, m, p, s, b, names1, j, t);
        InnerFacts(stage, at, items, m, s, b, disk, rest[1..], start1, names1, j, t);
        var dir := at + [Item(m + 1)];
        var done := NamesOf(stage.inner[..j]);
        ReplayKeys(t.tree.disk, dir, stage.inner, done, start1);
        DistinctIndex(stage.inner, j);
        SplitSecond(at, rest);
        ResumableInner(disk, at, stage, rest, j);
        StageWalk(stage.inner[j], dir, Some(FirstContext(stage, m + 1, |items|)), t, disk, rest[2..],
                  ReplayAll(t.tree.disk, dir, stage.inner, done, start1), names1 + OutsOf(stage.inner, done),
                  used + OwnScratch(stage) + OutsOf(stage.inner, done));
        assert InsideNames(stage, names, j) == names1 + OutsOf(stage.inner, done);
      }
    }
  }
}
