// When reconstruction at a dispatched stage does not give back what the stage was dispatched with: each
// thing that can be wrong on the way shows in a slot, and nothing further on can repair it.
module SpoiledReconstruction {
  import opened Options
  import opened Addresses
  import opened WorkflowModel
  import opened Engine
  import opened EngineSteps
  import opened EngineRuns
  import opened Scoping
  import opened Reconstruction
  import opened FreshRuns
  import opened ReplayProof
  import opened CutProof
  import opened ReconstructionProof
  import opened ResumeProof
  import opened AttemptRecords
  import opened Reaching
  import opened Listings
  import opened ReplayAnywhere
  import opened Levels
  import opened ReachedReconstruction

  // No two stages of a list declare the same slot.
  ghost predicate OutputsApart(stages: seq<StageDef>)
  {
    forall i, k | 0 <= i < k < |stages| :: Declared(stages[i]) !! Declared(stages[k])
  }

  // The files tell whether a stage with an output is faithful to an attempt of the item: a loop was not
  // announced again since; and if it was skipped, then in the item's first attempt, and its output is a
  // slot that is cleared when the item starts.
  ghost predicate Telling(disk: Disk, at: Address, stage: StageDef, attempt: nat, cleared: set<Name>)
  {
    var node := NodeAt(disk, at);
    Declared(stage) != {} && attempt in node.attempts ==>
      if node.attempts[attempt].status == Skipped then attempt == 1 && Declared(stage) <= cleared
      else stage.Loop? ==> LastAttempt(disk, at) == attempt
  }

  // So they do for every stage before the way's own, and outputs are distinct there.
  ghost predicate Judged(disk: Disk, at: Address, stage: StageDef, rest: Address)
    decreases stage
  {
    Entering(stage, rest) ==>
      var dir, j := at + [rest[0]], IndexOf(stage.inner, rest[1].name);
      && OutputsApart(stage.inner) && JudgedBefore(disk, dir, stage, j)
      && Judged(disk, dir + [rest[1]], stage.inner[j], rest[2..])
  }

  ghost predicate JudgedBefore(disk: Disk, dir: Address, stage: StageDef, j: nat)
    requires stage.Loop? && j < |stage.inner|
  {
    forall i | 0 <= i < j ::
      Telling(disk, dir + [Stage(stage.inner[i].name)], stage.inner[i],
              LastAttempt(disk, dir + [Stage(stage.inner[j].name)]), InnerNames(stage.inner))
  }

  // ---------- what the walk can write ----------

  ghost function AllWrites(stages: seq<StageDef>): set<Name>
  {
    set k, n | 0 <= k < |stages| && n in Writes(stages[k]) :: n
  }

  lemma NamedWrites(stages: seq<StageDef>, name: Name)
    ensures var stage := StageNamed(stages, name); stage.Some? ==> Writes(stage.value) <= AllWrites(stages)
  {
    hide Writes;
    if StageNamed(stages, name).Some? {
      forall n | n in Writes(StageNamed(stages, name).value)
        ensures n in AllWrites(stages)
      {
      }
    }
  }

  lemma InnerWithin(stage: StageDef)
    requires stage.Loop?
    ensures AllWrites(stage.inner) + {stage.itemVar} <= Scratch(stage)
  {
    assert OwnScratch(stage) <= Scratch(stage);
  }

  lemma {:induction false} WalkChildrenChanges(disk: Disk, dir: Address, stages: seq<StageDef>, names: seq<Name>,
                                               cursor: Address, slots: Slots)
    ensures ChangesOnly(slots, WalkChildren(disk, dir, stages, names, cursor, slots), AllWrites(stages))
    decreases |cursor|, |names|
  {
    hide Writes, Scratch, AllWrites, Children, ReplayStage, StageNamed;
    if names == [] {
      ChangesSelf(slots, AllWrites(stages));
    } else {
      var stage := StageNamed(stages, names[0]);
      NamedWrites(stages, names[0]);
      if cursor != [] && cursor[0] == Stage(names[0]) {
        if |cursor| > 1 && stage.Some? && stage.value.Loop? {
          WalkItemsChanges(disk, dir + [cursor[0]], stage.value, cursor[1..], slots);
          WalkItemsWithin(disk, dir + [cursor[0]], stage.value, cursor[1..], slots, AllWrites(stages));
        } else {
          ChangesSelf(slots, AllWrites(stages));
        }
      } else {
        var slots1 := ReplayNamed(disk, dir, stages, names[0], slots);
        NamedChanges(disk, dir, stages, names[0], slots);
        WalkChildrenChanges(disk, dir, stages, names[1..], cursor, slots1);
        ChangesTrans(slots, slots1, WalkChildren(disk, dir, stages, names[1..], cursor, slots1), AllWrites(stages));
      }
    }
  }

  lemma WalkItemsWithin(disk: Disk, at: Address, stage: StageDef, cursor: Address, slots: Slots, names: set<Name>)
    requires stage.Loop? && cursor != [] && Writes(stage) <= names
    requires ChangesOnly(slots, WalkItems(disk, at, stage, cursor, slots), Scratch(stage))
    ensures ChangesOnly(slots, WalkItems(disk, at, stage, cursor, slots), names)
  {
    assert Scratch(stage) <= Writes(stage);
    hide Scratch, Writes, WalkItems;
    ChangesWiden(slots, WalkItems(disk, at, stage, cursor, slots), Scratch(stage), names);
  }

  lemma NamedChanges(disk: Disk, dir: Address, stages: seq<StageDef>, name: Name, slots: Slots)
    ensures ChangesOnly(slots, ReplayNamed(disk, dir, stages, name, slots), AllWrites(stages))
  {
    hide ReplayStage, StageNamed, AllWrites, Scratch;
    var stage := StageNamed(stages, name);
    NamedWrites(stages, name);
    if stage.Some? {
      ReplayChanges(disk, dir + [Stage(name)], stage.value, slots);
      assert Declared(stage.value) <= Writes(stage.value);
      hide Declared, Writes;
      ChangesWiden(slots, ReplayStage(disk, dir + [Stage(name)], stage.value, slots), Declared(stage.value),
                   AllWrites(stages));
    } else {
      ChangesSelf(slots, AllWrites(stages));
    }
  }

  lemma {:induction false} WalkItemsChanges(disk: Disk, at: Address, stage: StageDef, cursor: Address, slots: Slots)
    requires stage.Loop? && cursor != []
    ensures ChangesOnly(slots, WalkItems(disk, at, stage, cursor, slots), Scratch(stage))
    decreases |cursor|
  {
    InnerWithin(stage);
    hide Writes, Scratch, AllWrites, Children, ItemNumbers;
    if cursor[0].Item? && |cursor| > 1 && cursor[0].number in ItemNumbers(disk, at) {
      var dir := at + [cursor[0]];
      var slots1 := Bound(disk, dir, stage.itemVar, slots);
      WalkChildrenChanges(disk, dir, stage.inner, Children(disk, dir), cursor[1..], slots1);
      var walked := WalkStages(disk, dir, stage.inner, cursor[1..], slots1);
      assert walked == WalkItems(disk, at, stage, cursor, slots);
      assert ChangesOnly(slots, slots1, Scratch(stage));
      hide WalkStages;
      ChangesWiden(slots1, walked, AllWrites(stage.inner), Scratch(stage));
      ChangesTrans(slots, slots1, walked, Scratch(stage));
    } else {
      ChangesSelf(slots, Scratch(stage));
    }
  }

  lemma WalkIntoChanges(disk: Disk, at: Address, stage: StageDef, rest: Address, slots: Slots)
    ensures ChangesOnly(slots, WalkInto(disk, at, stage, rest, slots), Scratch(stage))
  {
    hide WalkItems, Scratch;
    if rest != [] && stage.Loop? {
      WalkItemsChanges(disk, at, stage, rest, slots);
    } else {
      ChangesSelf(slots, Scratch(stage));
    }
  }

  // ---------- one slot through a pass and through its replay ----------

  // The state in which a pass announces an earlier stage.
  lemma {:induction false} PassThrough(stage: StageDef, k: nat, dir: Address, context: LoopContext, st: State, i: nat,
                                       j: nat)
    requires stage.Loop? && k <= i < j < |stage.inner| && PassReached(stage, k, dir, context, st, j).Some?
    ensures var s := PassReached(stage, k, dir, context, st, i);
      s.Some? && PassReached(stage, i, dir, context, s.value, j) == PassReached(stage, k, dir, context, st, j)
    decreases i - k
  {
    hide Dispatch, Gate;
    var (flow, st1) := Dispatch(stage.inner[k], dir, Some(context), None, st);
    if k == i {
      NextNotBroken(stage.inner[k], dir, Some(context), st);
    } else {
      PassThrough(stage, k + 1, dir, context, st1, i, j);
    }
  }

  lemma {:induction false} PassKeepsSlot(stage: StageDef, k: nat, dir: Address, context: LoopContext, st: State, j: nat,
                                         o: Name)
    requires stage.Loop? && k <= j < |stage.inner| && PassReached(stage, k, dir, context, st, j).Some?
    requires forall q | k <= q < j :: o !in Writes(stage.inner[q])
    ensures SameSlot(st.slots, PassReached(stage, k, dir, context, st, j).value.slots, o)
    decreases j - k
  {
    hide Dispatch, Gate, Writes, Scratch;
    if k < j {
      var (flow, st1) := Dispatch(stage.inner[k], dir, Some(context), None, st);
      DispatchQuiet(stage.inner[k], dir, Some(context), st);
      QuietChanges(st, st1, Touched(stage.inner[k], flow), false);
      assert SameSlot(st.slots, st1.slots, o);
      PassKeepsSlot(stage, k + 1, dir, context, st1, j, o);
    }
  }

  lemma SlotThrough(a: Slots, b: Slots, c: Slots, o: Name)
    requires (SameSlot(a, b, o) || a == b) && (SameSlot(b, c, o) || b == c)
    ensures SameSlot(a, c, o)
  {
  }

  // Replaying the stages after inner stage i leaves its output alone.
  lemma {:induction false} ReplayKeepsSlot(disk: Disk, dir: Address, stages: seq<StageDef>, i: nat, j: nat,
                                           start: Slots,
                                           o: Name)
    requires Distinct(stages) && i <= j <= |stages| && forall q | i <= q < j :: o !in Declared(stages[q])
    ensures SameSlot(ReplayAll(disk, dir, stages, NamesOf(stages[..i]), start),
                     ReplayAll(disk, dir, stages, NamesOf(stages[..j]), start), o)
    decreases j - i
  {
    hide ReplayStage, Declared, ReplayAll, SameSlot, Distinct;
    if i < j {
      ReplayKeepsSlot(disk, dir, stages, i, j - 1, start, o);
      ReplayNext(disk, dir, stages, j - 1, start);
      var before := ReplayAll(disk, dir, stages, NamesOf(stages[..j - 1]), start);
      ReplayChanges(disk, dir + [Stage(stages[j - 1].name)], stages[j - 1], before);
      SlotThrough(ReplayAll(disk, dir, stages, NamesOf(stages[..i]), start), before,
                  ReplayStage(disk, dir + [Stage(stages[j - 1].name)], stages[j - 1], before), o);
    } else {
      SlotThrough(ReplayAll(disk, dir, stages, NamesOf(stages[..i]), start),
                  ReplayAll(disk, dir, stages, NamesOf(stages[..i]), start),
                  ReplayAll(disk, dir, stages, NamesOf(stages[..i]), start), o);
    }
  }

  lemma ReplayNext(disk: Disk, dir: Address, stages: seq<StageDef>, k: nat, start: Slots)
    requires Distinct(stages) && k < |stages|
    ensures ReplayAll(disk, dir, stages, NamesOf(stages[..k + 1]), start) ==
      ReplayStage(disk, dir + [Stage(stages[k].name)], stages[k],
                  ReplayAll(disk, dir, stages, NamesOf(stages[..k]), start))
  {
    hide ReplayStage;
    NamesOfNext(stages, k);
    DistinctIndex(stages, k);
    var done := NamesOf(stages[..k]);
    assert (done + [stages[k].name])[..k] == done;
  }

  // Inner stages after stage i do not write its output; those before do not when it is cleared.
  lemma OutputAlone(stage: StageDef, used: set<Name>, i: nat, q: nat, o: Name)
    requires stage.Loop? && Tidy(stage, used) && OutputsApart(stage.inner) && i < |stage.inner| && q < |stage.inner|
    requires o in Declared(stage.inner[i]) && i != q && (i < q || o in InnerNames(stage.inner))
    ensures o !in Writes(stage.inner[q])
  {
    TidyInner(stage, used, q);
    var outs := OutsOf(stage.inner, NamesOf(stage.inner[..q]));
    TidyScratch(stage.inner[q], used + OwnScratch(stage) + outs, used + OwnScratch(stage) + outs);
    if i < q {
      OutsHas(stage.inner, i, q, o);
    }
    assert Declared(stage.inner[i]) !! Declared(stage.inner[q]);
  }

  lemma {:induction false} OutsHas(stages: seq<StageDef>, i: nat, q: nat, o: Name)
    requires Distinct(stages) && i < q <= |stages| && o in Declared(stages[i])
    ensures o in OutsOf(stages, NamesOf(stages[..q]))
    decreases q
  {
    hide Declared, OutsOf, Distinct;
    OutsNext(stages, q - 1);
    if i < q - 1 { OutsHas(stages, i, q - 1, o); }
  }

  lemma OutsNext(stages: seq<StageDef>, k: nat)
    requires Distinct(stages) && k < |stages|
    ensures OutsOf(stages, NamesOf(stages[..k + 1])) == OutsOf(stages, NamesOf(stages[..k])) + Declared(stages[k])
  {
    hide Declared;
    NamesOfNext(stages, k);
    DistinctIndex(stages, k);
    var done := NamesOf(stages[..k]);
    assert (done + [stages[k].name])[..k] == done;
  }

  // ---------- an unfaithful stage ----------

  lemma OneOutput(stage: StageDef, o: Name)
    requires o in Declared(stage)
    ensures Declared(stage) == {o} && !stage.Branch? && (stage.Loop? ==> stage.over.Some?)
    ensures stage.Work? || stage.Loop? ==> stage.output == Some(o)
    ensures stage.Nested? ==> stage.name == o
  {
  }

  // What replaying a recorded stage writes to its output.
  lemma ReplayWrites(disk: Disk, at: Address, stage: StageDef, slots: Slots, o: Name)
    requires o in Declared(stage) && NodeAt(disk, at).meta.Some? && LastAttempt(disk, at) in NodeAt(disk, at).attempts
    ensures var replayed := ReplayStage(disk, at, stage, slots);
      o in replayed && replayed[o] == if stage.Loop? then RecordedAggregate(disk, at)
                                      else NodeAt(disk, at).attempts[LastAttempt(disk, at)].result
  {
    hide ItemEntries, SortedNumbers, ItemNumbers;
    OneOutput(stage, o);
  }

  // A stage that was skipped, announced next by a pass in which its output is not live.
  lemma SkippedDiffers(stage: StageDef, dir: Address, context: LoopContext, st: State, disk: Disk, slots: Slots,
                       o: Name)
    requires Gate(stage, st.slots).Fails? && o in Declared(stage) && o !in st.slots
    requires var zone := dir + [Stage(stage.name)];
      NodeAt(disk, zone).meta.Some? && LastAttempt(disk, zone) in NodeAt(disk, zone).attempts
    ensures !SameSlot(ReplayStage(disk, dir + [Stage(stage.name)], stage, slots),
                      Dispatch(stage, dir, Some(context), None, st).1.slots, o)
  {
    hide ReplayStage, Declared, PathOf, Gate, Dispatch, Entered, Leave;
    var at := dir + [Stage(stage.name)];
    ReplayWrites(disk, at, stage, slots, o);
    DispatchSkips(stage, dir, Some(context), None, st);
    EnteredSlots(stage, dir, Some(context), st);
    LeaveSlots(Entered(stage, dir, Some(context), st), at, Count(st.counters, PathOf(at)) + 1, Some(context), Skipped,
               Null);
  }

  // A stage without items whose last result is another than that of the attempt.
  lemma ResultDiffers(stage: StageDef, dir: Address, context: LoopContext, st: State, disk: Disk, slots: Slots, o: Name)
    requires !stage.Loop? && o in Declared(stage) && Gate(stage, st.slots).Holds?
    requires Dispatch(stage, dir, Some(context), None, st).0.Next?
    requires var zone := dir + [Stage(stage.name)];
      var (flow, st1) := Dispatch(stage, dir, Some(context), None, st);
      && LeftBy(st1.tree.disk, disk, zone, context.attempt, EndStatus(stage, flow, st.slots), flow.result)
      && NodeAt(disk, zone).attempts[LastAttempt(disk, zone)].result != flow.result
    ensures !SameSlot(ReplayStage(disk, dir + [Stage(stage.name)], stage, slots),
                      Dispatch(stage, dir, Some(context), None, st).1.slots, o)
  {
    hide ReplayStage, Declared, Gate, Dispatch, Superseded, Scratch;
    var zone := dir + [Stage(stage.name)];
    var (flow, st1) := Dispatch(stage, dir, Some(context), None, st);
    AgreeNothing(st.slots);
    StageReplays(stage, dir, Some(context), st, st.slots, {});
    ReplayWrites(disk, zone, stage, slots, o);
    ReplayWrites(st1.tree.disk, zone, stage, st.slots, o);
    assert SameSlot(ReplayStage(st1.tree.disk, zone, stage, st.slots), st1.slots, o);
  }

  lemma AgreeNothing(s: Slots)
    ensures Agree(s, s, {})
  {
  }

  // A loop not announced again, of which more item results are left than it had items.
  lemma ItemsDiffer(stage: StageDef, dir: Address, context: LoopContext, st: State, disk: Disk, slots: Slots, o: Name)
    requires stage.Loop? && o in Declared(stage) && Gate(stage, st.slots).Holds?
    requires Dispatch(stage, dir, Some(context), None, st).0.Next?
    requires var zone := dir + [Stage(stage.name)];
      var (flow, st1) := Dispatch(stage, dir, Some(context), None, st);
      && LeftBy(st1.tree.disk, disk, zone, context.attempt, EndStatus(stage, flow, st.slots), flow.result)
      && LastAttempt(disk, zone) == context.attempt && !Faithful(disk, zone, stage, context.attempt)
    ensures !SameSlot(ReplayStage(disk, dir + [Stage(stage.name)], stage, slots),
                      Dispatch(stage, dir, Some(context), None, st).1.slots, o)
  {
    hide ReplayStage, Gate, Dispatch, Superseded, Scratch, ItemEntries, SortedNumbers, ItemNumbers, OnlyItems,
      ItemsClosed, Recounted;
    var zone := dir + [Stage(stage.name)];
    var (flow, st1) := Dispatch(stage, dir, Some(context), None, st);
    OneOutput(stage, o);
    LeftFiles(st1.tree.disk, disk, zone, context.attempt);
    LoopLeaves(stage, dir, Some(context), st);
    ReplayLocal(st1.tree.disk, disk, zone, stage, slots);
    ReplayWrites(disk, zone, stage, slots, o);
    ReplayWrites(st1.tree.disk, zone, stage, slots, o);
    if OnlyItems(st1.tree.disk, zone, flow.result.total) {
      SameUnderBack(st1.tree.disk, disk, zone);
      ItemsBack(disk, st1.tree.disk, zone, flow.result.total);
    } else {
      EntriesMore(st1.tree.disk, zone, flow.result.total);
    }
  }

  lemma SameUnderBack(d: Disk, d': Disk, zone: Address)
    requires SameUnder(d, d', zone)
    ensures SameUnder(d', d, zone)
  {
    forall a: Address | zone <= a
      ensures SameAt(d', d, a)
    {
      assert SameAt(d, d', a);
    }
  }

  // An unfaithful stage, right after the pass has run it: its output is another than what its files
  // replay to.
  lemma StageDiffers(stage: StageDef, i: nat, dir: Address, context: LoopContext, st: State, j: nat, disk: Disk,
                     slots: Slots)
    returns (o: Name)
    requires stage.Loop? && i < j < |stage.inner| && Distinct(stage.inner)
    requires PassReached(stage, i, dir, context, st, j).Some?
    requires var zone := dir + [Stage(stage.inner[i].name)];
      && Superseded(PassReached(stage, i, dir, context, st, j).value.tree.disk, disk, zone, context.attempt)
      && !Faithful(disk, zone, stage.inner[i], context.attempt)
      && Telling(disk, zone, stage.inner[i], context.attempt, InnerNames(stage.inner))
    requires context.attempt == 1 ==> forall n | n in Declared(stage.inner[i]) && n in InnerNames(stage.inner) ::
        n !in st.slots
    ensures var (flow, st1) := Dispatch(stage.inner[i], dir, Some(context), None, st);
      && flow.Next? && PassReached(stage, i + 1, dir, context, st1, j) == PassReached(stage, i, dir, context, st, j)
      && o in Declared(stage.inner[i])
      && !SameSlot(ReplayStage(disk, dir + [Stage(stage.inner[i].name)], stage.inner[i], slots), st1.slots, o)
  {
    hide Dispatch, Gate, Superseded, PassReached, ReplayStage, OnlyItems;
    var inner := stage.inner[i];
    var zone := dir + [Stage(inner.name)];
    var (flow, st1) := Dispatch(inner, dir, Some(context), None, st);
    StageLeft(stage, i, dir, context, st, j, disk);
    NextNotBroken(inner, dir, Some(context), st);
    o :| o in Declared(inner);
    if Gate(inner, st.slots).Fails? {
      SkippedDiffers(inner, dir, context, st, disk, slots, o);
    } else if inner.Loop? {
      ItemsDiffer(inner, dir, context, st, disk, slots, o);
    } else {
      ResultDiffers(inner, dir, context, st, disk, slots, o);
    }
  }

  // An unfaithful stage on a level, seen where the level leads to.
  lemma LevelDiffers(stage: StageDef, base: Address, context: Option<LoopContext>, st: State, disk: Disk, rest: Address,
                     items: seq<Value>, m: nat, s: State, pass: LoopContext, s1: State, t: State, j: nat, i: nat,
                     start: Slots, used: set<Name>)
    returns (o: Name)
    requires stage.Loop? && Level(stage, base, context, st, disk, rest, items, m, s, pass, s1, t, j)
    requires Tidy(stage, used) && OutputsApart(stage.inner) && i < j < |stage.inner|
    requires var zone := base + [Stage(stage.name)] + [Item(m + 1)] + [Stage(stage.inner[i].name)];
      && !Faithful(disk, zone, stage.inner[i], pass.attempt)
      && Telling(disk, zone, stage.inner[i], pass.attempt, InnerNames(stage.inner))
    ensures o in Declared(stage.inner[i]) && o !in Scratch(stage.inner[j])
    ensures var dir := base + [Stage(stage.name)] + [Item(m + 1)];
      !SameSlot(ReplayAll(disk, dir, stage.inner, NamesOf(stage.inner[..j]), start), t.slots, o)
  {
    hide Dispatch, Scratch, SequencesOk, Level, Tidy, StageReached, Sorted, Gate, Named, ReplayAll, Superseded,
      Faithful, PassReached, Telling, OutputsApart, Declared, Writes, ReplayStage, InnerWrites, RetryNames;
    var dir := base + [Stage(stage.name)] + [Item(m + 1)];
    TidyNamed(stage, used);
    TidyDistinct(stage, used);
    LevelParts(stage, base, context, st, disk, rest, items, m, s, pass, s1, t, j);
    LevelStart(stage, base, context, st, disk, rest, items, m, s, pass, s1, t, j);
    LevelEarlier(stage, base, context, st, disk, rest, items, m, s, pass, s1, t, j, i);
    PassThrough(stage, 0, dir, pass, s1, i, j);
    var si := PassReached(stage, 0, dir, pass, s1, i).value;
    if pass.attempt == 1 { NotYetLive(stage, items, m, s, dir, pass, i, used); }
    o := StageDiffers(stage, i, dir, pass, si, j, disk,
                      ReplayAll(disk, dir, stage.inner, NamesOf(stage.inner[..i]), start));
    var st1 := Dispatch(stage.inner[i], dir, Some(pass), None, si).1;
    forall q | i < q < |stage.inner|
      ensures o !in Writes(stage.inner[q]) && o !in Declared(stage.inner[q]) && o !in Scratch(stage.inner[q])
    {
      OutputAlone(stage, used, i, q, o);
      WritesParts(stage.inner[q]);
    }
    PassKeepsSlot(stage, i + 1, dir, pass, st1, j, o);
    ReplayNext(disk, dir, stage.inner, i, start);
    ReplayKeepsSlot(disk, dir, stage.inner, i + 1, j, start, o);
  }

  lemma WritesParts(stage: StageDef)
    ensures Writes(stage) == Declared(stage) + Scratch(stage)
  {
  }

  // In an item's first attempt, an output that is an inner stage name is not live before its stage runs.
  lemma NotYetLive(stage: StageDef, items: seq<Value>, m: nat, s: State, dir: Address, pass: LoopContext, i: nat,
                   used: set<Name>)
    requires stage.Loop? && m < |items| && i < |stage.inner| && Tidy(stage, used) && OutputsApart(stage.inner)
    requires PassReached(stage, 0, dir, pass, Prepared(stage, items, m, s), i).Some?
    ensures forall n | n in Declared(stage.inner[i]) && n in InnerNames(stage.inner) ::
      n !in PassReached(stage, 0, dir, pass, Prepared(stage, items, m, s), i).value.slots
  {
    hide Scratch, Tidy, PassReached, OutputsApart, Declared, Writes, InnerNames;
    var entry := Prepared(stage, items, m, s);
    forall n | n in Declared(stage.inner[i]) && n in InnerNames(stage.inner)
      ensures n !in PassReached(stage, 0, dir, pass, entry, i).value.slots
    {
      forall q | 0 <= q < i
        ensures n !in Writes(stage.inner[q])
      {
        OutputAlone(stage, used, i, q, n);
      }
      PassKeepsSlot(stage, 0, dir, pass, entry, i, n);
      assert n !in entry.slots;
    }
  }

  // ---------- the whole way ----------

  lemma LevelSlot(rebuilt: Slots, found: Slots, x: Slots, t: Slots, o: Name, touched: set<Name>, shown: set<Name>)
    requires ChangesOnly(x, rebuilt, touched) && ChangesOnly(t, found, touched) && o !in touched
    requires !SameSlot(x, t, o) && o in shown
    ensures !Agree(rebuilt, found, shown)
  {
    assert SameSlot(x, rebuilt, o) && SameSlot(t, found, o);
    assert !SameSlot(rebuilt, found, o);
  }

  // Where the way is not intact, a slot in view is rebuilt to something else than the stage was last
  // dispatched with.
  lemma {:induction false} StageSpoiled(stage: StageDef, base: Address, context: Option<LoopContext>, st: State,
                                        disk: Disk, rest: Address, start: Slots, names: set<Name>, used: set<Name>,
                                        found: State)
    requires Tidy(stage, used) && start.Keys <= used && ListedPath(stage, rest)
    requires SequencesOk(st.tree) && Sorted(st.tree.disk, base + [Stage(stage.name)], stage)
    requires SameUnder(Dispatch(stage, base, context, None, st).1.tree.disk, disk, base + [Stage(stage.name)])
    requires StageReached(stage, base, context, st, rest) == Some(found) && !Gate(stage, st.slots).Broken?
    requires Own(disk, base + [Stage(stage.name)], stage, rest, found.slots)
    requires Judged(disk, base + [Stage(stage.name)], stage, rest)
    requires !Intact(disk, base + [Stage(stage.name)], stage, rest)
    ensures !Agree(WalkInto(disk, base + [Stage(stage.name)], stage, rest, start), found.slots,
                   Shown(disk, base + [Stage(stage.name)], stage, names, rest))
    decreases stage
  {
    hide Dispatch, Scratch, SequencesOk, Level, Tidy, StageReached, Sorted, Gate, Named, Agree, WalkInto, Intact, Own,
      Shown, OutsOf, ReplayAll, ItemNames, IntactBefore, ListedPath, Judged, JudgedBefore, OutputsApart, Bound;
    var at := base + [Stage(stage.name)];
    if rest == [] {
      IntactHere(disk, at, stage);
    } else {
      TidyNamed(stage, used);
      var items, m, s, pass, s1, t, j := ReachedLevel(stage, base, context, st, disk, rest);
      LevelParts(stage, base, context, st, disk, rest, items, m, s, pass, s1, t, j);
      LevelStart(stage, base, context, st, disk, rest, items, m, s, pass, s1, t, j);
      LevelStage(stage, base, context, st, disk, rest, items, m, s, pass, s1, t, j);
      LevelListed(stage, base, context, st, disk, rest, items, m, s, pass, s1, t, j);
      TidyInner(stage, used, j);
      ListedOver(stage, rest);
      ListedInner(stage, rest, j);
      var dir := at + [Item(m + 1)];
      var done := NamesOf(stage.inner[..j]);
      var used1 := used + OwnScratch(stage) + OutsOf(stage.inner, done);
      StageFound(stage.inner[j], dir, Some(pass), t, disk, rest[2..], used1, found);
      WayParts(disk, at, stage, names, rest, found.slots, j);
      WayIntact(disk, at, stage, rest, j);
      WayJudged(disk, at, stage, rest, j);
      var names1 := ItemNames(stage, names, pass.attempt) + OutsOf(stage.inner, done);
      ShownKeeps(disk, dir + [Stage(stage.inner[j].name)], stage.inner[j], names1, rest[2..]);
      if NodeAt(disk, dir).item.None? || !IntactBefore(disk, dir, stage, j) {
        LevelSpoiled(stage, base, context, st, disk, rest, items, m, s, pass, s1, t, j, start,
                     Shown(disk, at, stage, names, rest), names, used, found);
      } else {
        WalkLevel(disk, at, stage, rest, start, m + 1, j);
        var start1 := Bound(disk, dir, stage.itemVar, start);
        BoundKeys(disk, dir, stage.itemVar, start);
        ReplayKeys(disk, dir, stage.inner, done, start1);
        UsedInside(stage, {}, used, 0);
        StageSpoiled(stage.inner[j], dir, Some(pass), t, disk, rest[2..],
                     ReplayAll(disk, dir, stage.inner, done, start1), names1, used1, found);
      }
    }
  }

  lemma BoundKeys(disk: Disk, dir: Address, itemVar: Name, start: Slots)
    ensures Bound(disk, dir, itemVar, start).Keys <= start.Keys + {itemVar}
    ensures NodeAt(disk, dir).item.None? ==> Bound(disk, dir, itemVar, start) == start
  {
  }

  lemma IntactHere(disk: Disk, at: Address, stage: StageDef)
    ensures Intact(disk, at, stage, [])
  {
  }

  lemma WayJudged(disk: Disk, at: Address, stage: StageDef, rest: Address, j: nat)
    requires stage.Loop? && Distinct(stage.inner) && |rest| > 1 && rest[0].Item?
    requires j < |stage.inner| && rest[1] == Stage(stage.inner[j].name) && Judged(disk, at, stage, rest)
    ensures var dir := at + [rest[0]];
      && OutputsApart(stage.inner) && JudgedBefore(disk, dir, stage, j)
      && Judged(disk, dir + [rest[1]], stage.inner[j], rest[2..])
  {
    hide OutputsApart, JudgedBefore;
    DistinctIndex(stage.inner, j);
  }

  // One level of it.
  lemma LevelSpoiled(stage: StageDef, base: Address, context: Option<LoopContext>, st: State, disk: Disk, rest: Address,
                     items: seq<Value>, m: nat, s: State, pass: LoopContext, s1: State, t: State, j: nat,
                     start: Slots, shown: set<Name>, names: set<Name>, used: set<Name>, found: State)
    requires stage.Loop? && stage.over.Some?
    requires Level(stage, base, context, st, disk, rest, items, m, s, pass, s1, t, j)
    requires Tidy(stage, used) && start.Keys <= used && OutputsApart(stage.inner)
    requires ChangesOnly(t.slots, found.slots, Scratch(stage.inner[j]))
    requires ItemNames(stage, names, pass.attempt) + OutsOf(stage.inner, NamesOf(stage.inner[..j])) <= shown
    requires var dir := base + [Stage(stage.name)] + [Item(m + 1)];
      && JudgedBefore(disk, dir, stage, j)
      && (NodeAt(disk, dir).item.None? || !IntactBefore(disk, dir, stage, j))
    ensures !Agree(WalkInto(disk, base + [Stage(stage.name)], stage, rest, start), found.slots, shown)
  {
    hide Dispatch, Scratch, SequencesOk, Level, Tidy, StageReached, Sorted, Gate, Named, Agree, WalkInto, OutsOf,
      ReplayAll, ItemNames, OutputsApart, Bound, Telling, Faithful, Declared;
    var at := base + [Stage(stage.name)];
    TidyNamed(stage, used);
    LevelParts(stage, base, context, st, disk, rest, items, m, s, pass, s1, t, j);
    LevelStage(stage, base, context, st, disk, rest, items, m, s, pass, s1, t, j);
    LevelListed(stage, base, context, st, disk, rest, items, m, s, pass, s1, t, j);
    TidyDistinct(stage, used);
    var dir := at + [Item(m + 1)];
    var zone := dir + [Stage(stage.inner[j].name)];
    WalkLevel(disk, at, stage, rest, start, m + 1, j);
    var start1 := ReplayAll(disk, dir, stage.inner, NamesOf(stage.inner[..j]), Bound(disk, dir, stage.itemVar, start));
    var rebuilt := WalkInto(disk, zone, stage.inner[j], rest[2..], start1);
    WalkIntoChanges(disk, zone, stage.inner[j], rest[2..], start1);
    if NodeAt(disk, dir).item.None? {
      LevelStart(stage, base, context, st, disk, rest, items, m, s, pass, s1, t, j);
      VariableLive(stage, items, m, j, s, s1.slots, t.slots, found.slots, used);
      VariableMissing(disk, dir, stage, j, start, rebuilt, used);
      VariableShown(stage, names, pass.attempt);
      assert !SameSlot(rebuilt, found.slots, stage.itemVar);
      NotAgree(rebuilt, found.slots, stage.itemVar, shown);
    } else {
      assert LastAttempt(disk, zone) == pass.attempt;
      var i :| 0 <= i < j && !Faithful(disk, dir + [Stage(stage.inner[i].name)], stage.inner[i], pass.attempt);
      var o := LevelDiffers(stage, base, context, st, disk, rest, items, m, s, pass, s1, t, j, i,
                            Bound(disk, dir, stage.itemVar, start), used);
      OutsHas(stage.inner, i, j, o);
      LevelSlot(rebuilt, found.slots, start1, t.slots, o, Scratch(stage.inner[j]), shown);
    }
  }

  lemma VariableShown(stage: StageDef, names: set<Name>, attempt: nat)
    requires stage.Loop?
    ensures stage.itemVar in ItemNames(stage, names, attempt)
  {
  }

  lemma NotAgree(rebuilt: Slots, found: Slots, o: Name, shown: set<Name>)
    requires !SameSlot(rebuilt, found, o) && o in shown
    ensures !Agree(rebuilt, found, shown)
  {
  }

  // Without an item result the walk does not bind the item variable.
  lemma VariableMissing(disk: Disk, dir: Address, stage: StageDef, j: nat, start: Slots, rebuilt: Slots,
                        used: set<Name>)
    requires stage.Loop? && Tidy(stage, used) && start.Keys <= used && j < |stage.inner|
    requires NodeAt(disk, dir).item.None?
    requires ChangesOnly(ReplayAll(disk, dir, stage.inner, NamesOf(stage.inner[..j]),
                                   Bound(disk, dir, stage.itemVar, start)), rebuilt, Scratch(stage.inner[j]))
    ensures stage.itemVar !in rebuilt
  {
    BoundKeys(disk, dir, stage.itemVar, start);
    ReplayKeys(disk, dir, stage.inner, NamesOf(stage.inner[..j]), start);
    TidyOwn(stage, used);
    UsedInside(stage, {}, used, 0);
    TidyScratch(stage, used, used);
    OutsWritten(stage, j);
    InnerScratch(stage, j);
    assert OwnScratch(stage) <= Scratch(stage);
    hide Tidy, Scratch, InnerWrites, OutsOf, ReplayAll, Bound, OwnScratch;
    var replayed := ReplayAll(disk, dir, stage.inner, NamesOf(stage.inner[..j]), start);
    assert stage.itemVar !in replayed;
    assert SameSlot(replayed, rebuilt, stage.itemVar);
  }

  lemma {:induction false} OutsWritten(stage: StageDef, j: nat)
    requires stage.Loop? && j <= |stage.inner|
    ensures OutsOf(stage.inner, NamesOf(stage.inner[..j])) <= InnerWrites(stage)
    decreases j
  {
    hide InnerWrites, Declared, Writes;
    if j > 0 {
      OutsWritten(stage, j - 1);
      NamesOfNext(stage.inner, j - 1);
      var done := NamesOf(stage.inner[..j - 1]);
      assert (done + [stage.inner[j - 1].name])[..j - 1] == done;
      var k := IndexOf(stage.inner, stage.inner[j - 1].name);
      if k < |stage.inner| { DeclaredInner(stage, k); }
    }
  }

  lemma DeclaredInner(stage: StageDef, k: nat)
    requires stage.Loop? && k < |stage.inner|
    ensures Declared(stage.inner[k]) <= InnerWrites(stage)
  {
    assert Declared(stage.inner[k]) <= Writes(stage.inner[k]);
    hide Declared, Writes;
    forall n | n in Writes(stage.inner[k])
      ensures n in InnerWrites(stage)
    {
    }
  }
}
