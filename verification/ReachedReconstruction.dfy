// Reconstruction at any stage a fresh run dispatched, at any loop nesting depth, in any attempt and
// however the run ended: what it rebuilds, and when that is what the stage was dispatched with.
module ReachedReconstruction {
  import opened Options
  import opened Addresses
  import opened WorkflowModel
  import opened Engine
  import opened EngineSteps
  import opened EngineRuns
  import opened Scoping
  import opened Reconstruction
  import opened FreshRuns
  import opened ReplayProof
  import opened CutProof
  import opened ReconstructionProof
  import opened ResumeProof
  import opened AttemptRecords
  import opened Reaching
  import opened Entries
  import opened Listings
  import opened ReplayAnywhere
  import opened Levels

  // ---------- what can be checked on disk ----------

  // The attempt a recorded stage was last announced in.
  function LastAttempt(disk: Disk, at: Address): nat
  {
    var node := NodeAt(disk, at);
    if node.meta.Some? then node.meta.value.attemptCount else 0
  }

  // The files of a stage with an output still replay to what it wrote in the given attempt: it was not
  // skipped then, and its last attempt had the same result - for a loop, it is its last attempt, and no
  // item result beyond that attempt's items is left.
  ghost predicate Faithful(disk: Disk, at: Address, stage: StageDef, attempt: nat)
  {
    Declared(stage) != {} ==>
      var node := NodeAt(disk, at);
      var last := LastAttempt(disk, at);
      && node.meta.Some? && attempt in node.attempts && node.attempts[attempt].status != Skipped
      && if stage.Loop? then
           last == attempt && node.attempts[attempt].result.Tally?
               && OnlyItems(disk, at, node.attempts[attempt].result.total)
         else last in node.attempts && node.attempts[last].result == node.attempts[attempt].result
  }

  // ---------- replaying the stages before the cursor's own ----------

  // The files a dispatch has left, as the end of the run shows them.
  ghost predicate LeftBy(d: Disk, disk: Disk, zone: Address, attempt: nat, status: Status, result: Value)
  {
    && Superseded(d, disk, zone, attempt)
    && NodeAt(d, zone).meta.Some? && NodeAt(d, zone).meta.value.attemptCount == attempt
    && attempt in NodeAt(d, zone).attempts && attempt in NodeAt(disk, zone).attempts
    && NodeAt(disk, zone).attempts[attempt] == NodeAt(d, zone).attempts[attempt]
    && NodeAt(d, zone).attempts[attempt].status == status && NodeAt(d, zone).attempts[attempt].result == result
    && NodeAt(disk, zone).meta.Some? && LastAttempt(disk, zone) in NodeAt(disk, zone).attempts
  }

  lemma StageLeft(stage: StageDef, k: nat, dir: Address, context: LoopContext, st: State, j: nat, disk: Disk)
    requires stage.Loop? && k < j < |stage.inner| && Distinct(stage.inner)
    requires PassReached(stage, k, dir, context, st, j).Some?
    requires Superseded(PassReached(stage, k, dir, context, st, j).value.tree.disk, disk,
                        dir + [Stage(stage.inner[k].name)], context.attempt)
    ensures var (flow, st1) := Dispatch(stage.inner[k], dir, Some(context), None, st);
      && flow.Next? && PassReached(stage, k + 1, dir, context, st1, j) == PassReached(stage, k, dir, context, st, j)
      && LeftBy(st1.tree.disk, disk, dir + [Stage(stage.inner[k].name)], context.attempt,
                EndStatus(stage.inner[k], flow, st.slots), flow.result)
  {
    hide Dispatch, Gate, PathOf, Superseded;
    var inner := stage.inner[k];
    var zone := dir + [Stage(inner.name)];
    var (flow, st1) := Dispatch(inner, dir, Some(context), None, st);
    var t := PassReached(stage, k + 1, dir, context, st1, j).value;
    NextNotBroken(inner, dir, Some(context), st);
    DispatchFiles(inner, dir, Some(context), st);
    PassKeeps(stage, k + 1, dir, context, st1, j, inner.name);
    SupersededSame(st1.tree.disk, t.tree.disk, zone, context.attempt);
    SupersededTrans(st1.tree.disk, t.tree.disk, disk, zone, context.attempt, context.attempt);
    LeftFiles(st1.tree.disk, disk, zone, context.attempt);
  }

  lemma LeftFiles(d: Disk, disk: Disk, zone: Address, attempt: nat)
    requires Superseded(d, disk, zone, attempt)
    requires NodeAt(d, zone).meta.Some? && NodeAt(d, zone).meta.value.attemptCount == attempt
    requires attempt in NodeAt(d, zone).attempts
    ensures attempt in NodeAt(disk, zone).attempts
        && NodeAt(disk, zone).attempts[attempt] == NodeAt(d, zone).attempts[attempt]
    ensures NodeAt(disk, zone).meta.Some? && LastAttempt(disk, zone) in NodeAt(disk, zone).attempts
    ensures LastAttempt(disk, zone) == attempt ==> SameUnder(d, disk, zone)
  {
    if SameUnder(d, disk, zone) { assert SameAt(d, disk, zone); }
  }

  // Faithful files replay to the same write.
  lemma SameReplay(d: Disk, disk: Disk, zone: Address, stage: StageDef, attempt: nat, status: Status, result: Value,
                   slots: Slots)
    requires LeftBy(d, disk, zone, attempt, status, result) && Faithful(disk, zone, stage, attempt)
    ensures ReplayStage(d, zone, stage, slots) == ReplayStage(disk, zone, stage, slots)
  {
    hide Superseded, ItemEntries, SortedNumbers, ItemNumbers, OnlyItems;
    LeftFiles(d, disk, zone, attempt);
    if Declared(stage) == {} {
      SilentWrites(disk, zone, stage, slots);
      SilentWrites(d, zone, stage, slots);
    } else if stage.Loop? {
      ReplayLocal(d, disk, zone, stage, slots);
    }
  }

  lemma SilentWrites(disk: Disk, at: Address, stage: StageDef, slots: Slots)
    requires Declared(stage) == {}
    ensures ReplayStage(disk, at, stage, slots) == slots
  {
    hide ItemEntries, SortedNumbers, ItemNumbers;
    assert stage.Work? || (stage.Loop? && stage.over.Some?) ==> Declared(stage) == OutputSet(stage.output);
    assert forall n: Name :: n in OutputSet(Some(n));
  }

  // One earlier stage: its files replay to its live write.
  lemma StepReplays(stage: StageDef, k: nat, dir: Address, context: LoopContext, st: State, j: nat, disk: Disk,
                    slots: Slots, names: set<Name>)
    requires stage.Loop? && k < j < |stage.inner| && Distinct(stage.inner)
    requires PassReached(stage, k, dir, context, st, j).Some?
    requires Superseded(PassReached(stage, k, dir, context, st, j).value.tree.disk, disk,
                        dir + [Stage(stage.inner[k].name)], context.attempt)
    requires Faithful(disk, dir + [Stage(stage.inner[k].name)], stage.inner[k], context.attempt)
    requires Agree(slots, st.slots, names) && Scratch(stage.inner[k]) !! names
    ensures var (flow, st1) := Dispatch(stage.inner[k], dir, Some(context), None, st);
      && flow.Next? && PassReached(stage, k + 1, dir, context, st1, j) == PassReached(stage, k, dir, context, st, j)
      && Agree(ReplayStage(disk, dir + [Stage(stage.inner[k].name)], stage.inner[k], slots), st1.slots,
               names + Declared(stage.inner[k]))
  {
    hide Dispatch, Gate, Superseded, PassReached, ReplayStage, Agree, Scratch;
    var inner := stage.inner[k];
    var zone := dir + [Stage(inner.name)];
    var (flow, st1) := Dispatch(inner, dir, Some(context), None, st);
    StageLeft(stage, k, dir, context, st, j, disk);
    FaithfulBack(st1.tree.disk, disk, zone, inner, context.attempt, EndStatus(inner, flow, st.slots), flow.result);
    StageReplays(inner, dir, Some(context), st, slots, names);
    SameReplay(st1.tree.disk, disk, zone, inner, context.attempt, EndStatus(inner, flow, st.slots), flow.result, slots);
  }

  // What faithful files say of the dispatch that left them.
  lemma FaithfulBack(d: Disk, disk: Disk, zone: Address, stage: StageDef, attempt: nat, status: Status, result: Value)
    requires LeftBy(d, disk, zone, attempt, status, result) && Faithful(disk, zone, stage, attempt)
    ensures Declared(stage) != {} ==>
      status != Skipped && (stage.Loop? ==> result.Tally? && OnlyItems(d, zone, result.total))
  {
    hide Superseded, OnlyItems, Declared;
    LeftFiles(d, disk, zone, attempt);
    if Declared(stage) != {} && stage.Loop? { ItemsBack(d, disk, zone, result.total); }
  }

  lemma ItemsBack(d: Disk, disk: Disk, zone: Address, total: nat)
    requires SameUnder(d, disk, zone) && OnlyItems(disk, zone, total)
    ensures OnlyItems(d, zone, total)
  {
    forall n: nat | HasResult(d, zone, n)
      ensures 1 <= n <= total
    {
      assert zone <= zone + [Item(n)] && SameAt(d, disk, zone + [Item(n)]);
      assert HasResult(disk, zone, n);
    }
  }

  // All of them, from inner stage k on.
  lemma {:induction false} PassReplays(stage: StageDef, k: nat, dir: Address, context: LoopContext, st: State, j: nat,
                                       disk: Disk, start: Slots, names: set<Name>)
    requires stage.Loop? && k <= j < |stage.inner| && Distinct(stage.inner) && Apart(stage.inner, names)
    requires PassReached(stage, k, dir, context, st, j).Some?
    requires forall i | k <= i < j ::
      Superseded(PassReached(stage, k, dir, context, st, j).value.tree.disk, disk,
                 dir + [Stage(stage.inner[i].name)], context.attempt)
      && Faithful(disk, dir + [Stage(stage.inner[i].name)], stage.inner[i], context.attempt)
    requires Agree(ReplayAll(disk, dir, stage.inner, NamesOf(stage.inner[..k]), start), st.slots,
                   names + OutsOf(stage.inner, NamesOf(stage.inner[..k])))
    ensures Agree(ReplayAll(disk, dir, stage.inner, NamesOf(stage.inner[..j]), start),
                  PassReached(stage, k, dir, context, st, j).value.slots,
                  names + OutsOf(stage.inner, NamesOf(stage.inner[..j])))
    decreases j - k
  {
    hide Dispatch, Gate, Superseded, Faithful, ReplayStage, Agree, Scratch, PassReached, Declared;
    if k == j {
      PassHere(stage, dir, context, st, j);
    } else {
      var done := NamesOf(stage.inner[..k]);
      var outs := names + OutsOf(stage.inner, done);
      StepReplays(stage, k, dir, context, st, j, disk, ReplayAll(disk, dir, stage.inner, done, start), outs);
      NamesOfNext(stage.inner, k);
      DistinctIndex(stage.inner, k);
      assert (done + [stage.inner[k].name])[..k] == done;
      assert outs + Declared(stage.inner[k]) == names + OutsOf(stage.inner, NamesOf(stage.inner[..k + 1]));
      PassReplays(stage, k + 1, dir, context, Dispatch(stage.inner[k], dir, Some(context), None, st).1, j, disk, start,
                  names);
    }
  }

  lemma PassHere(stage: StageDef, dir: Address, context: LoopContext, st: State, j: nat)
    requires stage.Loop? && j < |stage.inner| && PassReached(stage, j, dir, context, st, j).Some?
    ensures PassReached(stage, j, dir, context, st, j) == Some(st)
  {
  }

  // ---------- the whole way ----------

  // On disk, on the way from a stage to an address below it: every item has an item result, and the
  // stages listed before the way's own are faithful to the attempt that one was last announced in.
  ghost predicate Intact(disk: Disk, at: Address, stage: StageDef, rest: Address)
    decreases stage
  {
    Entering(stage, rest) ==>
      var dir, j := at + [rest[0]], IndexOf(stage.inner, rest[1].name);
      && NodeAt(disk, dir).item.Some? && IntactBefore(disk, dir, stage, j)
      && Intact(disk, dir + [rest[1]], stage.inner[j], rest[2..])
  }

  ghost predicate IntactBefore(disk: Disk, dir: Address, stage: StageDef, j: nat)
    requires stage.Loop? && j < |stage.inner|
  {
    forall i | 0 <= i < j :: Faithful(disk, dir + [Stage(stage.inner[i].name)], stage.inner[i],
                                      LastAttempt(disk, dir + [Stage(stage.inner[j].name)]))
  }

  // The item results on the way are those of the items the live slots hold, none is an older run's.
  ghost predicate Own(disk: Disk, at: Address, stage: StageDef, rest: Address, live: Slots)
    decreases stage
  {
    Entering(stage, rest) ==>
      var dir, j := at + [rest[0]], IndexOf(stage.inner, rest[1].name);
      && OwnItem(NodeAt(disk, dir).item, live, stage.itemVar)
      && Own(disk, dir + [rest[1]], stage.inner[j], rest[2..], live)
  }

  predicate OwnItem(item: Option<ItemRecord>, live: Slots, itemVar: Name)
  {
    item.Some? ==> item.value.result.Entry? && itemVar in live && live[itemVar] == item.value.result.input
  }

  // The slots reconstruction is answerable for at an address: those given, and for every item on the
  // way the item variable and the outputs of the stages before the way's own; in its first attempt
  // also the inner stage names, which are cleared when it starts.
  ghost function Shown(disk: Disk, at: Address, stage: StageDef, names: set<Name>, rest: Address): set<Name>
    decreases stage
  {
    if Entering(stage, rest) then
      var dir, j := at + [rest[0]], IndexOf(stage.inner, rest[1].name);
      Shown(disk, dir + [rest[1]], stage.inner[j],
            ShownInside(stage, names, j, LastAttempt(disk, dir + [rest[1]])), rest[2..])
    else names
  }

  ghost function ItemNames(stage: StageDef, names: set<Name>, attempt: nat): set<Name>
    requires stage.Loop?
  {
    names + {stage.itemVar} + (if attempt == 1 then InnerNames(stage.inner) else {})
  }

  ghost function ShownInside(stage: StageDef, names: set<Name>, j: nat, attempt: nat): set<Name>
    requires stage.Loop? && j <= |stage.inner|
  {
    ItemNames(stage, names, attempt) + OutsOf(stage.inner, NamesOf(stage.inner[..j]))
  }

  lemma {:induction false} ShownKeeps(disk: Disk, at: Address, stage: StageDef, names: set<Name>, rest: Address)
    ensures names <= Shown(disk, at, stage, names, rest)
    decreases stage
  {
    if Entering(stage, rest) {
      var dir, j := at + [rest[0]], IndexOf(stage.inner, rest[1].name);
      ShownKeeps(disk, dir + [rest[1]], stage.inner[j],
                 ShownInside(stage, names, j, LastAttempt(disk, dir + [rest[1]])), rest[2..]);
    }
  }

  // ---------- what was reached ----------

  // The state reached is the one the address was last entered in, and differs from the state the way
  // starts in by scratch slots only.
  lemma {:induction false} StageFound(stage: StageDef, base: Address, context: Option<LoopContext>, st: State,
                                      disk: Disk, rest: Address, used: set<Name>, found: State)
    requires Tidy(stage, used) && SequencesOk(st.tree) && Sorted(st.tree.disk, base + [Stage(stage.name)], stage)
    requires SameUnder(Dispatch(stage, base, context, None, st).1.tree.disk, disk, base + [Stage(stage.name)])
    requires StageReached(stage, base, context, st, rest) == Some(found) && !Gate(stage, st.slots).Broken?
    ensures ChangesOnly(st.slots, found.slots, Scratch(stage))
    ensures EntersLast(found.trace, Dispatch(stage, base, context, None, st).1.trace, base + [Stage(stage.name)] + rest)
    decreases stage
  {
    hide Dispatch, Scratch, SequencesOk, Level, Tidy, EntersLast, Unentered, StageReached, Sorted, Gate, Named,
      SameUnder, Prepared, InnerWrites, RetryNames, OutsOf, OwnScratch, ChangesOnly, Children;
    var at := base + [Stage(stage.name)];
    if rest == [] {
      assert at + rest == at;
      EntersOnce(stage, base, context, st);
      ReachedHere(stage, base, context, st);
      ChangesSelf(st.slots, Scratch(stage));
    } else {
      TidyNamed(stage, used);
      var items, m, s, pass, s1, t, j := ReachedLevel(stage, base, context, st, disk, rest);
      LevelParts(stage, base, context, st, disk, rest, items, m, s, pass, s1, t, j);
      LevelStart(stage, base, context, st, disk, rest, items, m, s, pass, s1, t, j);
      LevelStage(stage, base, context, st, disk, rest, items, m, s, pass, s1, t, j);
      LevelListed(stage, base, context, st, disk, rest, items, m, s, pass, s1, t, j);
      TidyInner(stage, used, j);
      var dir := at + [Item(m + 1)];
      StageFound(stage.inner[j], dir, Some(pass), t, disk, rest[2..],
                 used + OwnScratch(stage) + OutsOf(stage.inner, NamesOf(stage.inner[..j])), found);
      assert dir + [Stage(stage.inner[j].name)] <= at + rest;
      LastThen(found.trace, Dispatch(stage.inner[j], dir, Some(pass), None, t).1.trace,
               Dispatch(stage, base, context, None, st).1.trace, at + rest);
      ScratchInside(stage, items, m, j, st.slots, s, s1.slots, t.slots, found.slots);
    }
  }

  lemma ReachedHere(stage: StageDef, base: Address, context: Option<LoopContext>, st: State)
    ensures StageReached(stage, base, context, st, []) == Some(st)
  {
  }

  lemma LevelParts(stage: StageDef, base: Address, context: Option<LoopContext>, st: State, disk: Disk, rest: Address,
                   items: seq<Value>, m: nat, s: State, pass: LoopContext, s1: State, t: State, j: nat)
    requires stage.Loop? && Level(stage, base, context, st, disk, rest, items, m, s, pass, s1, t, j)
    ensures var dir := base + [Stage(stage.name)] + [Item(m + 1)];
      && m < |items| && |rest| > 1 && rest[0] == Item(m + 1)
      && j < |stage.inner| && rest[1] == Stage(stage.inner[j].name)
      && PassReached(stage, 0, dir, pass, s1, j) == Some(t)
      && ChangesOnly(st.slots, s.slots, Scratch(stage))
      && StageReached(stage, base, context, st, rest) == StageReached(stage.inner[j], dir, Some(pass), t, rest[2..])
  {
    hide Dispatch, StageReached, LastPass, PassReached, SequencesOk, Scratch, Sorted, ItemRun;
  }

  // Slots touched on the way to an inner stage are scratch slots of the loop.
  lemma ScratchInside(stage: StageDef, items: seq<Value>, m: nat, j: nat, st: Slots, s: State, s1: Slots, t: Slots,
                      found: Slots)
    requires stage.Loop? && m < |items| && j < |stage.inner| && ChangesOnly(st, s.slots, Scratch(stage))
    requires ChangesOnly(Prepared(stage, items, m, s).slots, s1, InnerWrites(stage) + RetryNames(stage))
    requires ChangesOnly(s1, t, InnerWrites(stage)) && ChangesOnly(t, found, Scratch(stage.inner[j]))
    ensures ChangesOnly(st, found, Scratch(stage))
  {
    var entry := Prepared(stage, items, m, s).slots;
    PrepareChanges(stage, items[m], false, s.slots);
    InnerScratch(stage, j);
    assert OwnScratch(stage) <= Scratch(stage) && InnerWrites(stage) <= Scratch(stage);
    assert RetryNames(stage) <= OwnScratch(stage);
    hide Scratch, InnerWrites, OwnScratch, PrepareItem, RetryNames;
    ChangesWiden(s.slots, entry, OwnScratch(stage), Scratch(stage));
    ChangesWiden(entry, s1, InnerWrites(stage) + RetryNames(stage), Scratch(stage));
    ChangesWiden(s1, t, InnerWrites(stage), Scratch(stage));
    ChangesWiden(t, found, Scratch(stage.inner[j]), Scratch(stage));
    ChangesTrans(st, s.slots, entry, Scratch(stage));
    ChangesTrans(st, entry, s1, Scratch(stage));
    ChangesTrans(st, s1, t, Scratch(stage));
    ChangesTrans(st, t, found, Scratch(stage));
  }

  // ---------- one level of the walk ----------

  // The item variable as the walk binds it.
  function Bound(disk: Disk, dir: Address, itemVar: Name, slots: Slots): Slots
  {
    var item := NodeAt(disk, dir).item;
    if item.Some? && item.value.result.Entry? then slots[itemVar := item.value.result.input] else slots
  }

  // The walk into a loop binds the item variable, replays the stages listed before the way's own, and
  // goes into that one.
  lemma WalkLevel(disk: Disk, at: Address, stage: StageDef, rest: Address, start: Slots, number: nat, j: nat)
    requires stage.Loop? && Distinct(stage.inner) && j < |stage.inner|
    requires |rest| > 1 && rest[0] == Item(number) && rest[1] == Stage(stage.inner[j].name)
    requires var dir := at + [Item(number)];
      dir + [Stage(stage.inner[j].name)] in disk
          && NamesOf(stage.inner[..j]) + [stage.inner[j].name] <= Children(disk, dir)
    ensures var dir := at + [Item(number)];
      WalkInto(disk, at, stage, rest, start) ==
        WalkInto(disk, dir + [Stage(stage.inner[j].name)], stage.inner[j], rest[2..],
                 ReplayAll(disk, dir, stage.inner, NamesOf(stage.inner[..j]), Bound(disk, dir, stage.itemVar, start)))
  {
    hide WalkStages, ReplayAll, Children;
    var dir := at + [Item(number)];
    var start1 := Bound(disk, dir, stage.itemVar, start);
    WalkItem(disk, at, stage, rest, start, number, dir + [Stage(stage.inner[j].name)]);
    NamesNotYet(stage.inner, j);
    WalkToListed(disk, dir, stage.inner, NamesOf(stage.inner[..j]), j, rest[2..], start1);
    assert rest[1..] == [Stage(stage.inner[j].name)] + rest[2..];
  }

  lemma WalkItem(disk: Disk, at: Address, stage: StageDef, rest: Address, start: Slots, number: nat, inside: Address)
    requires stage.Loop? && |rest| > 1 && rest[0] == Item(number)
    requires inside in disk && at + [Item(number)] <= inside
    ensures WalkInto(disk, at, stage, rest, start) ==
      WalkStages(disk, at + [Item(number)], stage.inner, rest[1..],
                 Bound(disk, at + [Item(number)], stage.itemVar, start))
  {
    hide WalkStages;
    assert number in ItemNumbers(disk, at) by {
      PrefixTrans(at, at + [Item(number)], inside);
      assert inside[|at|] == Item(number);
    }
  }

  // The item variable keeps its value to the stage reached.
  lemma VariableLive(stage: StageDef, items: seq<Value>, m: nat, j: nat, s: State, s1: Slots, t: Slots, found: Slots,
                     used: set<Name>)
    requires stage.Loop? && stage.over.Some? && m < |items| && j < |stage.inner| && Tidy(stage, used)
    requires ChangesOnly(Prepared(stage, items, m, s).slots, s1, InnerWrites(stage) + RetryNames(stage))
    requires ChangesOnly(s1, t, InnerWrites(stage)) && ChangesOnly(t, found, Scratch(stage.inner[j]))
    ensures stage.itemVar in found && found[stage.itemVar] == items[m]
  {
    TidyOwn(stage, used);
    InnerScratch(stage, j);
    hide Tidy, Scratch, InnerWrites;
    var entry := Prepared(stage, items, m, s).slots;
    assert stage.itemVar in entry && entry[stage.itemVar] == items[m];
    assert SameSlot(entry, s1, stage.itemVar) && SameSlot(s1, t, stage.itemVar) && SameSlot(t, found, stage.itemVar);
  }

  // The slots an attempt is replayed from agree with those it starts from.
  lemma AttemptStart(stage: StageDef, items: seq<Value>, m: nat, st: State, s: State, s1: State, attempt: nat,
                     start: Slots, names: set<Name>, used: set<Name>)
    requires stage.Loop? && stage.over.Some? && m < |items|
    requires Tidy(stage, used) && names <= used && start.Keys <= used
    requires ChangesOnly(st.slots, s.slots, Scratch(stage)) && Agree(start, st.slots, names)
    requires ChangesOnly(Prepared(stage, items, m, s).slots, s1.slots, InnerWrites(stage) + RetryNames(stage))
    requires attempt == 1 ==> s1 == Prepared(stage, items, m, s)
    ensures Agree(start[stage.itemVar := items[m]], s1.slots, ItemNames(stage, names, attempt))
  {
    var entry := Prepared(stage, items, m, s);
    PreparedRun(stage, [], items, m, s);
    ItemStart(stage, st, s, items[m], start, names, used);
    TidyOwn(stage, used);
    TidyScratch(stage, used, names);
    OwnInScratch(stage);
    hide Tidy, Scratch, InnerWrites, RetryNames, Prepared, PrepareItem;
    var start1 := start[stage.itemVar := items[m]];
    forall n | n in ItemNames(stage, names, attempt)
      ensures SameSlot(start1, s1.slots, n)
    {
      assert n in names + {stage.itemVar} + InnerNames(stage.inner);
      assert SameSlot(start1, entry.slots, n);
      if attempt != 1 { assert SameSlot(entry.slots, s1.slots, n); }
    }
  }

  lemma OwnInScratch(stage: StageDef)
    requires stage.Loop?
    ensures InnerWrites(stage) + RetryNames(stage) <= Scratch(stage)
  {
  }

  // ---------- what is rebuilt ----------

  // Where the way is intact and its item results are its own, the rebuilt slots are those the stage
  // was last dispatched with.
  lemma {:induction false} StageRebuilt(stage: StageDef, base: Address, context: Option<LoopContext>, st: State,
                                        disk: Disk, rest: Address, start: Slots, names: set<Name>, used: set<Name>,
                                        found: State)
    requires Tidy(stage, used) && names <= used && start.Keys <= used && ListedPath(stage, rest)
    requires SequencesOk(st.tree) && Sorted(st.tree.disk, base + [Stage(stage.name)], stage)
    requires SameUnder(Dispatch(stage, base, context, None, st).1.tree.disk, disk, base + [Stage(stage.name)])
    requires StageReached(stage, base, context, st, rest) == Some(found) && !Gate(stage, st.slots).Broken?
    requires Own(disk, base + [Stage(stage.name)], stage, rest, found.slots)
    requires Intact(disk, base + [Stage(stage.name)], stage, rest) && Agree(start, st.slots, names)
    ensures Agree(WalkInto(disk, base + [Stage(stage.name)], stage, rest, start), found.slots,
                  Shown(disk, base + [Stage(stage.name)], stage, names, rest))
    decreases stage
  {
    hide Dispatch, Scratch, SequencesOk, Level, Tidy, StageReached, Sorted, Gate, Named, Agree, WalkInto, Intact, Own,
      Shown, OutsOf, ReplayAll, ItemNames, IntactBefore, ListedPath;
    var at := base + [Stage(stage.name)];
    if rest == [] {
      ReachedHere(stage, base, context, st);
      WalkNothing(disk, at, stage, rest, start);
      ShownHere(disk, at, stage, names);
    } else {
      TidyNamed(stage, used);
      var items, m, s, pass, s1, t, j := ReachedLevel(stage, base, context, st, disk, rest);
      LevelParts(stage, base, context, st, disk, rest, items, m, s, pass, s1, t, j);
      LevelStart(stage, base, context, st, disk, rest, items, m, s, pass, s1, t, j);
      LevelStage(stage, base, context, st, disk, rest, items, m, s, pass, s1, t, j);
      LevelListed(stage, base, context, st, disk, rest, items, m, s, pass, s1, t, j);
      TidyInner(stage, used, j);
      ListedOver(stage, rest);
      ListedInner(stage, rest, j);
      var dir := at + [Item(m + 1)];
      var zone := dir + [Stage(stage.inner[j].name)];
      var done := NamesOf(stage.inner[..j]);
      var used1 := used + OwnScratch(stage) + OutsOf(stage.inner, done);
      StageFound(stage.inner[j], dir, Some(pass), t, disk, rest[2..], used1, found);
      VariableLive(stage, items, m, j, s, s1.slots, t.slots, found.slots, used);
      WayParts(disk, at, stage, names, rest, found.slots, j);
      WayIntact(disk, at, stage, rest, j);
      LevelRebuilt(stage, base, context, st, disk, rest, items, m, s, pass, s1, t, j, start, names, used);
      var start2 := ReplayAll(disk, dir, stage.inner, done, Bound(disk, dir, stage.itemVar, start));
      StageRebuilt(stage.inner[j], dir, Some(pass), t, disk, rest[2..], start2,
                   ItemNames(stage, names, pass.attempt) + OutsOf(stage.inner, done), used1, found);
    }
  }

  // One level of it: the walk binds the item and replays the stages before the way's own.
  lemma LevelRebuilt(stage: StageDef, base: Address, context: Option<LoopContext>, st: State, disk: Disk, rest: Address,
                     items: seq<Value>, m: nat, s: State, pass: LoopContext, s1: State, t: State, j: nat,
                     start: Slots, names: set<Name>, used: set<Name>)
    requires stage.Loop? && stage.over.Some?
    requires Level(stage, base, context, st, disk, rest, items, m, s, pass, s1, t, j)
    requires Tidy(stage, used) && names <= used && start.Keys <= used && Agree(start, st.slots, names)
    requires var dir := base + [Stage(stage.name)] + [Item(m + 1)];
      && Bound(disk, dir, stage.itemVar, start) == start[stage.itemVar := items[m]] && IntactBefore(disk, dir, stage, j)
    ensures var at := base + [Stage(stage.name)];
      var dir := at + [Item(m + 1)];
      var zone := dir + [Stage(stage.inner[j].name)];
      var done := NamesOf(stage.inner[..j]);
      var used1 := used + OwnScratch(stage) + OutsOf(stage.inner, done);
      var names1 := ItemNames(stage, names, pass.attempt) + OutsOf(stage.inner, done);
      var start1 := ReplayAll(disk, dir, stage.inner, done, Bound(disk, dir, stage.itemVar, start));
      && WalkInto(disk, at, stage, rest, start) == WalkInto(disk, zone, stage.inner[j], rest[2..], start1)
      && start1.Keys <= used1 && names1 <= used1 && Agree(start1, t.slots, names1)
  {
    hide Dispatch, Scratch, SequencesOk, Level, Tidy, StageReached, Sorted, Gate, Named, Agree, WalkInto, OutsOf,
      ReplayAll, ItemNames, IntactBefore, Children, Prepared, InnerWrites, RetryNames;
    var at := base + [Stage(stage.name)];
    var dir := at + [Item(m + 1)];
    TidyNamed(stage, used);
    LevelParts(stage, base, context, st, disk, rest, items, m, s, pass, s1, t, j);
    var done := NamesOf(stage.inner[..j]);
    LevelStart(stage, base, context, st, disk, rest, items, m, s, pass, s1, t, j);
    LevelStage(stage, base, context, st, disk, rest, items, m, s, pass, s1, t, j);
    LevelListed(stage, base, context, st, disk, rest, items, m, s, pass, s1, t, j);
    var start1 := start[stage.itemVar := items[m]];
    AttemptStart(stage, items, m, st, s, s1, pass.attempt, start, names, used);
    UsedInside(stage, names, used, pass.attempt);
    LevelReplays(stage, base, context, st, disk, rest, items, m, s, pass, s1, t, j, start1,
                 ItemNames(stage, names, pass.attempt), used);
    WalkLevel(disk, at, stage, rest, start, m + 1, j);
    ReplayKeys(disk, dir, stage.inner, done, start1);
  }

  lemma ShownHere(disk: Disk, at: Address, stage: StageDef, names: set<Name>)
    ensures Shown(disk, at, stage, names, []) == names
  {
  }

  lemma ListedOver(stage: StageDef, rest: Address)
    requires stage.Loop? && rest != [] && ListedPath(stage, rest)
    ensures stage.over.Some?
  {
  }

  lemma UsedInside(stage: StageDef, names: set<Name>, used: set<Name>, attempt: nat)
    requires stage.Loop? && names <= used
    ensures ItemNames(stage, names, attempt) <= used + OwnScratch(stage) && stage.itemVar in OwnScratch(stage)
  {
  }

  // The predicates of a way, at its first level and beyond it.
  lemma WayParts(disk: Disk, at: Address, stage: StageDef, names: set<Name>, rest: Address, live: Slots, j: nat)
    requires stage.Loop? && Distinct(stage.inner) && |rest| > 1 && rest[0].Item?
    requires j < |stage.inner| && rest[1] == Stage(stage.inner[j].name)
    ensures var zone := at + [rest[0]] + [rest[1]];
      && Shown(disk, at, stage, names, rest) ==
           Shown(disk, zone, stage.inner[j],
                 ItemNames(stage, names, LastAttempt(disk, zone)) + OutsOf(stage.inner, NamesOf(stage.inner[..j])),
                 rest[2..])
      && (Own(disk, at, stage, rest, live) ==>
            OwnItem(NodeAt(disk, at + [rest[0]]).item, live, stage.itemVar)
                && Own(disk, zone, stage.inner[j], rest[2..], live))
  {
    DistinctIndex(stage.inner, j);
  }

  lemma WayIntact(disk: Disk, at: Address, stage: StageDef, rest: Address, j: nat)
    requires stage.Loop? && Distinct(stage.inner) && |rest| > 1 && rest[0].Item?
    requires j < |stage.inner| && rest[1] == Stage(stage.inner[j].name)
    ensures Intact(disk, at, stage, rest) <==>
      var dir := at + [rest[0]];
      && NodeAt(disk, dir).item.Some? && IntactBefore(disk, dir, stage, j)
      && Intact(disk, dir + [rest[1]], stage.inner[j], rest[2..])
  {
    hide IntactBefore;
    DistinctIndex(stage.inner, j);
  }

  lemma LevelReplays(stage: StageDef, base: Address, context: Option<LoopContext>, st: State, disk: Disk, rest: Address,
                     items: seq<Value>, m: nat, s: State, pass: LoopContext, s1: State, t: State, j: nat,
                     start: Slots, names: set<Name>, used: set<Name>)
    requires stage.Loop? && Level(stage, base, context, st, disk, rest, items, m, s, pass, s1, t, j)
    requires Tidy(stage, used) && names <= used + OwnScratch(stage) && Agree(start, s1.slots, names)
    requires var dir := base + [Stage(stage.name)] + [Item(m + 1)];
      IntactBefore(disk, dir, stage, j) && LastAttempt(disk, dir + [Stage(stage.inner[j].name)]) == pass.attempt
    ensures var dir := base + [Stage(stage.name)] + [Item(m + 1)];
      Agree(ReplayAll(disk, dir, stage.inner, NamesOf(stage.inner[..j]), start), t.slots,
            names + OutsOf(stage.inner, NamesOf(stage.inner[..j])))
  {
    hide Dispatch, Scratch, SequencesOk, Level, Tidy, StageReached, Sorted, Gate, Named, Agree, ReplayAll, Superseded,
      Faithful, PassReached;
    var dir := base + [Stage(stage.name)] + [Item(m + 1)];
    TidyNamed(stage, used);
    LevelParts(stage, base, context, st, disk, rest, items, m, s, pass, s1, t, j);
    TidyInner(stage, used, j);
    TidyApart(stage, used, names);
    forall i | 0 <= i < j
      ensures Superseded(t.tree.disk, disk, dir + [Stage(stage.inner[i].name)], pass.attempt)
    {
      LevelEarlier(stage, base, context, st, disk, rest, items, m, s, pass, s1, t, j, i);
    }
    assert stage.inner[..0] == [];
    NoneReplayed(disk, dir, stage.inner, start);
    assert names + OutsOf(stage.inner, NamesOf(stage.inner[..0])) == names;
    PassReplays(stage, 0, dir, pass, s1, j, disk, start, names);
  }

  lemma NoneReplayed(disk: Disk, dir: Address, stages: seq<StageDef>, start: Slots)
    ensures ReplayAll(disk, dir, stages, NamesOf(stages[..0]), start) == start
    ensures OutsOf(stages, NamesOf(stages[..0])) == {}
  {
  }
}
