// Stop and resume inside one stage: the resumed dispatch ends the way the uninterrupted one does.
module ResumeProof {
  import opened Options
  import opened Addresses
  import opened WorkflowModel
  import opened Engine
  import opened EngineSteps
  import opened EngineRuns
  import opened Scoping
  import opened Reconstruction
  import opened FreshRuns
  import opened ReplayProof
  import opened CutProof
  import opened ReconstructionProof

  // ---------- a cursor that no longer matters ----------

  // From item i + 1 on the cursor selects nothing: it is empty, or its item is behind (or is this
  // very item, to be redone whole), and no later item is recorded.
  ghost predicate Idle(disk: Disk, at: Address, i: nat, cursor: Address)
  {
    cursor != [] ==>
      && cursor[0].Item?
      && (cursor[0].number <= i || (cursor[0].number == i + 1 && |cursor| == 1))
      && forall n: nat :: n > i && n != cursor[0].number ==> NodeAt(disk, at + [Item(n)]).item.None?
  }

  // What follows the attempts of item i + 1.
  function AfterItem(stage: StageDef, at: Address, items: seq<Value>, i: nat, cursor: Option<Address>,
                     progress: Progress,
                     end: ItemEnd, used: nat, st2: State): (r: (Flow, State))
    requires stage.Loop? && i < |items|
  {
    if end.ItemAborted? then (Aborted, st2)
    else if end.ItemRaised? then (Raised, st2)
    else
      var st3 := CloseItem(st2, at, RecordOf(stage, st2.slots, items[i], i + 1, |items|, end, used));
      if end.ItemCancelled? then (Cancelled, st3)
      else if end.ItemFailed? && stage.abortOnMaxRetries then (Aborted, st3)
      else
        var entry := if stage.over.Some? then Some(Collect(stage, st3.slots, items[i], end.ItemDone?)) else None;
        RunItems(stage, at, items, i + 1, cursor, Tallied(progress, entry, end.ItemDone?), st3)
  }

  lemma LiveItem(stage: StageDef, at: Address, items: seq<Value>, i: nat, cursor: Option<Address>, progress: Progress,
                 st: State)
    requires stage.Loop? && i < |items| && !Reused(stage, at, cursor, i + 1, st.tree.disk)
    ensures var inside := InnerCursor(cursor, i + 1);
      var (end, used, st2) := RunAttempts(stage, at, i + 1, |items|, 0, inside,
                                          st.(slots := PrepareItem(stage, items[i], inside.Some?, st.slots)));
      RunItems(stage, at, items, i, cursor, progress, st) ==
          AfterItem(stage, at, items, i, cursor, progress, end, used, st2)
  {
    hide RunAttempts;
  }

  lemma IdleNext(d: Disk, s2: State, at: Address, i: nat, cursor: Address, record: ItemRecord)
    requires Idle(d, at, i, cursor) && SameOutside(d, s2.tree.disk, at + [Item(i + 1)]) && record.number == i + 1
    ensures Idle(CloseItem(s2, at, record).tree.disk, at, i + 1, cursor)
  {
    var d3 := CloseItem(s2, at, record).tree.disk;
    forall n: nat | n > i + 1 && cursor != [] && n != cursor[0].number
      ensures NodeAt(d3, at + [Item(n)]).item.None?
    {
      OutsideItem(at, i + 1, n);
      assert SameAt(d, s2.tree.disk, at + [Item(n)]);
    }
  }

  lemma {:induction false} IdleItems(stage: StageDef, at: Address, items: seq<Value>, i: nat, cursor: Address,
                                     progress: Progress, st: State)
    requires stage.Loop? && i <= |items| && Idle(st.tree.disk, at, i, cursor)
    ensures RunItems(stage, at, items, i, Some(cursor), progress, st) ==
        RunItems(stage, at, items, i, None, progress, st)
    decreases |items| - i
  {
    hide RunAttempts, Step;
    if i < |items| {
      LiveItem(stage, at, items, i, Some(cursor), progress, st);
      LiveItem(stage, at, items, i, None, progress, st);
      assert InnerCursor(Some(cursor), i + 1) == None;
      var st1 := st.(slots := PrepareItem(stage, items[i], false, st.slots));
      var (end, used, st2) := RunAttempts(stage, at, i + 1, |items|, 0, None, st1);
      AttemptsSteps(stage, at, i + 1, |items|, 0, None, st1);
      StepOutside(st1, st2, at + [Item(i + 1)], Some(at));
      var record := RecordOf(stage, st2.slots, items[i], i + 1, |items|, end, used);
      IdleNext(st.tree.disk, st2, at, i, cursor, record);
      hide RunItems;
      if Continues(stage, end) {
        var st3 := CloseItem(st2, at, record);
        var entry := if stage.over.Some? then Some(Collect(stage, st3.slots, items[i], end.ItemDone?)) else None;
        IdleItems(stage, at, items, i + 1, cursor, Tallied(progress, entry, end.ItemDone?), st3);
      }
    }
  }

  // A retry starts from the first inner stage, whatever the cursor was.
  lemma {:induction false} LaterAttempts(stage: StageDef, at: Address, number: nat, total: nat, attempt: nat,
                                         inside: Option<Address>, st: State)
    requires stage.Loop? && 0 < attempt <= stage.maxRetries + 1
    ensures RunAttempts(stage, at, number, total, attempt, inside, st) ==
        RunAttempts(stage, at, number, total, attempt, None, st)
    decreases stage.maxRetries + 1 - attempt
  {
    hide RunInner;
    if attempt < stage.maxRetries + 1 {
      var context := LoopContext(number, total, attempt + 1, stage.maxRetries + 1);
      var st1 := st.(slots := ApplyRetry(stage.onRetry, st.slots));
      var (flow, st2) := RunInner(stage, 0, at + [Item(number)], context, None, st1);
      LaterAttempts(stage, at, number, total, attempt + 1, inside, st2);
    }
  }

  // An empty cursor starts the stage afresh.
  lemma EmptyCursor(stage: StageDef, base: Address, context: Option<LoopContext>, st: State)
    ensures Dispatch(stage, base, context, Some([]), st) == Dispatch(stage, base, context, None, st)
  {
    if Gate(stage, st.slots).Holds? {
      var at := base + [Stage(stage.name)];
      var count := Count(st.counters, PathOf(at)) + 1;
      var st2 := Entered(stage, base, context, st);
      DispatchUnfold(stage, base, context, Some([]), st);
      DispatchUnfold(stage, base, context, None, st);
      hide Dispatch;
      if stage.Loop? && LoopItems(stage, st2.slots).Some? {
        LoopUnfold(stage, at, count, Some([]), st2);
        LoopUnfold(stage, at, count, None, st2);
        IdleItems(stage, at, LoopItems(stage, st2.slots).value, 0, [], Progress([], 0, 0), st2);
      } else if stage.Loop? {
        assert RunByType(stage, at, count, Some([]), st2) == RunLoop(stage, at, Some([]), st2);
        LoopNeedsItems(stage, at, count, st2);
      }
    }
  }

  // ---------- items before the resume point come from disk ----------

  lemma {:induction false} ReuseItems(stage: StageDef, at: Address, items: seq<Value>, i: nat, m: nat, rest: Address,
                                      x: State)
    returns (y: State)
    requires stage.Loop? && i <= m < |items| && rest != [] && rest[0] == Item(m + 1)
    requires forall n: nat :: 1 <= n <= m ==> ItemClosedOnDisk(x.tree.disk, at, n)
    ensures RunItems(stage, at, items, i, Some(rest), Recounted(x.tree.disk, at, i), x) ==
      RunItems(stage, at, items, m, Some(rest), Recounted(x.tree.disk, at, m), y)
    ensures y.slots == x.slots && y.tree == x.tree && y.stop == x.stop
    decreases m - i
  {
    hide RunAttempts;
    if i == m {
      y := x;
    } else {
      assert ItemClosedOnDisk(x.tree.disk, at, i + 1);
      assert Reused(stage, at, Some(rest), i + 1, x.tree.disk);
      var record := NodeAt(x.tree.disk, at + [Item(i + 1)]).item.value;
      var x1 := CloseItem(x, at, record);
      assert x1.tree.disk == x.tree.disk;
      y := ReuseItems(stage, at, items, i + 1, m, rest, x1);
    }
  }

  // ---------- two runs that agree go on agreeing ----------

  // Two results that end the same way, uncancelled, and agree on what is in scope then.
  ghost predicate SameEnd(f: Flow, x: State, g: Flow, y: State, onNext: set<Name>, otherwise: set<Name>)
  {
    && f == g && !f.Cancelled? && x.stop == y.stop == None
    && Agree(x.slots, y.slots, if f.Next? then onNext else otherwise)
  }

  lemma ItemsSameEnd(stage: StageDef, at: Address, items: seq<Value>, i: nat, progress: Progress, x: State, y: State,
                     scope: set<Name>)
    requires stage.Loop? && i <= |items|
    requires Scoped(stage, scope) && Agree(x.slots, y.slots, scope) && x.stop == y.stop == None
    ensures var (f, x') := RunItems(stage, at, items, i, None, progress, x);
      var (g, y') := RunItems(stage, at, items, i, None, progress, y);
      SameEnd(f, x', g, y', After(stage, scope), scope)
  {
    hide RunItems, Scoped, Agree, After, Scratch, Touched;
    ItemsAgree(stage, at, items, i, progress, x, y, scope);
    ItemsQuiet(stage, at, items, i, progress, x);
    ItemsQuiet(stage, at, items, i, progress, y);
  }

  lemma AfterItemAgrees(stage: StageDef, at: Address, items: seq<Value>, i: nat, progress: Progress, end: ItemEnd,
                        used: nat, x: State, y: State, scope: set<Name>)
    requires stage.Loop? && i < |items| && !end.ItemCancelled?
    requires Scoped(stage, scope) && Agree(x.slots, y.slots, ItemScope(stage, scope)) && x.stop == y.stop == None
    ensures var (f, x') := AfterItem(stage, at, items, i, None, progress, end, used, x);
      var (g, y') := AfterItem(stage, at, items, i, None, progress, end, used, y);
      SameEnd(f, x', g, y', After(stage, scope), scope)
  {
    AgreeLess(x.slots, y.slots, ItemScope(stage, scope), scope);
    AgreeLess(x.slots, y.slots, ItemScope(stage, scope), InnerNames(stage.inner));
    InnerResultsAgree(stage.inner, x.slots, y.slots);
    hide RunItems, Scoped, Agree, InnerResults;
    if Continues(stage, end) {
      var x3 := CloseItem(x, at, RecordOf(stage, x.slots, items[i], i + 1, |items|, end, used));
      var y3 := CloseItem(y, at, RecordOf(stage, y.slots, items[i], i + 1, |items|, end, used));
      var entry := if stage.over.Some? then Some(Collect(stage, x3.slots, items[i], end.ItemDone?)) else None;
      ItemsSameEnd(stage, at, items, i + 1, Tallied(progress, entry, end.ItemDone?), x3, y3, scope);
    }
  }

  // What follows the first pass over an item's inner stages.
  function AfterPass(stage: StageDef, at: Address, number: nat, total: nat, flow: Flow, st2: State): (r: (ItemEnd,
                     nat, State))
    requires stage.Loop?
  {
    match flow
    case Aborted => (ItemAborted, 1, st2)
    case Cancelled => (ItemCancelled, 1, st2)
    case Raised => RunAttempts(stage, at, number, total, 1, None, st2)
    case Next(_, _) =>
      match stage.exit(st2.slots)
      case Broken => (ItemAborted, 1, st2)
      case Holds => (ItemDone, 1, st2)
      case Fails => RunAttempts(stage, at, number, total, 1, None, st2)
  }

  lemma FreshPass(stage: StageDef, at: Address, number: nat, total: nat, st: State)
    requires stage.Loop?
    ensures var (flow, st2) := RunInner(stage, 0, at + [Item(number)], FirstContext(stage, number, total), None, st);
      RunAttempts(stage, at, number, total, 0, None, st) == AfterPass(stage, at, number, total, flow, st2)
  {
    hide RunInner;
  }

  lemma ResumedPass(stage: StageDef, at: Address, number: nat, total: nat, j: nat, inside: Address, st: State)
    requires stage.Loop? && j < |stage.inner| && Distinct(stage.inner) && inside != []
      && inside[0] == Stage(stage.inner[j].name)
    ensures var (flow, st2) := RunInner(stage, j, at + [Item(number)], FirstContext(stage, number, total),
                                        Some(inside[1..]), st);
      RunAttempts(stage, at, number, total, 0, Some(inside), st) == AfterPass(stage, at, number, total, flow, st2)
  {
    hide RunInner;
    DistinctIndex(stage.inner, j);
    var (flow, st2) := RunInner(stage, j, at + [Item(number)], FirstContext(stage, number, total), Some(inside[1..]),
                                st);
    LaterAttempts(stage, at, number, total, 1, Some(inside), st2);
  }

  lemma AfterPassAgrees(stage: StageDef, at: Address, number: nat, total: nat, f: Flow, x: State, g: Flow, y: State,
                        scope: set<Name>)
    requires stage.Loop? && Scoped(stage, scope)
    requires SameEnd(f, x, g, y, AfterAll(stage.inner, ItemScope(stage, scope)), ItemScope(stage, scope))
    ensures var (end, used, x') := AfterPass(stage, at, number, total, f, x);
      var (end', used', y') := AfterPass(stage, at, number, total, g, y);
      && end == end' && used == used' && !end.ItemCancelled? && x'.stop == y'.stop == None
      && Agree(x'.slots, y'.slots, ItemScope(stage, scope))
  {
    hide RunAttempts, Scoped, Agree, AfterAll, ItemScope;
    LoopScoping(stage, scope);
    AfterAllGrows(stage.inner, ItemScope(stage, scope));
    if f.Next? {
      ReadsSame(stage.exit, x.slots, y.slots, AfterAll(stage.inner, ItemScope(stage, scope)));
      AgreeLess(x.slots, y.slots, AfterAll(stage.inner, ItemScope(stage, scope)), ItemScope(stage, scope));
    }
    if f.Raised? || f.Next? { AttemptsAgree(stage, at, number, total, 1, x, y, scope); }
  }

  // A pass that goes on after its first stage agreed.
  lemma PassAgrees(stage: StageDef, j: nat, base: Address, context: LoopContext, cursor: Option<Address>, x: State,
                   y: State, scope: set<Name>)
    requires stage.Loop? && j < |stage.inner| && Scoped(stage, scope)
    requires var (f, x') := Dispatch(stage.inner[j], base, Some(context), None, x);
      var (g, y') := Dispatch(stage.inner[j], base, Some(context), cursor, y);
      var here := AfterAll(stage.inner[..j], ItemScope(stage, scope));
      SameEnd(f, x', g, y', After(stage.inner[j], here), here)
    ensures var (f, x') := RunInner(stage, j, base, context, None, x);
      var (g, y') := RunInner(stage, j, base, context, cursor, y);
      SameEnd(f, x', g, y', AfterAll(stage.inner, ItemScope(stage, scope)), ItemScope(stage, scope))
  {
    hide Dispatch, Scoped, Agree, ItemScope, After;
    var here := AfterAll(stage.inner[..j], ItemScope(stage, scope));
    var (f, x1) := Dispatch(stage.inner[j], base, Some(context), None, x);
    var (g, y1) := Dispatch(stage.inner[j], base, Some(context), cursor, y);
    if f.Next? {
      assert stage.inner[..j + 1][..j] == stage.inner[..j];
      InnerAgree(stage, j + 1, base, context, x1, y1, scope);
    } else {
      AfterAllGrows(stage.inner[..j], ItemScope(stage, scope));
      AgreeLess(x1.slots, y1.slots, here, ItemScope(stage, scope));
    }
  }

  // ---------- names in scope at the resume point ----------

  lemma {:induction false} VisibleMore(stage: StageDef, names: set<Name>, more: set<Name>, rest: Address)
    ensures Visible(stage, names + more, rest) == Visible(stage, names, rest) + more
    decreases stage
  {
    if |rest| <= 1 || !stage.Loop? || !rest[1].Stage? || IndexOf(stage.inner, rest[1].name) == |stage.inner| {
    } else {
      var j := IndexOf(stage.inner, rest[1].name);
      assert InsideNames(stage, names + more, j) == InsideNames(stage, names, j) + more;
      VisibleMore(stage.inner[j], InsideNames(stage, names, j), more, rest[2..]);
    }
  }

  lemma {:induction false} VisibleKeeps(stage: StageDef, names: set<Name>, rest: Address)
    ensures names <= Visible(stage, names, rest)
    decreases stage
  {
    if |rest| <= 1 || !stage.Loop? || !rest[1].Stage? || IndexOf(stage.inner, rest[1].name) == |stage.inner| {
    } else {
      var j := IndexOf(stage.inner, rest[1].name);
      VisibleKeeps(stage.inner[j], InsideNames(stage, names, j), rest[2..]);
    }
  }

  lemma {:induction false} AfterAllOuts(stages: seq<StageDef>, k: nat, scope: set<Name>)
    requires Distinct(stages) && k <= |stages|
    ensures AfterAll(stages[..k], scope) <= scope + OutsOf(stages, NamesOf(stages[..k]))
  {
    if k > 0 {
      assert stages[..k][..k - 1] == stages[..k - 1];
      AfterAllOuts(stages, k - 1, scope);
      DistinctIndex(stages, k - 1);
      NamesOfNext(stages, k - 1);
      assert NamesOf(stages[..k])[..k - 1] == NamesOf(stages[..k - 1]);
    }
  }

  // ---------- the resumed item ----------

  // The slots the resumed item starts from agree with the live ones at the stop, on everything
  // visible at the resume point and on the item's own slots.
  lemma ItemSlots(stage: StageDef, item: Value, s: State, t: State, b: Slots, j: nat, c: Slots, visible: set<Name>,
                  used: set<Name>)
    requires stage.Loop? && stage.over.Some? && Tidy(stage, used) && j < |stage.inner|
    requires ChangesOnly(PrepareItem(stage, item, false, s.slots), t.slots, InnerWrites(stage))
    requires ChangesOnly(t.slots, b, Scratch(stage.inner[j]))
    requires Agree(c, b, visible)
    ensures Agree(PrepareItem(stage, item, true, c), b, visible + {stage.itemVar} + RetryNames(stage))
  {
    var s1 := PrepareItem(stage, item, false, s.slots);
    var c1 := PrepareItem(stage, item, true, c);
    InnerScratch(stage, j);
    TidyOwn(stage, used);
    hide Scratch, Writes, InnerWrites, Tidy, PrepareItem, RetryNames, InnerNames;
    forall n: Name | n in visible + {stage.itemVar} + RetryNames(stage)
      ensures SameSlot(c1, b, n)
    {
      PreparedSlot(stage, item, s.slots, c, n);
      if n == stage.itemVar || n in RetryNames(stage) {
        assert SameSlot(s1, t.slots, n) && SameSlot(t.slots, b, n);
      }
    }
  }

  lemma PreparedSlot(stage: StageDef, item: Value, s: Slots, c: Slots, n: Name)
    requires stage.Loop? && stage.over.Some? && stage.itemVar !in RetryNames(stage)
    requires InnerNames(stage.inner) !! ({stage.itemVar} + RetryNames(stage))
    ensures if n == stage.itemVar || n in RetryNames(stage)
      then SameSlot(PrepareItem(stage, item, true, c), PrepareItem(stage, item, false, s), n)
      else SameSlot(PrepareItem(stage, item, true, c), c, n)
  {
  }

  lemma TidyOwn(stage: StageDef, used: set<Name>)
    requires stage.Loop? && Tidy(stage, used)
    ensures (InnerWrites(stage) + InnerNames(stage.inner)) !! ({stage.itemVar} + RetryNames(stage))
      && stage.itemVar !in RetryNames(stage)
  {
  }

  lemma InnerScratch(stage: StageDef, j: nat)
    requires stage.Loop? && j < |stage.inner|
    ensures Scratch(stage.inner[j]) <= InnerWrites(stage)
  {
    assert Scratch(stage.inner[j]) <= Writes(stage.inner[j]);
    hide Writes, Scratch;
    forall n | n in Writes(stage.inner[j])
      ensures n in InnerWrites(stage)
    {
    }
  }

  lemma TidyInner(stage: StageDef, used: set<Name>, j: nat)
    requires stage.Loop? && Tidy(stage, used) && j < |stage.inner|
    ensures Distinct(stage.inner)
    ensures Tidy(stage.inner[j], used + OwnScratch(stage) + OutsOf(stage.inner, NamesOf(stage.inner[..j])))
  {
  }

  // ---------- the loop resumed ----------

  // The records of the items before the one in flight, as the resumed run finds them.
  lemma RecordsFound(stage: StageDef, base: Address, context: Option<LoopContext>, st: State,
                     items: seq<Value>, m: nat, p: Progress, s: State, b: State, disk: Disk)
    requires stage.Loop? && LoopStopped(stage, base, context, st, items, m, p, s, b)
    requires forall a: Address :: base + [Stage(stage.name)] <= a && a != base + [Stage(stage.name)] ==>
               SameAt(Dispatch(stage, base, context, None, st).1.tree.disk, disk, a)
    ensures var at := base + [Stage(stage.name)];
      && (forall n: nat :: 1 <= n <= m ==> ItemClosedOnDisk(disk, at, n))
      && Recounted(disk, at, m) == p
      && (forall n: nat :: n > m + 1 ==> NodeAt(disk, at + [Item(n)]).item.None?)
  {
    hide Dispatch, RunAttempts, SequencesOk, LoopStopped, Scratch;
    var at := base + [Stage(stage.name)];
    var final := Dispatch(stage, base, context, None, st).1.tree.disk;
    StoppedFacts(stage, base, context, st, items, m, p, s, b);
    var s1 := s.(slots := PrepareItem(stage, items[m], false, s.slots));
    AttemptsSteps(stage, at, m + 1, |items|, 0, None, s1);
    forall n: nat | n != m + 1
      ensures SameAt(s.tree.disk, disk, at + [Item(n)])
    {
      OutsideItem(at, m + 1, n);
      var a := at + [Item(n)];
      assert a != at && at <= a;
      assert SameAt(s1.tree.disk, b.tree.disk, a) && SameAt(b.tree.disk, final, a) && SameAt(final, disk, a);
    }
    forall n: nat | 1 <= n <= m
      ensures ItemClosedOnDisk(disk, at, n)
    {
      assert ItemClosedOnDisk(s.tree.disk, at, n) && SameAt(s.tree.disk, disk, at + [Item(n)]);
    }
    RecountedLocal(s.tree.disk, disk, at, m);
    forall n: nat | n > m + 1
      ensures NodeAt(disk, at + [Item(n)]).item.None?
    {
      var a := at + [Item(n)];
      assert a[|at|] == Item(n) && at <= a;
      assert SameAt(s.tree.disk, disk, a);
    }
  }

  lemma DispatchSameEnd(stage: StageDef, base: Address, context: Option<LoopContext>, x: State, y: State,
                        scope: set<Name>)
    requires Scoped(stage, scope) && Agree(x.slots, y.slots, scope) && x.stop == y.stop == None
    ensures var (f, x') := Dispatch(stage, base, context, None, x);
      var (g, y') := Dispatch(stage, base, context, None, y);
      SameEnd(f, x', g, y', After(stage, scope), scope)
  {
    hide Dispatch, Scoped, Agree, After, Scratch, Touched;
    DispatchAgrees(stage, base, context, x, y, scope);
    DispatchQuiet(stage, base, context, x);
    DispatchQuiet(stage, base, context, y);
  }

  // Live slots at the stop, seen from the start of the stage.
  lemma BackToStart(stage: StageDef, base: Address, context: Option<LoopContext>, st: State, c: Slots,
                    names: set<Name>, used: set<Name>)
    requires Tidy(stage, used) && names <= used && Dispatch(stage, base, context, None, st).0.Cancelled?
    requires Agree(c, Dispatch(stage, base, context, None, st).1.slots, names)
    ensures Agree(st.slots, c, names)
  {
    TidyScratch(stage, used, names);
    hide Dispatch, Scratch, Tidy;
    DispatchQuiet(stage, base, context, st);
    var b := Dispatch(stage, base, context, None, st).1.slots;
    forall n: Name | n in names
      ensures SameSlot(st.slots, c, n)
    {
      assert SameSlot(st.slots, b, n) && SameSlot(c, b, n);
    }
  }

  // The resumed loop, once its earlier items are reused: item m + 1 is the one to run.
  lemma ResumedLoop(stage: StageDef, base: Address, context: Option<LoopContext>, st: State, rest: Address, c: State,
                    items: seq<Value>, m: nat, p: Progress, s: State, b: State)
    returns (y: State)
    requires stage.Loop? && LoopStopped(stage, base, context, st, items, m, p, s, b)
    requires SameUnder(Dispatch(stage, base, context, None, st).1.tree.disk, c.tree.disk, base + [Stage(stage.name)])
    requires rest != [] && rest[0] == Item(m + 1)
    requires Gate(stage, c.slots).Holds? && LoopItems(stage, c.slots) == Some(items)
    ensures y.slots == c.slots && y.stop == c.stop
    ensures Idle(y.tree.disk, base + [Stage(stage.name)], m + 1, rest)
    ensures |rest| == 1 ==> Idle(y.tree.disk, base + [Stage(stage.name)], m, rest)
    ensures SameUnder(y.tree.disk, c.tree.disk, base + [Stage(stage.name)] + [Item(m + 1)])
    ensures OnlyAt(c.tree.disk, y.tree.disk, base + [Stage(stage.name)])
    ensures var at := base + [Stage(stage.name)];
      var (g, z) := Dispatch(stage, base, context, Some(rest), c);
      var (f, x) := RunItems(stage, at, items, m, Some(rest), p, y);
      g == f && z.slots == x.slots && z.stop == x.stop
  {
    hide RunItems, RunAttempts, SequencesOk, Scratch, LoopStopped, RunByType, LoopItems, Gate, Recounted, Dispatch,
      Entered, Leave, PathOf;
    var at := base + [Stage(stage.name)];
    var count := Count(c.counters, PathOf(at)) + 1;
    var c2 := Entered(stage, base, context, c);
    DispatchUnfold(stage, base, context, Some(rest), c);
    EnteredSlots(stage, base, context, c);
    EnteredDisk(stage, base, context, c);
    LoopUnfold(stage, at, count, Some(rest), c2);
    StoppedFacts(stage, base, context, st, items, m, p, s, b);
    var final := Dispatch(stage, base, context, None, st).1.tree.disk;
    forall a: Address | at <= a && a != at
      ensures SameAt(final, c2.tree.disk, a)
    {
      assert SameAt(final, c.tree.disk, a) && SameAt(c.tree.disk, c2.tree.disk, a);
    }
    RecordsFound(stage, base, context, st, items, m, p, s, b, c2.tree.disk);
    assert Recounted(c2.tree.disk, at, 0) == Progress([], 0, 0) by { RecountedZero(c2.tree.disk, at); }
    y := ReuseItems(stage, at, items, 0, m, rest, c2);
    BelowEntered(c.tree.disk, c2.tree.disk, at, m + 1);
    LeaveSlots(RunItems(stage, at, items, m, Some(rest), p, y).1, at, count, context,
               StatusOf(RunItems(stage, at, items, m, Some(rest), p, y).0),
               ResultOf(RunItems(stage, at, items, m, Some(rest), p, y).0));
  }

  lemma RecountedZero(disk: Disk, at: Address)
    ensures Recounted(disk, at, 0) == Progress([], 0, 0)
  {
  }

  lemma BelowEntered(d: Disk, d2: Disk, at: Address, number: nat)
    requires OnlyAt(d, d2, at)
    ensures SameUnder(d2, d, at + [Item(number)])
  {
    forall a: Address | at + [Item(number)] <= a
      ensures SameAt(d2, d, a)
    {
      assert SameAt(d, d2, a);
    }
  }

  lemma EnteredDisk(stage: StageDef, base: Address, context: Option<LoopContext>, st: State)
    ensures OnlyAt(st.tree.disk, Entered(stage, base, context, st).tree.disk, base + [Stage(stage.name)])
    ensures Entered(stage, base, context, st).stop == st.stop
    ensures !HasStatus(Entered(stage, base, context, st).tree.disk, base + [Stage(stage.name)], Skipped)
  {
    WriteMetaFacts(st.tree, base + [Stage(stage.name)], Running, context);
  }

  lemma IdleKept(d: Disk, s2: State, at: Address, m: nat, rest: Address, record: ItemRecord)
    requires Idle(d, at, m + 1, rest) && rest != [] && rest[0] == Item(m + 1)
    requires SameOutside(d, s2.tree.disk, at + [Item(m + 1)]) && record.number == m + 1
    ensures Idle(CloseItem(s2, at, record).tree.disk, at, m + 1, rest)
  {
    forall n: nat | n > m + 1
      ensures NodeAt(CloseItem(s2, at, record).tree.disk, at + [Item(n)]).item.None?
    {
      OutsideItem(at, m + 1, n);
      assert SameAt(d, s2.tree.disk, at + [Item(n)]);
    }
  }

  lemma AfterItemIdle(stage: StageDef, at: Address, items: seq<Value>, m: nat, rest: Address, progress: Progress,
                      end: ItemEnd, used: nat, d: Disk, y: State)
    requires stage.Loop? && m < |items| && Idle(d, at, m + 1, rest) && rest != [] && rest[0] == Item(m + 1)
    requires SameOutside(d, y.tree.disk, at + [Item(m + 1)])
    ensures AfterItem(stage, at, items, m, Some(rest), progress, end, used, y) ==
        AfterItem(stage, at, items, m, None, progress, end, used, y)
  {
    var record := RecordOf(stage, y.slots, items[m], m + 1, |items|, end, used);
    IdleKept(d, y, at, m, rest, record);
    hide RunItems;
    if Continues(stage, end) {
      var y3 := CloseItem(y, at, record);
      var entry := if stage.over.Some? then Some(Collect(stage, y3.slots, items[m], end.ItemDone?)) else None;
      IdleItems(stage, at, items, m + 1, rest, Tallied(progress, entry, end.ItemDone?), y3);
    }
  }

  // Resuming inside the item in flight: the rest of its first pass, its retries, and the later items.
  lemma ItemResumed(stage: StageDef, at: Address, items: seq<Value>, m: nat, p: Progress, rest: Address, j: nat,
                    s: State, t: State, y: State, scope: set<Name>)
    requires stage.Loop? && m < |items| && Scoped(stage, scope) && Distinct(stage.inner)
    requires |rest| > 1 && rest[0] == Item(m + 1) && j < |stage.inner| && rest[1] == Stage(stage.inner[j].name)
    requires Idle(y.tree.disk, at, m + 1, rest)
    requires var dir := at + [Item(m + 1)];
      var context := FirstContext(stage, m + 1, |items|);
      var s1 := s.(slots := PrepareItem(stage, items[m], false, s.slots));
      var y1 := y.(slots := PrepareItem(stage, items[m], true, y.slots));
      var (f, x') := Dispatch(stage.inner[j], dir, Some(context), None, Unstopped(t));
      var (g, y') := Dispatch(stage.inner[j], dir, Some(context), Some(rest[2..]), y1);
      var here := AfterAll(stage.inner[..j], ItemScope(stage, scope));
      && RunInner(stage, 0, dir, context, None, Unstopped(s1)) == RunInner(stage, j, dir, context, None, Unstopped(t))
      && SameEnd(f, x', g, y', After(stage.inner[j], here), here)
    ensures var (f, x') := RunItems(stage, at, items, m, None, p, Unstopped(s));
      var (g, y') := RunItems(stage, at, items, m, Some(rest), p, y);
      SameEnd(f, x', g, y', After(stage, scope), scope)
  {
    hide RunItems, RunAttempts, RunInner, Dispatch, Scoped, SameEnd, PrepareItem, AfterPass, AfterItem, After,
      AfterAll, ItemScope, Step, Idle, Agree;
    var dir := at + [Item(m + 1)];
    var context := FirstContext(stage, m + 1, |items|);
    var us1 := Unstopped(s).(slots := PrepareItem(stage, items[m], false, s.slots));
    var y1 := y.(slots := PrepareItem(stage, items[m], true, y.slots));
    PassAgrees(stage, j, dir, context, Some(rest[2..]), Unstopped(t), y1, scope);
    LiveItem(stage, at, items, m, None, p, Unstopped(s));
    LiveItem(stage, at, items, m, Some(rest), p, y);
    FreshPass(stage, at, m + 1, |items|, us1);
    assert rest[1..][0] == rest[1] && rest[1..][1..] == rest[2..];
    ResumedPass(stage, at, m + 1, |items|, j, rest[1..], y1);
    var (f, x2) := RunInner(stage, j, dir, context, None, Unstopped(t));
    var (g, y2) := RunInner(stage, j, dir, context, Some(rest[2..]), y1);
    AfterPassAgrees(stage, at, m + 1, |items|, f, x2, g, y2, scope);
    var (end, used, x3) := AfterPass(stage, at, m + 1, |items|, f, x2);
    var (end', used', y3) := AfterPass(stage, at, m + 1, |items|, g, y2);
    AfterItemAgrees(stage, at, items, m, p, end, used, x3, y3, scope);
    AttemptsSteps(stage, at, m + 1, |items|, 0, Some(rest[1..]), y1);
    StepOutside(y1, y3, dir, Some(at));
    AfterItemIdle(stage, at, items, m, rest, p, end, used, y.tree.disk, y3);
  }

  // ---------- the stage resumed ----------

  lemma HaltedBelowLoop(stage: StageDef, base: Address, context: Option<LoopContext>, st: State, disk: Disk,
                        rest: Address)
    requires Clear(st.tree.disk, base + [Stage(stage.name)])
    requires SameUnder(Dispatch(stage, base, context, None, st).1.tree.disk, disk, base + [Stage(stage.name)])
    requires rest != [] && HasStatus(disk, base + [Stage(stage.name)] + rest, Halted) && ListedPath(stage, rest)
    ensures stage.Loop?
  {
    hide Dispatch, HasStatus;
    if !stage.Loop? {
      var at := base + [Stage(stage.name)];
      AtomicNotHalted(stage, base, context, st, rest);
      assert at <= at + rest;
      assert SameAt(Dispatch(stage, base, context, None, st).1.tree.disk, disk, at + rest);
      SameStatus(Dispatch(stage, base, context, None, st).1.tree.disk, disk, at + rest, Halted);
    }
  }

  lemma LoopSameEnd(stage: StageDef, base: Address, context: Option<LoopContext>, st: State, rest: Address, c: State,
                    items: seq<Value>, m: nat, p: Progress, s: State, b: State, y: State, scope: set<Name>)
    requires stage.Loop? && LoopStopped(stage, base, context, st, items, m, p, s, b)
    requires var at := base + [Stage(stage.name)];
      var (g, z) := Dispatch(stage, base, context, Some(rest), c);
      var (g', z') := RunItems(stage, at, items, m, Some(rest), p, y);
      var (f', x') := RunItems(stage, at, items, m, None, p, Unstopped(s));
      && g == g' && z.slots == z'.slots && z.stop == z'.stop
      && SameEnd(f', x', g', z', After(stage, scope), scope)
    ensures var (f, x) := Dispatch(stage, base, context, None, Unstopped(st));
      var (g, z) := Dispatch(stage, base, context, Some(rest), c);
      SameEnd(f, x, g, z, After(stage, scope), scope)
  {
    hide Dispatch, RunItems, After, Scratch, Touched, RunAttempts, SequencesOk, HasStatus, ItemsOnDisk, Recounted,
      LoopItems;
    DispatchQuiet(stage, base, context, Unstopped(st));
  }

  lemma SlotsBefore(stage: StageDef, st: Slots, s: Slots, c: Slots, scope: set<Name>, names: set<Name>, used: set<Name>)
    requires Tidy(stage, used) && scope <= names <= used
    requires ChangesOnly(st, s, Scratch(stage)) && Agree(st, c, names)
    ensures Agree(s, c, scope)
  {
    TidyScratch(stage, used, names);
    hide Scratch, Tidy;
    forall n: Name | n in scope
      ensures SameSlot(s, c, n)
    {
      assert SameSlot(st, s, n) && SameSlot(st, c, n);
    }
  }

  lemma HaltedEntered(d: Disk, d2: Disk, at: Address, rest: Address)
    requires HasStatus(d, at + rest, Halted) && OnlyAt(d, d2, at) && rest != []
    ensures HasStatus(d2, at + rest, Halted)
  {
    assert SameAt(d, d2, at + rest);
    SameStatus(d, d2, at + rest, Halted);
  }

  lemma BelowOwn(d: Disk, d2: Disk, at: Address, zone: Address)
    requires OnlyAt(d, d2, at) && at <= zone && at != zone
    ensures SameUnder(d, d2, zone)
  {
  }

  lemma ZoneThrough(b: Disk, c: Disk, y: Disk, dir: Address, name: Name)
    requires SameUnder(b, c, dir + [Stage(name)]) && SameUnder(y, c, dir)
    ensures SameUnder(b, y, dir + [Stage(name)])
  {
    forall a: Address | dir + [Stage(name)] <= a
      ensures SameAt(b, y, a)
    {
      PrefixTrans(dir, dir + [Stage(name)], a);
      assert SameAt(b, c, a) && SameAt(y, c, a);
    }
  }

  lemma AgreeSelf(s: Slots, names: set<Name>)
    ensures Agree(s, s, names)
  {
  }

  lemma InsideScope(stage: StageDef, scope: set<Name>, names: set<Name>, used: set<Name>, j: nat)
    requires stage.Loop? && stage.over.Some? && Distinct(stage.inner) && j < |stage.inner| && scope <= names <= used
    ensures AfterAll(stage.inner[..j], ItemScope(stage, scope)) <= InsideNames(stage, names, j) + RetryNames(stage)
    ensures InsideNames(stage, names, j) + RetryNames(stage) <= used + OwnScratch(stage) +
        OutsOf(stage.inner, NamesOf(stage.inner[..j]))
  {
    AfterAllOuts(stage.inner, j, ItemScope(stage, scope));
  }

  lemma ListedInner(stage: StageDef, rest: Address, j: nat)
    requires stage.Loop? && Distinct(stage.inner) && j < |stage.inner| && |rest| > 1
      && rest[1] == Stage(stage.inner[j].name)
    ensures ListedPath(stage, rest) ==> ListedPath(stage.inner[j], rest[2..])
    ensures forall names: set<Name> ::
        Visible(stage, names, rest) == Visible(stage.inner[j], InsideNames(stage, names, j), rest[2..])
  {
    DistinctIndex(stage.inner, j);
  }

  // The inner stage in flight, and the slots the resumed item hands to it.
  lemma InnerResumable(stage: StageDef, base: Address, context: Option<LoopContext>, st: State, rest: Address, c: State,
                       names: set<Name>, used: set<Name>, items: seq<Value>, m: nat, p: Progress, s: State, b: State,
                       y: State)
    returns (j: nat, t: State)
    requires stage.Loop? && stage.over.Some? && Tidy(stage, used)
      && LoopStopped(stage, base, context, st, items, m, p, s, b)
    requires SameUnder(Dispatch(stage, base, context, None, st).1.tree.disk, c.tree.disk, base + [Stage(stage.name)])
    requires |rest| > 1 && rest[0] == Item(m + 1)
    requires HasStatus(c.tree.disk, base + [Stage(stage.name)] + rest, Halted)
      && Resumable(c.tree.disk, base + [Stage(stage.name)], stage, rest)
    requires Agree(c.slots, b.slots, Visible(stage, names, rest)) && y.slots == c.slots
    requires SameUnder(y.tree.disk, c.tree.disk, base + [Stage(stage.name)] + [Item(m + 1)])
    ensures j < |stage.inner| && rest[1] == Stage(stage.inner[j].name)
    ensures var at := base + [Stage(stage.name)];
      var dir := at + [Item(m + 1)];
      var inner := FirstContext(stage, m + 1, |items|);
      var s1 := s.(slots := PrepareItem(stage, items[m], false, s.slots));
      && Dispatch(stage.inner[j], dir, Some(inner), None, t) == (Cancelled, b)
      && RunInner(stage, 0, dir, inner, None, Unstopped(s1)) == RunInner(stage, j, dir, inner, None, Unstopped(t))
      && Clear(t.tree.disk, dir + [Stage(stage.inner[j].name)]) && SequencesOk(t.tree)
      && SameUnder(b.tree.disk, y.tree.disk, dir + [Stage(stage.inner[j].name)])
      && Agree(PrepareItem(stage, items[m], true, y.slots), b.slots,
               Visible(stage.inner[j], InsideNames(stage, names, j) + RetryNames(stage), rest[2..]))
  {
    hide Dispatch, RunInner, HasStatus, Scratch, SequencesOk, Agree, Resumable, RunItems, LoopItems, Recounted, Clear,
      LoopStopped, RunAttempts, ItemsOnDisk, Apart, ReplayAll, OutsOf, Tidy, PrepareItem, InsideNames, RetryNames,
      InnerStopped;
    var at := base + [Stage(stage.name)];
    var dir := at + [Item(m + 1)];
    StoppedFacts(stage, base, context, st, items, m, p, s, b);
    var prepared := PrepareItem(stage, items[m], false, s.slots);
    AgreeSelf(prepared, {});
    if |stage.inner| > 0 { TidyInner(stage, used, 0); }
    TidyApart(stage, used, {});
    TidyDistinct(stage, used);
    j, t := InnerInFlight(stage, base, context, st, c.tree.disk, rest, items, m, p, s, b, prepared, {});
    InnerFacts(stage, at, items, m, s, b, c.tree.disk, rest[1..], prepared, {}, j, t);
    InnerRun(stage, at, items, m, s, b, c.tree.disk, rest[1..], prepared, {}, j, t);
    ZoneThrough(b.tree.disk, c.tree.disk, y.tree.disk, dir, stage.inner[j].name);
    DispatchQuiet(stage.inner[j], dir, Some(FirstContext(stage, m + 1, |items|)), t);
    ItemSlots(stage, items[m], s, t, b.slots, j, c.slots, Visible(stage, names, rest), used);
    ListedInner(stage, rest, j);
    VisibleMore(stage.inner[j], InsideNames(stage, names, j), RetryNames(stage), rest[2..]);
    AgreeLess(PrepareItem(stage, items[m], true, c.slots), b.slots,
              Visible(stage, names, rest) + {stage.itemVar} + RetryNames(stage),
              Visible(stage.inner[j], InsideNames(stage, names, j) + RetryNames(stage), rest[2..]));
  }

  lemma TidyDistinct(stage: StageDef, used: set<Name>)
    requires stage.Loop? && Tidy(stage, used)
    ensures Distinct(stage.inner)
  {
  }

  lemma InnerRun(stage: StageDef, at: Address, items: seq<Value>, m: nat, s: State, b: State, disk: Disk,
                 rest: Address, start: Slots, names: set<Name>, j: nat, t: State)
    requires stage.Loop? && m < |items| && rest != []
    requires InnerStopped(stage, at, items, m, s, b, disk, rest, start, names, j, t)
    ensures var dir := at + [Item(m + 1)];
      var context := FirstContext(stage, m + 1, |items|);
      var s1 := s.(slots := PrepareItem(stage, items[m], false, s.slots));
      && RunInner(stage, 0, dir, context, None, Unstopped(s1)) == RunInner(stage, j, dir, context, None, Unstopped(t))
      && ChangesOnly(s1.slots, t.slots, InnerWrites(stage))
  {
    hide Dispatch, RunInner, Clear, SequencesOk, Replayed, InnerWrites;
  }

  // Stop and resume: a dispatch stopped at any moment and resumed at any address that its recorded
  // tree shows as halted ends the way the uninterrupted dispatch does.
  lemma {:induction false} StageResume(stage: StageDef, base: Address, context: Option<LoopContext>, st: State,
                                       rest: Address, c: State,
                                       scope: set<Name>, names: set<Name>, used: set<Name>)
    requires Scoped(stage, scope) && Tidy(stage, used) && scope <= names <= used && ListedPath(stage, rest)
    requires Clear(st.tree.disk, base + [Stage(stage.name)]) && SequencesOk(st.tree)
    requires Dispatch(stage, base, context, None, st).0.Cancelled?
    requires SameUnder(Dispatch(stage, base, context, None, st).1.tree.disk, c.tree.disk, base + [Stage(stage.name)])
    requires rest != [] ==>
        HasStatus(c.tree.disk, base + [Stage(stage.name)] + rest, Halted)
            && Resumable(c.tree.disk, base + [Stage(stage.name)], stage, rest)
    requires c.stop.None? && Agree(c.slots, Dispatch(stage, base, context, None, st).1.slots,
                                   Visible(stage, names, rest))
    ensures var (f, x) := Dispatch(stage, base, context, None, Unstopped(st));
      var (g, z) := Dispatch(stage, base, context, Some(rest), c);
      SameEnd(f, x, g, z, After(stage, scope), scope)
    decreases stage, 1
  {
    hide Dispatch, RunInner, HasStatus, Scratch, SequencesOk, Agree, Resumable, RunItems, LoopItems, Recounted, Clear,
      LoopStopped, InnerStopped, RunAttempts, ItemsOnDisk, Distinct, Apart, ReplayAll, OutsOf, Scoped, Tidy, After,
      AfterAll, ItemScope, Gate, SameEnd, Idle;
    var at := base + [Stage(stage.name)];
    var final := Dispatch(stage, base, context, None, st).1;
    VisibleKeeps(stage, names, rest);
    AgreeLess(c.slots, final.slots, Visible(stage, names, rest), names);
    BackToStart(stage, base, context, st, c.slots, names, used);
    AgreeLess(st.slots, c.slots, names, scope);
    if rest == [] {
      EmptyCursor(stage, base, context, c);
      DispatchSameEnd(stage, base, context, Unstopped(st), c, scope);
    } else {
      HaltedBelowLoop(stage, base, context, st, c.tree.disk, rest);
      var items, m, p, s, b := LoopCut(stage, base, context, st);
      HaltedItem(stage, base, context, st, c.tree.disk, rest, items, m, p, s, b);
      StoppedFacts(stage, base, context, st, items, m, p, s, b);
      ScopedGate(stage, st.slots, c.slots, scope);
      var y := ResumedLoop(stage, base, context, st, rest, c, items, m, p, s, b);
      if |rest| == 1 {
        SlotsBefore(stage, st.slots, s.slots, c.slots, scope, names, used);
        IdleItems(stage, at, items, m, rest, p, y);
        ItemsSameEnd(stage, at, items, m, p, Unstopped(s), y, scope);
      } else {
        var j, t := InnerResumable(stage, base, context, st, rest, c, names, used, items, m, p, s, b, y);
        InnerResumes(stage, base, context, st, rest, c, scope, names, used, items, m, b, y, j, t);
        TidyDistinct(stage, used);
        ItemResumed(stage, at, items, m, p, rest, j, s, t, y, scope);
      }
      LoopSameEnd(stage, base, context, st, rest, c, items, m, p, s, b, y, scope);
    }
  }

  // The induction step: the inner stage in flight, resumed in the prepared item.
  lemma {:induction false} InnerResumes(stage: StageDef, base: Address, context: Option<LoopContext>, st: State,
                                        rest: Address, c: State,
                     scope: set<Name>, names: set<Name>, used: set<Name>, items: seq<Value>, m: nat, b: State,
                     y: State, j: nat, t: State)
    requires stage.Loop? && stage.over.Some? && Scoped(stage, scope) && Tidy(stage, used) && scope <= names <= used
      && ListedPath(stage, rest)
    requires |rest| > 1 && rest[0] == Item(m + 1) && j < |stage.inner| && rest[1] == Stage(stage.inner[j].name)
      && m < |items|
    requires HasStatus(c.tree.disk, base + [Stage(stage.name)] + rest, Halted)
      && Resumable(c.tree.disk, base + [Stage(stage.name)], stage, rest)
    requires OnlyAt(c.tree.disk, y.tree.disk, base + [Stage(stage.name)])
    requires y.stop.None?
    requires var dir := base + [Stage(stage.name)] + [Item(m + 1)];
      && Dispatch(stage.inner[j], dir, Some(FirstContext(stage, m + 1, |items|)), None, t) == (Cancelled, b)
      && Clear(t.tree.disk, dir + [Stage(stage.inner[j].name)]) && SequencesOk(t.tree)
      && SameUnder(b.tree.disk, y.tree.disk, dir + [Stage(stage.inner[j].name)])
      && Agree(PrepareItem(stage, items[m], true, y.slots), b.slots,
               Visible(stage.inner[j], InsideNames(stage, names, j) + RetryNames(stage), rest[2..]))
    ensures var dir := base + [Stage(stage.name)] + [Item(m + 1)];
      var inner := FirstContext(stage, m + 1, |items|);
      var y1 := y.(slots := PrepareItem(stage, items[m], true, y.slots));
      var (f, x') := Dispatch(stage.inner[j], dir, Some(inner), None, Unstopped(t));
      var (g, y') := Dispatch(stage.inner[j], dir, Some(inner), Some(rest[2..]), y1);
      var here := AfterAll(stage.inner[..j], ItemScope(stage, scope));
      SameEnd(f, x', g, y', After(stage.inner[j], here), here)
    decreases stage, 0
  {
    hide Dispatch, HasStatus, SequencesOk, Agree, Resumable, Clear, Scoped, Tidy, After, AfterAll, ItemScope,
      PrepareItem, OutsOf, SameEnd;
    var at := base + [Stage(stage.name)];
    var dir := at + [Item(m + 1)];
    var y1 := y.(slots := PrepareItem(stage, items[m], true, y.slots));
    SplitSecond(at, rest);
    TidyDistinct(stage, used);
    ResumableInner(c.tree.disk, at, stage, rest, j);
    BelowOwn(c.tree.disk, y.tree.disk, at, dir + [rest[1]]);
    ResumableLocal(c.tree.disk, y.tree.disk, dir + [rest[1]], stage.inner[j], rest[2..]);
    HaltedEntered(c.tree.disk, y.tree.disk, at, rest);
    ScopedInner(stage, scope, j);
    TidyInner(stage, used, j);
    InsideScope(stage, scope, names, used, j);
    ListedInner(stage, rest, j);
    StageResume(stage.inner[j], dir, Some(FirstContext(stage, m + 1, |items|)), t, rest[2..], y1,
                AfterAll(stage.inner[..j], ItemScope(stage, scope)), InsideNames(stage, names, j) + RetryNames(stage),
                used + OwnScratch(stage) + OutsOf(stage.inner, NamesOf(stage.inner[..j])));
  }
}
