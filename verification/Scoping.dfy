// A static discipline on which slots the stages read, and noninterference: two runs that agree on
// the slots in scope take the same course and keep agreeing, whatever else their registries hold.
module Scoping {
  import opened Options
  import opened Addresses
  import opened WorkflowModel
  import opened Engine
  import opened EngineRuns

  ghost predicate Agree(s: Slots, s': Slots, names: set<Name>)
  {
    forall n: Name :: n in names ==> SameSlot(s, s', n)
  }

  ghost predicate Reads(c: Condition, scope: set<Name>)
  {
    forall s: Slots, s': Slots :: Agree(s, s', scope) ==> c(s) == c(s')
  }

  ghost predicate TemplateReads(f: Slots -> Value, scope: set<Name>)
  {
    forall s: Slots, s': Slots :: Agree(s, s', scope) ==> f(s) == f(s')
  }

  ghost predicate ListReads(f: Slots -> Option<seq<Value>>, scope: set<Name>)
  {
    forall s: Slots, s': Slots :: Agree(s, s', scope) ==> f(s) == f(s')
  }

  // Deterministic: the same slots in scope give the same outcome at every invocation.
  ghost predicate ActionReads(f: Action, scope: set<Name>)
  {
    forall m: nat, n: nat, s: Slots, s': Slots :: Agree(s, s', scope) ==> f(m, s) == f(n, s')
  }

  ghost predicate AlwaysHolds(c: Condition)
  {
    forall s: Slots :: c(s) == Holds
  }

  // The slots in scope for the inner stages of one item: those of the loop plus the item's own.
  ghost function ItemScope(stage: StageDef, scope: set<Name>): set<Name>
    requires stage.Loop?
  {
    scope + (if stage.over.Some? then {stage.itemVar} else {}) + RetryNames(stage) + InnerNames(stage.inner)
  }

  // A declared output comes into scope when its stage cannot be skipped.
  ghost function After(stage: StageDef, scope: set<Name>): set<Name>
  {
    match stage
    case Work(_, _, condition, output, _) => if AlwaysHolds(condition) then scope + OutputSet(output) else scope
    case Branch(_, _, _, _) => scope
    case Loop(_, _, over, _, entry, _, _, _, _, output, _, _) =>
      if over.Some? && AlwaysHolds(entry) then scope + OutputSet(output) else scope
    case Nested(name, _, condition, _, _, _) => if AlwaysHolds(condition) then scope + {name} else scope
  }

  ghost function AfterAll(stages: seq<StageDef>, scope: set<Name>): set<Name>
  {
    if stages == [] then scope else After(stages[|stages| - 1], AfterAll(stages[..|stages| - 1], scope))
  }

  lemma {:induction false} AfterAllGrows(stages: seq<StageDef>, scope: set<Name>)
    ensures scope <= AfterAll(stages, scope)
  {
    if stages != [] { AfterAllGrows(stages[..|stages| - 1], scope); }
  }

  // A seed depends on nothing but the slots in scope.
  ghost predicate SeedReads(f: Slots -> Option<Slots>, scope: set<Name>)
  {
    forall s: Slots, s': Slots :: Agree(s, s', scope) ==> f(s) == f(s')
  }

  // The stages of a nested workflow read only the given slots of its own registry.
  ghost predicate ScopedInside(stage: StageDef, own: set<Name>)
    requires stage.Nested?
    decreases stage, 0
  {
    forall k | 0 <= k < |stage.stages| :: Scoped(stage.stages[k], own)
  }

  ghost predicate Scoped(stage: StageDef, scope: set<Name>)
    decreases stage, 1
  {
    match stage
    case Work(_, _, condition, _, action) => Reads(condition, scope) && ActionReads(action, scope)
    case Branch(_, choice, _, _) => Reads(choice, scope)
    case Loop(_, _, over, _, entry, exit, _, _, onRetry, _, _, inner) =>
      && Reads(entry, scope)
      && (over.Some? ==> ListReads(over.value, scope))
      && Reads(exit, AfterAll(inner, ItemScope(stage, scope)))
      && (forall k | 0 <= k < |onRetry| :: TemplateReads(onRetry[k].1, ItemScope(stage, scope)))
      && (forall k | 0 <= k < |inner| :: Scoped(inner[k], AfterAll(inner[..k], ItemScope(stage, scope))))
    case Nested(_, _, condition, seed, _, _) =>
      Reads(condition, scope) && SeedReads(seed, scope) && exists own: set<Name> :: ScopedInside(stage, own)
  }

  // ---------- the helpers agree ----------

  lemma WriteAgrees(s: Slots, s': Slots, output: Option<Name>, value: Value, scope: set<Name>)
    requires Agree(s, s', scope)
    ensures Agree(Write(s, output, value), Write(s', output, value), scope + OutputSet(output))
  {
  }

  lemma AgreeLess(s: Slots, s': Slots, more: set<Name>, fewer: set<Name>)
    requires Agree(s, s', more) && fewer <= more
    ensures Agree(s, s', fewer)
  {
  }

  lemma PrepareAgrees(stage: StageDef, item: Value, s: Slots, s': Slots, scope: set<Name>)
    requires stage.Loop? && Agree(s, s', scope)
    ensures Agree(PrepareItem(stage, item, false, s), PrepareItem(stage, item, false, s'), ItemScope(stage, scope))
  {
  }

  lemma {:induction false} RetryAgrees(templates: seq<(Name, Slots -> Value)>, s: Slots, s': Slots, scope: set<Name>)
    requires Agree(s, s', scope)
    requires forall k | 0 <= k < |templates| :: TemplateReads(templates[k].1, scope)
    ensures Agree(ApplyRetry(templates, s), ApplyRetry(templates, s'), scope)
  {
    if templates != [] {
      assert TemplateReads(templates[0].1, scope);
      RetryAgrees(templates[1..], s[templates[0].0 := templates[0].1(s)], s'[templates[0].0 := templates[0].1(s')],
                  scope);
    }
  }

  lemma {:induction false} InnerResultsAgree(inner: seq<StageDef>, s: Slots, s': Slots)
    requires Agree(s, s', InnerNames(inner))
    ensures InnerResults(inner, s) == InnerResults(inner, s')
  {
    if inner != [] {
      var n := |inner| - 1;
      assert inner[n].name in InnerNames(inner);
      forall m | m in InnerNames(inner[..n])
        ensures m in InnerNames(inner)
      {
        var k :| 0 <= k < n && inner[..n][k].name == m;
        assert inner[k].name == m;
      }
      InnerResultsAgree(inner[..n], s, s');
    }
  }

  lemma ReadsSame(c: Condition, s: Slots, s': Slots, scope: set<Name>)
    requires Reads(c, scope) && Agree(s, s', scope)
    ensures c(s) == c(s')
  {
  }

  // What the scoping of a loop says of its exit condition and retry templates.
  lemma LoopScoping(stage: StageDef, scope: set<Name>)
    requires stage.Loop? && Scoped(stage, scope)
    ensures Reads(stage.exit, AfterAll(stage.inner, ItemScope(stage, scope)))
    ensures forall k | 0 <= k < |stage.onRetry| :: TemplateReads(stage.onRetry[k].1, ItemScope(stage, scope))
  {
  }

  lemma ScopedInner(stage: StageDef, scope: set<Name>, j: nat)
    requires stage.Loop? && Scoped(stage, scope) && j < |stage.inner|
    ensures Scoped(stage.inner[j], AfterAll(stage.inner[..j], ItemScope(stage, scope)))
  {
  }

  lemma ScopedGate(stage: StageDef, s: Slots, s': Slots, scope: set<Name>)
    requires Scoped(stage, scope) && Agree(s, s', scope)
    ensures Gate(stage, s) == Gate(stage, s') && (stage.Loop? ==> LoopItems(stage, s) == LoopItems(stage, s'))
  {
  }

  // A stage that can be skipped brings nothing into scope for sure.
  lemma SkippableAdds(stage: StageDef, slots: Slots, scope: set<Name>)
    requires Gate(stage, slots).Fails?
    ensures After(stage, scope) == scope
  {
  }

  // ---------- noninterference ----------

  lemma {:induction false} DispatchAgrees(stage: StageDef, base: Address, context: Option<LoopContext>, x: State,
                                          y: State, scope: set<Name>)
    requires Scoped(stage, scope) && Agree(x.slots, y.slots, scope) && x.stop == y.stop == None
    ensures var (f, x') := Dispatch(stage, base, context, None, x);
      var (g, y') := Dispatch(stage, base, context, None, y);
      f == g && Agree(x'.slots, y'.slots, if f.Next? then After(stage, scope) else scope)
    decreases stage, 4, 0
  {
    hide Dispatch, Scoped, Reads, Agree, RunByType, PathOf, Entered, Leave, Gate, After;
    ScopedGate(stage, x.slots, y.slots, scope);
    var at := base + [Stage(stage.name)];
    var cx, cy := Count(x.counters, PathOf(at)) + 1, Count(y.counters, PathOf(at)) + 1;
    var x2, y2 := Entered(stage, base, context, x), Entered(stage, base, context, y);
    EnteredSlots(stage, base, context, x);
    EnteredSlots(stage, base, context, y);
    match Gate(stage, x.slots) {
      case Broken =>
        DispatchBroken(stage, base, context, None, x);
        DispatchBroken(stage, base, context, None, y);
      case Fails =>
        DispatchSkips(stage, base, context, None, x);
        DispatchSkips(stage, base, context, None, y);
        LeaveSlots(x2, at, cx, context, Skipped, Null);
        LeaveSlots(y2, at, cy, context, Skipped, Null);
        SkippableAdds(stage, x.slots, scope);
      case Holds =>
        DispatchUnfold(stage, base, context, None, x);
        DispatchUnfold(stage, base, context, None, y);
        BodyAgrees(stage, at, cx, cy, x2, y2, scope);
        var (f, x3) := RunByType(stage, at, cx, None, x2);
        var (g, y3) := RunByType(stage, at, cy, None, y2);
        LeaveSlots(x3, at, cx, context, StatusOf(f), ResultOf(f));
        LeaveSlots(y3, at, cy, context, StatusOf(g), ResultOf(g));
    }
  }

  lemma {:induction false} BodyAgrees(stage: StageDef, at: Address, cx: nat, cy: nat, x: State, y: State,
                                      scope: set<Name>)
    requires Scoped(stage, scope) && Agree(x.slots, y.slots, scope) && x.stop == y.stop == None
    ensures var (f, x') := RunByType(stage, at, cx, None, x); var (g, y') := RunByType(stage, at, cy, None, y);
      f == g && Agree(x'.slots, y'.slots, if f.Next? then After(stage, scope) else scope)
    decreases stage, 3, 1
  {
    match stage
    case Work(_, _, _, output, action) =>
      assert action(cx, x.slots) == action(cy, y.slots);
      if action(cx, x.slots).Done? {
        WriteAgrees(x.slots, y.slots, output, action(cx, x.slots).value, scope);
      }
    case Branch(_, _, _, _) =>
    case Loop(_, _, _, _, _, _, _, _, _, _, _, _) =>
      assert RunByType(stage, at, cx, None, x) == RunLoop(stage, at, None, x);
      assert RunByType(stage, at, cy, None, y) == RunLoop(stage, at, None, y);
      assert LoopItems(stage, x.slots) == LoopItems(stage, y.slots);
      if LoopItems(stage, x.slots).Some? {
        ItemsAgree(stage, at, LoopItems(stage, x.slots).value, 0, Progress([], 0, 0), x, y, scope);
      }
    case Nested(name, _, _, seed, _, _) =>
      assert RunByType(stage, at, cx, None, x) == RunSubWorkflow(stage, at, x);
      assert RunByType(stage, at, cy, None, y) == RunSubWorkflow(stage, at, y);
      assert seed(x.slots) == seed(y.slots);
      if seed(x.slots).Some? {
        var own: set<Name> :| ScopedInside(stage, own);
        var x1, y1 := x.(slots := seed(x.slots).value), y.(slots := seed(x.slots).value);
        StagesAgree(stage, 0, at, stage.limit, map[], x1, y1, own);
        var (f, x2) := RunStages(stage, 0, at, stage.limit, map[], x1);
        WriteAgrees(x.slots, y.slots, Some(name), ResultOf(f), scope);
      }
  }

  lemma {:induction false} StagesAgree(stage: StageDef, k: nat, at: Address, left: nat, outcomes: map<Name, Value>,
                                       x: State, y: State, own: set<Name>)
    requires stage.Nested? && k <= |stage.stages| && ScopedInside(stage, own)
    requires Agree(x.slots, y.slots, own) && x.stop == y.stop == None
    ensures var (f, x') := RunStages(stage, k, at, left, outcomes, x);
      var (g, y') := RunStages(stage, k, at, left, outcomes, y);
      f == g
    decreases stage, 2, left
  {
    hide Dispatch, Scoped, Agree, After, Scratch, Writes;
    if k < |stage.stages| && left > 0 {
      var (f, x1) := Dispatch(stage.stages[k], at, None, None, x);
      var (g, y1) := Dispatch(stage.stages[k], at, None, None, y);
      DispatchAgrees(stage.stages[k], at, None, x, y, own);
      DispatchQuiet(stage.stages[k], at, None, x);
      DispatchQuiet(stage.stages[k], at, None, y);
      if f.Next? {
        AfterGrows(stage.stages[k], own);
        AgreeLess(x1.slots, y1.slots, After(stage.stages[k], own), own);
        var next := if f.jump.None? then k + 1 else IndexOf(stage.stages, f.jump.value);
        if f.jump.None? || next < |stage.stages| {
          StagesAgree(stage, next, at, left - 1, outcomes[stage.stages[k].name := f.result], x1, y1, own);
        }
      }
    }
  }

  lemma AfterGrows(stage: StageDef, scope: set<Name>)
    ensures scope <= After(stage, scope)
  {
  }

  lemma {:induction false} ItemsAgree(stage: StageDef, at: Address, items: seq<Value>, i: nat, progress: Progress,
                                      x: State, y: State, scope: set<Name>)
    requires stage.Loop? && i <= |items|
    requires Scoped(stage, scope) && Agree(x.slots, y.slots, scope) && x.stop == y.stop == None
    ensures var (f, x') := RunItems(stage, at, items, i, None, progress, x);
      var (g, y') := RunItems(stage, at, items, i, None, progress, y);
      f == g && Agree(x'.slots, y'.slots, if f.Next? then After(stage, scope) else scope)
    decreases stage, 2, |items| - i
  {
    hide RunAttempts;
    if i == |items| {
      WriteAgrees(x.slots, y.slots, stage.output, Aggregate(progress.entries), scope);
    } else {
      hide Scoped, Agree, PrepareItem, RecordOf, ItemScope;
      var x1 := x.(slots := PrepareItem(stage, items[i], false, x.slots));
      var y1 := y.(slots := PrepareItem(stage, items[i], false, y.slots));
      PrepareAgrees(stage, items[i], x.slots, y.slots, scope);
      var (end, used, x2) := RunAttempts(stage, at, i + 1, |items|, 0, None, x1);
      var (end', used', y2) := RunAttempts(stage, at, i + 1, |items|, 0, None, y1);
      AttemptsAgree(stage, at, i + 1, |items|, 0, x1, y1, scope);
      AgreeLess(x2.slots, y2.slots, ItemScope(stage, scope), scope);
      AgreeLess(x2.slots, y2.slots, ItemScope(stage, scope), InnerNames(stage.inner));
      if end.ItemDone? || (end.ItemFailed? && !stage.abortOnMaxRetries) {
        InnerResultsAgree(stage.inner, x2.slots, y2.slots);
        var x3 := CloseItem(x2, at, RecordOf(stage, x2.slots, items[i], i + 1, |items|, end, used));
        var y3 := CloseItem(y2, at, RecordOf(stage, y2.slots, items[i], i + 1, |items|, end, used));
        var entry := if stage.over.Some? then Some(Collect(stage, x3.slots, items[i], end.ItemDone?)) else None;
        ItemsAgree(stage, at, items, i + 1, Tallied(progress, entry, end.ItemDone?), x3, y3, scope);
      }
    }
  }

  lemma {:induction false} AttemptsAgree(stage: StageDef, at: Address, number: nat, total: nat, attempt: nat,
                                         x: State, y: State, scope: set<Name>)
    requires stage.Loop? && attempt <= stage.maxRetries + 1
    requires Scoped(stage, scope) && Agree(x.slots, y.slots, ItemScope(stage, scope)) && x.stop == y.stop == None
    ensures var (end, used, x') := RunAttempts(stage, at, number, total, attempt, None, x);
      var (end', used', y') := RunAttempts(stage, at, number, total, attempt, None, y);
      && end == end' && used == used' && Agree(x'.slots, y'.slots, ItemScope(stage, scope))
      && x'.stop == y'.stop == None && !end.ItemCancelled?
    decreases stage, 1, stage.maxRetries + 1 - attempt
  {
    hide Agree, Scoped, Reads, After, ItemScope, RunInner, ApplyRetry;
    if attempt < stage.maxRetries + 1 {
      LoopScoping(stage, scope);
      var inScope := ItemScope(stage, scope);
      var context := LoopContext(number, total, attempt + 1, stage.maxRetries + 1);
      var x1 := if attempt > 0 then x.(slots := ApplyRetry(stage.onRetry, x.slots)) else x;
      var y1 := if attempt > 0 then y.(slots := ApplyRetry(stage.onRetry, y.slots)) else y;
      RetryAgrees(stage.onRetry, x.slots, y.slots, inScope);
      var (f, x2) := RunInner(stage, 0, at + [Item(number)], context, None, x1);
      var (g, y2) := RunInner(stage, 0, at + [Item(number)], context, None, y1);
      assert stage.inner[..0] == [];
      InnerAgree(stage, 0, at + [Item(number)], context, x1, y1, scope);
      AfterAllGrows(stage.inner, inScope);
      if f.Next? {
        ReadsSame(stage.exit, x2.slots, y2.slots, AfterAll(stage.inner, inScope));
        AgreeLess(x2.slots, y2.slots, AfterAll(stage.inner, inScope), inScope);
      }
      if f.Raised? || (f.Next? && stage.exit(x2.slots).Fails?) {
        AttemptsAgree(stage, at, number, total, attempt + 1, x2, y2, scope);
      }
    }
  }

  lemma {:induction false} InnerAgree(stage: StageDef, k: nat, base: Address, context: LoopContext, x: State,
                                      y: State, scope: set<Name>)
    requires stage.Loop? && k <= |stage.inner| && Scoped(stage, scope)
    requires Agree(x.slots, y.slots, AfterAll(stage.inner[..k], ItemScope(stage, scope))) && x.stop == y.stop == None
    ensures var (f, x') := RunInner(stage, k, base, context, None, x);
      var (g, y') := RunInner(stage, k, base, context, None, y);
      && f == g && x'.stop == y'.stop == None && !f.Cancelled?
      && Agree(x'.slots, y'.slots, if f.Next? then AfterAll(stage.inner, ItemScope(stage, scope)) else ItemScope(stage,
          scope))
    decreases stage, 0, |stage.inner| - k
  {
    hide Dispatch, Scoped, Agree, After, ItemScope, Quiet;
    var inScope := ItemScope(stage, scope);
    if k == |stage.inner| {
      assert stage.inner[..k] == stage.inner;
    } else {
      var here := AfterAll(stage.inner[..k], inScope);
      var (f, x1) := Dispatch(stage.inner[k], base, Some(context), None, x);
      var (g, y1) := Dispatch(stage.inner[k], base, Some(context), None, y);
      ScopedInner(stage, scope, k);
      DispatchAgrees(stage.inner[k], base, Some(context), x, y, here);
      NeverStopped(stage.inner[k], base, Some(context), x);
      NeverStopped(stage.inner[k], base, Some(context), y);
      AfterAllGrows(stage.inner[..k], inScope);
      if f.Next? {
        assert stage.inner[..k + 1][..k] == stage.inner[..k];
        InnerAgree(stage, k + 1, base, context, x1, y1, scope);
      } else {
        AgreeLess(x1.slots, y1.slots, here, inScope);
      }
    }
  }

  lemma NeverStopped(stage: StageDef, base: Address, context: Option<LoopContext>, st: State)
    requires st.stop.None?
    ensures var (flow, st') := Dispatch(stage, base, context, None, st); st'.stop.None? && !flow.Cancelled?
  {
    hide Dispatch;
    DispatchQuiet(stage, base, context, st);
  }
}
