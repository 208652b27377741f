// The workflow engine as a recursive semantics: what one dispatch does to the slots, the recorded
// tree and the event stream, for every outcome of the stage runners and every stop of the user.
module Engine {
  import opened Options
  import opened Addresses
  import opened WorkflowModel

  // stop is the user's stop button: the number of runner calls still made before the call in
  // flight is cancelled; None when the button is never pressed.
  datatype State = State(slots: Slots, tree: Tree, counters: map<Path, nat>, trace: seq<Event>, stop: Option<nat>)

  // How a dispatch ends: normally, or by one of the exceptions the engine tells apart.
  datatype Flow = Next(result: Value, jump: Option<Name>) | Raised | Cancelled | Aborted

  // How the attempts of one loop item end; ItemRaised escapes the item's own bookkeeping.
  datatype ItemEnd = ItemDone | ItemFailed | ItemCancelled | ItemAborted | ItemRaised

  // Running tally of one loop: the aggregated entries, successes and failures.
  datatype Progress = Progress(entries: seq<Value>, succeeded: nat, failed: nat)

  function Count(counters: map<Path, nat>, path: Path): nat
  {
    if path in counters then counters[path] else 0
  }

  function Enter(st: State, at: Address, count: nat, context: Option<LoopContext>): State
  {
    st.(tree := OnStageEnter(st.tree, at, context), trace := st.trace + [StageEnter(at, count, context)])
  }

  function Leave(st: State, at: Address, count: nat, context: Option<LoopContext>, status: Status, result: Value): State
  {
    st.(tree := OnStageExit(st.tree, at, count, context, status, result),
        trace := st.trace + [StageExit(at, count, status, result)])
  }

  function CloseItem(st: State, at: Address, record: ItemRecord): State
  {
    st.(tree := WriteItem(st.tree, at + [Item(record.number)], record), trace := st.trace + [ItemExit(at, record)])
  }

  function StatusOf(flow: Flow): Status
  {
    match flow
    case Next(_, _) => Succeeded
    case Cancelled => Halted
    case Raised => Failed
    case Aborted => Failed
  }

  function ResultOf(flow: Flow): Value
  {
    if flow.Next? then flow.result else Null
  }

  // Loops gate on their entry condition, branches never, everything else on its condition.
  function Gate(stage: StageDef, slots: Slots): Truth
  {
    match stage
    case Work(_, _, condition, _, _) => condition(slots)
    case Branch(_, _, _, _) => Holds
    case Loop(_, _, _, _, entry, _, _, _, _, _, _, _) => entry(slots)
    case Nested(_, _, condition, _, _, _) => condition(slots)
  }

  function Write(slots: Slots, output: Option<Name>, value: Value): Slots
  {
    if output.Some? then slots[output.value := value] else slots
  }

  // An atomic runner call, cancelled when the stop clock has run out.
  function Perform(stage: StageDef, count: nat, st: State): (r: (Flow, State))
    requires stage.Work?
  {
    if st.stop == Some(0) then (Cancelled, st)
    else
      var st1 := if st.stop.Some? then st.(stop := Some(st.stop.value - 1)) else st;
      match stage.action(count, st.slots)
      case Done(value) => (Next(value, None), st1.(slots := Write(st.slots, stage.output, value)))
      case Raise => (Raised, st1)
      case Abort => (Aborted, st1)
  }

  function Decide(stage: StageDef, st: State): Flow
    requires stage.Branch?
  {
    match stage.choice(st.slots)
    case Broken => Aborted
    case Holds => Next(Decision(true, stage.ifTrue), Some(stage.ifTrue))
    case Fails => Next(Decision(false, stage.ifFalse), Some(stage.ifFalse))
  }

  function Dispatch(stage: StageDef, base: Address, context: Option<LoopContext>, cursor: Option<Address>,
                    st: State): (r: (Flow, State))
    decreases stage, 4, 0
  {
    var at := base + [Stage(stage.name)];
    var count := Count(st.counters, PathOf(at)) + 1;
    var st1 := st.(counters := st.counters[PathOf(at) := count]);
    match Gate(stage, st.slots)
    case Broken => (Aborted, st1)
    case Fails => (Next(Null, None), Leave(Enter(st1, at, count, context), at, count, context, Skipped, Null))
    case Holds =>
      var st2 := Enter(st1, at, count, context);
      var (flow, st3) := RunByType(stage, at, count, cursor, st2);
      (flow, Leave(st3, at, count, context, StatusOf(flow), ResultOf(flow)))
  }

  function RunByType(stage: StageDef, at: Address, count: nat, cursor: Option<Address>, st: State): (r: (Flow, State))
    decreases stage, 3, 1
  {
    match stage
    case Work(_, _, _, _, _) => Perform(stage, count, st)
    case Branch(_, _, _, _) => (Decide(stage, st), st)
    case Loop(_, _, _, _, _, _, _, _, _, _, _, _) => RunLoop(stage, at, cursor, st)
    case Nested(_, _, _, _, _, _) => RunSubWorkflow(stage, at, st)
  }

  // A nested workflow: its stages run over their own registry, sharing counters, recorder and stop
  // button with the caller, whose registry gets only the tallies of the loops it ran.
  function RunSubWorkflow(stage: StageDef, at: Address, st: State): (r: (Flow, State))
    requires stage.Nested?
    decreases stage, 3, 0
  {
    var seeded := stage.seed(st.slots);
    if seeded.None? then (Raised, st)
    else
      var (flow, st1) := RunStages(stage, 0, at, stage.limit, map[], st.(slots := seeded.value));
      (flow, st1.(slots := Write(st.slots, if flow.Next? then Some(stage.name) else None, ResultOf(flow))))
  }

  // The stages of a nested workflow from stage k on, with the results so far by stage name.
  function RunStages(stage: StageDef, k: nat, at: Address, left: nat, outcomes: map<Name, Value>,
                     st: State): (r: (Flow, State))
    requires stage.Nested? && k <= |stage.stages|
    decreases stage, 2, left
  {
    if k == |stage.stages| then (Next(Record(Tallies(outcomes)), None), st)
    else if left == 0 then (Raised, st)
    else
      var (flow, st1) := Dispatch(stage.stages[k], at, None, None, st);
      if !flow.Next? then (flow, st1)
      else
        var next := if flow.jump.None? then k + 1 else IndexOf(stage.stages, flow.jump.value);
        if flow.jump.Some? && next == |stage.stages| then (Raised, st1)
        else RunStages(stage, next, at, left - 1, outcomes[stage.stages[k].name := flow.result], st1)
  }

  // A result with the keys of a loop tally.
  predicate IsTally(result: Value)
  {
    result.Tally? || (result.Record? && {"item_total", "succeeded", "failed"} <= result.fields.Keys)
  }

  // What a nested workflow reports of the results of its stages.
  function Tallies(outcomes: map<Name, Value>): map<Name, Value>
  {
    map n | n in outcomes && IsTally(outcomes[n]) :: outcomes[n]
  }

  // The items a loop iterates over; a loop without a list has one anonymous item.
  function LoopItems(stage: StageDef, slots: Slots): Option<seq<Value>>
    requires stage.Loop?
  {
    if stage.over.None? then Some([Null]) else stage.over.value(slots)
  }

  function RunLoop(stage: StageDef, at: Address, cursor: Option<Address>, st: State): (r: (Flow, State))
    requires stage.Loop?
    decreases stage, 3, 0
  {
    match LoopItems(stage, st.slots)
    case None => (Raised, st)
    case Some(items) =>
      if cursor.Some? && cursor.value != [] && cursor.value[0].Stage? then (Raised, st)
      else RunItems(stage, at, items, 0, cursor, Progress([], 0, 0), st)
  }

  // Whether an item is taken from disk on a resume instead of being dispatched.
  predicate Reused(stage: StageDef, at: Address, cursor: Option<Address>, number: nat, disk: Disk)
    requires stage.Loop?
  {
    && cursor.Some? && cursor.value != [] && cursor.value[0].Item?
    && number != cursor.value[0].number
    && (number < cursor.value[0].number || stage.assumeIndependent)
    && NodeAt(disk, at + [Item(number)]).item.Some?
  }

  // The cursor into an item's own inner stages, when the resume point lies inside the item.
  function InnerCursor(cursor: Option<Address>, number: nat): Option<Address>
  {
    if cursor.Some? && |cursor.value| > 1 && cursor.value[0] == Item(number) then Some(cursor.value[1..]) else None
  }

  function InnerNames(stages: seq<StageDef>): set<Name>
  {
    set k | 0 <= k < |stages| :: stages[k].name
  }

  function RetryNames(stage: StageDef): set<Name>
    requires stage.Loop?
  {
    set k | 0 <= k < |stage.onRetry| :: stage.onRetry[k].0
  }

  // The slots an item's first attempt starts from.
  function PrepareItem(stage: StageDef, item: Value, resumedInside: bool, slots: Slots): Slots
    requires stage.Loop?
  {
    var s1 := if stage.over.Some? then slots[stage.itemVar := item] else slots;
    var s2 := s1 + (map n | n in RetryNames(stage) :: Text(""));
    if resumedInside then s2 else s2 - InnerNames(stage.inner)
  }

  // The retry templates, resolved in order before every attempt but the first.
  function ApplyRetry(templates: seq<(Name, Slots -> Value)>, slots: Slots): Slots
  {
    if templates == [] then slots
    else ApplyRetry(templates[1..], slots[templates[0].0 := templates[0].1(slots)])
  }

  predicate Included(stage: StageDef)
  {
    stage.Branch? || stage.included
  }

  function InnerResults(inner: seq<StageDef>, slots: Slots): map<Name, Value>
  {
    if inner == [] then map[]
    else
      var last := inner[|inner| - 1];
      var earlier := InnerResults(inner[..|inner| - 1], slots);
      if Included(last) && last.name in slots then earlier[last.name := slots[last.name]] else earlier
  }

  function Collect(stage: StageDef, slots: Slots, item: Value, success: bool): Value
    requires stage.Loop?
  {
    Entry(item, success, InnerResults(stage.inner, slots))
  }

  function ItemStatus(end: ItemEnd): Status
  {
    match end
    case ItemCancelled => Halted
    case ItemDone => Succeeded
    case _ => Failed
  }

  function RecordOf(stage: StageDef, slots: Slots, item: Value, number: nat, total: nat, end: ItemEnd,
                    used: nat): ItemRecord
    requires stage.Loop?
  {
    ItemRecord(number, total, end.ItemDone?, ItemStatus(end), used,
               if stage.over.Some? then Collect(stage, slots, item, end.ItemDone?) else Null)
  }

  function Tallied(p: Progress, entry: Option<Value>, success: bool): Progress
  {
    Progress(if entry.Some? then p.entries + [entry.value] else p.entries,
             if success then p.succeeded + 1 else p.succeeded,
             if success then p.failed else p.failed + 1)
  }

  function RunItems(stage: StageDef, at: Address, items: seq<Value>, i: nat, cursor: Option<Address>,
                    progress: Progress, st: State): (r: (Flow, State))
    requires stage.Loop? && i <= |items|
    decreases stage, 2, |items| - i
  {
    if i == |items| then
      var slots := if stage.over.Some? then Write(st.slots, stage.output, Aggregate(progress.entries)) else st.slots;
      (Next(Tally(|items|, progress.succeeded, progress.failed), None), st.(slots := slots))
    else if Reused(stage, at, cursor, i + 1, st.tree.disk) then
      var record := NodeAt(st.tree.disk, at + [Item(i + 1)]).item.value;
      RunItems(stage, at, items, i + 1, cursor, Tallied(progress, Some(record.result), record.success),
               CloseItem(st, at, record))
    else
      var inside := InnerCursor(cursor, i + 1);
      var st1 := st.(slots := PrepareItem(stage, items[i], inside.Some?, st.slots));
      var (end, used, st2) := RunAttempts(stage, at, i + 1, |items|, 0, inside, st1);
      if end.ItemAborted? then (Aborted, st2)
      else if end.ItemRaised? then (Raised, st2)
      else
        var st3 := CloseItem(st2, at, RecordOf(stage, st2.slots, items[i], i + 1, |items|, end, used));
        if end.ItemCancelled? then (Cancelled, st3)
        else if end.ItemFailed? && stage.abortOnMaxRetries then (Aborted, st3)
        else
          var entry := if stage.over.Some? then Some(Collect(stage, st3.slots, items[i], end.ItemDone?)) else None;
          RunItems(stage, at, items, i + 1, cursor, Tallied(progress, entry, end.ItemDone?), st3)
  }

  function IndexOf(stages: seq<StageDef>, name: Name): (k: nat)
    ensures k <= |stages|
    ensures k < |stages| ==> stages[k].name == name
    ensures forall j :: 0 <= j < k ==> stages[j].name != name
  {
    if stages == [] || stages[0].name == name then 0 else 1 + IndexOf(stages[1..], name)
  }

  function RunAttempts(stage: StageDef, at: Address, number: nat, total: nat, attempt: nat, inside: Option<Address>,
                       st: State): (r: (ItemEnd, nat, State))
    requires stage.Loop? && attempt <= stage.maxRetries + 1
    decreases stage, 1, stage.maxRetries + 1 - attempt
  {
    if attempt == stage.maxRetries + 1 then (ItemFailed, attempt, st)
    else
      var context := LoopContext(number, total, attempt + 1, stage.maxRetries + 1);
      var st1 := if attempt > 0 then st.(slots := ApplyRetry(stage.onRetry, st.slots)) else st;
      var resumed := attempt == 0 && inside.Some? && inside.value != [];
      var start := if !resumed then 0 else if inside.value[0].Stage? then IndexOf(stage.inner,
          inside.value[0].name) else |stage.inner|;
      if resumed && start == |stage.inner| then (ItemRaised, attempt + 1, st1)
      else
        var (flow, st2) := RunInner(stage, start, at + [Item(number)], context,
                                    if resumed then Some(inside.value[1..]) else None, st1);
        match flow
        case Aborted => (ItemAborted, attempt + 1, st2)
        case Cancelled => (ItemCancelled, attempt + 1, st2)
        case Raised => RunAttempts(stage, at, number, total, attempt + 1, inside, st2)
        case Next(_, _) =>
          match stage.exit(st2.slots)
          case Broken => (ItemAborted, attempt + 1, st2)
          case Holds => (ItemDone, attempt + 1, st2)
          case Fails => RunAttempts(stage, at, number, total, attempt + 1, inside, st2)
  }

  // One pass over a loop's inner stages; branch targets mean nothing here.
  function RunInner(stage: StageDef, k: nat, base: Address, context: LoopContext, cursor: Option<Address>,
                    st: State): (r: (Flow, State))
    requires stage.Loop? && k <= |stage.inner|
    decreases stage, 0, |stage.inner| - k
  {
    if k == |stage.inner| then (Next(Null, None), st)
    else
      var (flow, st1) := Dispatch(stage.inner[k], base, Some(context), cursor, st);
      if flow.Next? then RunInner(stage, k + 1, base, context, None, st1) else (flow, st1)
  }

  // A whole stage list from stage k on, following branch jumps. The budget bounds the number of
  // dispatches: a run that uses it up counts as stopped between two stages.
  function RunSequence(stages: seq<StageDef>, k: nat, base: Address, cursor: Option<Address>, budget: nat,
                       st: State): (r: (Flow, State))
    requires k <= |stages|
    decreases budget
  {
    if k == |stages| then (Next(Null, None), st)
    else if budget == 0 then (Cancelled, st)
    else
      var (flow, st1) := Dispatch(stages[k], base, None, cursor, st);
      if !flow.Next? then (flow, st1)
      else if flow.jump.None? then RunSequence(stages, k + 1, base, None, budget - 1, st1)
      else
        var target := IndexOf(stages, flow.jump.value);
        if target == |stages| then (Raised, st1)
        else RunSequence(stages, target, base, None, budget - 1, st1)
  }

  // ---------- unfolding a dispatch ----------

  // The state a gated dispatch runs its body in.
  function Entered(stage: StageDef, base: Address, context: Option<LoopContext>, st: State): State
  {
    var at := base + [Stage(stage.name)];
    var count := Count(st.counters, PathOf(at)) + 1;
    Enter(st.(counters := st.counters[PathOf(at) := count]), at, count, context)
  }

  lemma DispatchUnfold(stage: StageDef, base: Address, context: Option<LoopContext>, cursor: Option<Address>, st: State)
    requires Gate(stage, st.slots).Holds?
    ensures var at := base + [Stage(stage.name)];
      var count := Count(st.counters, PathOf(at)) + 1;
      var (flow, st3) := RunByType(stage, at, count, cursor, Entered(stage, base, context, st));
      Dispatch(stage, base, context, cursor, st) ==
          (flow, Leave(st3, at, count, context, StatusOf(flow), ResultOf(flow)))
  {
  }

  lemma DispatchSkips(stage: StageDef, base: Address, context: Option<LoopContext>, cursor: Option<Address>, st: State)
    requires Gate(stage, st.slots).Fails?
    ensures var at := base + [Stage(stage.name)];
      Dispatch(stage, base, context, cursor, st) ==
        (Next(Null, None), Leave(Entered(stage, base, context, st), at, Count(st.counters, PathOf(at)) + 1, context,
                                 Skipped, Null))
  {
  }

  lemma DispatchBroken(stage: StageDef, base: Address, context: Option<LoopContext>, cursor: Option<Address>, st: State)
    requires Gate(stage, st.slots).Broken?
    ensures var path := PathOf(base + [Stage(stage.name)]);
      Dispatch(stage, base, context, cursor, st) ==
          (Aborted, st.(counters := st.counters[path := Count(st.counters, path) + 1]))
  {
  }

  // Announcing a stage leaves the slots and the stop clock alone.
  lemma EnteredSlots(stage: StageDef, base: Address, context: Option<LoopContext>, st: State)
    ensures Entered(stage, base, context, st).slots == st.slots && Entered(stage, base, context, st).stop == st.stop
  {
  }

  lemma LeaveSlots(st: State, at: Address, count: nat, context: Option<LoopContext>, status: Status, result: Value)
    ensures Leave(st, at, count, context, status, result).slots == st.slots
      && Leave(st, at, count, context, status, result).stop == st.stop
  {
  }
}
