// The state in which a run last dispatched the stage recorded at an address, through the attempts of
// the items on the way, and what later attempts leave of the records made by then.
module Reaching {
  import opened Options
  import opened Addresses
  import opened WorkflowModel
  import opened Engine
  import opened EngineSteps
  import opened EngineRuns
  import opened Scoping
  import opened Reconstruction
  import opened FreshRuns
  import opened ReplayProof
  import opened CutProof
  import opened ResumeProof
  import opened AttemptRecords

  // ---------- following a run to an address ----------

  // The state in which a pass from inner stage k on announces inner stage j, if it gets there.
  function PassReached(stage: StageDef, k: nat, dir: Address, context: LoopContext, st: State, j: nat): Option<State>
    requires stage.Loop? && k <= j < |stage.inner|
    decreases j - k
  {
    if k == j then if Gate(stage.inner[j], st.slots).Broken? then None else Some(st)
    else
      var (flow, st1) := Dispatch(stage.inner[k], dir, Some(context), None, st);
      if flow.Next? then PassReached(stage, k + 1, dir, context, st1, j) else None
  }

  function ContextOf(stage: StageDef, number: nat, total: nat, attempt: nat): LoopContext
    requires stage.Loop?
  {
    LoopContext(number, total, attempt + 1, stage.maxRetries + 1)
  }

  // The slots an attempt starts with.
  function Retried(stage: StageDef, attempt: nat, st: State): State
    requires stage.Loop?
  {
    if attempt > 0 then st.(slots := ApplyRetry(stage.onRetry, st.slots)) else st
  }

  // The last attempt of an item, from the given one on, that announces inner stage j: its loop
  // context, and the state it starts in.
  function LastPass(stage: StageDef, at: Address, number: nat, total: nat, attempt: nat, st: State,
                    j: nat): Option<(LoopContext, State)>
    requires stage.Loop? && attempt <= stage.maxRetries + 1 && j < |stage.inner|
    decreases stage.maxRetries + 1 - attempt
  {
    if attempt == stage.maxRetries + 1 then None
    else
      var context, dir := ContextOf(stage, number, total, attempt), at + [Item(number)];
      var st1 := Retried(stage, attempt, st);
      var (flow, st2) := RunInner(stage, 0, dir, context, None, st1);
      var later := if TriesAgain(stage, flow, st2) then LastPass(stage, at, number, total, attempt + 1, st2,
                                                                 j) else None;
      if later.Some? then later
      else if PassReached(stage, 0, dir, context, st1, j).Some? then Some((context, st1))
      else None
  }

  predicate TriesAgain(stage: StageDef, flow: Flow, st: State)
    requires stage.Loop?
  {
    flow.Raised? || (flow.Next? && stage.exit(st.slots).Fails?)
  }

  // The state an item's first attempt starts in.
  function Prepared(stage: StageDef, items: seq<Value>, m: nat, st: State): State
    requires stage.Loop? && m < |items|
  {
    st.(slots := PrepareItem(stage, items[m], false, st.slots))
  }

  // The state in which the stage at the given address below this one is dispatched, in the last
  // attempt that dispatches it, when this one is dispatched in st; None when that never happens.
  function StageReached(stage: StageDef, base: Address, context: Option<LoopContext>, st: State,
                        rest: Address): Option<State>
    decreases |rest|, 1, 0
  {
    if rest == [] then Some(st)
    else if !stage.Loop? || !Gate(stage, st.slots).Holds? || LoopItems(stage, st.slots).None? then None
    else ItemReached(stage, base + [Stage(stage.name)], LoopItems(stage, st.slots).value, 0,
                     Entered(stage, base, context, st), rest)
  }

  function ItemReached(stage: StageDef, at: Address, items: seq<Value>, i: nat, st: State, rest: Address): Option<State>
    requires stage.Loop? && i <= |items| && rest != []
    decreases |rest|, 0, |items| - i
  {
    if i == |items| then None
    else if rest[0] == Item(i + 1) then
      if |rest| == 1 || rest[1].Item? || IndexOf(stage.inner, rest[1].name) == |stage.inner| then None
      else
        var j := IndexOf(stage.inner, rest[1].name);
        var last := LastPass(stage, at, i + 1, |items|, 0, Prepared(stage, items, i, st), j);
        if last.None? then None
        else
          var (context, st1) := last.value;
          var t := PassReached(stage, 0, at + [rest[0]], context, st1, j);
          if t.None? then None else StageReached(stage.inner[j], at + [rest[0]], Some(context), t.value, rest[2..])
    else if Continues(stage, ItemRun(stage, at, items, i, st).0) then
      ItemReached(stage, at, items, i + 1, ClosedAfter(stage, at, items, i, st), rest)
    else None
  }

  lemma StepPrefix(st: State, st': State, zone: Address, host: Option<Address>)
    requires Step(st, st', zone, host)
    ensures st.trace <= st'.trace
  {
  }

  lemma ChangesTrans(s0: Slots, s1: Slots, s2: Slots, names: set<Name>)
    requires ChangesOnly(s0, s1, names) && ChangesOnly(s1, s2, names)
    ensures ChangesOnly(s0, s2, names)
  {
    forall n: Name | n !in names
      ensures SameSlot(s0, s2, n)
    {
      assert SameSlot(s0, s1, n) && SameSlot(s1, s2, n);
    }
  }

  lemma ChangesWiden(s0: Slots, s1: Slots, names: set<Name>, more: set<Name>)
    requires ChangesOnly(s0, s1, names) && names <= more
    ensures ChangesOnly(s0, s1, more)
  {
  }

  lemma NotInClear(disk: Disk, zone: Address, a: Address)
    requires Clear(disk, zone) && zone <= a
    ensures a !in disk
  {
  }

  // ---------- one pass ----------

  // A pass that announces inner stage j: what it has done by then, and how it goes on.
  lemma {:induction false} PassReaches(stage: StageDef, k: nat, dir: Address, context: LoopContext, st: State, j: nat)
    requires stage.Loop? && k <= j < |stage.inner| && PassReached(stage, k, dir, context, st, j).Some?
    ensures var t := PassReached(stage, k, dir, context, st, j).value;
      && RunInner(stage, k, dir, context, None, st) == RunInner(stage, j, dir, context, None, t)
      && !Gate(stage.inner[j], t.slots).Broken?
      && (SequencesOk(st.tree) ==> SequencesOk(t.tree)) && st.trace <= t.trace
      && ChangesOnly(st.slots, t.slots, InnerWrites(stage))
    decreases j - k
  {
    hide Dispatch, Step, SequencesOk, Quiet, InnerWrites, Writes, Scratch, Gate;
    if k < j {
      var (flow, st1) := Dispatch(stage.inner[k], dir, Some(context), None, st);
      DispatchSteps(stage.inner[k], dir, Some(context), None, st);
      var zone := dir + [Stage(stage.inner[k].name)];
      StepSequences(st, st1, zone, None);
      StepPrefix(st, st1, zone, None);
      PassReaches(stage, k + 1, dir, context, st1, j);
      DispatchQuiet(stage.inner[k], dir, Some(context), st);
      InnerWritesOf(stage, k, flow);
      QuietChanges(st, st1, Touched(stage.inner[k], flow), flow.Cancelled?);
      ChangesWiden(st.slots, st1.slots, Touched(stage.inner[k], flow), InnerWrites(stage));
      ChangesTrans(st.slots, st1.slots, PassReached(stage, k, dir, context, st, j).value.slots, InnerWrites(stage));
    } else {
      ChangesSelf(st.slots, InnerWrites(stage));
    }
  }

  lemma ChangesSelf(s: Slots, names: set<Name>)
    ensures ChangesOnly(s, s, names)
  {
  }

  // What a pass leaves of the stage it has just dispatched.
  lemma PassRest(stage: StageDef, j: nat, dir: Address, context: LoopContext, t: State)
    requires stage.Loop? && j < |stage.inner| && Distinct(stage.inner)
    ensures var t1 := Dispatch(stage.inner[j], dir, Some(context), None, t).1;
      var pass := RunInner(stage, j, dir, context, None, t).1;
      SameUnder(t1.tree.disk, pass.tree.disk, dir + [Stage(stage.inner[j].name)]) && t1.trace <= pass.trace
  {
    hide Dispatch, Step;
    var (flow, t1) := Dispatch(stage.inner[j], dir, Some(context), None, t);
    if flow.Next? {
      InnerSpares(stage, j + 1, dir, context, None, t1, stage.inner[j].name);
      InnerTrace(stage, j + 1, dir, context, t1);
    }
  }

  lemma {:induction false} InnerTrace(stage: StageDef, k: nat, dir: Address, context: LoopContext, st: State)
    requires stage.Loop? && k <= |stage.inner|
    ensures st.trace <= RunInner(stage, k, dir, context, None, st).1.trace
    decreases |stage.inner| - k
  {
    hide Dispatch, Step;
    if k < |stage.inner| {
      var (flow, st1) := Dispatch(stage.inner[k], dir, Some(context), None, st);
      DispatchSteps(stage.inner[k], dir, Some(context), None, st);
      StepPrefix(st, st1, dir + [Stage(stage.inner[k].name)], None);
      if flow.Next? { InnerTrace(stage, k + 1, dir, context, st1); }
    }
  }

  // A pass that does not announce inner stage j leaves its directory alone.
  lemma {:induction false} PassMisses(stage: StageDef, k: nat, dir: Address, context: LoopContext, st: State, j: nat)
    requires stage.Loop? && k <= j < |stage.inner| && Distinct(stage.inner)
    requires PassReached(stage, k, dir, context, st, j).None?
    ensures SameUnder(st.tree.disk, RunInner(stage, k, dir, context, None, st).1.tree.disk,
                      dir + [Stage(stage.inner[j].name)])
    decreases j - k
  {
    hide Dispatch, Step;
    var (flow, st1) := Dispatch(stage.inner[k], dir, Some(context), None, st);
    var zone := dir + [Stage(stage.inner[j].name)];
    if k == j {
      DispatchBroken(stage.inner[j], dir, Some(context), None, st);
    } else {
      DispatchSteps(stage.inner[k], dir, Some(context), None, st);
      StepOutside(st, st1, dir + [Stage(stage.inner[k].name)], None);
      SiblingSame(st.tree.disk, st1.tree.disk, dir, stage.inner[k].name, stage.inner[j].name);
      if flow.Next? {
        PassMisses(stage, k + 1, dir, context, st1, j);
        SameUnderTrans(st.tree.disk, st1.tree.disk, RunInner(stage, k + 1, dir, context, None, st1).1.tree.disk, zone);
      }
    }
  }

  // ---------- all attempts of an item ----------

  function AfterPassing(stage: StageDef, at: Address, number: nat, total: nat, attempt: nat,
                        st: State): (r: (Flow, State))
    requires stage.Loop?
  {
    RunInner(stage, 0, at + [Item(number)], ContextOf(stage, number, total, attempt), None, Retried(stage, attempt, st))
  }

  lemma AttemptsUnfold(stage: StageDef, at: Address, number: nat, total: nat, attempt: nat, st: State)
    requires stage.Loop? && attempt < stage.maxRetries + 1
    ensures var (flow, st2) := AfterPassing(stage, at, number, total, attempt, st);
      var b := RunAttempts(stage, at, number, total, attempt, None, st).2;
      b == if TriesAgain(stage, flow, st2) then RunAttempts(stage, at, number, total, attempt + 1, None, st2).2 else st2
  {
    hide RunInner;
  }

  lemma AttemptsTrace(stage: StageDef, at: Address, number: nat, total: nat, attempt: nat, st: State)
    requires stage.Loop? && attempt <= stage.maxRetries + 1
    ensures st.trace <= RunAttempts(stage, at, number, total, attempt, None, st).2.trace
  {
    hide RunAttempts, Step;
    AttemptsSteps(stage, at, number, total, attempt, None, st);
    StepPrefix(st, RunAttempts(stage, at, number, total, attempt, None, st).2, at + [Item(number)], Some(at));
  }

  // Attempts none of which announces inner stage j leave its directory alone.
  lemma {:induction false} AttemptsMiss(stage: StageDef, at: Address, number: nat, total: nat, attempt: nat, st: State,
                                        j: nat)
    requires stage.Loop? && attempt <= stage.maxRetries + 1 && j < |stage.inner| && Distinct(stage.inner)
    requires LastPass(stage, at, number, total, attempt, st, j).None?
    ensures SameUnder(st.tree.disk, RunAttempts(stage, at, number, total, attempt, None, st).2.tree.disk,
                      at + [Item(number)] + [Stage(stage.inner[j].name)])
    decreases stage.maxRetries + 1 - attempt
  {
    hide RunInner, PassReached;
    if attempt < stage.maxRetries + 1 {
      var dir := at + [Item(number)];
      var (flow, st2) := AfterPassing(stage, at, number, total, attempt, st);
      PassMisses(stage, 0, dir, ContextOf(stage, number, total, attempt), Retried(stage, attempt, st), j);
      AttemptsUnfold(stage, at, number, total, attempt, st);
      if TriesAgain(stage, flow, st2) {
        AttemptsMiss(stage, at, number, total, attempt + 1, st2, j);
        SameUnderTrans(st.tree.disk, st2.tree.disk,
                       RunAttempts(stage, at, number, total, attempt + 1, None, st2).2.tree.disk,
                       dir + [Stage(stage.inner[j].name)]);
      }
    }
  }

  // ---------- what later attempts leave of earlier records ----------

  // From one state to a later one, a stage's directory is as it was, or the stage was dispatched
  // again in an attempt after the given one; its attempt files up to that one are as they were.
  ghost predicate Superseded(d: Disk, d': Disk, zone: Address, attempt: nat)
  {
    && (SameUnder(d, d', zone) ||
        (NodeAt(d', zone).meta.Some? && NodeAt(d', zone).meta.value.attemptCount > attempt
         && NodeAt(d', zone).meta.value.attemptCount in NodeAt(d', zone).attempts))
    && forall n: nat :: n <= attempt && n in NodeAt(d, zone).attempts ==>
         n in NodeAt(d', zone).attempts && NodeAt(d', zone).attempts[n] == NodeAt(d, zone).attempts[n]
  }

  lemma SupersededSame(d: Disk, d': Disk, zone: Address, attempt: nat)
    requires SameUnder(d, d', zone)
    ensures Superseded(d, d', zone, attempt)
  {
    assert SameAt(d, d', zone);
  }

  lemma SupersededTrans(d0: Disk, d1: Disk, d2: Disk, zone: Address, a: nat, b: nat)
    requires Superseded(d0, d1, zone, a) && Superseded(d1, d2, zone, b) && a <= b
    ensures Superseded(d0, d2, zone, a)
  {
    if SameUnder(d0, d1, zone) {
      if SameUnder(d1, d2, zone) { SameUnderTrans(d0, d1, d2, zone); }
    } else if SameUnder(d1, d2, zone) {
      assert SameAt(d1, d2, zone);
    }
  }

  // A pass in attempt a + 1 supersedes at most attempts up to a.
  lemma PassSupersedes(stage: StageDef, dir: Address, context: LoopContext, st: State, i: nat)
    requires stage.Loop? && i < |stage.inner| && Distinct(stage.inner) && context.attempt > 0
    ensures Superseded(st.tree.disk, RunInner(stage, 0, dir, context, None, st).1.tree.disk,
                       dir + [Stage(stage.inner[i].name)], context.attempt - 1)
  {
    hide Dispatch, RunInner, PathOf, Gate;
    var zone := dir + [Stage(stage.inner[i].name)];
    var pass := RunInner(stage, 0, dir, context, None, st).1;
    if PassReached(stage, 0, dir, context, st, i).None? {
      PassMisses(stage, 0, dir, context, st, i);
      SupersededSame(st.tree.disk, pass.tree.disk, zone, context.attempt - 1);
    } else {
      var t := PassReached(stage, 0, dir, context, st, i).value;
      PassReaches(stage, 0, dir, context, st, i);
      PassSpares(stage, 0, dir, context, st, i);
      PassRest(stage, i, dir, context, t);
      var t1 := Dispatch(stage.inner[i], dir, Some(context), None, t).1;
      DispatchFiles(stage.inner[i], dir, Some(context), t);
      assert SameAt(st.tree.disk, t.tree.disk, zone) && SameAt(t1.tree.disk, pass.tree.disk, zone);
    }
  }

  // Before it gets to inner stage i a pass leaves that stage's directory alone.
  lemma {:induction false} PassSpares(stage: StageDef, k: nat, dir: Address, context: LoopContext, st: State, j: nat)
    requires stage.Loop? && k <= j < |stage.inner| && Distinct(stage.inner)
    requires PassReached(stage, k, dir, context, st, j).Some?
    ensures SameUnder(st.tree.disk, PassReached(stage, k, dir, context, st, j).value.tree.disk,
                      dir + [Stage(stage.inner[j].name)])
    decreases j - k
  {
    hide Dispatch, Step, Gate;
    if k < j {
      var st1 := Dispatch(stage.inner[k], dir, Some(context), None, st).1;
      DispatchSteps(stage.inner[k], dir, Some(context), None, st);
      StepOutside(st, st1, dir + [Stage(stage.inner[k].name)], None);
      SiblingSame(st.tree.disk, st1.tree.disk, dir, stage.inner[k].name, stage.inner[j].name);
      PassSpares(stage, k + 1, dir, context, st1, j);
      SameUnderTrans(st.tree.disk, st1.tree.disk, PassReached(stage, k, dir, context, st, j).value.tree.disk,
                     dir + [Stage(stage.inner[j].name)]);
    }
  }

  // After it has left inner stage i a pass leaves that stage's directory alone.
  lemma {:induction false} PassKeeps(stage: StageDef, k: nat, dir: Address, context: LoopContext, st: State, j: nat,
                                     name: Name)
    requires stage.Loop? && k <= j < |stage.inner| && PassReached(stage, k, dir, context, st, j).Some?
    requires forall i | k <= i < |stage.inner| :: stage.inner[i].name != name
    ensures SameUnder(st.tree.disk, PassReached(stage, k, dir, context, st, j).value.tree.disk, dir + [Stage(name)])
    decreases j - k
  {
    hide Dispatch, Step, Gate;
    if k < j {
      var st1 := Dispatch(stage.inner[k], dir, Some(context), None, st).1;
      DispatchSteps(stage.inner[k], dir, Some(context), None, st);
      StepOutside(st, st1, dir + [Stage(stage.inner[k].name)], None);
      SiblingSame(st.tree.disk, st1.tree.disk, dir, stage.inner[k].name, name);
      PassKeeps(stage, k + 1, dir, context, st1, j, name);
      SameUnderTrans(st.tree.disk, st1.tree.disk, PassReached(stage, k, dir, context, st, j).value.tree.disk,
                     dir + [Stage(name)]);
    }
  }

  lemma {:induction false} AttemptsSupersede(stage: StageDef, at: Address, number: nat, total: nat, attempt: nat,
                                             st: State, i: nat)
    requires stage.Loop? && attempt <= stage.maxRetries + 1 && i < |stage.inner| && Distinct(stage.inner)
    ensures Superseded(st.tree.disk, RunAttempts(stage, at, number, total, attempt, None, st).2.tree.disk,
                       at + [Item(number)] + [Stage(stage.inner[i].name)], attempt)
    decreases stage.maxRetries + 1 - attempt
  {
    hide RunInner, Superseded;
    var zone := at + [Item(number)] + [Stage(stage.inner[i].name)];
    if attempt < stage.maxRetries + 1 {
      var (flow, st2) := AfterPassing(stage, at, number, total, attempt, st);
      PassSupersedes(stage, at + [Item(number)], ContextOf(stage, number, total, attempt), Retried(stage, attempt, st),
                     i);
      AttemptsUnfold(stage, at, number, total, attempt, st);
      if TriesAgain(stage, flow, st2) {
        AttemptsSupersede(stage, at, number, total, attempt + 1, st2, i);
        SupersededTrans(st.tree.disk, st2.tree.disk,
                        RunAttempts(stage, at, number, total, attempt + 1, None, st2).2.tree.disk, zone, attempt,
                        attempt + 1);
      }
    } else {
      SupersededSame(st.tree.disk, st.tree.disk, zone, attempt);
    }
  }

  // Everything about the last attempt that announces inner stage j: the state it starts in, the state
  // t it announces the stage in, and what the item leaves in the end of the stages up to j.
  lemma {:induction false} LastPassFacts(stage: StageDef, at: Address, number: nat, total: nat, attempt: nat, st: State,
                                         j: nat)
    requires stage.Loop? && attempt <= stage.maxRetries + 1 && j < |stage.inner| && Distinct(stage.inner)
    requires LastPass(stage, at, number, total, attempt, st, j).Some?
    ensures var (context, st1) := LastPass(stage, at, number, total, attempt, st, j).value;
      var dir := at + [Item(number)];
      var b := RunAttempts(stage, at, number, total, attempt, None, st).2;
      && context.attempt > attempt && PassReached(stage, 0, dir, context, st1, j).Some?
      && var t := PassReached(stage, 0, dir, context, st1, j).value;
         var t1 := Dispatch(stage.inner[j], dir, Some(context), None, t).1;
         && SameUnder(t1.tree.disk, b.tree.disk, dir + [Stage(stage.inner[j].name)]) && t1.trace <= b.trace
         && forall i | 0 <= i < j :: Superseded(t.tree.disk, b.tree.disk, dir + [Stage(stage.inner[i].name)],
                                                context.attempt)
    ensures var (context, st1) := LastPass(stage, at, number, total, attempt, st, j).value;
      && (SequencesOk(st.tree) ==> SequencesOk(st1.tree))
      && ChangesOnly(st.slots, st1.slots, InnerWrites(stage) + RetryNames(stage))
      && (attempt == 0 && context.attempt == 1 ==> st1 == st)
    decreases stage.maxRetries + 1 - attempt
  {
    hide RunInner, Superseded, Step, SequencesOk, InnerWrites, RetryNames, PassReached, Dispatch, ApplyRetry;
    var dir := at + [Item(number)];
    var context := ContextOf(stage, number, total, attempt);
    var st1 := Retried(stage, attempt, st);
    RetryTouches(stage, attempt, st);
    var (flow, st2) := AfterPassing(stage, at, number, total, attempt, st);
    AttemptsUnfold(stage, at, number, total, attempt, st);
    var later := if TriesAgain(stage, flow, st2) then LastPass(stage, at, number, total, attempt + 1, st2, j) else None;
    if later.Some? {
      LastPassFacts(stage, at, number, total, attempt + 1, st2, j);
      InnerQuiet(stage, 0, dir, context, st1);
      QuietChanges(st1, st2, InnerWrites(stage), flow.Cancelled?);
      var last := later.value.1;
      var touched := InnerWrites(stage) + RetryNames(stage);
      ChangesWiden(st1.slots, st2.slots, InnerWrites(stage), touched);
      ChangesTrans(st.slots, st1.slots, st2.slots, touched);
      ChangesTrans(st.slots, st2.slots, last.slots, touched);
      InnerSteps(stage, 0, at, number, context, None, st1);
      StepSequences(st1, st2, dir, Some(at));
    } else {
      ThisPassFacts(stage, at, number, total, attempt, st, j);
    }
  }

  lemma RetryTouches(stage: StageDef, attempt: nat, st: State)
    requires stage.Loop?
    ensures var st1 := Retried(stage, attempt, st);
      && st1.tree == st.tree && st1.trace == st.trace && (attempt == 0 ==> st1 == st)
      && ChangesOnly(st.slots, st1.slots, InnerWrites(stage) + RetryNames(stage))
  {
    hide InnerWrites;
    RetryChanges(stage.onRetry, st.slots);
  }

  lemma ThisPassFacts(stage: StageDef, at: Address, number: nat, total: nat, attempt: nat, st: State, j: nat)
    requires stage.Loop? && attempt < stage.maxRetries + 1 && j < |stage.inner| && Distinct(stage.inner)
    requires var (flow, st2) := AfterPassing(stage, at, number, total, attempt, st);
      TriesAgain(stage, flow, st2) ==> LastPass(stage, at, number, total, attempt + 1, st2, j).None?
    requires PassReached(stage, 0, at + [Item(number)], ContextOf(stage, number, total, attempt),
                         Retried(stage, attempt, st), j).Some?
    ensures var context := ContextOf(stage, number, total, attempt);
      var dir := at + [Item(number)];
      var b := RunAttempts(stage, at, number, total, attempt, None, st).2;
      var t := PassReached(stage, 0, dir, context, Retried(stage, attempt, st), j).value;
      var t1 := Dispatch(stage.inner[j], dir, Some(context), None, t).1;
      && SameUnder(t1.tree.disk, b.tree.disk, dir + [Stage(stage.inner[j].name)]) && t1.trace <= b.trace
      && forall i | 0 <= i < j :: Superseded(t.tree.disk, b.tree.disk, dir + [Stage(stage.inner[i].name)],
                                             context.attempt)
  {
    hide RunInner, Superseded, PassReached, Dispatch, SequencesOk, LastPass, Gate, InnerWrites;
    var context := ContextOf(stage, number, total, attempt);
    var dir := at + [Item(number)];
    var b := RunAttempts(stage, at, number, total, attempt, None, st).2;
    var st1 := Retried(stage, attempt, st);
    var t := PassReached(stage, 0, dir, context, st1, j).value;
    var t1 := Dispatch(stage.inner[j], dir, Some(context), None, t).1;
    var zone := dir + [Stage(stage.inner[j].name)];
    var (flow, st2) := AfterPassing(stage, at, number, total, attempt, st);
    AttemptsUnfold(stage, at, number, total, attempt, st);
    PassReaches(stage, 0, dir, context, st1, j);
    PassRest(stage, j, dir, context, t);
    if TriesAgain(stage, flow, st2) {
      AttemptsMiss(stage, at, number, total, attempt + 1, st2, j);
      SameUnderTrans(t1.tree.disk, st2.tree.disk, b.tree.disk, zone);
      AttemptsTrace(stage, at, number, total, attempt + 1, st2);
    }
    forall i | 0 <= i < j
      ensures Superseded(t.tree.disk, b.tree.disk, dir + [Stage(stage.inner[i].name)], context.attempt)
    {
      var zone' := dir + [Stage(stage.inner[i].name)];
      InnerSpares(stage, j, dir, context, None, t, stage.inner[i].name);
      SupersededSame(t.tree.disk, st2.tree.disk, zone', context.attempt);
      if TriesAgain(stage, flow, st2) {
        AttemptsSupersede(stage, at, number, total, attempt + 1, st2, i);
        SupersededTrans(t.tree.disk, st2.tree.disk, b.tree.disk, zone', context.attempt, attempt + 1);
      }
    }
  }
}
