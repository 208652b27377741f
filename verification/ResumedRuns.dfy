// Lifecycle of resumed runs: what is narrated again and what is run live, on one event stream.
module ResumedRuns {
  import opened Options
  import opened Addresses
  import opened WorkflowModel
  import opened Engine
  import opened EngineSteps
  import opened EngineRuns
  import opened Reconstruction
  import opened FreshRuns
  import opened ReplayProof
  import opened CutProof
  import opened WorkflowRuns
  import opened Reaching

  // The stage events alone: narrated item exits come after the exit of their own loop.
  function StageEvents(events: seq<Event>): seq<Event>
  {
    if events == [] then []
    else if events[0].ItemExit? then StageEvents(events[1..])
    else [events[0]] + StageEvents(events[1..])
  }

  lemma {:induction false} StageEventsConcat(e1: seq<Event>, e2: seq<Event>)
    ensures StageEvents(e1 + e2) == StageEvents(e1) + StageEvents(e2)
    decreases |e1|
  {
    if e1 == [] {
      assert e1 + e2 == e2;
    } else {
      assert (e1 + e2)[1..] == e1[1..] + e2;
      StageEventsConcat(e1[1..], e2);
    }
  }

  lemma {:induction false} ItemExitsAside(events: seq<Event>, open: seq<Id>)
    requires Scan(events, open).Some?
    ensures Scan(StageEvents(events), open) == Scan(events, open)
    decreases |events|
  {
    if events != [] {
      match events[0]
      case StageEnter(at, count, _) =>
        ItemExitsAside(events[1..], open + [(at, count)]);
        assert StageEvents(events)[1..] == StageEvents(events[1..]);
      case StageExit(at, count, _, _) =>
        ItemExitsAside(events[1..], open[..|open| - 1]);
        assert StageEvents(events)[1..] == StageEvents(events[1..]);
      case ItemExit(_, _) => ItemExitsAside(events[1..], open);
    }
  }

  // What narration keeps: numbering, running marks, nested stage events with ids never repeated,
  // all of them of the stages told so far.
  ghost predicate Told(t: Tree, st: State, told: seq<Name>)
  {
    && (SequencesOk(t) ==> SequencesOk(st.tree)) && SequencesKept(t.disk, st.tree.disk)
         && NoNewRunning(t.disk, st.tree.disk)
    && Scan(StageEvents(st.trace), []) == Some([]) && IdsOk(st)
    && forall i | 0 <= i < |st.trace| && st.trace[i].StageEnter? :: exists n ::
         n in told && PathOf(st.trace[i].at) == [n]
  }

  // Telling one stage again, as an enter and an exit under its recorded id.
  lemma PairTold(t: Tree, st: State, name: Name, invocation: nat, context: Option<LoopContext>, status: Status,
                 result: Value, told: seq<Name>)
    requires Told(t, st, told) && name !in told
    requires NodeAt(st.tree.disk, [Stage(name)]).meta.Some?
      && NodeAt(st.tree.disk, [Stage(name)]).meta.value.status == status
    ensures var at := [Stage(name)];
      var st1 := st.(counters := st.counters[PathOf(at) := Max(Count(st.counters, PathOf(at)), invocation)]);
      Told(t, Leave(Enter(st1, at, invocation, context), at, invocation, context, status, result), told + [name])
  {
    hide IsRunning, SequencesOk, SequencesKept, PathOf, IdsOk, Scan, StageEvents, OnStageEnter, OnStageExit;
    var at := [Stage(name)];
    var st1 := st.(counters := st.counters[PathOf(at) := Max(Count(st.counters, PathOf(at)), invocation)]);
    var st3 := Leave(Enter(st1, at, invocation, context), at, invocation, context, status, result);
    NamePath(name);
    PairEvents(st.trace, at, invocation, context, status, result);
    PairTree(st1, at, invocation, context, status, result);
    KeptTrans(t.disk, st.tree.disk, st3.tree.disk);
    PairIds(st, name, invocation, context, st3, told);
  }

  lemma NamePath(name: Name)
    ensures PathOf([Stage(name)]) == [name]
  {
    assert [Stage(name)][..0] == [];
  }

  lemma KeptTrans(d0: Disk, d1: Disk, d2: Disk)
    requires SequencesKept(d0, d1) && SequencesKept(d1, d2)
    ensures SequencesKept(d0, d2)
  {
  }

  // Telling a stage again rewrites its own record with the same status and number.
  lemma PairTree(st: State, at: Address, count: nat, context: Option<LoopContext>, status: Status, result: Value)
    requires at != [] && NodeAt(st.tree.disk, at).meta.Some? && NodeAt(st.tree.disk, at).meta.value.status == status
    ensures var st' := Leave(Enter(st, at, count, context), at, count, context, status, result);
      && (SequencesOk(st.tree) ==> SequencesOk(st'.tree)) && SequencesKept(st.tree.disk, st'.tree.disk)
      && NoNewRunning(st.tree.disk, st'.tree.disk)
  {
    hide SequencesOk, OnStageExit, WriteMeta;
    WriteMetaFacts(st.tree, at, Running, context);
    var st2 := Enter(st, at, count, context);
    LeaveKeepsSequence(st2, at, count, context, status, result);
    EnterKeepsSequence(st, at, count, context);
    ExitFacts(st2.tree, at, count, context, status, result);
    var st' := Leave(st2, at, count, context, status, result);
    OnlyAtTrans(st.tree.disk, st2.tree.disk, st'.tree.disk, at);
    forall a: Address | a != at
      ensures NodeAt(st'.tree.disk, a) == NodeAt(st.tree.disk, a)
    {
      assert SameAt(st.tree.disk, st'.tree.disk, a);
    }
  }

  lemma EnterKeepsSequence(st: State, at: Address, count: nat, context: Option<LoopContext>)
    requires NodeAt(st.tree.disk, at).meta.Some?
    ensures var meta := NodeAt(Enter(st, at, count, context).tree.disk, at).meta;
      meta.Some? && meta.value.sequence == NodeAt(st.tree.disk, at).meta.value.sequence
  {
  }

  lemma ScanPair(at: Address, count: nat, context: Option<LoopContext>, status: Status, result: Value)
    ensures Scan([StageEnter(at, count, context), StageExit(at, count, status, result)], []) == Some([])
  {
    var pair := [StageEnter(at, count, context), StageExit(at, count, status, result)];
    assert pair[1..] == [StageExit(at, count, status, result)] && pair[1..][1..] == [];
    assert [] + [(at, count)] == [(at, count)] && [(at, count)][..0] == [];
    assert Scan(pair[1..], [(at, count)]) == Scan([], []);
  }

  lemma PairEvents(trace: seq<Event>, at: Address, count: nat, context: Option<LoopContext>, status: Status,
                   result: Value)
    requires Scan(StageEvents(trace), []) == Some([])
    ensures Scan(StageEvents(trace + [StageEnter(at, count, context)] + [StageExit(at, count, status, result)]), []) ==
        Some([])
  {
    var pair := [StageEnter(at, count, context), StageExit(at, count, status, result)];
    assert trace + [StageEnter(at, count, context)] + [StageExit(at, count, status, result)] == trace + pair;
    StageEventsConcat(trace, pair);
    assert pair[1..] == [StageExit(at, count, status, result)] && pair[1..][1..] == [];
    assert StageEvents(pair[1..]) == pair[1..] by { assert StageEvents(pair[1..][1..]) == []; }
    assert StageEvents(pair) == pair;
    ScanConcat(StageEvents(trace), pair, []);
    ScanPair(at, count, context, status, result);
  }

  lemma PairIds(st: State, name: Name, invocation: nat, context: Option<LoopContext>, st3: State, told: seq<Name>)
    requires IdsOk(st) && name !in told && PathOf([Stage(name)]) == [name]
    requires forall i | 0 <= i < |st.trace| && st.trace[i].StageEnter? :: exists n ::
        n in told && PathOf(st.trace[i].at) == [n]
    requires st3.counters == st.counters[[name] := Max(Count(st.counters, [name]), invocation)]
    requires |st3.trace| == |st.trace| + 2 && st3.trace[..|st.trace|] == st.trace
      && st3.trace[|st.trace| + 1].StageExit?
    requires st3.trace[|st.trace|] == StageEnter([Stage(name)], invocation, context)
    ensures IdsOk(st3)
    ensures forall i | 0 <= i < |st3.trace| && st3.trace[i].StageEnter? :: exists n ::
        n in told + [name] && PathOf(st3.trace[i].at) == [n]
  {
    hide PathOf;
    var k := |st.trace|;
    assert forall i | 0 <= i < k :: st3.trace[i] == st3.trace[..k][i];
    forall i | 0 <= i < |st3.trace| && st3.trace[i].StageEnter?
      ensures exists n :: n in told + [name] && PathOf(st3.trace[i].at) == [n]
      ensures i < k ==> PathOf(st3.trace[i].at) != [name]
      ensures st3.trace[i].count <= Count(st3.counters, PathOf(st3.trace[i].at))
    {
      if i < k {
        assert st3.trace[i] == st.trace[i];
        var n :| n in told && PathOf(st.trace[i].at) == [n];
        assert n in told + [name];
      } else {
        assert name in told + [name];
      }
    }
    forall i, j | 0 <= i < j < |st3.trace|
      ensures !SameId(st3.trace[i], st3.trace[j])
    {
      if j < k { assert !SameId(st.trace[i], st.trace[j]); }
    }
  }

  // Telling the items of a loop again.
  lemma {:induction false} ItemsTold(t: Tree, st: State, at: Address, numbers: seq<nat>, told: seq<Name>)
    requires Told(t, st, told)
    ensures Told(t, ReplayItems(st, at, numbers), told)
    decreases |numbers|
  {
    hide Told;
    if numbers != [] {
      var record := NodeAt(st.tree.disk, at + [Item(numbers[0])]).item;
      var st1 := if record.Some? then CloseItem(st, at, record.value) else st;
      if record.Some? { ItemTold(t, st, at, record.value, told); }
      ItemsTold(t, st1, at, numbers[1..], told);
    }
  }

  lemma ItemTold(t: Tree, st: State, at: Address, record: ItemRecord, told: seq<Name>)
    requires Told(t, st, told)
    ensures Told(t, CloseItem(st, at, record), told)
  {
    ClosedItem(st, at, record);
    var st1 := CloseItem(st, at, record);
    StageEventsConcat(st.trace, [ItemExit(at, record)]);
    assert [ItemExit(at, record)][1..] == [];
    assert StageEvents([ItemExit(at, record)]) == [];
    assert StageEvents(st1.trace) == StageEvents(st.trace);
    assert forall i | 0 <= i < |st.trace| :: st1.trace[i] == st.trace[i];
  }

  lemma StageTold(t: Tree, st: State, stage: StageDef, told: seq<Name>)
    requires Told(t, st, told) && stage.name !in told
    ensures Told(t, NarrateStage(stage, [], st), told + [stage.name])
  {
    hide Enter, Leave, PathOf, SortedNumbers, ItemNumbers;
    var at := [] + [Stage(stage.name)];
    assert at == [Stage(stage.name)];
    var node := NodeAt(st.tree.disk, at);
    if node.meta.Some? && node.meta.value.attemptCount in node.attempts {
      var attempt := node.attempts[node.meta.value.attemptCount];
      PairTold(t, st, stage.name, attempt.invocation, attempt.context, node.meta.value.status, attempt.result, told);
      hide Told;
      var st1 := st.(counters := st.counters[PathOf(at) := Max(Count(st.counters, PathOf(at)), attempt.invocation)]);
      var st2 := Leave(Enter(st1, at, attempt.invocation, attempt.context), at, attempt.invocation, attempt.context,
                       node.meta.value.status, attempt.result);
      if stage.Loop? { ItemsTold(t, st2, at, SortedNumbers(ItemNumbers(st2.tree.disk, at)), told + [stage.name]); }
    } else {
      ToldMore(t, st, told, stage.name);
    }
  }

  lemma ToldMore(t: Tree, st: State, told: seq<Name>, name: Name)
    requires Told(t, st, told)
    ensures Told(t, st, told + [name])
  {
    hide PathOf;
    forall i | 0 <= i < |st.trace| && st.trace[i].StageEnter?
      ensures exists n :: n in told + [name] && PathOf(st.trace[i].at) == [n]
    {
      var n :| n in told && PathOf(st.trace[i].at) == [n];
      assert n in told + [name];
    }
  }

  lemma {:induction false} NarrateTold(t: Tree, stages: seq<StageDef>, st: State)
    requires Distinct(stages) && st.tree == t && st.trace == []
    ensures Told(t, Narrate(stages, [], st), NamesOf(stages))
    decreases |stages|
  {
    if stages != [] {
      var earlier, last := stages[..|stages| - 1], stages[|stages| - 1];
      NarrateTold(t, earlier, st);
      forall n | n in NamesOf(earlier)
        ensures n != last.name
      {
        var i :| 0 <= i < |earlier| && NamesOf(earlier)[i] == n;
        assert stages[i].name == n;
      }
      hide Told, NarrateStage;
      StageTold(t, Narrate(earlier, [], st), last, NamesOf(earlier));
    }
  }

  // Lifecycle bracketing of resumed runs, stopped again or not: stage events are properly nested
  // pairs, execution ids never repeat, not even between narrated and live stages, numbers are kept
  // and stay distinct, and nothing is left marked as running that was not before.
  lemma ResumeBracketed(stages: seq<StageDef>, c: Address, tree: Tree, message: Value, stop: Option<nat>, budget: nat)
    requires Distinct(stages) && SequencesOk(tree)
    ensures var st := Resume(stages, c, tree, message, stop, budget).1;
      && Scan(StageEvents(st.trace), []) == Some([])
      && (forall i, j | 0 <= i < j < |st.trace| :: !SameId(st.trace[i], st.trace[j]))
      && SequencesOk(st.tree) && SequencesKept(tree.disk, st.tree.disk)
      && NoNewRunning(tree.disk, st.tree.disk)
  {
    var st0 := Reopened(stages, c, tree, message, stop);
    if c != [] && c[0].Stage? && IndexOf(stages, c[0].name) < |stages| {
      var k := IndexOf(stages, c[0].name);
      NarrateTold(tree, stages[..k], st0);
      var st1 := Narrate(stages[..k], [], st0);
      SequenceSteps(stages, k, Some(c[1..]), budget, st1);
      hide RunSequence, Narrate;
      LiveAfter(tree, st1, RunSequence(stages, k, [], Some(c[1..]), budget, st1).1, NamesOf(stages[..k]));
    } else {
      NarrateTold(tree, [], st0);
    }
  }

  lemma LiveAfter(t: Tree, st1: State, st: State, told: seq<Name>)
    requires Told(t, st1, told) && Step(st1, st, [], None) && SequencesOk(t)
    ensures Scan(StageEvents(st.trace), []) == Some([])
    ensures forall i, j | 0 <= i < j < |st.trace| :: !SameId(st.trace[i], st.trace[j])
    ensures SequencesOk(st.tree) && SequencesKept(t.disk, st.tree.disk) && NoNewRunning(t.disk, st.tree.disk)
  {
    var live := st.trace[|st1.trace|..];
    assert st.trace == st1.trace + live;
    assert HostedBy([], None);
    assert Scan(live, []) == Some([]);
    ItemExitsAside(live, []);
    StageEventsConcat(st1.trace, live);
    ScanConcat(StageEvents(st1.trace), StageEvents(live), []);
  }
}
