// What every dispatch keeps, whatever the stage runners do: the zone of the recorded tree it may
// touch, the slots it may write, properly nested stage events and never-repeated execution ids.
module EngineSteps {
  import opened Options
  import opened Addresses
  import opened WorkflowModel
  import opened Engine

  // ---------- the recorded tree ----------

  ghost predicate SameAt(d: Disk, d': Disk, a: Address)
  {
    (a in d <==> a in d') && (a in d ==> d[a] == d'[a])
  }

  ghost predicate SameOutside(d: Disk, d': Disk, zone: Address)
  {
    forall a: Address :: !(zone <= a) ==> SameAt(d, d', a)
  }

  predicate HasStatus(d: Disk, a: Address, status: Status)
  {
    var node := NodeAt(d, a);
    if node.meta.Some? then node.meta.value.status == status
    else node.item.Some? && node.item.value.status == status
  }

  predicate IsRunning(d: Disk, a: Address)
  {
    NodeAt(d, a).meta.Some? && NodeAt(d, a).meta.value.status == Running
  }

  ghost predicate NoNewRunning(d: Disk, d': Disk)
  {
    forall a: Address :: IsRunning(d', a) ==> IsRunning(d, a)
  }

  ghost predicate NoNewHalted(d: Disk, d': Disk)
  {
    forall a: Address :: HasStatus(d', a, Halted) ==> HasStatus(d, a, Halted)
  }

  // Sequence numbers of siblings are distinct and below their parent's next free number.
  ghost predicate SequencesOk(t: Tree)
  {
    && (forall a | a in t.disk && a != [] && t.disk[a].meta.Some? ::
          t.disk[a].meta.value.sequence < NextSequence(t, Parent(a)))
    && (forall a, b | a in t.disk && b in t.disk && a != [] && b != [] && a != b && Parent(a) == Parent(b)
                      && t.disk[a].meta.Some? && t.disk[b].meta.Some? ::
          t.disk[a].meta.value.sequence != t.disk[b].meta.value.sequence)
  }

  // An address never changes its sequence number once it has one.
  ghost predicate SequencesKept(d: Disk, d': Disk)
  {
    forall a: Address :: NodeAt(d, a).meta.Some? ==>
      NodeAt(d', a).meta.Some? && NodeAt(d', a).meta.value.sequence == NodeAt(d, a).meta.value.sequence
  }

  // ---------- the event stream ----------

  type Id = (Address, nat)

  function Scan(events: seq<Event>, open: seq<Id>): Option<seq<Id>>
    decreases |events|
  {
    if events == [] then Some(open)
    else match events[0]
      case StageEnter(at, count, _) => Scan(events[1..], open + [(at, count)])
      case StageExit(at, count, _, _) =>
        if open != [] && open[|open| - 1] == (at, count) then Scan(events[1..], open[..|open| - 1]) else None
      case ItemExit(at, _) =>
        if open != [] && open[|open| - 1].0 == at then Scan(events[1..], open) else None
  }

  lemma {:induction false} ScanConcat(e1: seq<Event>, e2: seq<Event>, open: seq<Id>)
    ensures Scan(e1 + e2, open) == (if Scan(e1, open).Some? then Scan(e2, Scan(e1, open).value) else None)
    decreases |e1|
  {
    if e1 == [] {
      assert e1 + e2 == e2;
    } else {
      assert (e1 + e2)[1..] == e1[1..] + e2;
      match e1[0]
      case StageEnter(at, count, _) => ScanConcat(e1[1..], e2, open + [(at, count)]);
      case StageExit(at, count, _, _) =>
        if open != [] && open[|open| - 1] == (at, count) { ScanConcat(e1[1..], e2, open[..|open| - 1]); }
      case ItemExit(at, _) =>
        if open != [] && open[|open| - 1].0 == at { ScanConcat(e1[1..], e2, open); }
    }
  }

  ghost predicate HostedBy(open: seq<Id>, host: Option<Address>)
  {
    host.Some? ==> open != [] && open[|open| - 1].0 == host.value
  }

  // The events form properly nested enter/exit pairs, directly inside the host loop's own pair
  // when one is given; item exits only ever appear directly inside their own loop's pair.
  ghost predicate Nested(events: seq<Event>, host: Option<Address>)
  {
    forall open: seq<Id> :: HostedBy(open, host) ==> Scan(events, open) == Some(open)
  }

  ghost predicate TraceExtends(t: seq<Event>, t': seq<Event>, host: Option<Address>)
  {
    t <= t' && Nested(t'[|t|..], host)
  }

  lemma TraceTrans(t0: seq<Event>, t1: seq<Event>, t2: seq<Event>, host: Option<Address>)
    requires TraceExtends(t0, t1, host) && TraceExtends(t1, t2, host)
    ensures TraceExtends(t0, t2, host)
  {
    var e1, e2 := t1[|t0|..], t2[|t1|..];
    assert t2[|t0|..] == e1 + e2;
    forall open: seq<Id> | HostedBy(open, host)
      ensures Scan(t2[|t0|..], open) == Some(open)
    {
      ScanConcat(e1, e2, open);
    }
  }

  predicate SameId(e: Event, f: Event)
  {
    e.StageEnter? && f.StageEnter? && PathOf(e.at) == PathOf(f.at) && e.count == f.count
  }

  // Execution ids (path and invocation number) never repeat, and stay within the counters.
  ghost predicate IdsOk(st: State)
  {
    && (forall i | 0 <= i < |st.trace| && st.trace[i].StageEnter? ::
          st.trace[i].count <= Count(st.counters, PathOf(st.trace[i].at)))
    && (forall i, j | 0 <= i < j < |st.trace| :: !SameId(st.trace[i], st.trace[j]))
  }

  // Every event added belongs to the zone.
  ghost predicate EventsWithin(t: seq<Event>, t': seq<Event>, zone: Address)
  {
    forall i | |t| <= i < |t'| :: zone <= t'[i].at
  }

  // ---------- one step ----------

  ghost predicate Step(st: State, st': State, zone: Address, host: Option<Address>)
  {
    && SameOutside(st.tree.disk, st'.tree.disk, zone)
    && (SequencesOk(st.tree) ==> SequencesOk(st'.tree))
    && SequencesKept(st.tree.disk, st'.tree.disk)
    && (forall p: Address :: !(zone <= p) && p != Parent(zone) ==>
         NextSequence(st'.tree, p) == NextSequence(st.tree, p))
    && NoNewRunning(st.tree.disk, st'.tree.disk)
    && TraceExtends(st.trace, st'.trace, host)
    && EventsWithin(st.trace, st'.trace, zone)
    && (IdsOk(st) ==> IdsOk(st'))
  }

  lemma StepTrans(s0: State, s1: State, s2: State, zone: Address, host: Option<Address>)
    requires Step(s0, s1, zone, host) && Step(s1, s2, zone, host)
    ensures Step(s0, s2, zone, host)
  {
    TraceTrans(s0.trace, s1.trace, s2.trace, host);
    assert EventsWithin(s0.trace, s2.trace, zone) by {
      assert forall i | |s0.trace| <= i < |s1.trace| :: s2.trace[i] == s1.trace[i];
    }
    forall a: Address | !(zone <= a)
      ensures SameAt(s0.tree.disk, s2.tree.disk, a)
    {
      assert SameAt(s0.tree.disk, s1.tree.disk, a) && SameAt(s1.tree.disk, s2.tree.disk, a);
    }
  }

  lemma PrefixTrans(a: Address, b: Address, c: Address)
    requires a <= b && b <= c
    ensures a <= c
  {
  }

  // A step inside a smaller zone is a step inside any zone around it.
  lemma StepWiden(s0: State, s1: State, zone: Address, wide: Address, inner: Option<Address>, host: Option<Address>)
    requires Step(s0, s1, zone, inner) && (inner.None? || inner == host)
    requires wide <= Parent(zone) && wide <= zone
    ensures Step(s0, s1, wide, host)
  {
    forall a: Address | !(wide <= a)
      ensures SameAt(s0.tree.disk, s1.tree.disk, a)
    {
      if zone <= a { PrefixTrans(wide, zone, a); }
    }
    forall p: Address | !(wide <= p) && p != Parent(wide)
      ensures NextSequence(s1.tree, p) == NextSequence(s0.tree, p)
    {
      if zone <= p { PrefixTrans(wide, zone, p); }
    }
    forall i | |s0.trace| <= i < |s1.trace|
      ensures wide <= s1.trace[i].at
    {
      PrefixTrans(wide, zone, s1.trace[i].at);
    }
    forall open: seq<Id> | HostedBy(open, host)
      ensures Scan(s1.trace[|s0.trace|..], open) == Some(open)
    {
      assert HostedBy(open, inner);
    }
  }

  lemma StepRefl(s0: State, s1: State, zone: Address, host: Option<Address>)
    requires s1.tree == s0.tree && s1.trace == s0.trace
    requires IdsOk(s0) ==> IdsOk(s1)
    ensures Step(s0, s1, zone, host)
  {
    assert s1.trace[|s0.trace|..] == [];
  }

  // A change to the files of one directory only.
  ghost predicate OnlyAt(d: Disk, d': Disk, at: Address)
  {
    forall a: Address :: a != at ==> SameAt(d, d', a)
  }

  lemma WriteMetaFacts(t: Tree, at: Address, status: Status, context: Option<LoopContext>)
    requires at != []
    ensures OnlyAt(t.disk, WriteMeta(t, at, status, context).disk, at)
    ensures forall p: Address :: p != Parent(at) ==>
        NextSequence(WriteMeta(t, at, status, context), p) == NextSequence(t, p)
    ensures SequencesOk(t) ==> SequencesOk(WriteMeta(t, at, status, context))
    ensures NodeAt(WriteMeta(t, at, status, context).disk, at).meta.Some?
    ensures NodeAt(WriteMeta(t, at, status, context).disk, at).meta.value.status == status
  {
    var t' := WriteMeta(t, at, status, context);
    assert NextSequence(t', Parent(at)) >= NextSequence(t, Parent(at));
  }

  lemma SameMetaSequencesOk(t: Tree, t': Tree, at: Address)
    requires SequencesOk(t) && t'.nextSequence == t.nextSequence
    requires OnlyAt(t.disk, t'.disk, at)
    requires NodeAt(t'.disk, at).meta == NodeAt(t.disk, at).meta
    ensures SequencesOk(t')
  {
    assert forall a | a in t'.disk && t'.disk[a].meta.Some? :: a in t.disk && t.disk[a].meta == t'.disk[a].meta by {
      forall a | a in t'.disk && t'.disk[a].meta.Some?
        ensures a in t.disk && t.disk[a].meta == t'.disk[a].meta
      {
        if a != at { assert SameAt(t.disk, t'.disk, a); }
      }
    }
  }

  lemma ExitFacts(t: Tree, at: Address, count: nat, context: Option<LoopContext>, status: Status, result: Value)
    requires at != []
    ensures var t' := OnStageExit(t, at, count, context, status, result);
      && OnlyAt(t.disk, t'.disk, at)
      && (forall p: Address :: p != Parent(at) ==> NextSequence(t', p) == NextSequence(t, p))
      && (SequencesOk(t) ==> SequencesOk(t'))
      && NodeAt(t'.disk, at).meta.Some? && NodeAt(t'.disk, at).meta.value.status == status
  {
    WriteMetaFacts(t, at, status, context);
    var t1 := WriteMeta(t, at, status, context);
    AttemptFacts(t1, at, AttemptNumber(context), Attempt(count, context, status, result));
    OnlyAtTrans(t.disk, t1.disk, OnStageExit(t, at, count, context, status, result).disk, at);
  }

  lemma OnlyAtTrans(d0: Disk, d1: Disk, d2: Disk, at: Address)
    requires OnlyAt(d0, d1, at) && OnlyAt(d1, d2, at)
    ensures OnlyAt(d0, d2, at)
  {
    forall a: Address | a != at
      ensures SameAt(d0, d2, a)
    {
      assert SameAt(d0, d1, a) && SameAt(d1, d2, a);
    }
  }

  lemma AttemptFacts(t: Tree, at: Address, number: nat, attempt: Attempt)
    ensures var t' := WriteAttempt(t, at, number, attempt);
      && OnlyAt(t.disk, t'.disk, at)
      && t'.nextSequence == t.nextSequence
      && (SequencesOk(t) ==> SequencesOk(t'))
      && NodeAt(t'.disk, at).meta == NodeAt(t.disk, at).meta
  {
    if SequencesOk(t) { SameMetaSequencesOk(t, WriteAttempt(t, at, number, attempt), at); }
  }

  lemma OnlyAtOutside(d0: Disk, d1: Disk, d2: Disk, d3: Disk, at: Address)
    requires OnlyAt(d0, d1, at) && SameOutside(d1, d2, at) && OnlyAt(d2, d3, at)
    ensures SameOutside(d0, d3, at)
  {
    forall a: Address | !(at <= a)
      ensures SameAt(d0, d3, a)
    {
      assert SameAt(d0, d1, a) && SameAt(d1, d2, a) && SameAt(d2, d3, a);
    }
  }

  lemma RunningOnlyAt(d0: Disk, d1: Disk, d2: Disk, d3: Disk, at: Address)
    requires OnlyAt(d0, d1, at) && NoNewRunning(d1, d2) && OnlyAt(d2, d3, at)
    requires !IsRunning(d3, at)
    ensures NoNewRunning(d0, d3)
  {
    forall a: Address | IsRunning(d3, a)
      ensures IsRunning(d0, a)
    {
      assert SameAt(d2, d3, a) && SameAt(d0, d1, a);
      assert IsRunning(d2, a);
    }
  }

  lemma NestedPair(events: seq<Event>, at: Address, count: nat, context: Option<LoopContext>, status: Status,
                   result: Value)
    requires Nested(events, Some(at))
    ensures Nested([StageEnter(at, count, context)] + events + [StageExit(at, count, status, result)], None)
  {
    var enter, exit := [StageEnter(at, count, context)], [StageExit(at, count, status, result)];
    forall open: seq<Id>
      ensures Scan(enter + events + exit, open) == Some(open)
    {
      var inner := open + [(at, count)];
      assert HostedBy(inner, Some(at)) && inner[..|inner| - 1] == open;
      assert enter + events + exit == enter + (events + exit);
      ScanConcat(events, exit, inner);
      assert (enter + (events + exit))[1..] == events + exit;
    }
  }

  lemma BracketIds(st: State, at: Address, count: nat, context: Option<LoopContext>)
    requires IdsOk(st) && count == Count(st.counters, PathOf(at)) + 1
    ensures IdsOk(Enter(st.(counters := st.counters[PathOf(at) := count]), at, count, context))
  {
    var st' := Enter(st.(counters := st.counters[PathOf(at) := count]), at, count, context);
    forall i, j | 0 <= i < j < |st'.trace|
      ensures !SameId(st'.trace[i], st'.trace[j])
    {
      if j < |st.trace| {
        assert !SameId(st.trace[i], st.trace[j]);
      } else if st'.trace[i].StageEnter? {
        assert st.trace[i].count <= Count(st.counters, PathOf(st.trace[i].at));
      }
    }
  }

  lemma LeaveIds(st: State, at: Address, count: nat, context: Option<LoopContext>, status: Status, result: Value)
    requires IdsOk(st)
    ensures IdsOk(Leave(st, at, count, context, status, result))
  {
    var st' := Leave(st, at, count, context, status, result);
    forall i, j | 0 <= i < j < |st'.trace|
      ensures !SameId(st'.trace[i], st'.trace[j])
    {
      if j < |st.trace| { assert !SameId(st.trace[i], st.trace[j]); }
    }
  }

  // What a step does to the recorded tree.
  ghost predicate TreeStep(t: Tree, t': Tree, zone: Address)
  {
    && SameOutside(t.disk, t'.disk, zone)
    && (SequencesOk(t) ==> SequencesOk(t'))
    && SequencesKept(t.disk, t'.disk)
    && (forall p: Address :: !(zone <= p) && p != Parent(zone) ==> NextSequence(t', p) == NextSequence(t, p))
    && NoNewRunning(t.disk, t'.disk)
  }

  lemma BracketedTree(t0: Tree, at: Address, count: nat, context: Option<LoopContext>, t2: Tree, status: Status,
                      result: Value)
    requires at != [] && status != Running && TreeStep(OnStageEnter(t0, at, context), t2, at)
    ensures TreeStep(t0, OnStageExit(t2, at, count, context, status, result), at)
  {
    var t1, t3 := OnStageEnter(t0, at, context), OnStageExit(t2, at, count, context, status, result);
    WriteMetaFacts(t0, at, Running, context);
    ExitFacts(t2, at, count, context, status, result);
    FilesKeepSequence(t0, at, count, context, status, result);
    FilesKeepSequence(t2, at, count, context, status, result);
    hide OnStageExit, WriteMeta, SequencesOk, NextSequence, Parent, SameOutside, NoNewRunning, OnlyAt;
    OnlyAtOutside(t0.disk, t1.disk, t2.disk, t3.disk, at);
    RunningOnlyAt(t0.disk, t1.disk, t2.disk, t3.disk, at);
  }

  lemma FilesKeepSequence(t: Tree, at: Address, count: nat, context: Option<LoopContext>, status: Status, result: Value)
    ensures SequencesKept(t.disk, WriteMeta(t, at, Running, context).disk)
    ensures SequencesKept(t.disk, OnStageExit(t, at, count, context, status, result).disk)
  {
  }

  // A stage's enter, anything it does inside its own directory, and its exit make one step.
  lemma Bracketed(s0: State, at: Address, count: nat, context: Option<LoopContext>, s2: State, status: Status,
                  result: Value)
    requires at != [] && count == Count(s0.counters, PathOf(at)) + 1 && status != Running
    requires Step(Enter(s0.(counters := s0.counters[PathOf(at) := count]), at, count, context), s2, at, Some(at))
    ensures Step(s0, Leave(s2, at, count, context, status, result), at, None)
  {
    hide PathOf, SameOutside, SequencesOk, SequencesKept, NoNewRunning, TraceExtends, EventsWithin, IdsOk,
      OnStageEnter, OnStageExit, Parent, NextSequence;
    BracketedTree(s0.tree, at, count, context, s2.tree, status, result);
    BracketedTrace(s0, at, count, context, s2, status, result);
  }

  lemma BracketedTrace(s0: State, at: Address, count: nat, context: Option<LoopContext>, s2: State, status: Status,
                       result: Value)
    requires count == Count(s0.counters, PathOf(at)) + 1
    requires var s1 := Enter(s0.(counters := s0.counters[PathOf(at) := count]), at, count, context);
      TraceExtends(s1.trace, s2.trace, Some(at)) && EventsWithin(s1.trace, s2.trace, at) && (IdsOk(s1) ==> IdsOk(s2))
    ensures var s3 := Leave(s2, at, count, context, status, result);
      TraceExtends(s0.trace, s3.trace, None) && EventsWithin(s0.trace, s3.trace, at) && (IdsOk(s0) ==> IdsOk(s3))
  {
    var s1 := Enter(s0.(counters := s0.counters[PathOf(at) := count]), at, count, context);
    var s3 := Leave(s2, at, count, context, status, result);
    var events := s2.trace[|s1.trace|..];
    NestedPair(events, at, count, context, status, result);
    assert s3.trace[|s0.trace|..] == [StageEnter(at, count, context)] + events + [StageExit(at, count, status, result)];
    if IdsOk(s0) {
      BracketIds(s0, at, count, context);
      LeaveIds(s2, at, count, context, status, result);
    }
  }

  // Closing an item is a step directly inside its loop.
  lemma ClosedItem(s0: State, at: Address, record: ItemRecord)
    ensures Step(s0, CloseItem(s0, at, record), at, Some(at))
  {
    var s1 := CloseItem(s0, at, record);
    var here := at + [Item(record.number)];
    forall a: Address | !(at <= a)
      ensures SameAt(s0.tree.disk, s1.tree.disk, a)
    {
      assert a != here;
    }
    if SequencesOk(s0.tree) {
      SameMetaSequencesOk(s0.tree, s1.tree, here);
    }
    forall a: Address | IsRunning(s1.tree.disk, a)
      ensures IsRunning(s0.tree.disk, a)
    {
      if a != here { assert SameAt(s0.tree.disk, s1.tree.disk, a); }
    }
    assert s1.trace[|s0.trace|..] == [ItemExit(at, record)];
    forall open: seq<Id> | HostedBy(open, Some(at))
      ensures Scan([ItemExit(at, record)], open) == Some(open)
    {
      assert [ItemExit(at, record)][1..] == [];
    }
    if IdsOk(s0) {
      forall i, j | 0 <= i < j < |s1.trace|
        ensures !SameId(s1.trace[i], s1.trace[j])
      {
        if j < |s0.trace| { assert !SameId(s0.trace[i], s0.trace[j]); }
      }
    }
  }

  // ---------- every run ----------

  lemma {:induction false} DispatchSteps(stage: StageDef, base: Address, context: Option<LoopContext>,
                                         cursor: Option<Address>, st: State)
    ensures Step(st, Dispatch(stage, base, context, cursor, st).1, base + [Stage(stage.name)], None)
    decreases stage, 4, 0
  {
    hide Step, RunByType, Enter, Leave, Gate, PathOf;
    var at := base + [Stage(stage.name)];
    var count := Count(st.counters, PathOf(at)) + 1;
    var st1 := st.(counters := st.counters[PathOf(at) := count]);
    var st2 := Enter(st1, at, count, context);
    match Gate(stage, st.slots)
    case Broken => StepRefl(st, st1, at, None);
    case Fails =>
      StepRefl(st2, st2, at, Some(at));
      Bracketed(st, at, count, context, st2, Skipped, Null);
    case Holds =>
      var (flow, st3) := RunByType(stage, at, count, cursor, st2);
      BodySteps(stage, at, count, cursor, st2);
      Bracketed(st, at, count, context, st3, StatusOf(flow), ResultOf(flow));
  }

  lemma {:induction false} BodySteps(stage: StageDef, at: Address, count: nat, cursor: Option<Address>, st: State)
    ensures Step(st, RunByType(stage, at, count, cursor, st).1, at, Some(at))
    decreases stage, 3, 1
  {
    var st' := RunByType(stage, at, count, cursor, st).1;
    match stage
    case Work(_, _, _, _, _) => StepRefl(st, st', at, Some(at));
    case Branch(_, _, _, _) => StepRefl(st, st', at, Some(at));
    case Loop(_, _, _, _, _, _, _, _, _, _, _, _) =>
      assert RunByType(stage, at, count, cursor, st) == RunLoop(stage, at, cursor, st);
      if LoopItems(stage, st.slots).None? || (cursor.Some? && cursor.value != [] && cursor.value[0].Stage?) {
        StepRefl(st, st', at, Some(at));
      } else {
        ItemsSteps(stage, at, LoopItems(stage, st.slots).value, 0, cursor, Progress([], 0, 0), st);
      }
    case Nested(_, _, _, _, _, _) =>
      assert RunByType(stage, at, count, cursor, st) == RunSubWorkflow(stage, at, st);
      var seeded := stage.seed(st.slots);
      if seeded.None? {
        StepRefl(st, st', at, Some(at));
      } else {
        var st1 := st.(slots := seeded.value);
        var st2 := RunStages(stage, 0, at, stage.limit, map[], st1).1;
        StepRefl(st, st1, at, Some(at));
        StagesSteps(stage, 0, at, stage.limit, map[], st1);
        StepTrans(st, st1, st2, at, Some(at));
        StepRefl(st2, st', at, Some(at));
        StepTrans(st, st2, st', at, Some(at));
      }
  }

  // The stages of a nested workflow write and emit only below it, under the shared counters.
  lemma {:induction false} StagesSteps(stage: StageDef, k: nat, at: Address, left: nat, outcomes: map<Name, Value>,
                                       st: State)
    requires stage.Nested? && k <= |stage.stages|
    ensures Step(st, RunStages(stage, k, at, left, outcomes, st).1, at, Some(at))
    decreases stage, 2, left
  {
    hide Step, Dispatch;
    var st' := RunStages(stage, k, at, left, outcomes, st).1;
    if k == |stage.stages| || left == 0 {
      StepRefl(st, st', at, Some(at));
    } else {
      var (flow, st1) := Dispatch(stage.stages[k], at, None, None, st);
      DispatchSteps(stage.stages[k], at, None, None, st);
      var zone := at + [Stage(stage.stages[k].name)];
      assert Parent(zone) == at;
      StepWiden(st, st1, zone, at, None, Some(at));
      if flow.Next? {
        var next := if flow.jump.None? then k + 1 else IndexOf(stage.stages, flow.jump.value);
        if flow.jump.None? || next < |stage.stages| {
          var outcomes1 := outcomes[stage.stages[k].name := flow.result];
          StagesSteps(stage, next, at, left - 1, outcomes1, st1);
          StepTrans(st, st1, st', at, Some(at));
        }
      }
    }
  }

  lemma {:induction false} ItemsSteps(stage: StageDef, at: Address, items: seq<Value>, i: nat,
                                      cursor: Option<Address>, progress: Progress, st: State)
    requires stage.Loop? && i <= |items|
    ensures Step(st, RunItems(stage, at, items, i, cursor, progress, st).1, at, Some(at))
    decreases stage, 2, |items| - i
  {
    hide Step, RunAttempts, CloseItem, PrepareItem, RecordOf, Collect;
    var st' := RunItems(stage, at, items, i, cursor, progress, st).1;
    if i == |items| {
      StepRefl(st, st', at, Some(at));
    } else if Reused(stage, at, cursor, i + 1, st.tree.disk) {
      var record := NodeAt(st.tree.disk, at + [Item(i + 1)]).item.value;
      var st1 := CloseItem(st, at, record);
      ClosedItem(st, at, record);
      ItemsSteps(stage, at, items, i + 1, cursor, Tallied(progress, Some(record.result), record.success), st1);
      StepTrans(st, st1, st', at, Some(at));
    } else {
      var inside := InnerCursor(cursor, i + 1);
      var st1 := st.(slots := PrepareItem(stage, items[i], inside.Some?, st.slots));
      var (end, used, st2) := RunAttempts(stage, at, i + 1, |items|, 0, inside, st1);
      StepRefl(st, st1, at, Some(at));
      AttemptsSteps(stage, at, i + 1, |items|, 0, inside, st1);
      StepWiden(st1, st2, at + [Item(i + 1)], at, Some(at), Some(at));
      StepTrans(st, st1, st2, at, Some(at));
      if !end.ItemAborted? && !end.ItemRaised? {
        var record := RecordOf(stage, st2.slots, items[i], i + 1, |items|, end, used);
        var st3 := CloseItem(st2, at, record);
        ClosedItem(st2, at, record);
        StepTrans(st, st2, st3, at, Some(at));
        if end.ItemDone? || (end.ItemFailed? && !stage.abortOnMaxRetries) {
          var entry := if stage.over.Some? then Some(Collect(stage, st3.slots, items[i], end.ItemDone?)) else None;
          ItemsSteps(stage, at, items, i + 1, cursor, Tallied(progress, entry, end.ItemDone?), st3);
          StepTrans(st, st3, st', at, Some(at));
        }
      }
    }
  }

  lemma {:induction false} AttemptsSteps(stage: StageDef, at: Address, number: nat, total: nat, attempt: nat,
                                         inside: Option<Address>, st: State)
    requires stage.Loop? && attempt <= stage.maxRetries + 1
    ensures Step(st, RunAttempts(stage, at, number, total, attempt, inside, st).2, at + [Item(number)], Some(at))
    decreases stage, 1, stage.maxRetries + 1 - attempt
  {
    hide Step, RunInner, ApplyRetry, IndexOf;
    var base := at + [Item(number)];
    var st' := RunAttempts(stage, at, number, total, attempt, inside, st).2;
    if attempt == stage.maxRetries + 1 {
      StepRefl(st, st', base, Some(at));
    } else {
      var context := LoopContext(number, total, attempt + 1, stage.maxRetries + 1);
      var st1 := if attempt > 0 then st.(slots := ApplyRetry(stage.onRetry, st.slots)) else st;
      StepRefl(st, st1, base, Some(at));
      var resumed := attempt == 0 && inside.Some? && inside.value != [];
      var start := if !resumed then 0 else if inside.value[0].Stage? then IndexOf(stage.inner,
          inside.value[0].name) else |stage.inner|;
      if !(resumed && start == |stage.inner|) {
        var cursor := if resumed then Some(inside.value[1..]) else None;
        var (flow, st2) := RunInner(stage, start, at + [Item(number)], context, cursor, st1);
        InnerSteps(stage, start, at, number, context, cursor, st1);
        StepTrans(st, st1, st2, base, Some(at));
        if flow.Raised? || (flow.Next? && stage.exit(st2.slots).Fails?) {
          AttemptsSteps(stage, at, number, total, attempt + 1, inside, st2);
          StepTrans(st, st2, st', base, Some(at));
        }
      }
    }
  }

  lemma {:induction false} InnerSteps(stage: StageDef, k: nat, at: Address, number: nat, context: LoopContext,
                                      cursor: Option<Address>, st: State)
    requires stage.Loop? && k <= |stage.inner|
    ensures Step(st, RunInner(stage, k, at + [Item(number)], context, cursor, st).1, at + [Item(number)], Some(at))
    decreases stage, 0, |stage.inner| - k
  {
    hide Step;
    var base := at + [Item(number)];
    var st' := RunInner(stage, k, base, context, cursor, st).1;
    if k == |stage.inner| {
      StepRefl(st, st', base, Some(at));
    } else {
      var (flow, st1) := Dispatch(stage.inner[k], base, Some(context), cursor, st);
      DispatchSteps(stage.inner[k], base, Some(context), cursor, st);
      var zone := base + [Stage(stage.inner[k].name)];
      assert Parent(zone) == base;
      StepWiden(st, st1, zone, base, None, Some(at));
      if flow.Next? {
        InnerSteps(stage, k + 1, at, number, context, None, st1);
        StepTrans(st, st1, st', base, Some(at));
      }
    }
  }
}
