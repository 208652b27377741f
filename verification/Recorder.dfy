// The run recorder: sequence numbers of stages, kept stable over any number of runs and reloads.
module RecorderHistory {
  import opened Options
  import opened Addresses
  import opened WorkflowModel
  import opened EngineSteps

  predicate HasNumber(d: Disk, a: Address, v: nat)
  {
    NodeAt(d, a).meta.Some? && NodeAt(d, a).meta.value.sequence == v
  }

  // A stage directly below the given directory has the number v.
  ghost predicate Taken(d: Disk, parent: Address, v: nat)
  {
    exists a: Address :: a != [] && Parent(a) == parent && HasNumber(d, a, v)
  }

  lemma TakenBy(d: Disk, a: Address, v: nat)
    requires a != [] && HasNumber(d, a, v)
    ensures Taken(d, Parent(a), v)
  {
  }

  // Every number below a directory's next free one is taken.
  ghost predicate Dense(t: Tree)
  {
    forall p: Address, v: nat :: v < NextSequence(t, p) ==> Taken(t.disk, p, v)
  }

  ghost predicate Sound(t: Tree)
  {
    SequencesOk(t) && Dense(t)
  }

  // The counters a reopened run works with: one past the highest persisted number of each directory.
  ghost predicate LoadedFrom(d: Disk, next: map<Address, nat>)
  {
    && (forall a: Address :: a in d && a != [] && d[a].meta.Some? ==>
         Parent(a) in next && d[a].meta.value.sequence < next[Parent(a)])
    && (forall p: Address :: p in next ==> next[p] > 0 && Taken(d, p, next[p] - 1))
  }

  // The indexes after reading every persisted meta file but those still to do.
  ghost predicate PartlyLoaded(d: Disk, numbers: map<Address, nat>, next: map<Address, nat>, todo: set<Address>)
  {
    && (forall a: Address :: a in numbers <==> (NodeAt(d, a).meta.Some? && a !in todo))
    && (forall a: Address :: a in numbers ==> NodeAt(d, a).meta.Some? && numbers[a] == NodeAt(d, a).meta.value.sequence)
    && (forall a: Address :: a in numbers && a != [] ==> Parent(a) in next && numbers[a] < next[Parent(a)])
    && (forall p: Address :: p in next ==> next[p] > 0 && Taken(d, p, next[p] - 1))
  }

  function Bumped(next: map<Address, nat>, parent: Address, number: nat): map<Address, nat>
  {
    next[parent := if parent in next && next[parent] > number then next[parent] else number + 1]
  }

  lemma LoadStep(d: Disk, numbers: map<Address, nat>, next: map<Address, nat>, todo: set<Address>, a: Address)
    requires PartlyLoaded(d, numbers, next, todo) && a in todo && NodeAt(d, a).meta.Some?
    ensures var number := NodeAt(d, a).meta.value.sequence;
      PartlyLoaded(d, numbers[a := number], if a != [] then Bumped(next, Parent(a), number) else next, todo - {a})
  {
    var number := NodeAt(d, a).meta.value.sequence;
    if a != [] { TakenBy(d, a, number); }
    hide Taken;
    var next1 := if a != [] then Bumped(next, Parent(a), number) else next;
    forall b: Address | b in numbers[a := number] && b != []
      ensures Parent(b) in next1 && numbers[a := number][b] < next1[Parent(b)]
    {
      if b != a { assert b in numbers; }
    }
  }

  lemma FullyLoaded(d: Disk, numbers: map<Address, nat>, next: map<Address, nat>, todo: set<Address>)
    requires PartlyLoaded(d, numbers, next, todo) && todo == {}
    ensures LoadedFrom(d, next)
    ensures forall a: Address :: a in numbers <==> NodeAt(d, a).meta.Some?
    ensures forall a: Address :: a in numbers ==> numbers[a] == NodeAt(d, a).meta.value.sequence
  {
    hide Taken;
    forall a: Address | a in d && a != [] && d[a].meta.Some?
      ensures Parent(a) in next && d[a].meta.value.sequence < next[Parent(a)]
    {
      assert a in numbers;
    }
  }

  // One call of the recorder.
  datatype Call =
    | EnterCall(at: Address, context: Option<LoopContext>)
    | ExitCall(at: Address, count: nat, context: Option<LoopContext>, status: Status, result: Value)
    | ItemCall(at: Address, record: ItemRecord)
    | Reload

  ghost predicate Made(t: Tree, t': Tree, call: Call)
  {
    match call
    case EnterCall(at, context) => at != [] && t' == OnStageEnter(t, at, context)
    case ExitCall(at, count, context, status, result) => at != []
        && t' == OnStageExit(t, at, count, context, status, result)
    case ItemCall(at, record) => at != [] && t' == WriteItem(t, at, record)
    case Reload => t'.disk == t.disk && LoadedFrom(t'.disk, t'.nextSequence)
  }

  // An address without a number gets one past all its siblings', and numbers never change.
  ghost predicate Orderly(t: Tree, t': Tree)
  {
    && SequencesKept(t.disk, t'.disk)
    && (forall p: Address :: NextSequence(t, p) <= NextSequence(t', p))
    && (forall a: Address :: a != [] && NodeAt(t.disk, a).meta.None? && NodeAt(t'.disk, a).meta.Some? ==>
          NextSequence(t, Parent(a)) <= NodeAt(t'.disk, a).meta.value.sequence)
  }

  lemma TakenKept(d: Disk, d': Disk, p: Address, v: nat)
    requires Taken(d, p, v) && SequencesKept(d, d')
    ensures Taken(d', p, v)
  {
    var a: Address :| a != [] && Parent(a) == p && HasNumber(d, a, v);
    assert HasNumber(d', a, v);
  }

  lemma MetaOrderly(t: Tree, at: Address, status: Status, context: Option<LoopContext>)
    requires at != []
    ensures Orderly(t, WriteMeta(t, at, status, context))
  {
  }

  lemma MetaSound(t: Tree, at: Address, status: Status, context: Option<LoopContext>)
    requires Sound(t) && at != []
    ensures var t' := WriteMeta(t, at, status, context); Sound(t') && Orderly(t, t')
  {
    hide SequencesOk;
    var t' := WriteMeta(t, at, status, context);
    WriteMetaFacts(t, at, status, context);
    MetaOrderly(t, at, status, context);
    hide Orderly;
    assert SequencesKept(t.disk, t'.disk);
    hide SequencesKept;
    forall p: Address, v: nat | v < NextSequence(t', p)
      ensures Taken(t'.disk, p, v)
    {
      if v < NextSequence(t, p) {
        TakenKept(t.disk, t'.disk, p, v);
      } else {
        assert p == Parent(at) && HasNumber(t'.disk, at, v);
      }
    }
  }

  lemma SameMetaSound(t: Tree, t': Tree, at: Address)
    requires Sound(t) && t'.nextSequence == t.nextSequence && OnlyAt(t.disk, t'.disk, at)
    requires NodeAt(t'.disk, at).meta == NodeAt(t.disk, at).meta
    ensures Sound(t') && Orderly(t, t')
  {
    SameMetaSequencesOk(t, t', at);
    assert forall a: Address :: NodeAt(t'.disk, a).meta == NodeAt(t.disk, a).meta by {
      forall a: Address
        ensures NodeAt(t'.disk, a).meta == NodeAt(t.disk, a).meta
      {
        if a != at { assert SameAt(t.disk, t'.disk, a); }
      }
    }
    forall p: Address, v: nat | v < NextSequence(t', p)
      ensures Taken(t'.disk, p, v)
    {
      assert Taken(t.disk, p, v);
      var a: Address :| a != [] && Parent(a) == p && HasNumber(t.disk, a, v);
      assert HasNumber(t'.disk, a, v);
    }
  }

  lemma OrderlyTrans(t0: Tree, t1: Tree, t2: Tree)
    requires Orderly(t0, t1) && Orderly(t1, t2)
    ensures Orderly(t0, t2)
  {
    forall a: Address | a != [] && NodeAt(t0.disk, a).meta.None? && NodeAt(t2.disk, a).meta.Some?
      ensures NextSequence(t0, Parent(a)) <= NodeAt(t2.disk, a).meta.value.sequence
    {
      assert NextSequence(t0, Parent(a)) <= NextSequence(t1, Parent(a));
      if NodeAt(t1.disk, a).meta.Some? {
        assert NodeAt(t2.disk, a).meta.value.sequence == NodeAt(t1.disk, a).meta.value.sequence;
      }
    }
  }

  lemma NextKnown(t: Tree, p: Address, a: Address)
    requires SequencesOk(t) && a != [] && Parent(a) == p && NodeAt(t.disk, a).meta.Some?
    ensures NodeAt(t.disk, a).meta.value.sequence < NextSequence(t, p)
  {
    assert a in t.disk;
  }

  lemma LoadedNext(t: Tree, next: map<Address, nat>, p: Address)
    requires Sound(t) && LoadedFrom(t.disk, next)
    ensures NextSequence(Tree(t.disk, next), p) == NextSequence(t, p)
  {
    hide SequencesOk;
    if NextSequence(t, p) > 0 {
      assert Taken(t.disk, p, NextSequence(t, p) - 1);
      var a: Address :| a != [] && Parent(a) == p && HasNumber(t.disk, a, NextSequence(t, p) - 1);
      assert a in t.disk && t.disk[a].meta.Some?;
      assert p in next && NextSequence(t, p) - 1 < next[p];
    }
    if p in next {
      var b: Address :| b != [] && Parent(b) == p && HasNumber(t.disk, b, next[p] - 1);
      NextKnown(t, p, b);
    }
  }

  // Reopening a run recovers exactly the counters it had.
  lemma ReloadRecovers(t: Tree, t': Tree)
    requires Sound(t) && t'.disk == t.disk && LoadedFrom(t'.disk, t'.nextSequence)
    ensures forall p: Address :: NextSequence(t', p) == NextSequence(t, p)
    ensures Sound(t') && Orderly(t, t')
  {
    forall p: Address
      ensures NextSequence(t', p) == NextSequence(t, p)
    {
      LoadedNext(t, t'.nextSequence, p);
    }
    hide LoadedFrom;
    SameNextSound(t, t');
  }

  lemma SameNextSound(t: Tree, t': Tree)
    requires Sound(t) && t'.disk == t.disk && forall p: Address :: NextSequence(t', p) == NextSequence(t, p)
    ensures Sound(t') && Orderly(t, t')
  {
  }

  lemma CallSound(t: Tree, t': Tree, call: Call)
    requires Sound(t) && Made(t, t', call)
    ensures Sound(t') && Orderly(t, t')
  {
    match call
    case EnterCall(at, context) => MetaSound(t, at, Running, context);
    case ExitCall(at, count, context, status, result) =>
      var t1 := WriteMeta(t, at, status, context);
      MetaSound(t, at, status, context);
      AttemptFacts(t1, at, AttemptNumber(context), Attempt(count, context, status, result));
      SameMetaSound(t1, t', at);
      OrderlyTrans(t, t1, t');
    case ItemCall(at, record) => SameMetaSound(t, t', at);
    case Reload => ReloadRecovers(t, t');
  }

  // A recorder's whole life: it starts with an empty directory and makes any calls, reloads included.
  ghost predicate History(trees: seq<Tree>, calls: seq<Call>)
  {
    && |trees| == |calls| + 1 && trees[0] == Tree(map[], map[])
    && forall i | 0 <= i < |calls| :: Made(trees[i], trees[i + 1], calls[i])
  }

  lemma {:induction false} HistorySound(trees: seq<Tree>, calls: seq<Call>, j: nat)
    requires History(trees, calls) && j < |trees|
    ensures Sound(trees[j])
  {
    if j > 0 {
      HistorySound(trees, calls, j - 1);
      CallSound(trees[j - 1], trees[j], calls[j - 1]);
    }
  }

  lemma {:induction false} HistoryOrderly(trees: seq<Tree>, calls: seq<Call>, i: nat, j: nat)
    requires History(trees, calls) && i <= j < |trees|
    ensures Orderly(trees[i], trees[j])
  {
    hide Orderly, Sound, Made;
    if i == j {
      OrderlyRefl(trees[i]);
    } else {
      HistoryOrderly(trees, calls, i, j - 1);
      HistorySound(trees, calls, j - 1);
      CallSound(trees[j - 1], trees[j], calls[j - 1]);
      OrderlyTrans(trees[i], trees[j - 1], trees[j]);
    }
  }

  lemma OrderlyRefl(t: Tree)
    ensures Orderly(t, t)
  {
  }

  // Stable sequence numbers: over any number of calls and reloads, siblings have distinct numbers,
  // dense from 0; an address keeps its number; and numbers follow the order of first writes.
  lemma NumbersStable(trees: seq<Tree>, calls: seq<Call>, i: nat, j: nat, a: Address, b: Address)
    requires History(trees, calls) && i <= j < |trees| && a != [] && b != [] && Parent(a) == Parent(b)
    requires NodeAt(trees[i].disk, a).meta.Some?
    ensures Sound(trees[j])
    ensures NodeAt(trees[j].disk, a).meta.Some?
    ensures NodeAt(trees[j].disk, a).meta.value.sequence == NodeAt(trees[i].disk, a).meta.value.sequence
    ensures NodeAt(trees[i].disk, b).meta.None? && NodeAt(trees[j].disk, b).meta.Some? ==>
      NodeAt(trees[j].disk, a).meta.value.sequence < NodeAt(trees[j].disk, b).meta.value.sequence
  {
    HistorySound(trees, calls, i);
    HistorySound(trees, calls, j);
    HistoryOrderly(trees, calls, i, j);
  }
}

// The recorder object: its files and its in-memory indexes.
module Recorder {
  import opened Options
  import opened Addresses
  import opened WorkflowModel
  import opened EngineSteps
  import opened RecorderHistory

  type InvocationId = (Path, nat)

  // Both indexes, collected from every persisted meta file.
  method IndexFiles(files: Disk) returns (numbers: map<Address, nat>, next: map<Address, nat>)
    ensures forall a: Address :: a in numbers <==> NodeAt(files, a).meta.Some?
    ensures forall a: Address :: a in numbers ==> numbers[a] == NodeAt(files, a).meta.value.sequence
    ensures LoadedFrom(files, next)
  {
    hide LoadedFrom;
    numbers, next := map[], map[];
    var todo := set a | a in files && files[a].meta.Some?;
    while todo != {}
      invariant forall a | a in todo :: a in files && files[a].meta.Some?
      invariant PartlyLoaded(files, numbers, next, todo)
      decreases todo
    {
      var a :| a in todo;
      LoadStep(files, numbers, next, todo, a);
      hide PartlyLoaded;
      var number := files[a].meta.value.sequence;
      numbers := numbers[a := number];
      if a != [] { next := Bumped(next, Parent(a), number); }
      todo := todo - {a};
    }
    FullyLoaded(files, numbers, next, todo);
  }

  // The index of numbers already given mirrors the persisted meta files.
  ghost predicate Mirrored(disk: Disk, numbers: map<Address, nat>)
  {
    forall a: Address ::
      (a in numbers <==> NodeAt(disk, a).meta.Some?) &&
      (a in numbers ==> numbers[a] == NodeAt(disk, a).meta.value.sequence)
  }

  // Files other than the meta file do not matter to it.
  lemma MetaMirrored(disk: Disk, numbers: map<Address, nat>, at: Address, node: Node)
    requires Mirrored(disk, numbers) && node.meta == NodeAt(disk, at).meta
    ensures Mirrored(disk[at := node], numbers)
  {
  }

  class WorkflowRunRecorder {
    var disk: Disk
    var sequenceByAddress: map<Address, nat>
    var nextSequence: map<Address, nat>
    var invocations: map<InvocationId, Option<LoopContext>>
    var lastFailed: Option<Address>

    ghost predicate Valid()
      reads this
    {
      Mirrored(disk, sequenceByAddress)
    }

    function Contents(): Tree
      reads this
    {
      Tree(disk, nextSequence)
    }

    constructor ()
      ensures Valid() && Contents() == Tree(map[], map[]) && invocations == map[] && lastFailed == None
    {
      disk, sequenceByAddress, nextSequence, invocations, lastFailed := map[], map[], map[], map[], None;
    }

    // Reopens a run: the indexes are rebuilt from every persisted meta file.
    constructor Load(files: Disk)
      ensures Valid() && disk == files && LoadedFrom(files, nextSequence) && invocations == map[] && lastFailed == None
    {
      hide LoadedFrom;
      var numbers, next := IndexFiles(files);
      disk, sequenceByAddress, nextSequence, invocations, lastFailed := files, numbers, next, map[], None;
    }

    // The address of a dotted path, interleaving the numbers of the active items.
    method AddressOf(path: Path, stack: ItemStack) returns (address: Address)
      ensures address == AddressFor(path, stack)
    {
      address := [];
      var prefix: Path := [];
      for i := 0 to |path|
        invariant prefix == path[..i] && address == AddressFor(path[..i], stack)
      {
        prefix := prefix + [path[i]];
        assert prefix[..i] == path[..i];
        address := address + [Stage(path[i])];
        var item := ItemOf(stack, prefix);
        if item.Some? { address := address + [Item(item.value)]; }
      }
      assert path[..|path|] == path;
    }

    // The number of an address, given once on its first write.
    method SequenceFor(address: Address) returns (sequence: nat)
      requires Valid()
      modifies this`sequenceByAddress, this`nextSequence
      ensures NodeAt(disk, address).meta.Some? ==>
        sequence == NodeAt(disk, address).meta.value.sequence && nextSequence == old(nextSequence)
      ensures NodeAt(disk, address).meta.None? ==>
        sequence == NextSequence(old(Contents()), Parent(address))
            && nextSequence == old(nextSequence)[Parent(address) := sequence + 1]
      ensures sequenceByAddress == old(sequenceByAddress)[address := sequence]
    {
      if address in sequenceByAddress {
        sequence := sequenceByAddress[address];
        assert sequenceByAddress == sequenceByAddress[address := sequence];
      } else {
        sequence := if Parent(address) in nextSequence then nextSequence[Parent(address)] else 0;
        nextSequence := nextSequence[Parent(address) := sequence + 1];
        sequenceByAddress := sequenceByAddress[address := sequence];
      }
    }

    method WriteMetaFile(address: Address, status: Status, context: Option<LoopContext>)
      requires Valid()
      modifies this`disk, this`sequenceByAddress, this`nextSequence
      ensures Valid() && Contents() == WriteMeta(old(Contents()), address, status, context)
    {
      var sequence := SequenceFor(address);
      var node := NodeAt(disk, address);
      disk := disk[address := node.(meta := Some(Meta(status, AttemptNumber(context), sequence)))];
    }

    method OnStageEnter(path: Path, count: nat, context: Option<LoopContext>, stack: ItemStack)
      requires Valid()
      modifies this
      ensures Valid() && Contents() == WorkflowModel.OnStageEnter(old(Contents()), AddressFor(path, stack), context)
      ensures invocations == old(invocations)[(path, count) := context] && lastFailed == old(lastFailed)
    {
      invocations := invocations[(path, count) := context];
      var address := AddressOf(path, stack);
      WriteMetaFile(address, Running, context);
    }

    // An exit without a matching enter is ignored.
    method OnStageExit(path: Path, count: nat, status: Status, result: Value, stack: ItemStack)
      requires Valid()
      modifies this
      ensures Valid()
      ensures (path, count) !in old(invocations) ==>
        Contents() == old(Contents()) && invocations == old(invocations) && lastFailed == old(lastFailed)
      ensures (path, count) in old(invocations) ==>
        && Contents() == WorkflowModel.OnStageExit(old(Contents()), AddressFor(path, stack), count,
                                                   old(invocations)[(path, count)], status, result)
        && invocations == old(invocations) - {(path, count)}
        && lastFailed == (if status == Failed || status ==
             Halted then Some(AddressFor(path, stack)) else old(lastFailed))
    {
      hide AddressFor, Mirrored;
      if (path, count) !in invocations { return; }
      var context := invocations[(path, count)];
      invocations := invocations - {(path, count)};
      var address := AddressOf(path, stack);
      WriteMetaFile(address, status, context);
      var node := NodeAt(disk, address);
      var written := node.(attempts := node.attempts[AttemptNumber(context) :=
          Attempt(count, context, status, result)]);
      MetaMirrored(disk, sequenceByAddress, address, written);
      disk := disk[address := written];
      if status == Failed || status == Halted { lastFailed := Some(address); }
    }

    method OnLoopItemExit(path: Path, record: ItemRecord, stack: ItemStack)
      requires Valid()
      modifies this`disk
      ensures Valid() && Contents() == WriteItem(old(Contents()), AddressFor(path, stack) + [Item(record.number)],
                                                 record)
    {
      hide Mirrored, AddressFor;
      var loopAddress := AddressOf(path, stack);
      var address := loopAddress + [Item(record.number)];
      var written := NodeAt(disk, address).(item := Some(record));
      MetaMirrored(disk, sequenceByAddress, address, written);
      disk := disk[address := written];
    }

    method ReadItemResult(address: Address, number: nat) returns (record: Option<ItemRecord>)
      ensures record == NodeAt(disk, address + [Item(number)]).item
    {
      record := NodeAt(disk, address + [Item(number)]).item;
    }
  }
}
