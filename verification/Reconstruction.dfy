// Rebuilding the slots of a persisted run from its recorded tree, up to a resume cursor.
module Reconstruction {
  import opened Options
  import opened Addresses
  import opened WorkflowModel
  import opened Engine
  import opened EngineSteps

  // ---------- directory listings ----------

  // The stage directories directly below a directory that hold a meta.json.
  function ChildNames(disk: Disk, dir: Address): set<Name>
  {
    set a: Address | a in disk && |a| == |dir| + 1 && dir <= a && a[|dir|].Stage? && disk[a].meta.Some? :: a[|dir|].name
  }

  lemma ChildHasMeta(disk: Disk, dir: Address, name: Name)
    ensures name in ChildNames(disk, dir) <==> NodeAt(disk, dir + [Stage(name)]).meta.Some?
  {
    var here := dir + [Stage(name)];
    assert here[|dir|] == Stage(name) && dir <= here;
    if name in ChildNames(disk, dir) {
      var a: Address :| a in disk && |a| == |dir| + 1 && dir <= a && a[|dir|].Stage? && disk[a].meta.Some?
          && a[|dir|].name == name;
      assert a == here;
    }
  }

  function Sequences(disk: Disk, dir: Address): map<Name, nat>
  {
    map n | n in ChildNames(disk, dir) && NodeAt(disk, dir + [Stage(n)]).meta.Some? ::
      NodeAt(disk, dir + [Stage(n)]).meta.value.sequence
  }

  predicate IsLast(m: map<Name, nat>, x: Name)
  {
    x in m && forall y | y in m :: m[y] <= m[x]
  }

  lemma {:induction false} SomeLast(m: map<Name, nat>)
    requires m != map[]
    ensures exists x :: IsLast(m, x)
    decreases |m|
  {
    var x :| x in m;
    var rest := m - {x};
    if rest == map[] {
      assert m == map[x := m[x]];
      assert IsLast(m, x);
    } else {
      SomeLast(rest);
      var z :| IsLast(rest, z);
      assert forall y | y in m :: y == x || (y in rest && rest[y] == m[y]);
      assert IsLast(m, if m[x] <= m[z] then z else x);
    }
  }

  // The keys in ascending order of their numbers.
  ghost function Ascending(m: map<Name, nat>): (names: seq<Name>)
    ensures forall n :: n in names <==> n in m
    decreases |m|
  {
    if m == map[] then []
    else
      SomeLast(m);
      var x :| IsLast(m, x);
      Ascending(m - {x}) + [x]
  }

  lemma {:induction false} AscendingSorted(m: map<Name, nat>)
    ensures forall i, j | 0 <= i < j < |Ascending(m)| :: m[Ascending(m)[i]] <= m[Ascending(m)[j]]
    ensures |Ascending(m)| == |m|
    decreases |m|
  {
    if m != map[] {
      var names := Ascending(m);
      var x := names[|names| - 1];
      AscendingSorted(m - {x});
      assert names == Ascending(m - {x}) + [x];
    }
  }

  lemma AscendingAppend(m: map<Name, nat>, x: Name, v: nat)
    requires x !in m && forall y | y in m :: m[y] < v
    ensures Ascending(m[x := v]) == Ascending(m) + [x]
  {
    var m' := m[x := v];
    assert x in m';
    assert m' - {x} == m;
  }

  // The stage directories of a directory in the order of their sequence numbers.
  ghost function Children(disk: Disk, dir: Address): seq<Name>
  {
    Ascending(Sequences(disk, dir))
  }

  function ItemNumbers(disk: Disk, at: Address): set<nat>
  {
    set a: Address | a in disk && |a| > |at| && at <= a && a[|at|].Item? :: a[|at|].number
  }

  lemma {:induction false} SomeGreatest(s: set<nat>)
    requires s != {}
    ensures exists x :: x in s && forall y | y in s :: y <= x
    decreases |s|
  {
    var x :| x in s;
    var rest := s - {x};
    if rest == {} {
      assert s == {x};
    } else {
      SomeGreatest(rest);
      var z :| z in rest && forall y | y in rest :: y <= z;
      var greatest := if x <= z then z else x;
      assert greatest in s;
      forall y | y in s
        ensures y <= greatest
      {
        if y != x { assert y in rest; }
      }
    }
  }

  ghost function SortedNumbers(s: set<nat>): (numbers: seq<nat>)
    ensures forall n :: n in numbers <==> n in s
    decreases |s|
  {
    if s == {} then []
    else
      SomeGreatest(s);
      var x :| x in s && forall y | y in s :: y <= x;
      SortedNumbers(s - {x}) + [x]
  }

  lemma GreatestLast(s: set<nat>, x: nat)
    requires x in s && forall y | y in s :: y <= x
    ensures SortedNumbers(s) == SortedNumbers(s - {x}) + [x]
  {
    assert forall z | z in s && (forall y | y in s :: y <= z) :: z == x;
  }

  // ---------- replaying ----------

  function StageNamed(stages: seq<StageDef>, name: Name): Option<StageDef>
  {
    var k := IndexOf(stages, name);
    if k < |stages| then Some(stages[k]) else None
  }

  // The persisted results of the given items, in order; items without a record are left out.
  function ItemEntries(disk: Disk, at: Address, numbers: seq<nat>): seq<Value>
  {
    if numbers == [] then []
    else
      var last := numbers[|numbers| - 1];
      var earlier := ItemEntries(disk, at, numbers[..|numbers| - 1]);
      var record := NodeAt(disk, at + [Item(last)]).item;
      if record.Some? then earlier + [record.value.result] else earlier
  }

  // The slot write of one completed stage.
  ghost function ReplayStage(disk: Disk, at: Address, stage: StageDef, slots: Slots): Slots
  {
    match stage
    case Branch(_, _, _, _) => slots
    case Loop(_, _, over, _, _, _, _, _, _, output, _, _) =>
      if over.Some? then Write(slots, output,
                               Aggregate(ItemEntries(disk, at, SortedNumbers(ItemNumbers(disk, at))))) else slots
    case Work(_, _, _, output, _) =>
      var node := NodeAt(disk, at);
      if node.meta.Some? && node.meta.value.attemptCount in node.attempts
      then Write(slots, output, node.attempts[node.meta.value.attemptCount].result)
      else slots
    case Nested(name, _, _, _, _, _) =>
      var node := NodeAt(disk, at);
      if node.meta.Some? && node.meta.value.attemptCount in node.attempts
      then slots[name := node.attempts[node.meta.value.attemptCount].result]
      else slots
  }

  ghost function ReplayNamed(disk: Disk, dir: Address, stages: seq<StageDef>, name: Name, slots: Slots): Slots
  {
    var stage := StageNamed(stages, name);
    if stage.Some? then ReplayStage(disk, dir + [Stage(name)], stage.value, slots) else slots
  }

  // Walks the recorded stages of one directory in sequence order, up to the cursor.
  ghost function WalkStages(disk: Disk, dir: Address, stages: seq<StageDef>, cursor: Address, slots: Slots): Slots
    decreases |cursor|, 2, 0
  {
    WalkChildren(disk, dir, stages, Children(disk, dir), cursor, slots)
  }

  ghost function WalkChildren(disk: Disk, dir: Address, stages: seq<StageDef>, names: seq<Name>, cursor: Address,
                              slots: Slots): Slots
    decreases |cursor|, 1, |names|
  {
    if names == [] then slots
    else if cursor != [] && cursor[0] == Stage(names[0]) then
      var stage := StageNamed(stages, names[0]);
      if |cursor| > 1 && stage.Some? && stage.value.Loop?
      then WalkItems(disk, dir + [cursor[0]], stage.value, cursor[1..], slots)
      else slots
    else WalkChildren(disk, dir, stages, names[1..], cursor, ReplayNamed(disk, dir, stages, names[0], slots))
  }

  // The cursor lies in a loop: nothing of the loop itself is written, only the item variable and
  // the inner stages before the cursor when it points inside an item.
  ghost function WalkItems(disk: Disk, at: Address, stage: StageDef, cursor: Address, slots: Slots): Slots
    requires stage.Loop? && cursor != []
    decreases |cursor|, 0, 0
  {
    if cursor[0].Item? && |cursor| > 1 && cursor[0].number in ItemNumbers(disk, at) then
      var record := NodeAt(disk, at + [cursor[0]]).item;
      var slots1 := if record.Some? && record.value.result.Entry? then slots[stage.itemVar :=
          record.value.result.input] else slots;
      WalkStages(disk, at + [cursor[0]], stage.inner, cursor[1..], slots1)
    else slots
  }

  const USER_MESSAGE := "user_message"

  ghost function ReconstructSlots(disk: Disk, stages: seq<StageDef>, message: Value, cursor: Address): Slots
  {
    WalkStages(disk, [], stages, cursor, map[USER_MESSAGE := message])
  }

  // ---------- only the directory itself matters ----------

  ghost predicate SameUnder(d: Disk, d': Disk, zone: Address)
  {
    forall a: Address :: zone <= a ==> SameAt(d, d', a)
  }

  lemma SameUnderTrans(d0: Disk, d1: Disk, d2: Disk, zone: Address)
    requires SameUnder(d0, d1, zone) && SameUnder(d1, d2, zone)
    ensures SameUnder(d0, d2, zone)
  {
    forall a: Address | zone <= a
      ensures SameAt(d0, d2, a)
    {
      assert SameAt(d0, d1, a) && SameAt(d1, d2, a);
    }
  }

  lemma {:induction false} EntriesLocal(d: Disk, d': Disk, at: Address, numbers: seq<nat>)
    requires SameUnder(d, d', at)
    ensures ItemEntries(d, at, numbers) == ItemEntries(d', at, numbers)
  {
    if numbers != [] {
      EntriesLocal(d, d', at, numbers[..|numbers| - 1]);
      assert SameAt(d, d', at + [Item(numbers[|numbers| - 1])]);
    }
  }

  lemma ReplayLocal(d: Disk, d': Disk, at: Address, stage: StageDef, slots: Slots)
    requires SameUnder(d, d', at)
    ensures ReplayStage(d, at, stage, slots) == ReplayStage(d', at, stage, slots)
  {
    assert SameAt(d, d', at);
    if stage.Loop? {
      assert ItemNumbers(d, at) == ItemNumbers(d', at) by {
        assert forall a | a in d && at <= a :: SameAt(d, d', a);
        assert forall a | a in d' && at <= a :: SameAt(d, d', a);
      }
      EntriesLocal(d, d', at, SortedNumbers(ItemNumbers(d, at)));
    }
  }
}
