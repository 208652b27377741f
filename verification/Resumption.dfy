// The directory listings and the walk that rebuilds the slots of a run, step by step.
module Resumption {
  import opened Options
  import opened Addresses
  import opened WorkflowModel
  import opened Engine
  import opened EngineSteps
  import opened Reconstruction
  import opened Navigation

  lemma ListedStep(all: seq<Name>, m: map<Name, nat>, x: Name, names: seq<Name>)
    requires IsLast(m, x) && forall y, z | y in m && z in m && y != z :: m[y] != m[z]
    requires all == Ascending(m) + names
    ensures all == Ascending(m - {x}) + ([x] + names)
  {
    assert forall y | IsLast(m, y) :: y == x;
    assert Ascending(m) == Ascending(m - {x}) + [x];
  }

  lemma LastListed(m: map<Name, nat>)
    requires m != map[]
    ensures exists x :: x in m && IsLast(m, x)
  {
    SomeLast(m);
    var x :| IsLast(m, x);
    assert x in m && IsLast(m, x);
  }

  // Distinct keys sorted by their numbers.
  method SortBySequence(numbers: map<Name, nat>) returns (names: seq<Name>)
    requires forall x, y | x in numbers && y in numbers && x != y :: numbers[x] != numbers[y]
    ensures names == Ascending(numbers)
    ensures |names| == |numbers| && forall n :: n in names <==> n in numbers
    ensures forall i, j | 0 <= i < j < |names| :: numbers[names[i]] <= numbers[names[j]]
  {
    var todo := numbers;
    names := [];
    assert Ascending(todo) + names == Ascending(todo);
    while todo != map[]
      invariant forall x | x in todo :: x in numbers && todo[x] == numbers[x]
      invariant Ascending(numbers) == Ascending(todo) + names
      decreases todo.Keys
    {
      hide Ascending, IsLast;
      LastListed(todo);
      var x :| x in todo && IsLast(todo, x);
      ListedStep(Ascending(numbers), todo, x, names);
      names, todo := [x] + names, todo - {x};
    }
    SortedListing(numbers);
  }

  lemma SortedListing(m: map<Name, nat>)
    ensures var names := Ascending(m);
      && |names| == |m| && (forall n :: n in names <==> n in m)
      && forall i, j | 0 <= i < j < |names| :: m[names[i]] <= m[names[j]]
  {
    AscendingSorted(m);
  }

  // The stage directories of a directory, sorted by their sequence numbers.
  method ListStages(disk: Disk, dir: Address, ghost next: map<Address, nat>) returns (names: seq<Name>)
    requires SequencesOk(Tree(disk, next))
    ensures names == Children(disk, dir)
  {
    SequencesDistinct(Tree(disk, next), dir);
    hide SequencesOk, Sequences, Ascending;
    names := SortBySequence(Sequences(disk, dir));
  }

  lemma NumberedStep(all: seq<nat>, s: set<nat>, x: nat, numbers: seq<nat>)
    requires x in s && (forall y | y in s :: y <= x) && all == SortedNumbers(s) + numbers
    ensures all == SortedNumbers(s - {x}) + ([x] + numbers)
  {
    hide SortedNumbers;
    GreatestLast(s, x);
  }

  method ListItemNumbers(disk: Disk, at: Address) returns (numbers: seq<nat>)
    ensures numbers == SortedNumbers(ItemNumbers(disk, at))
  {
    var todo := ItemNumbers(disk, at);
    numbers := [];
    assert SortedNumbers(todo) + numbers == SortedNumbers(todo);
    while todo != {}
      invariant SortedNumbers(ItemNumbers(disk, at)) == SortedNumbers(todo) + numbers
      decreases todo
    {
      hide SortedNumbers, ItemNumbers;
      SomeGreatest(todo);
      var x :| x in todo && forall y | y in todo :: y <= x;
      NumberedStep(SortedNumbers(ItemNumbers(disk, at)), todo, x, numbers);
      numbers, todo := [x] + numbers, todo - {x};
    }
  }

  // The slot write of one completed stage.
  method ReplayCompleted(disk: Disk, at: Address, stage: StageDef, slots: Slots) returns (rebuilt: Slots)
    ensures rebuilt == ReplayStage(disk, at, stage, slots)
  {
    rebuilt := slots;
    if stage.Work? {
      var node := NodeAt(disk, at);
      if node.meta.Some? && node.meta.value.attemptCount in node.attempts && stage.output.Some? {
        rebuilt := rebuilt[stage.output.value := node.attempts[node.meta.value.attemptCount].result];
      }
    } else if stage.Nested? {
      var node := NodeAt(disk, at);
      if node.meta.Some? && node.meta.value.attemptCount in node.attempts {
        rebuilt := rebuilt[stage.name := node.attempts[node.meta.value.attemptCount].result];
      }
    } else if stage.Loop? {
      rebuilt := ReplayLoop(disk, at, stage, slots);
    }
  }

  method ReplayLoop(disk: Disk, at: Address, stage: StageDef, slots: Slots) returns (rebuilt: Slots)
    requires stage.Loop?
    ensures rebuilt == ReplayStage(disk, at, stage, slots)
  {
    var numbers := ListItemNumbers(disk, at);
    var aggregated := [];
    for i := 0 to |numbers|
      invariant aggregated == ItemEntries(disk, at, numbers[..i])
    {
      var record := NodeAt(disk, at + [Item(numbers[i])]).item;
      assert numbers[..i + 1][..i] == numbers[..i];
      if record.Some? { aggregated := aggregated + [record.value.result]; }
    }
    assert numbers[..|numbers|] == numbers;
    rebuilt := slots;
    if stage.output.Some? && stage.over.Some? { rebuilt := rebuilt[stage.output.value := Aggregate(aggregated)]; }
  }

  // Replays every recorded stage before the cursor, and descends into the item the cursor names.
  method RebuildStages(disk: Disk, dir: Address, stages: seq<StageDef>, cursor: Address, slots: Slots,
                       ghost next: map<Address, nat>) returns (rebuilt: Slots)
    requires SequencesOk(Tree(disk, next))
    ensures rebuilt == WalkStages(disk, dir, stages, cursor, slots)
    decreases |cursor|, 1
  {
    hide SequencesOk, Children, ReplayStage;
    rebuilt := slots;
    var names := ListStages(disk, dir, next);
    var i := 0;
    while i < |names|
      invariant i <= |names|
      invariant WalkChildren(disk, dir, stages, names[i..], cursor, rebuilt) ==
          WalkChildren(disk, dir, stages, names, cursor, slots)
    {
      var stage := StageNamed(stages, names[i]);
      assert names[i..][0] == names[i] && names[i..][1..] == names[i + 1..];
      if cursor != [] && cursor[0] == Stage(names[i]) {
        if |cursor| > 1 && stage.Some? && stage.value.Loop? {
          rebuilt := RebuildItems(disk, dir + [cursor[0]], stage.value, cursor[1..], rebuilt, next);
        }
        return;
      }
      if stage.Some? { rebuilt := ReplayCompleted(disk, dir + [Stage(names[i])], stage.value, rebuilt); }
      i := i + 1;
    }
  }

  // Inside the loop the cursor points into: the items before the named one write nothing.
  method RebuildItems(disk: Disk, at: Address, stage: StageDef, cursor: Address, slots: Slots,
                      ghost next: map<Address, nat>) returns (rebuilt: Slots)
    requires SequencesOk(Tree(disk, next)) && stage.Loop? && cursor != []
    ensures rebuilt == WalkItems(disk, at, stage, cursor, slots)
    decreases |cursor|, 0
  {
    hide SequencesOk, WalkStages, ItemNumbers;
    rebuilt := slots;
    if cursor[0].Stage? { return; }
    var numbers := ListItemNumbers(disk, at);
    var i := 0;
    while i < |numbers|
      invariant i <= |numbers| && rebuilt == slots
      invariant forall j | 0 <= j < i :: numbers[j] < cursor[0].number
    {
      if numbers[i] == cursor[0].number {
        if |cursor| > 1 {
          var record := NodeAt(disk, at + [Item(numbers[i])]).item;
          if record.Some? && record.value.result.Entry? { rebuilt :=
              rebuilt[stage.itemVar := record.value.result.input]; }
          rebuilt := RebuildStages(disk, at + [Item(numbers[i])], stage.inner, cursor[1..], rebuilt, next);
        }
        return;
      }
      if numbers[i] > cursor[0].number {
        forall j | i <= j < |numbers|
          ensures numbers[j] > cursor[0].number
        {
          if i < j { NumbersStrict(ItemNumbers(disk, at), i, j); }
        }
        assert cursor[0].number !in numbers;
        return;
      }
      i := i + 1;
    }
    assert cursor[0].number !in numbers;
  }
}
