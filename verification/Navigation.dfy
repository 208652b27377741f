// The resume cursor after a completed node: its successor in the recorded tree.
module Navigation {
  import opened Options
  import opened Addresses
  import opened WorkflowModel
  import opened Engine
  import opened EngineSteps
  import opened Scoping
  import opened Reconstruction
  import opened ReplayProof
  import opened ReconstructionProof

  // ---------- siblings ----------

  function StageSegments(names: seq<Name>): (s: seq<Segment>)
    ensures |s| == |names| && forall k | 0 <= k < |s| :: s[k] == Stage(names[k])
  {
    seq(|names|, k requires 0 <= k < |names| => Stage(names[k]))
  }

  function ItemSegments(numbers: seq<nat>): (s: seq<Segment>)
    ensures |s| == |numbers| && forall k | 0 <= k < |s| :: s[k] == Item(numbers[k])
  {
    seq(|numbers|, k requires 0 <= k < |numbers| => Item(numbers[k]))
  }

  // Stage directories by sequence number, or item directories by item number.
  ghost function Siblings(disk: Disk, dir: Address, items: bool): seq<Segment>
  {
    if items then ItemSegments(SortedNumbers(ItemNumbers(disk, dir))) else StageSegments(Children(disk, dir))
  }

  function Position(segments: seq<Segment>, x: Segment): (k: nat)
    ensures k <= |segments|
    ensures k < |segments| ==> segments[k] == x
    ensures k == |segments| ==> x !in segments
  {
    if segments == [] || segments[0] == x then 0 else 1 + Position(segments[1..], x)
  }

  // Found an address, nothing left in the whole run, or an address that was never recorded.
  datatype Lookup = Found(address: Address) | NothingLeft | NotRecorded

  ghost function NextAddressAfter(disk: Disk, a: Address): Lookup
  {
    if a == [] then NothingLeft
    else
      var dir, last := a[..|a| - 1], a[|a| - 1];
      var siblings := Siblings(disk, dir, last.Item?);
      var k := Position(siblings, last);
      if k == |siblings| then NotRecorded
      else if k + 1 < |siblings| then Found(dir + [siblings[k + 1]])
      else NextAddressAfter(disk, dir)
  }

  // A halted or failed node is redone in place, anything else goes on with what ran after it.
  ghost function ResolveResumeAddress(disk: Disk, a: Address): Lookup
  {
    if HasStatus(disk, a, Failed) || HasStatus(disk, a, Halted) then Found(a) else NextAddressAfter(disk, a)
  }

  // ---------- depth-first order ----------

  // A node the recorded tree shows: a stage with its meta file, or an item directory.
  ghost predicate Shown(disk: Disk, a: Address)
  {
    a != [] ==> a[|a| - 1] in Siblings(disk, a[..|a| - 1], a[|a| - 1].Item?)
  }

  // Every node on the way to an address is shown.
  ghost predicate Reachable(disk: Disk, a: Address)
  {
    forall i | 0 <= i <= |a| :: Shown(disk, a[..i])
  }

  ghost predicate Earlier(disk: Disk, dir: Address, x: Segment, y: Segment)
  {
    match (x, y)
    case (Item(m), Item(n)) => m < n
    case (Stage(m), Stage(n)) =>
      m in Sequences(disk, dir) && n in Sequences(disk, dir) && Sequences(disk, dir)[m] < Sequences(disk, dir)[n]
    case _ => false
  }

  // x comes after the whole subtree of a, below the common directory dir.
  ghost predicate Beyond(disk: Disk, dir: Address, a: Address, x: Address)
    decreases |a|
  {
    && a != [] && x != []
    && (if a[0] == x[0] then Beyond(disk, dir + [a[0]], a[1..], x[1..]) else Earlier(disk, dir, a[0], x[0]))
  }

  // x is y or comes after it in depth-first order.
  ghost predicate NotBefore(disk: Disk, dir: Address, y: Address, x: Address)
  {
    y <= x || Beyond(disk, dir, y, x)
  }

  // ---------- siblings are listed in order ----------

  lemma {:induction false} AscendingStrict(m: map<Name, nat>, i: nat, j: nat)
    requires forall x, y | x in m && y in m && x != y :: m[x] != m[y]
    requires i < j < |Ascending(m)|
    ensures m[Ascending(m)[i]] < m[Ascending(m)[j]]
    decreases |m|
  {
    var names := Ascending(m);
    var x := names[|names| - 1];
    assert names == Ascending(m - {x}) + [x];
    if j < |names| - 1 {
      AscendingStrict(m - {x}, i, j);
    } else {
      assert names[i] in m - {x};
    }
  }

  lemma {:induction false} NumbersStrict(s: set<nat>, i: nat, j: nat)
    requires i < j < |SortedNumbers(s)|
    ensures SortedNumbers(s)[i] < SortedNumbers(s)[j]
    decreases |s|
  {
    var numbers := SortedNumbers(s);
    var x := numbers[|numbers| - 1];
    assert numbers == SortedNumbers(s - {x}) + [x];
    if j < |numbers| - 1 {
      NumbersStrict(s - {x}, i, j);
    } else {
      assert numbers[i] in s - {x};
    }
  }

  lemma SequencesDistinct(t: Tree, dir: Address)
    requires SequencesOk(t)
    ensures var m := Sequences(t.disk, dir); forall x, y | x in m && y in m && x != y :: m[x] != m[y]
  {
    var m := Sequences(t.disk, dir);
    forall x, y | x in m && y in m && x != y
      ensures m[x] != m[y]
    {
      ChildHasMeta(t.disk, dir, x);
      ChildHasMeta(t.disk, dir, y);
      var a, b := dir + [Stage(x)], dir + [Stage(y)];
      assert Parent(a) == dir == Parent(b) && a[|dir|] != b[|dir|];
    }
  }

  lemma SiblingsInOrder(t: Tree, dir: Address, items: bool, i: nat, j: nat)
    requires SequencesOk(t) && i < j < |Siblings(t.disk, dir, items)|
    ensures Earlier(t.disk, dir, Siblings(t.disk, dir, items)[i], Siblings(t.disk, dir, items)[j])
  {
    if items {
      NumbersStrict(ItemNumbers(t.disk, dir), i, j);
    } else {
      SequencesDistinct(t, dir);
      AscendingStrict(Sequences(t.disk, dir), i, j);
    }
  }

  lemma EarlierKind(disk: Disk, dir: Address, x: Segment, y: Segment)
    requires Earlier(disk, dir, x, y)
    ensures x.Item? <==> y.Item?
    ensures !Earlier(disk, dir, y, x) && x != y
  {
  }

  // A later sibling stands further down the listing.
  lemma LaterSibling(t: Tree, dir: Address, items: bool, k: nat, y: Segment)
    requires SequencesOk(t) && k < |Siblings(t.disk, dir, items)|
    requires y in Siblings(t.disk, dir, items) && Earlier(t.disk, dir, Siblings(t.disk, dir, items)[k], y)
    ensures k + 1 < |Siblings(t.disk, dir, items)|
    ensures var next := Siblings(t.disk, dir, items)[k + 1]; next == y || Earlier(t.disk, dir, next, y)
  {
    var s := Siblings(t.disk, dir, items);
    var j :| 0 <= j < |s| && s[j] == y;
    EarlierKind(t.disk, dir, s[k], y);
    if j < k {
      SiblingsInOrder(t, dir, items, j, k);
      assert false;
    }
    assert j != k;
    if j > k + 1 { SiblingsInOrder(t, dir, items, k + 1, j); }
  }

  // ---------- the successor ----------

  lemma {:induction false} BeyondSame(disk: Disk, dir: Address, p: Address, a: Address, x: Address)
    ensures Beyond(disk, dir, p + a, p + x) == Beyond(disk, dir + p, a, x)
    decreases |p|
  {
    if p == [] {
      assert dir + p == dir && p + a == a && p + x == x;
    } else {
      assert (p + a)[1..] == p[1..] + a && (p + x)[1..] == p[1..] + x;
      BeyondSame(disk, dir + [p[0]], p[1..], a, x);
      assert dir + [p[0]] + p[1..] == dir + p;
    }
  }

  lemma PrefixTail(p: Address, x: Address)
    requires p != [] && x != [] && p[0] == x[0]
    ensures p <= x <==> p[1..] <= x[1..]
  {
    assert p == [p[0]] + p[1..] && x == [x[0]] + x[1..];
  }

  // What lies beyond an address inside a directory and leaves the directory lies beyond the directory.
  lemma {:induction false} BeyondOut(disk: Disk, dir: Address, p: Address, a: Address, x: Address)
    requires !(p <= x)
    ensures Beyond(disk, dir, p + a, x) == Beyond(disk, dir, p, x)
    decreases |p|
  {
    assert p != [];
    if x != [] && p[0] == x[0] {
      PrefixTail(p, x);
      assert (p + a)[1..] == p[1..] + a;
      BeyondOut(disk, dir + [p[0]], p[1..], a, x[1..]);
    }
  }

  lemma ShownChild(disk: Disk, dir: Address, x: Address)
    requires Reachable(disk, x) && dir <= x && x != dir
    ensures x[|dir|] in Siblings(disk, dir, x[|dir|].Item?)
  {
    var b := x[..|dir| + 1];
    assert Shown(disk, b);
    assert b[..|b| - 1] == dir;
  }

  lemma ReachableUp(disk: Disk, a: Address)
    requires Reachable(disk, a) && a != []
    ensures Reachable(disk, a[..|a| - 1])
  {
    var b := a[..|a| - 1];
    forall i | 0 <= i <= |b|
      ensures Shown(disk, b[..i])
    {
      assert b[..i] == a[..i];
    }
  }

  // Inside the directory of a, what lies beyond a is what comes after its last segment.
  lemma BeyondInside(disk: Disk, a: Address, x: Address)
    requires a != [] && a[..|a| - 1] <= x
    ensures var dir := a[..|a| - 1];
      Beyond(disk, [], a, x) <==> x != dir && Earlier(disk, dir, a[|a| - 1], x[|dir|]) && a[|a| - 1] != x[|dir|]
  {
    var dir, last := a[..|a| - 1], a[|a| - 1];
    assert a == dir + [last] && x == dir + x[|dir|..];
    BeyondSame(disk, [], dir, [last], x[|dir|..]);
    assert [] + dir == dir;
    if x != dir && last == x[|dir|] {
      assert [last][1..] == [];
      assert !Beyond(disk, dir + [last], [], x[|dir|..][1..]);
    }
  }

  lemma NextUnfold(disk: Disk, dir: Address, last: Segment)
    ensures var siblings := Siblings(disk, dir, last.Item?);
      var k := Position(siblings, last);
      NextAddressAfter(disk, dir + [last]) ==
        if k == |siblings| then NotRecorded
        else if k + 1 < |siblings| then Found(dir + [siblings[k + 1]])
        else NextAddressAfter(disk, dir)
  {
    assert (dir + [last])[..|dir|] == dir;
  }

  // A node in the same directory, or below one of its nodes, beyond the last segment.
  lemma LeastInside(t: Tree, dir: Address, last: Segment, x: Address)
    requires SequencesOk(t) && Reachable(t.disk, x) && dir <= x && Beyond(t.disk, [], dir + [last], x)
    requires last in Siblings(t.disk, dir, last.Item?)
    ensures var found := NextAddressAfter(t.disk, dir + [last]);
      found.Found? && NotBefore(t.disk, [], found.address, x)
  {
    hide NextAddressAfter, Siblings, SequencesOk, Reachable, Beyond;
    var siblings := Siblings(t.disk, dir, last.Item?);
    var k := Position(siblings, last);
    var a := dir + [last];
    assert a[..|a| - 1] == dir;
    BeyondInside(t.disk, a, x);
    var y := x[|dir|];
    EarlierKind(t.disk, dir, last, y);
    ShownChild(t.disk, dir, x);
    LaterSibling(t, dir, last.Item?, k, y);
    NextUnfold(t.disk, dir, last);
    var b := dir + [siblings[k + 1]];
    assert b[..|b| - 1] == dir;
    if siblings[k + 1] == y {
      assert b <= x;
    } else {
      EarlierKind(t.disk, dir, siblings[k + 1], y);
      BeyondInside(t.disk, b, x);
    }
  }

  // The successor: of the nodes shown beyond the whole subtree of a, next_address_after finds the
  // first in depth-first order.
  lemma {:induction false} SuccessorIsLeast(t: Tree, a: Address, x: Address)
    requires SequencesOk(t) && Reachable(t.disk, a) && Reachable(t.disk, x)
    ensures !NextAddressAfter(t.disk, a).NotRecorded?
    ensures Beyond(t.disk, [], a, x) ==>
      NextAddressAfter(t.disk, a).Found? && NotBefore(t.disk, [], NextAddressAfter(t.disk, a).address, x)
    decreases |a|
  {
    hide SequencesOk, Siblings, Sequences;
    if a != [] {
      var dir, last := a[..|a| - 1], a[|a| - 1];
      assert a == dir + [last];
      var siblings := Siblings(t.disk, dir, last.Item?);
      var k := Position(siblings, last);
      assert Shown(t.disk, a[..|a|]) && a[..|a|] == a;
      ReachableUp(t.disk, a);
      SuccessorIsLeast(t, dir, x);
      NextUnfold(t.disk, dir, last);
      hide NextAddressAfter, Reachable;
      if Beyond(t.disk, [], a, x) {
        if dir <= x {
          LeastInside(t, dir, last, x);
        } else {
          BeyondOut(t.disk, [], dir, [last], x);
          if k + 1 < |siblings| {
            BeyondOut(t.disk, [], dir, [siblings[k + 1]], x);
          }
        }
      }
    }
  }

  lemma {:induction false} BeyondShorter(disk: Disk, dir: Address, p: Address, a: Address, x: Address)
    requires Beyond(disk, dir, p, x)
    ensures Beyond(disk, dir, p + a, x)
    decreases |p|
  {
    if p[0] == x[0] {
      assert (p + a)[1..] == p[1..] + a;
      BeyondShorter(disk, dir + [p[0]], p[1..], a, x[1..]);
    }
  }

  lemma SiblingReachable(disk: Disk, dir: Address, s: Segment)
    requires Reachable(disk, dir) && s in Siblings(disk, dir, s.Item?)
    ensures Reachable(disk, dir + [s])
  {
    hide Siblings;
    var b := dir + [s];
    forall i | 0 <= i <= |b|
      ensures Shown(disk, b[..i])
    {
      if i <= |dir| { assert b[..i] == dir[..i]; } else { assert b[..i] == b && b[..|b| - 1] == dir; }
    }
  }

  // And what it finds is itself a shown node beyond the subtree.
  lemma {:induction false} SuccessorIsBeyond(t: Tree, a: Address)
    requires SequencesOk(t) && Reachable(t.disk, a) && NextAddressAfter(t.disk, a).Found?
    ensures Reachable(t.disk, NextAddressAfter(t.disk, a).address)
      && Beyond(t.disk, [], a, NextAddressAfter(t.disk, a).address)
    decreases |a|
  {
    hide SequencesOk, Siblings, Sequences;
    var dir, last := a[..|a| - 1], a[|a| - 1];
    assert a == dir + [last];
    var siblings := Siblings(t.disk, dir, last.Item?);
    var k := Position(siblings, last);
    ReachableUp(t.disk, a);
    NextUnfold(t.disk, dir, last);
    hide NextAddressAfter, Reachable, Beyond;
    if k + 1 < |siblings| {
      SiblingsInOrder(t, dir, last.Item?, k, k + 1);
      EarlierKind(t.disk, dir, siblings[k], siblings[k + 1]);
      BeyondInside(t.disk, a, dir + [siblings[k + 1]]);
      SiblingReachable(t.disk, dir, siblings[k + 1]);
    } else {
      SuccessorIsBeyond(t, dir);
      BeyondShorter(t.disk, [], dir, [last], NextAddressAfter(t.disk, dir).address);
    }
  }

  // Nothing is left exactly when no shown node lies beyond the subtree.
  lemma NothingLeftAtTheEnd(t: Tree, a: Address)
    requires SequencesOk(t) && Reachable(t.disk, a)
    ensures NextAddressAfter(t.disk, a).NothingLeft? <==>
        !exists x: Address :: Reachable(t.disk, x) && Beyond(t.disk, [], a, x)
  {
    hide SequencesOk, Reachable, Beyond, NextAddressAfter;
    SuccessorIsLeast(t, a, a);
    if NextAddressAfter(t.disk, a).Found? { SuccessorIsBeyond(t, a); }
    forall x: Address | Reachable(t.disk, x) && Beyond(t.disk, [], a, x)
      ensures NextAddressAfter(t.disk, a).Found?
    {
      SuccessorIsLeast(t, a, x);
    }
  }

  // Where a recorded node resumes: in place when it failed or was stopped, else at what ran next;
  // nowhere exactly when it is neither and nothing recorded lies beyond its subtree.
  lemma ResumePoint(t: Tree, a: Address)
    requires SequencesOk(t) && Reachable(t.disk, a)
    ensures var point := ResolveResumeAddress(t.disk, a);
      var redone := HasStatus(t.disk, a, Failed) || HasStatus(t.disk, a, Halted);
      && !point.NotRecorded?
      && (point.Found? ==>
           Reachable(t.disk, point.address) && if redone then point.address ==
               a else Beyond(t.disk, [], a, point.address))
      && (point.NothingLeft? <==> !redone && !exists x: Address :: Reachable(t.disk, x) && Beyond(t.disk, [], a, x))
  {
    hide SequencesOk, Reachable, Beyond, NextAddressAfter, HasStatus;
    SuccessorIsLeast(t, a, a);
    NothingLeftAtTheEnd(t, a);
    if NextAddressAfter(t.disk, a).Found? { SuccessorIsBeyond(t, a); }
  }

  // ---------- moving the cursor ----------

  // The stage definitions of the directory a path of loop items leads to.
  function StagesAt(stages: seq<StageDef>, dir: Address): seq<StageDef>
    decreases |dir|
  {
    if |dir| < 2 || !dir[0].Stage? then stages
    else
      var k := IndexOf(stages, dir[0].name);
      if k < |stages| && stages[k].Loop? then StagesAt(stages[k].inner, dir[2..]) else []
  }

  // A path through recorded items of defined loops.
  ghost predicate Leads(disk: Disk, base: Address, stages: seq<StageDef>, dir: Address)
    decreases |dir|
  {
    dir == [] ||
    (&& |dir| >= 2 && dir[0].Stage? && dir[1].Item?
     && dir[0].name in Children(disk, base)
     && dir[1].number in ItemNumbers(disk, base + [dir[0]])
     && IndexOf(stages, dir[0].name) < |stages| && stages[IndexOf(stages, dir[0].name)].Loop?
     && Leads(disk, base + [dir[0]] + [dir[1]], stages[IndexOf(stages, dir[0].name)].inner, dir[2..]))
  }

  lemma {:induction false} WalkTo(disk: Disk, dir: Address, stages: seq<StageDef>, names: seq<Name>, k: nat,
                                  cursor: Address, slots: Slots)
    requires k < |names| && cursor != [] && cursor[0] == Stage(names[k])
    requires forall i | 0 <= i < k :: names[i] != names[k]
    ensures WalkChildren(disk, dir, stages, names, cursor, slots) ==
      WalkChildren(disk, dir, stages, names[k..], cursor, ReplayAll(disk, dir, stages, names[..k], slots))
  {
    assert names == names[..k] + names[k..];
    WalkPrefix(disk, dir, stages, names[..k], names[k..], cursor, slots);
  }

  lemma ChildrenUnique(t: Tree, dir: Address, i: nat, j: nat)
    requires SequencesOk(t) && i < j < |Children(t.disk, dir)|
    ensures Children(t.disk, dir)[i] != Children(t.disk, dir)[j]
  {
    SequencesDistinct(t, dir);
    AscendingStrict(Sequences(t.disk, dir), i, j);
  }

  // Moving the cursor from a stage to its next sibling, at any depth, changes the rebuilt slots by
  // exactly that stage's own write.
  lemma {:induction false} CursorMoves(t: Tree, base: Address, stages: seq<StageDef>, dir: Address, k: nat,
                                       slots: Slots)
    requires SequencesOk(t) && Leads(t.disk, base, stages, dir) && k + 1 < |Children(t.disk, base + dir)|
    ensures var names := Children(t.disk, base + dir);
      WalkStages(t.disk, base, stages, dir + [Stage(names[k + 1])], slots) ==
      ReplayNamed(t.disk, base + dir, StagesAt(stages, dir), names[k],
                  WalkStages(t.disk, base, stages, dir + [Stage(names[k])], slots))
    decreases |dir|
  {
    hide SequencesOk, Sequences, ReplayNamed;
    if dir == [] {
      assert base + dir == base;
      CursorMovesHere(t, base, stages, k, slots);
      assert dir + [Stage(Children(t.disk, base)[k])] == [Stage(Children(t.disk, base)[k])];
      assert dir + [Stage(Children(t.disk, base)[k + 1])] == [Stage(Children(t.disk, base)[k + 1])];
    } else {
      var names := Children(t.disk, base + dir);
      var here := base + [dir[0]] + [dir[1]];
      assert here + dir[2..] == base + dir;
      var loop := stages[IndexOf(stages, dir[0].name)];
      DescendWalk(t, base, stages, dir + [Stage(names[k])], slots);
      DescendWalk(t, base, stages, dir + [Stage(names[k + 1])], slots);
      assert (dir + [Stage(names[k])])[2..] == dir[2..] + [Stage(names[k])];
      assert (dir + [Stage(names[k + 1])])[2..] == dir[2..] + [Stage(names[k + 1])];
      CursorMoves(t, here, loop.inner, dir[2..], k, ItemSlotsAt(t.disk, base, stages, dir[..2], slots));
      assert (dir + [Stage(names[k])])[..2] == dir[..2] == (dir + [Stage(names[k + 1])])[..2];
    }
  }

  // The slots an item's own walk starts from.
  ghost function ItemSlotsAt(disk: Disk, base: Address, stages: seq<StageDef>, dir: Address, slots: Slots): Slots
  {
    if |dir| < 2 || !dir[0].Stage? || dir[0].name !in Children(disk, base) || IndexOf(stages, dir[0].name) ==
        |stages| then slots
    else
      var names := Children(disk, base);
      var before := ReplayAll(disk, base, stages, names[..NamePosition(names, dir[0].name)], slots);
      var record := NodeAt(disk, base + [dir[0]] + [dir[1]]).item;
      var loop := stages[IndexOf(stages, dir[0].name)];
      if loop.Loop? && record.Some? && record.value.result.Entry? then before[loop.itemVar :=
          record.value.result.input] else before
  }

  function NamePosition(names: seq<Name>, name: Name): (k: nat)
    requires name in names
    ensures k < |names| && names[k] == name && forall i | 0 <= i < k :: names[i] != name
  {
    if names[0] == name then 0 else 1 + NamePosition(names[1..], name)
  }

  lemma DescendWalk(t: Tree, base: Address, stages: seq<StageDef>, cursor: Address, slots: Slots)
    requires |cursor| > 2 && cursor[0].Stage? && cursor[1].Item? && cursor[0].name in Children(t.disk, base)
    requires cursor[1].number in ItemNumbers(t.disk, base + [cursor[0]])
    requires IndexOf(stages, cursor[0].name) < |stages| && stages[IndexOf(stages, cursor[0].name)].Loop?
    ensures WalkStages(t.disk, base, stages, cursor, slots) ==
      WalkStages(t.disk, base + [cursor[0]] + [cursor[1]], stages[IndexOf(stages, cursor[0].name)].inner, cursor[2..],
                 ItemSlotsAt(t.disk, base, stages, cursor[..2], slots))
  {
    hide Children, ItemNumbers, ReplayAll;
    var names := Children(t.disk, base);
    var k := NamePosition(names, cursor[0].name);
    WalkTo(t.disk, base, stages, names, k, cursor, slots);
    assert names[k..][0] == cursor[0].name;
    assert cursor[1..][1..] == cursor[2..] && cursor[1..][0] == cursor[1];
    assert cursor[..2][0] == cursor[0] && cursor[..2][1] == cursor[1];
  }

  lemma CursorMovesHere(t: Tree, base: Address, stages: seq<StageDef>, k: nat, slots: Slots)
    requires SequencesOk(t) && k + 1 < |Children(t.disk, base)|
    ensures var names := Children(t.disk, base);
      WalkStages(t.disk, base, stages, [Stage(names[k + 1])], slots) ==
      ReplayNamed(t.disk, base, stages, names[k], WalkStages(t.disk, base, stages, [Stage(names[k])], slots))
  {
    hide SequencesOk, Sequences, ReplayNamed;
    var names := Children(t.disk, base);
    forall i, j | 0 <= i < j < |names|
      ensures names[i] != names[j]
    {
      ChildrenUnique(t, base, i, j);
    }
    hide Children;
    WalkTo(t.disk, base, stages, names, k, [Stage(names[k])], slots);
    WalkTo(t.disk, base, stages, names, k + 1, [Stage(names[k + 1])], slots);
    assert names[..k + 1][..k] == names[..k];
    assert names[k..][0] == names[k] && names[k + 1..][0] == names[k + 1];
  }
}
