// The conversation router and the working-memory synthesis over one conversation's message tree.
module Conversations {
  import opened Options
  import opened MessageTree

  // The listed messages with the given parent, in listing order.
  function WithParent(table: map<Id, Message>, order: seq<Id>, parent: Option<Id>): (ids: seq<Id>)
  {
    if order == [] then []
    else
      var last := order[|order| - 1];
      var earlier := WithParent(table, order[..|order| - 1], parent);
      if last in table && table[last].parent == parent then earlier + [last] else earlier
  }

  lemma {:induction false} Listing(table: map<Id, Message>, order: seq<Id>, parent: Option<Id>)
    ensures forall id ::
        id in WithParent(table, order, parent) <==> id in order && id in table && table[id].parent == parent
  {
    if order != [] { Listing(table, order[..|order| - 1], parent); }
  }

  function Lookup(children: map<Id, seq<Id>>, id: Id): seq<Id>
  {
    if id in children then children[id] else []
  }

  // The map gives every message's children.
  ghost predicate Indexes(children: map<Id, seq<Id>>, table: map<Id, Message>, order: seq<Id>)
  {
    forall id :: Lookup(children, id) == WithParent(table, order, Some(id))
  }

  lemma ChildrenAt(children: map<Id, seq<Id>>, table: map<Id, Message>, order: seq<Id>, id: Id)
    requires Indexes(children, table, order)
    ensures Lookup(children, id) == WithParent(table, order, Some(id))
  {
  }

  method BuildChildrenMap(table: map<Id, Message>, order: seq<Id>) returns (children: map<Id, seq<Id>>)
    requires forall id <- order :: id in table
    ensures Indexes(children, table, order)
  {
    children := map[];
    for i := 0 to |order|
      invariant forall id :: Lookup(children, id) == WithParent(table, order[..i], Some(id))
    {
      var parent := table[order[i]].parent;
      assert order[..i + 1][..i] == order[..i];
      if parent.Some? { children := children[parent.value := Lookup(children, parent.value) + [order[i]]]; }
    }
    assert order[..|order|] == order;
  }

  // Walks up from the active message to its root; the path runs from the root down.
  method BuildActiveBranchPath(table: map<Id, Message>, active: Option<Id>) returns (path: seq<Id>)
    requires Forest(table)
    ensures if active.Some? && active.value in table then IsChain(table, path)
      && path[|path| - 1] == active.value else path == []
  {
    path := [];
    var current := active;
    ghost var rank: map<Id, nat> :| Ranked(table, rank);
    while current.Some?
      invariant forall id <- path :: id in table
      invariant forall i | 0 < i < |path| :: table[path[i]].parent == Some(path[i - 1])
      invariant path == [] ==> current == active
      invariant path != [] ==> active == Some(path[|path| - 1]) && current == table[path[0]].parent
      decreases if current.Some? then (if current.value in table then rank[current.value] + 2 else 1) else 0
    {
      if current.value !in table { break; }
      path := [current.value] + path;
      current := table[current.value].parent;
    }
  }

  // Each message of the path is the only child of the one before it.
  predicate LoneDescent(table: map<Id, Message>, order: seq<Id>, path: seq<Id>)
  {
    path != [] && forall i | 0 < i < |path| :: WithParent(table, order, Some(path[i - 1])) == [path[i]]
  }

  // leaf is where the only children below start lead: a fork or a true leaf.
  ghost predicate DeepestLeaf(table: map<Id, Message>, order: seq<Id>, start: Id, leaf: Id)
  {
    && |WithParent(table, order, Some(leaf))| != 1
    && exists path: seq<Id> :: LoneDescent(table, order, path) && path[0] == start && path[|path| - 1] == leaf
  }

  // A walk along only children so far, with the messages it has left behind.
  ghost predicate Descending(table: map<Id, Message>, order: seq<Id>, rank: map<Id, nat>, start: Id, path: seq<Id>,
                             seen: set<Id>)
  {
    && LoneDescent(table, order, path) && path[0] == start
    && (if start in table then path[|path| - 1] in table else path == [start])
    && forall id <- seen :: id in table && id in rank && path[|path| - 1] in rank && rank[id] < rank[path[|path| - 1]]
  }

  // An only child is one level further down.
  lemma DescendNext(table: map<Id, Message>, order: seq<Id>, rank: map<Id, nat>, start: Id, path: seq<Id>,
                    seen: set<Id>, next: Id)
    requires Ranked(table, rank) && Listed(table, order) && Descending(table, order, rank, start, path, seen)
    requires WithParent(table, order, Some(path[|path| - 1])) == [next]
    ensures path[|path| - 1] in table.Keys - seen
    ensures Descending(table, order, rank, start, path + [next], seen + {path[|path| - 1]})
  {
    Listing(table, order, Some(path[|path| - 1]));
    assert next in WithParent(table, order, Some(path[|path| - 1]));
    hide WithParent;
  }

  method FindDeepestLeaf(table: map<Id, Message>, order: seq<Id>, start: Id) returns (leaf: Id)
    requires Forest(table) && Listed(table, order)
    ensures DeepestLeaf(table, order, start, leaf)
    ensures leaf in table <==> start in table
    ensures start !in table ==> leaf == start
  {
    assert forall id <- order :: id in table;
    var children := BuildChildrenMap(table, order);
    ghost var rank: map<Id, nat> :| Ranked(table, rank);
    ghost var path, seen: set<Id> := [start], {};
    assert Descending(table, order, rank, start, path, seen);
    hide Forest, Ranked, Listed, Descending, WithParent, Indexes, DeepestLeaf, Lookup;
    leaf := start;
    var below := Lookup(children, leaf);
    ChildrenAt(children, table, order, leaf);
    while |below| == 1
      invariant path != [] && leaf == path[|path| - 1] && below == WithParent(table, order, Some(leaf))
      invariant Descending(table, order, rank, start, path, seen)
      decreases |table.Keys - seen|
    {
      assert below == [below[0]];
      DescendNext(table, order, rank, start, path, seen, below[0]);
      Shrinks(table.Keys, seen, leaf);
      path, seen := path + [below[0]], seen + {leaf};
      leaf := below[0];
      below := Lookup(children, leaf);
      ChildrenAt(children, table, order, leaf);
    }
    DescentEnds(table, order, rank, start, path, seen);
  }

  lemma DescentEnds(table: map<Id, Message>, order: seq<Id>, rank: map<Id, nat>, start: Id, path: seq<Id>,
                    seen: set<Id>)
    requires path != [] && Descending(table, order, rank, start, path, seen)
      && |WithParent(table, order, Some(path[|path| - 1]))| != 1
    ensures var leaf := path[|path| - 1];
      DeepestLeaf(table, order, start, leaf) && (leaf in table <==> start in table)
          && (start !in table ==> leaf == start)
  {
  }

  lemma Shrinks(all: set<Id>, seen: set<Id>, id: Id)
    requires id in all - seen
    ensures |all - (seen + {id})| < |all - seen|
  {
    assert all - seen == (all - (seen + {id})) + {id};
  }

  function Elements(ids: seq<Id>): set<Id>
  {
    set id | id in ids
  }

  // While a subtree is collected, with some messages met but not yet collected: every message
  // lies below the top, its parent has been collected, and the children of every collected
  // message have been met.
  ghost predicate Frontier(table: map<Id, Message>, rank: map<Id, nat>, top: Id, met: set<Id>, gone: set<Id>)
  {
    && met + gone <= table.Keys && met !! gone && top in met + gone
    && (forall id <- met + gone :: id in rank && top in rank && rank[top] <= rank[id] && Below(table, top, id))
    && (forall id <- met + gone | id != top :: table[id].parent.Some? && table[id].parent.value in gone)
    && (forall id <- table | table[id].parent.Some? && table[id].parent.value in gone :: id in met + gone)
  }

  lemma FrontierNext(table: map<Id, Message>, rank: map<Id, nat>, top: Id, met: set<Id>, gone: set<Id>, current: Id,
                     more: set<Id>)
    requires Ranked(table, rank) && Frontier(table, rank, top, met, gone) && current in met
    requires forall id :: id in more <==> id in table && table[id].parent == Some(current)
    ensures more !! met + gone && Frontier(table, rank, top, met - {current} + more, gone + {current})
  {
    hide Below;
    forall id | id in more
      ensures id !in met && id !in gone && rank[top] <= rank[id] && Below(table, top, id)
    {
      BelowNext(table, top, current, id);
    }
  }

  ghost predicate Collecting(table: map<Id, Message>, rank: map<Id, nat>, top: Id, queue: seq<Id>, gone: set<Id>)
  {
    NoRepeats(queue) && Frontier(table, rank, top, Elements(queue), gone)
  }

  lemma CollectNext(table: map<Id, Message>, order: seq<Id>, rank: map<Id, nat>, top: Id, queue: seq<Id>, gone: set<Id>)
    requires Ranked(table, rank) && Listed(table, order) && Collecting(table, rank, top, queue, gone) && queue != []
    ensures var current := queue[|queue| - 1];
      && current in table && current !in gone
      && Collecting(table, rank, top, queue[..|queue| - 1] + WithParent(table, order, Some(current)), gone + {current})
  {
    var current, rest := queue[|queue| - 1], queue[..|queue| - 1];
    var more := WithParent(table, order, Some(current));
    assert current in Elements(queue);
    Listing(table, order, Some(current));
    FrontierNext(table, rank, top, Elements(queue), gone, current, Elements(more));
    LastOut(queue);
    WithParentDistinct(table, order, Some(current));
    hide Frontier, Ranked, WithParent;
    assert forall id <- more :: id in Elements(more);
    assert forall id <- rest :: id in Elements(queue);
    NoRepeatsJoin(rest, more);
    assert Elements(rest + more) == Elements(queue) - {current} + Elements(more);
  }

  lemma CollectStart(table: map<Id, Message>, rank: map<Id, nat>, top: Id)
    requires Ranked(table, rank) && top in table
    ensures Collecting(table, rank, top, [top], {})
  {
    TopBelow(table, rank, top);
    hide Below;
    assert Elements([top]) == {top};
  }

  lemma LastOut(queue: seq<Id>)
    requires NoRepeats(queue) && queue != []
    ensures var current, rest := queue[|queue| - 1], queue[..|queue| - 1];
      NoRepeats(rest) && Elements(rest) == Elements(queue) - {current}
  {
    assert queue == queue[..|queue| - 1] + [queue[|queue| - 1]];
  }

  // Exactly the messages below top, top among them.
  ghost predicate IsSubtree(table: map<Id, Message>, top: Id, ids: set<Id>)
  {
    forall id :: id in ids <==> Below(table, top, id)
  }

  // Collects a message and everything below it with a work list.
  method CollectSubtree(table: map<Id, Message>, order: seq<Id>, top: Id) returns (gone: set<Id>)
    requires Forest(table) && Listed(table, order) && top in table
    ensures Closed(table, gone) && gone <= table.Keys && IsSubtree(table, top, gone)
  {
    assert forall id <- order :: id in table;
    var children := BuildChildrenMap(table, order);
    ghost var rank: map<Id, nat> :| Ranked(table, rank);
    gone := {};
    var queue := [top];
    CollectStart(table, rank, top);
    hide Collecting, Forest, Listed, Ranked, WithParent, Indexes, Lookup, Below;
    while queue != []
      invariant Collecting(table, rank, top, queue, gone)
      decreases |table.Keys - gone|
    {
      var current := queue[|queue| - 1];
      CollectNext(table, order, rank, top, queue, gone);
      ChildrenAt(children, table, order, current);
      Shrinks(table.Keys, gone, current);
      gone := gone + {current};
      queue := queue[..|queue| - 1] + Lookup(children, current);
    }
    CollectDone(table, rank, top, gone);
  }

  lemma CollectDone(table: map<Id, Message>, rank: map<Id, nat>, top: Id, gone: set<Id>)
    requires Collecting(table, rank, top, [], gone)
    ensures Closed(table, gone) && gone <= table.Keys && IsSubtree(table, top, gone)
  {
    hide Below;
    assert Elements([]) == {};
    SubtreeIs(table, top, gone);
  }

  lemma TopBelow(table: map<Id, Message>, rank: map<Id, nat>, top: Id)
    requires Ranked(table, rank) && top in table
    ensures Below(table, top, top)
  {
    var path := ChainTo(table, rank, top);
  }

  lemma {:induction false} WithParentDistinct(table: map<Id, Message>, order: seq<Id>, parent: Option<Id>)
    requires NoRepeats(order)
    ensures NoRepeats(WithParent(table, order, parent))
  {
    if order != [] {
      var init, last := order[..|order| - 1], order[|order| - 1];
      assert NoRepeats(init) && last !in init;
      WithParentDistinct(table, init, parent);
      Listing(table, init, parent);
      OneMore(WithParent(table, init, parent), last);
    }
  }

  lemma NoRepeatsJoin(xs: seq<Id>, ys: seq<Id>)
    requires NoRepeats(xs) && NoRepeats(ys) && forall id <- ys :: id !in xs
    ensures NoRepeats(xs + ys)
  {
    assert forall i | 0 <= i < |ys| :: ys[i] in ys;
    assert forall i | 0 <= i < |xs| :: xs[i] in xs;
  }

  // ---------- where the active message goes ----------

  // Another message with the given parent is active next: where the first one listed leads.
  ghost predicate FirstLeads(table: map<Id, Message>, order: seq<Id>, others: seq<Id>, active: Option<Id>)
  {
    others != [] && active.Some? && DeepestLeaf(table, order, others[0], active.value)
  }

  // The active message after a whole subtree was deleted from under the old one.
  ghost predicate ActiveAfterSubtree(was: Tree, id: Id, gone: set<Id>, now: Tree)
    requires id in was.table
  {
    if was.active.Some? && was.active.value !in gone then now.active == was.active
    else if was.active.None? then now.active == None
    else
      var parent := was.table[id].parent;
      var others := Kept(WithParent(was.table, was.order, parent), gone);
      if others != [] then FirstLeads(now.table, now.order, others, now.active) else now.active == parent
  }

  // The active message after one message was spliced out.
  ghost predicate ActiveAfterSplice(was: Tree, id: Id, now: Tree)
    requires id in was.table
  {
    if was.active != Some(id) then now.active == was.active
    else
      var below := WithParent(was.table, was.order, Some(id));
      if below != [] then FirstLeads(now.table, now.order, below, now.active)
      else if was.table[id].parent.Some? then now.active == was.table[id].parent
      else
        var roots := WithParent(now.table, now.order, None);
        now.active == if roots == [] then None else Some(roots[0])
  }

  // A message and everything below it is gone, nothing else, and the active message moved on.
  ghost predicate PrunedTo(was: Tree, id: Id, now: Tree)
    requires id in was.table
  {
    exists gone: set<Id> :: PrunedBy(was, id, gone, now)
  }

  ghost predicate PrunedBy(was: Tree, id: Id, gone: set<Id>, now: Tree)
    requires id in was.table
  {
    && IsSubtree(was.table, id, gone)
    && now.table == was.table - gone && now.order == Kept(was.order, gone)
    && ActiveAfterSubtree(was, id, gone, now)
  }

  lemma PrunedInto(was: Tree, id: Id, gone: set<Id>, now: Tree)
    requires id in was.table && PrunedBy(was, id, gone, now)
    ensures PrunedTo(was, id, now)
  {
  }

  lemma Pruned(was: Tree, id: Id, gone: set<Id>)
    requires Sound(was) && OneMemory(was.table) && id in was.table && Closed(was.table, gone)
    requires IsSubtree(was.table, id, gone)
    ensures id in gone && Forest(was.table - gone) && OneMemory(was.table - gone)
      && Listed(was.table - gone, Kept(was.order, gone))
  {
    PrunedForest(was.table, gone);
    PrunedMemory(was.table, gone);
    PrunedListed(was.table, was.order, gone);
    var rank: map<Id, nat> :| Ranked(was.table, rank);
    TopBelow(was.table, rank, id);
  }

  lemma PrunedListed(table: map<Id, Message>, order: seq<Id>, gone: set<Id>)
    requires Listed(table, order)
    ensures Listed(table - gone, Kept(order, gone))
  {
    KeptDistinct(order, gone);
  }

  lemma SplicedListed(table: map<Id, Message>, order: seq<Id>, gone: Id)
    requires Listed(table, order) && gone in table
    ensures Listed(Spliced(table, gone), Kept(order, {gone}))
  {
    KeptDistinct(order, {gone});
  }

  // A tree that is not empty lists a root.
  lemma RootListed(table: map<Id, Message>, order: seq<Id>)
    requires Forest(table) && Listed(table, order)
    ensures table != map[] ==> WithParent(table, order, None) != []
    ensures forall id <- WithParent(table, order, None) :: id in table
  {
    Listing(table, order, None);
    if table != map[] {
      var rank: map<Id, nat> :| Ranked(table, rank);
      var id :| id in table;
      var root := SomeRoot(table, rank, id);
      assert root in order;
      assert root in WithParent(table, order, None);
    }
  }

  // A message's parent does not lie below it.
  lemma ParentOutside(table: map<Id, Message>, id: Id)
    requires Forest(table) && id in table && table[id].parent.Some?
    ensures !Below(table, id, table[id].parent.value) && table[id].parent.value in table
  {
    var rank: map<Id, nat> :| Ranked(table, rank);
    var parent := table[id].parent.value;
    assert rank[parent] < rank[id];
    forall path: seq<Id> | IsChain(table, path) && path[|path| - 1] == parent && id in path
      ensures false
    {
      var i :| 0 <= i < |path| && path[i] == id;
      if i < |path| - 1 { ChainRises(table, rank, path, i, |path| - 1); }
    }
  }

  // Without another root nothing survives.
  lemma NoRootLeft(table: map<Id, Message>, order: seq<Id>, gone: set<Id>)
    requires Forest(table) && Listed(table, order) && Closed(table, gone)
      && Kept(WithParent(table, order, None), gone) == []
    ensures table - gone == map[]
  {
    PrunedForest(table, gone);
    var rest := table - gone;
    if rest != map[] {
      var rank: map<Id, nat> :| Ranked(rest, rank);
      var x :| x in rest;
      var root := SomeRoot(rest, rank, x);
      Listing(table, order, None);
      assert false;
    }
  }

  // With no sibling left, the parent survives; with no parent either, nothing does.
  lemma NothingElse(was: Tree, id: Id, gone: set<Id>)
    requires Sound(was) && id in was.table && Closed(was.table, gone) && IsSubtree(was.table, id, gone)
    requires Kept(WithParent(was.table, was.order, was.table[id].parent), gone) == []
    ensures was.table[id].parent.Some? ==> was.table[id].parent.value in was.table - gone
    ensures was.table[id].parent.None? ==> was.table - gone == map[]
  {
    hide Forest, Below, Kept, Closed, Listed, WithParent;
    if was.table[id].parent.Some? { ParentOutside(was.table, id); } else { NoRootLeft(was.table, was.order, gone); }
  }

  // ---------- working memory ----------

  // The messages of a branch that synthesising the memory excludes: everything after the old live
  // memory but what the classifier keeps, what was already excluded, and the tools left alone.
  function Covers(table: map<Id, Message>, id: Id, kept: Id -> bool, untouched: Id -> bool): bool
  {
    && id in table && !table[id].excluded
    && !((table[id].role == User || table[id].role == Assistant) && kept(id))
    && !(table[id].role == Tool && untouched(id))
  }

  function Covered(table: map<Id, Message>, messages: seq<Id>, kept: Id -> bool, untouched: Id -> bool): set<Id>
  {
    set id | id in messages && Covers(table, id, kept, untouched)
  }

  // The first live memory of a branch.
  function FirstLive(table: map<Id, Message>, branch: seq<Id>): (k: nat)
    ensures k <= |branch|
    ensures k < |branch| ==> Live(table, branch[k])
    ensures forall i | 0 <= i < k :: !Live(table, branch[i])
  {
    if branch == [] || Live(table, branch[0]) then 0 else 1 + FirstLive(table, branch[1..])
  }

  // With that one excluded no live memory is left on the branch.
  lemma NoneLive(table: map<Id, Message>, branch: seq<Id>, k: nat, ids: set<Id>)
    requires OneMemory(table) && IsChain(table, branch) && k == FirstLive(table, branch)
    requires k < |branch| ==> branch[k] in ids
    ensures forall i | 0 <= i < |branch| :: !Live(Excluded(table, ids), branch[i])
  {
  }

  // The new memory can hang under the branch.
  lemma MemoryAdded(tree: Tree, branch: seq<Id>, ids: set<Id>, newId: Id)
    requires Sound(tree) && OneMemory(tree.table) && IsChain(tree.table, branch) && newId !in tree.table
    requires FirstLive(tree.table, branch) < |branch| ==> branch[FirstLive(tree.table, branch)] in ids
    ensures var after := Added(tree.(table := Excluded(tree.table, ids)), newId,
                               Message(Some(branch[|branch| - 1]), ContextSummary, false));
      Sound(after) && OneMemory(after.table) && Live(after.table, newId)
  {
    var marked := tree.(table := Excluded(tree.table, ids));
    var memory := Message(Some(branch[|branch| - 1]), ContextSummary, false);
    ExcludedSame(tree.table, ids);
    assert branch[|branch| - 1] in branch;
    assert Sound(marked);
    AddedSound(marked, newId, memory);
    NoneLive(tree.table, branch, FirstLive(tree.table, branch), ids);
    forall path: seq<Id>, i | IsChain(marked.table, path) && memory.parent == Some(path[|path| - 1]) && 0 <= i < |path|
      ensures !Live(marked.table, path[i])
    {
      ChainUnique(tree.table, path, branch);
    }
    AddedMemory(marked, newId, memory);
  }

  class Conversation {
    var table: map<Id, Message>
    var order: seq<Id>
    var active: Option<Id>

    function Contents(): Tree
      reads this
    {
      Tree(table, order, active)
    }

    ghost predicate Valid()
      reads this
    {
      Sound(Contents()) && OneMemory(table)
    }

    constructor ()
      ensures Valid() && Contents() == Tree(map[], [], None)
    {
      table, order, active := map[], [], None;
      assert Ranked(map[], map[]);
    }

    method Insert(id: Id, message: Message)
      modifies this
      ensures Contents() == Added(old(Contents()), id, message)
    {
      table, order, active := table[id := message], order + [id], Some(id);
    }

    // Adds a message under the given parent, or under the active message; an id already in use,
    // here or in another conversation, changes nothing. An unknown parent is taken as it is.
    method AddMessage(id: Id, parent: Option<Id>, role: Role, elsewhere: bool)
      requires Valid()
      modifies this
      ensures id in old(table) || elsewhere ==> Contents() == old(Contents())
      ensures id !in old(table) && !elsewhere ==>
        Contents() == Added(old(Contents()), id, Message(if parent.Some? then parent else old(active), role, false))
      ensures id in old(table) || elsewhere ==> Valid()
      ensures id !in old(table) && !elsewhere ==>
        (Valid() <==>
          (parent.Some? ==> parent.value in old(table)) &&
          (role == ContextSummary ==> NoLiveAbove(old(table), Contents().table[id].parent)))
    {
      var parentId := if parent.Some? then parent else active;
      if id in table || elsewhere { return; }
      var message := Message(parentId, role, false);
      AddedSound(Contents(), id, message);
      AddedMemory(Contents(), id, message);
      Insert(id, message);
    }

    // Edits a message as a new sibling of it; the copy takes over its role and starts in context.
    method BranchMessage(id: Id, newId: Id) returns (found: bool)
      requires Valid() && newId !in table
      modifies this
      ensures Valid() && found == (id in old(table))
      ensures Contents() == if found then Added(old(Contents()), newId,
                                                Message(old(table)[id].parent, old(table)[id].role,
                                                        false)) else old(Contents())
    {
      if id !in table { return false; }
      var message := Message(table[id].parent, table[id].role, false);
      ParentKnown(Contents(), id);
      AddedSound(Contents(), newId, message);
      forall path: seq<Id>, i | message.role == ContextSummary && IsChain(table, path)
          && message.parent == Some(path[|path| - 1]) && 0 <= i < |path|
        ensures !Live(table, path[i])
      {
        ChainNext(table, path, id);
        SingleLiveMemory(table, path + [id], i, |path|);
      }
      AddedMemory(Contents(), newId, message);
      Insert(newId, message);
      return true;
    }

    // Shows the branch below a message; an unknown id is taken as it is.
    method SetActiveBranch(id: Id)
      requires Valid()
      modifies this`active
      ensures active.Some? && DeepestLeaf(table, order, id, active.value)
      ensures Valid() <==> id in table
    {
      var leaf := FindDeepestLeaf(table, order, id);
      active := Some(leaf);
    }

    // Deletes a message with everything below it, or splices it out from between its parent and
    // its children.
    method DeleteMessageBranch(id: Id, subtree: bool) returns (found: bool)
      requires Valid()
      modifies this
      ensures Valid() && found == (id in old(table))
      ensures !found ==> Contents() == old(Contents())
      ensures found && subtree ==> PrunedTo(old(Contents()), id, Contents())
      ensures found && !subtree ==>
        table == Spliced(old(table), id) && order == Kept(old(order), {id})
            && ActiveAfterSplice(old(Contents()), id, Contents())
    {
      if id !in table { return false; }
      if subtree { DeleteSubtree(id); } else { Splice(id); }
      return true;
    }

    method DeleteSubtree(id: Id)
      requires Valid() && id in table
      modifies this
      ensures Valid() && PrunedTo(old(Contents()), id, Contents())
    {
      hide Forest, OneMemory, Listed, IsSubtree, Closed, PrunedTo, ActiveAfterSubtree, Kept, ActiveNamed;
      ghost var was := Contents();
      var gone := CollectSubtree(table, order, id);
      Pruned(was, id, gone);
      var next := ActiveWithout(id, gone);
      PrunedInto(was, id, gone, Tree(table - gone, Kept(order, gone), next));
      table, order, active := table - gone, Kept(order, gone), next;
    }

    // The message to show once a subtree is gone.
    method ActiveWithout(id: Id, gone: set<Id>) returns (next: Option<Id>)
      requires Sound(Contents()) && id in table && Closed(table, gone) && IsSubtree(table, id, gone)
      requires Forest(table - gone) && Listed(table - gone, Kept(order, gone)) && id in gone
      ensures ActiveAfterSubtree(Contents(), id, gone, Tree(table - gone, Kept(order, gone), next))
      ensures ActiveNamed(Tree(table - gone, Kept(order, gone), next))
    {
      var parent := table[id].parent;
      var others := Kept(WithParent(table, order, parent), gone);
      Listing(table, order, parent);
      if others == [] { NothingElse(Contents(), id, gone); }
      hide Forest, Listed, IsSubtree, Closed, DeepestLeaf, WithParent, Kept;
      next := active;
      if active.Some? && active.value in gone {
        if others != [] {
          assert others[0] in others && others[0] in table - gone;
          var leaf := FindDeepestLeaf(table - gone, Kept(order, gone), others[0]);
          next := Some(leaf);
        } else {
          next := parent;
        }
      }
    }

    method Splice(id: Id)
      requires Valid() && id in table
      modifies this
      ensures Valid()
      ensures table == Spliced(old(table), id) && order == Kept(old(order), {id})
        && ActiveAfterSplice(old(Contents()), id, Contents())
    {
      SplicedForest(table, id);
      SplicedMemory(table, id);
      SplicedListed(table, order, id);
      ParentKnown(Contents(), id);
      hide Forest, OneMemory, Listed;
      var below := WithParent(table, order, Some(id));
      Listing(table, order, Some(id));
      var parent := table[id].parent;
      var remaining, remainingOrder := Spliced(table, id), Kept(order, {id});
      if active == Some(id) {
        if below != [] {
          assert below[0] in below && below[0] in remaining;
          var leaf := FindDeepestLeaf(remaining, remainingOrder, below[0]);
          active := Some(leaf);
        } else if parent.Some? {
          active := parent;
        } else {
          RootListed(remaining, remainingOrder);
          var roots := WithParent(remaining, remainingOrder, None);
          active := if roots == [] then None else Some(roots[0]);
        }
      }
      table, order := remaining, remainingOrder;
    }

    // Synthesises the working memory of the active branch: a new live memory at its end, the old
    // one and everything covered excluded.
    method ApplyWorkingMemory(branch: seq<Id>, newId: Id, kept: Id -> bool, untouched: Id -> bool)
      requires Valid() && newId !in table
      requires branch != [] ==> IsChain(table, branch) && active == Some(branch[|branch| - 1])
      modifies this
      ensures Valid()
      ensures var k := FirstLive(old(table), branch);
        var messages := if k < |branch| then branch[k + 1..] else branch;
        var ids := Covered(old(table), messages, kept, untouched) + (if k < |branch| then {branch[k]} else {});
        Contents() ==
          if messages == [] then old(Contents())
          else Added(old(Contents()).(table := Excluded(old(table), ids)), newId,
                     Message(Some(branch[|branch| - 1]), ContextSummary, false))
    {
      hide Forest, Listed, OneMemory, IsChain, Excluded;
      if branch == [] { return; }
      var k := FindLive(branch);
      var messages := if k < |branch| then branch[k + 1..] else branch;
      if messages == [] { return; }
      var ids := CoverMessages(messages, kept, untouched);
      ids := ids + (if k < |branch| then {branch[k]} else {});
      MemoryAdded(Contents(), branch, ids, newId);
      table := Excluded(table, ids);
      Insert(newId, Message(Some(branch[|branch| - 1]), ContextSummary, false));
    }

    method FindLive(branch: seq<Id>) returns (k: nat)
      ensures k == FirstLive(table, branch)
    {
      k := 0;
      while k < |branch| && !Live(table, branch[k])
        invariant k <= |branch| && forall i | 0 <= i < k :: !Live(table, branch[i])
      {
        k := k + 1;
      }
    }

    method CoverMessages(messages: seq<Id>, kept: Id -> bool, untouched: Id -> bool) returns (ids: set<Id>)
      ensures ids == Covered(table, messages, kept, untouched)
    {
      ids := {};
      for i := 0 to |messages|
        invariant ids == Covered(table, messages[..i], kept, untouched)
      {
        assert messages[..i + 1] == messages[..i] + [messages[i]];
        if Covers(table, messages[i], kept, untouched) { ids := ids + {messages[i]}; }
      }
      assert messages[..|messages|] == messages;
    }
  }

  lemma ParentKnown(tree: Tree, id: Id)
    requires Sound(tree) && id in tree.table
    ensures tree.table[id].parent.Some? ==>
        tree.table[id].parent.value in tree.table && tree.table[id].parent != Some(id)
  {
    var rank: map<Id, nat> :| Ranked(tree.table, rank);
  }
}
