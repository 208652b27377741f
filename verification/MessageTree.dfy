// The message tree of a conversation as a value: which trees are sound, and where live memory may sit.
module MessageTree {
  import opened Options

  type Id = nat

  datatype Role = User | Assistant | System | Tool | ContextSummary

  datatype Message = Message(parent: Option<Id>, role: Role, excluded: bool)

  // The rows by id, the order in which they are listed, and the active leaf.
  datatype Tree = Tree(table: map<Id, Message>, order: seq<Id>, active: Option<Id>)

  ghost predicate Ranked(table: map<Id, Message>, rank: map<Id, nat>)
  {
    forall id <- table :: id in rank &&
      (table[id].parent.Some? ==>
          table[id].parent.value in table && table[id].parent.value in rank && rank[table[id].parent.value] < rank[id])
  }

  // Parents name rows of the tree and the parent relation has no cycle.
  ghost predicate Forest(table: map<Id, Message>)
  {
    exists rank: map<Id, nat> :: Ranked(table, rank)
  }

  predicate NoRepeats(order: seq<Id>)
  {
    forall i, j | 0 <= i < j < |order| :: order[i] != order[j]
  }

  ghost predicate Listed(table: map<Id, Message>, order: seq<Id>)
  {
    NoRepeats(order) && forall id :: id in order <==> id in table
  }

  // The active message exists, and there is none exactly when the conversation is empty.
  predicate ActiveNamed(tree: Tree)
  {
    if tree.active.Some? then tree.active.value in tree.table else tree.table == map[]
  }

  ghost predicate Sound(tree: Tree)
  {
    Forest(tree.table) && Listed(tree.table, tree.order) && ActiveNamed(tree)
  }

  // ---------- chains from a root ----------

  // The full chain from a root down to the last of the given ids.
  predicate IsChain(table: map<Id, Message>, path: seq<Id>)
  {
    && path != [] && (forall id <- path :: id in table)
    && table[path[0]].parent == None
    && forall i | 0 < i < |path| :: table[path[i]].parent == Some(path[i - 1])
  }

  lemma ChainNext(table: map<Id, Message>, path: seq<Id>, id: Id)
    requires IsChain(table, path) && id in table && table[id].parent == Some(path[|path| - 1])
    ensures IsChain(table, path + [id])
  {
  }

  lemma ChainParent(table: map<Id, Message>, path: seq<Id>, i: nat)
    requires IsChain(table, path) && 0 < i < |path|
    ensures table[path[i]].parent == Some(path[i - 1])
  {
  }

  lemma ChainUp(table: map<Id, Message>, path: seq<Id>, n: nat)
    requires IsChain(table, path) && 0 < n <= |path|
    ensures IsChain(table, path[..n])
  {
  }

  // Every message hangs on a chain from a root.
  lemma {:induction false} ChainTo(table: map<Id, Message>, rank: map<Id, nat>, id: Id) returns (path: seq<Id>)
    requires Ranked(table, rank) && id in table
    ensures IsChain(table, path) && path[|path| - 1] == id
    decreases rank[id]
  {
    if table[id].parent.None? {
      path := [id];
    } else {
      path := ChainTo(table, rank, table[id].parent.value);
      ChainNext(table, path, id);
      path := path + [id];
    }
  }

  // There is only one.
  lemma {:induction false} ChainUnique(table: map<Id, Message>, p: seq<Id>, q: seq<Id>)
    requires IsChain(table, p) && IsChain(table, q) && p[|p| - 1] == q[|q| - 1]
    ensures p == q
    decreases |p|
  {
    var id := p[|p| - 1];
    if |p| > 1 {
      assert table[id].parent == Some(p[|p| - 2]);
      assert |q| > 1;
      assert table[id].parent == Some(q[|q| - 2]);
      ChainUp(table, p, |p| - 1);
      ChainUp(table, q, |q| - 1);
      ChainUnique(table, p[..|p| - 1], q[..|q| - 1]);
      assert p == p[..|p| - 1] + [id] && q == q[..|q| - 1] + [id];
    } else if |q| > 1 {
      ChainParent(table, q, |q| - 1);
      assert false;
    }
  }

  lemma {:induction false} ChainRises(table: map<Id, Message>, rank: map<Id, nat>, path: seq<Id>, i: nat, j: nat)
    requires Ranked(table, rank) && IsChain(table, path) && i < j < |path|
    ensures rank[path[i]] < rank[path[j]]
    decreases j
  {
    assert table[path[j]].parent == Some(path[j - 1]);
    if i < j - 1 { ChainRises(table, rank, path, i, j - 1); }
  }

  // ---------- live memory ----------

  predicate Summary(table: map<Id, Message>, id: Id)
  {
    id in table && table[id].role == ContextSummary
  }

  predicate Live(table: map<Id, Message>, id: Id)
  {
    Summary(table, id) && !table[id].excluded
  }

  // On every path from a root, no summary of any kind lies below a live one.
  ghost predicate OneMemory(table: map<Id, Message>)
  {
    forall path: seq<Id> | IsChain(table, path) ::
      forall i, j | 0 <= i < j < |path| :: !(Live(table, path[i]) && Summary(table, path[j]))
  }

  // So every path holds at most one live memory, and a live memory has no summary below it.
  lemma SingleLiveMemory(table: map<Id, Message>, path: seq<Id>, i: nat, j: nat)
    requires OneMemory(table) && IsChain(table, path) && i < |path| && j < |path|
    ensures Live(table, path[i]) && Live(table, path[j]) ==> i == j
    ensures Live(table, path[i]) && Summary(table, path[j]) ==> j <= i
  {
  }

  // ---------- adding one message ----------

  function Added(tree: Tree, id: Id, message: Message): Tree
  {
    Tree(tree.table[id := message], tree.order + [id], Some(id))
  }

  // A new message keeps the tree sound exactly when the parent it names exists.
  lemma AddedSound(tree: Tree, id: Id, message: Message)
    requires Sound(tree) && id !in tree.table
    ensures Sound(Added(tree, id, message)) <==> (message.parent.Some? ==> message.parent.value in tree.table)
  {
    var after := Added(tree, id, message);
    var rank: map<Id, nat> :| Ranked(tree.table, rank);
    if message.parent.Some? ==> message.parent.value in tree.table {
      assert Ranked(after.table, rank[id := if message.parent.Some? then rank[message.parent.value] + 1 else 0]);
      forall x
        ensures x in after.order <==> x in after.table
      {
      }
    }
  }

  // A chain of the larger tree either lies in the smaller one, or ends with the new leaf.
  lemma ChainAdded(tree: Tree, id: Id, message: Message, path: seq<Id>, k: nat)
    requires Forest(tree.table) && id !in tree.table && IsChain(Added(tree, id, message).table, path)
    requires k < |path| && path[k] == id
    ensures k == |path| - 1
  {
    if k + 1 < |path| {
      var table := Added(tree, id, message).table;
      assert table[path[k + 1]].parent == Some(id);
      var rank: map<Id, nat> :| Ranked(tree.table, rank);
      assert path[k + 1] == id;
      SelfParent(table, path, k, id);
    }
  }

  // A row that is its own parent hangs on no root.
  lemma {:induction false} SelfParent(table: map<Id, Message>, path: seq<Id>, k: nat, id: Id)
    requires IsChain(table, path) && k < |path| && path[k] == id && table[id].parent == Some(id)
    ensures false
    decreases k
  {
    if k > 0 { SelfParent(table, path, k - 1, id); }
  }

  lemma ChainBefore(tree: Tree, id: Id, message: Message, path: seq<Id>)
    requires Forest(tree.table) && id !in tree.table && IsChain(Added(tree, id, message).table, path) && id !in path
    ensures IsChain(tree.table, path)
  {
  }

  // No live memory on the way down to the given parent.
  ghost predicate NoLiveAbove(table: map<Id, Message>, parent: Option<Id>)
  {
    forall path: seq<Id> | IsChain(table, path) && parent == Some(path[|path| - 1]) :: forall i | 0 <= i < |path| ::
        !Live(table, path[i])
  }

  // A new message keeps memory single exactly when it is no summary under a live one.
  lemma AddedMemory(tree: Tree, id: Id, message: Message)
    requires Forest(tree.table) && OneMemory(tree.table) && id !in tree.table
    ensures OneMemory(Added(tree, id, message).table) <==>
        (message.role == ContextSummary ==> NoLiveAbove(tree.table, message.parent))
  {
    if message.role == ContextSummary ==> NoLiveAbove(tree.table, message.parent) {
      AddedKeepsMemory(tree, id, message);
    } else {
      var path: seq<Id>, i :| IsChain(tree.table, path) && message.parent == Some(path[|path| - 1])
          && 0 <= i < |path| && Live(tree.table, path[i]);
      var table := Added(tree, id, message).table;
      assert IsChain(table, path);
      ChainNext(table, path, id);
      var longer := path + [id];
      assert path[i] in path && Live(table, longer[i]) && Summary(table, longer[|path|]);
    }
  }

  lemma AddedKeepsMemory(tree: Tree, id: Id, message: Message)
    requires Forest(tree.table) && OneMemory(tree.table) && id !in tree.table
    requires message.role == ContextSummary ==> NoLiveAbove(tree.table, message.parent)
    ensures OneMemory(Added(tree, id, message).table)
  {
    var table := Added(tree, id, message).table;
    forall path: seq<Id>, i, j | IsChain(table, path) && 0 <= i < j < |path|
      ensures !(Live(table, path[i]) && Summary(table, path[j]))
    {
      if id in path {
        var k :| 0 <= k < |path| && path[k] == id;
        ChainAdded(tree, id, message, path, k);
        assert path[i] != id by { if path[i] == id { ChainAdded(tree, id, message, path, i); } }
        ChainUp(table, path, |path| - 1);
        var rest := path[..|path| - 1];
        assert id !in rest by {
          if id in rest { var l :| 0 <= l < |rest| && rest[l] == id; ChainAdded(tree, id, message, path, l); }
        }
        ChainBefore(tree, id, message, rest);
        assert rest[i] == path[i] && Live(tree.table, path[i]) == Live(table, path[i]);
        if j < |rest| { assert rest[j] == path[j]; } else { assert message.parent == Some(rest[|rest| - 1]); }
      } else {
        ChainBefore(tree, id, message, path);
      }
    }
  }

  // ---------- removing a subtree ----------

  // Some chain reaches id through top.
  ghost predicate Below(table: map<Id, Message>, top: Id, id: Id)
  {
    exists path: seq<Id> :: IsChain(table, path) && path[|path| - 1] == id && top in path
  }

  lemma BelowNext(table: map<Id, Message>, top: Id, id: Id, child: Id)
    requires Below(table, top, id) && child in table && table[child].parent == Some(id)
    ensures Below(table, top, child)
  {
    var path: seq<Id> :| IsChain(table, path) && path[|path| - 1] == id && top in path;
    ChainNext(table, path, child);
    assert top in path + [child];
  }

  ghost predicate Closed(table: map<Id, Message>, ids: set<Id>)
  {
    forall id <- table | table[id].parent.Some? && table[id].parent.value in ids :: id in ids
  }

  lemma {:induction false} ClosedBelow(table: map<Id, Message>, ids: set<Id>, path: seq<Id>, i: nat, j: nat)
    requires Closed(table, ids) && IsChain(table, path) && i <= j < |path| && path[i] in ids
    ensures path[j] in ids
    decreases j
  {
    if i < j {
      ClosedBelow(table, ids, path, i, j - 1);
      assert table[path[j]].parent == Some(path[j - 1]);
    }
  }

  // A closed set holding top that only holds messages below it is top's whole subtree.
  lemma SubtreeIs(table: map<Id, Message>, top: Id, ids: set<Id>)
    requires Closed(table, ids) && top in ids && forall id <- ids :: Below(table, top, id)
    ensures forall id :: id in ids <==> Below(table, top, id)
  {
    forall id | Below(table, top, id)
      ensures id in ids
    {
      var path: seq<Id> :| IsChain(table, path) && path[|path| - 1] == id && top in path;
      var i :| 0 <= i < |path| && path[i] == top;
      ClosedBelow(table, ids, path, i, |path| - 1);
    }
  }

  function Kept(order: seq<Id>, gone: set<Id>): (kept: seq<Id>)
    ensures forall id :: id in kept <==> id in order && id !in gone
    ensures |kept| <= |order|
  {
    if order == [] then []
    else
      var rest := Kept(order[..|order| - 1], gone);
      if order[|order| - 1] in gone then rest else rest + [order[|order| - 1]]
  }

  lemma {:induction false} KeptDistinct(order: seq<Id>, gone: set<Id>)
    requires NoRepeats(order)
    ensures NoRepeats(Kept(order, gone))
  {
    if order != [] {
      var init, last := order[..|order| - 1], order[|order| - 1];
      assert NoRepeats(init) && last !in init;
      KeptDistinct(init, gone);
      OneMore(Kept(init, gone), last);
    }
  }

  lemma OneMore(ids: seq<Id>, id: Id)
    requires NoRepeats(ids) && id !in ids
    ensures NoRepeats(ids + [id])
  {
  }

  // A forest that is not empty has a root.
  lemma {:induction false} SomeRoot(table: map<Id, Message>, rank: map<Id, nat>, id: Id) returns (root: Id)
    requires Ranked(table, rank) && id in table
    ensures root in table && table[root].parent == None
    decreases rank[id]
  {
    if table[id].parent.None? { root := id; } else { root := SomeRoot(table, rank, table[id].parent.value); }
  }

  lemma PrunedForest(table: map<Id, Message>, gone: set<Id>)
    requires Forest(table) && Closed(table, gone)
    ensures Forest(table - gone)
  {
    var rank: map<Id, nat> :| Ranked(table, rank);
    assert Ranked(table - gone, rank);
  }

  lemma PrunedMemory(table: map<Id, Message>, gone: set<Id>)
    requires OneMemory(table)
    ensures OneMemory(table - gone)
  {
    forall path: seq<Id>, i, j | IsChain(table - gone, path) && 0 <= i < j < |path|
      ensures !(Live(table - gone, path[i]) && Summary(table - gone, path[j]))
    {
      assert IsChain(table, path);
      assert path[i] in table - gone && path[j] in table - gone;
    }
  }

  // ---------- removing one message from between its parent and its children ----------

  function Spliced(table: map<Id, Message>, gone: Id): map<Id, Message>
    requires gone in table
  {
    map id | id in table && id != gone ::
      if table[id].parent == Some(gone) then table[id].(parent := table[gone].parent) else table[id]
  }

  lemma SplicedForest(table: map<Id, Message>, gone: Id)
    requires Forest(table) && gone in table
    ensures Forest(Spliced(table, gone))
  {
    var rank: map<Id, nat> :| Ranked(table, rank);
    assert Ranked(Spliced(table, gone), rank);
  }

  // Every chain of the spliced tree comes from a longer one of the old tree.
  lemma {:induction false} Unspliced(table: map<Id, Message>, gone: Id, path: seq<Id>, i: nat)
    returns (longer: seq<Id>, k: nat)
    requires gone in table && IsChain(Spliced(table, gone), path) && i < |path|
    ensures IsChain(table, longer) && longer[|longer| - 1] == path[|path| - 1]
    ensures k < |longer| && longer[k] == path[i] && (i < |path| - 1 ==> k < |longer| - 1)
    decreases |path|
  {
    var last := path[|path| - 1];
    assert last in path && last in table;
    if |path| == 1 {
      if table[last].parent == Some(gone) {
        longer, k := [gone, last], 1;
      } else {
        longer, k := [last], 0;
      }
    } else {
      var before := path[|path| - 2];
      ChainUp(Spliced(table, gone), path, |path| - 1);
      var rest := path[..|path| - 1];
      longer, k := Unspliced(table, gone, rest, if i < |rest| then i else 0);
      assert Spliced(table, gone)[last].parent == Some(before);
      if table[last].parent == Some(gone) {
        ChainNext(table, longer, gone);
        longer := longer + [gone];
      }
      ChainNext(table, longer, last);
      longer := longer + [last];
      if i == |path| - 1 { k := |longer| - 1; }
    }
  }

  lemma SplicedMemory(table: map<Id, Message>, gone: Id)
    requires OneMemory(table) && gone in table
    ensures OneMemory(Spliced(table, gone))
  {
    var after := Spliced(table, gone);
    forall path: seq<Id>, i, j | IsChain(after, path) && 0 <= i < j < |path|
      ensures !(Live(after, path[i]) && Summary(after, path[j]))
    {
      ChainUp(after, path, j + 1);
      var longer, k := Unspliced(table, gone, path[..j + 1], i);
      assert longer[|longer| - 1] == path[j];
    }
  }

  // ---------- synthesising the working memory ----------

  // The rows after some messages of a branch were excluded from the context.
  function Excluded(table: map<Id, Message>, ids: set<Id>): map<Id, Message>
  {
    map id | id in table :: if id in ids then table[id].(excluded := true) else table[id]
  }

  lemma ExcludedSame(table: map<Id, Message>, ids: set<Id>)
    ensures forall path: seq<Id> :: IsChain(Excluded(table, ids), path) <==> IsChain(table, path)
    ensures Forest(table) ==> Forest(Excluded(table, ids))
    ensures OneMemory(table) ==> OneMemory(Excluded(table, ids))
  {
    var after := Excluded(table, ids);
    forall path: seq<Id>
      ensures IsChain(after, path) <==> IsChain(table, path)
    {
    }
    if Forest(table) {
      var rank: map<Id, nat> :| Ranked(table, rank);
      assert Ranked(after, rank);
    }
    if OneMemory(table) {
      forall path: seq<Id>, i, j | IsChain(after, path) && 0 <= i < j < |path|
        ensures !(Live(after, path[i]) && Summary(after, path[j]))
      {
        assert IsChain(table, path);
      }
    }
  }
}
