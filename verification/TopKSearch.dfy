// The best chunks of a stream of scores, kept in a bounded heap.
module Heaps {
  // A scored chunk; entries are ordered by score, then by id.
  datatype Entry = Entry(score: real, id: nat)

  predicate Less(a: Entry, b: Entry)
  {
    a.score < b.score || (a.score == b.score && a.id < b.id)
  }

  function ParentOf(i: nat): nat
    requires i > 0
  {
    (i - 1) / 2
  }

  predicate IsHeap(s: seq<Entry>)
  {
    forall i | 0 < i < |s| :: !Less(s[i], s[ParentOf(i)])
  }

  // A heap but for the item at pos, which may be too small for its place.
  predicate TooSmallAt(s: seq<Entry>, pos: nat)
  {
    && (forall i | 0 < i < |s| && i != pos :: !Less(s[i], s[ParentOf(i)]))
    && (forall i | 0 < i < |s| && ParentOf(i) == pos && pos > 0 :: !Less(s[i], s[ParentOf(pos)]))
  }

  // A heap but for the item at pos, which may be anything for its place.
  predicate AnythingAt(s: seq<Entry>, pos: nat)
  {
    && (forall i | 0 < i < |s| && i != pos && ParentOf(i) != pos :: !Less(s[i], s[ParentOf(i)]))
    && (forall i | 0 < i < |s| && ParentOf(i) == pos && pos > 0 :: !Less(s[i], s[ParentOf(pos)]))
  }

  function Swapped(s: seq<Entry>, i: nat, j: nat): seq<Entry>
    requires i < |s| && j < |s|
  {
    s[i := s[j]][j := s[i]]
  }

  lemma SwapKeeps(s: seq<Entry>, i: nat, j: nat)
    requires i < |s| && j < |s|
    ensures multiset(Swapped(s, i, j)) == multiset(s)
  {
  }

  lemma RaiseStep(s: seq<Entry>, pos: nat)
    requires 0 < pos < |s| && TooSmallAt(s, pos) && Less(s[pos], s[ParentOf(pos)])
    ensures TooSmallAt(Swapped(s, pos, ParentOf(pos)), ParentOf(pos))
  {
    var p := ParentOf(pos);
    var t := Swapped(s, pos, p);
    assert t[pos] == s[p] && t[p] == s[pos] && forall i | 0 <= i < |s| && i != pos && i != p :: t[i] == s[i];
    assert forall i | 0 < i < |s| && ParentOf(i) == pos :: i != pos && i != p;
    forall i | 0 < i < |t| && i != p
      ensures !Less(t[i], t[ParentOf(i)])
    {
      if i == pos {
        assert t[ParentOf(i)] == s[pos];
      } else if ParentOf(i) == pos {
        assert !Less(s[i], s[p]);
      } else if ParentOf(i) == p {
        assert !Less(s[i], s[p]);
      }
    }
    forall i | 0 < i < |t| && ParentOf(i) == p && p > 0
      ensures !Less(t[i], t[ParentOf(p)])
    {
      assert !Less(s[p], s[ParentOf(p)]);
      if i != pos { assert !Less(s[i], s[p]); }
    }
  }

  lemma LowerStep(s: seq<Entry>, pos: nat, child: nat)
    requires pos < child < |s| && ParentOf(child) == pos && AnythingAt(s, pos)
    requires forall i | 0 < i < |s| && ParentOf(i) == pos :: !Less(s[i], s[child])
    ensures AnythingAt(Swapped(s, pos, child), child)
  {
  }

  lemma Raised(s: seq<Entry>, pos: nat)
    requires pos < |s| && TooSmallAt(s, pos) && (pos > 0 ==> !Less(s[pos], s[ParentOf(pos)]))
    ensures IsHeap(s)
  {
  }

  lemma AtLeaf(s: seq<Entry>, pos: nat)
    requires pos < |s| <= 2 * pos + 1 && AnythingAt(s, pos)
    ensures TooSmallAt(s, pos)
  {
    assert forall i | 0 < i < |s| :: ParentOf(i) != pos;
  }

  // The array with a hole at pos holds what the view holds once the item is put in.
  lemma HoleMoves(s: seq<Entry>, view: seq<Entry>, pos: nat, j: nat, item: Entry)
    requires pos < |s| && j < |s| && j != pos && s[pos := item] == view
    ensures s[pos := s[j]][j := item] == Swapped(view, pos, j) && s[j] == view[j]
      && multiset(Swapped(view, pos, j)) == multiset(view)
  {
    assert view[j] == s[j] && view[pos] == item;
    SwapKeeps(view, pos, j);
  }

  // The smaller child is not larger than any child.
  lemma SmallerChild(s: seq<Entry>, pos: nat, child: nat)
    requires pos < |s| && 2 * pos + 1 < |s|
    requires child == if 2 * pos + 2 < |s| && !Less(s[2 * pos + 1], s[2 * pos + 2]) then 2 * pos + 2 else 2 * pos + 1
    ensures forall i | 0 < i < |s| && ParentOf(i) == pos :: !Less(s[i], s[child])
  {
    assert forall i | 0 < i < |s| && ParentOf(i) == pos :: i == 2 * pos + 1 || i == 2 * pos + 2;
  }

  // The root is the least item.
  lemma {:induction false} RootLeast(s: seq<Entry>, i: nat)
    requires IsHeap(s) && i < |s|
    ensures !Less(s[i], s[0])
  {
    if i > 0 {
      RootLeast(s, ParentOf(i));
    }
  }

  // A list growing inside a fixed array, kept as a heap.
  class BoundedHeap {
    const items: array<Entry>
    var size: nat

    ghost predicate Valid()
      reads this, items
    {
      size <= items.Length && IsHeap(items[..size])
    }

    function Contents(): seq<Entry>
      reads this, items
      requires size <= items.Length
    {
      items[..size]
    }

    constructor (capacity: nat)
      ensures Valid() && fresh(items) && items.Length == capacity && size == 0
    {
      items := new Entry[capacity](_ => Entry(0.0, 0));
      size := 0;
    }

    // Moves an item up past every larger ancestor.
    method SiftDown(start: nat)
      requires size <= items.Length && start < size && TooSmallAt(items[..size], start)
      modifies items
      ensures Valid() && multiset(Contents()) == multiset(old(Contents()))
    {
      hide IsHeap, TooSmallAt, Less, Swapped;
      var pos := start;
      var item := items[pos];
      ghost var view := items[..size];
      while pos > 0 && Less(item, items[ParentOf(pos)])
        invariant pos < size && |view| == size && items[..size][pos := item] == view
        invariant TooSmallAt(view, pos) && multiset(view) == multiset(old(items[..size]))
        decreases pos
      {
        var parent := ParentOf(pos);
        HoleMoves(items[..size], view, pos, parent, item);
        RaiseStep(view, pos);
        view := Swapped(view, pos, parent);
        items[pos] := items[parent];
        pos := parent;
      }
      Raised(view, pos);
      items[pos] := item;
      assert items[..size] == view;
    }

    // Moves the item at the root down to a leaf, then up to where it belongs.
    method SiftUp()
      requires 0 < size <= items.Length && AnythingAt(items[..size], 0)
      modifies items
      ensures Valid() && multiset(Contents()) == multiset(old(Contents()))
    {
      hide IsHeap, AnythingAt, TooSmallAt, Less, Swapped;
      var pos: nat := 0;
      var item := items[pos];
      ghost var view := items[..size];
      var child: nat := 1;
      while child < size
        invariant pos < size && child == 2 * pos + 1 && |view| == size && items[..size][pos := item] == view
        invariant AnythingAt(view, pos) && multiset(view) == multiset(old(items[..size]))
        decreases size - pos
      {
        assert forall i | 0 <= i < size && i != pos :: items[i] == view[i];
        var right := child + 1;
        if right < size && !Less(items[child], items[right]) { child := right; }
        SmallerChild(view, pos, child);
        HoleMoves(items[..size], view, pos, child, item);
        LowerStep(view, pos, child);
        view := Swapped(view, pos, child);
        items[pos] := items[child];
        pos := child;
        child := 2 * pos + 1;
      }
      items[pos] := item;
      assert items[..size] == view;
      AtLeaf(view, pos);
      SiftDown(pos);
    }

    method Push(item: Entry)
      requires Valid() && size < items.Length
      modifies this`size, items
      ensures Valid() && multiset(Contents()) == multiset(old(Contents())) + multiset{item} && size == old(size) + 1
    {
      ghost var before := items[..size];
      items[size] := item;
      size := size + 1;
      assert items[..size] == before + [item];
      SiftDown(size - 1);
    }

    // Puts an item in the place of the least one, which is returned.
    method Replace(item: Entry) returns (least: Entry)
      requires Valid() && size > 0
      modifies items
      ensures Valid() && least == old(items[0]) && (forall e <- old(Contents()) :: !Less(e, least))
      ensures multiset(Contents()) + multiset{least} == multiset(old(Contents())) + multiset{item}
    {
      ghost var before := items[..size];
      forall i | 0 <= i < |before|
        ensures !Less(before[i], before[0])
      {
        RootLeast(before, i);
      }
      least := items[0];
      items[0] := item;
      assert items[..size] == before[0 := item];
      SiftUp();
    }
  }
}

module TopKSearch {
  import opened Options
  import opened Heaps

  // A chunk of the space: its similarity to the query, or None for a vector without length.
  datatype Candidate = Candidate(id: nat, score: Option<real>)

  datatype Outcome = Ranked(results: seq<Entry>) | IndexError

  // The chunks that can be scored, in stream order.
  function Scored(candidates: seq<Candidate>): seq<Entry>
  {
    if candidates == [] then []
    else
      var last := candidates[|candidates| - 1];
      var earlier := Scored(candidates[..|candidates| - 1]);
      if last.score.Some? then earlier + [Entry(last.score.value, last.id)] else earlier
  }

  predicate Descending(s: seq<Entry>)
  {
    forall i, j | 0 <= i < j < |s| :: s[i].score >= s[j].score
  }

  function Lesser(a: int, b: int): int
  {
    if a < b then a else b
  }

  // What is kept and what is discarded make up everything, and nothing discarded scores higher.
  ghost predicate Best(kept: multiset<Entry>, discarded: multiset<Entry>, all: seq<Entry>, k: nat)
  {
    && kept + discarded == multiset(all) && |kept| == Lesser(k, |all|)
    && forall x, y | x in kept && y in discarded :: x.score >= y.score
  }

  lemma BestNext(kept: multiset<Entry>, discarded: multiset<Entry>, all: seq<Entry>, k: nat, e: Entry)
    requires Best(kept, discarded, all, k) && |kept| < k
    ensures Best(kept + multiset{e}, discarded, all + [e], k)
  {
    assert |discarded| == |multiset(all)| - |kept| == 0;
    assert multiset(all + [e]) == multiset(all) + multiset{e};
  }

  lemma BestReplaced(kept: multiset<Entry>, discarded: multiset<Entry>, all: seq<Entry>, k: nat, e: Entry,
                     least: Entry, after: multiset<Entry>)
    requires Best(kept, discarded, all, k) && |kept| == k && after + multiset{least} == kept + multiset{e}
      && least in kept
    requires least.score < e.score && forall x | x in kept :: x.score >= least.score
    ensures Best(after, discarded + multiset{least}, all + [e], k)
  {
    assert multiset(all + [e]) == multiset(all) + multiset{e};
    assert |after| + 1 == |after + multiset{least}| == |kept + multiset{e}| == |kept| + 1;
    forall x, y | x in after && y in discarded + multiset{least}
      ensures x.score >= y.score
    {
      assert x in kept + multiset{e};
      if y in discarded { assert least.score >= y.score; }
    }
    assert after + (discarded + multiset{least}) == after + multiset{least} + discarded;
  }

  lemma BestKept(kept: multiset<Entry>, discarded: multiset<Entry>, all: seq<Entry>, k: nat, e: Entry)
    requires Best(kept, discarded, all, k) && |kept| == k && forall x | x in kept :: x.score >= e.score
    ensures Best(kept, discarded + multiset{e}, all + [e], k)
  {
    assert multiset(all + [e]) == multiset(all) + multiset{e};
    assert |multiset(all)| == |kept| + |discarded|;
  }

  // Stable, by descending score.
  method SortByScore(entries: seq<Entry>) returns (sorted: seq<Entry>)
    ensures multiset(sorted) == multiset(entries) && Descending(sorted)
  {
    sorted := [];
    for i := 0 to |entries|
      invariant multiset(sorted) == multiset(entries[..i]) && Descending(sorted)
    {
      var e := entries[i];
      var at: nat := |sorted|;
      while at > 0 && sorted[at - 1].score < e.score
        invariant at <= |sorted| && forall j | at <= j < |sorted| :: sorted[j].score < e.score
      {
        at := at - 1;
      }
      assert multiset(entries[..i + 1]) == multiset(entries[..i]) + multiset{e} by {
        assert entries[..i + 1] == entries[..i] + [e];
      }
      Inserted(sorted, at, e);
      sorted := sorted[..at] + [e] + sorted[at..];
    }
    assert entries[..|entries|] == entries;
  }

  lemma Inserted(s: seq<Entry>, at: nat, e: Entry)
    requires Descending(s) && at <= |s| && (at > 0 ==> s[at - 1].score >= e.score)
      && forall j | at <= j < |s| :: s[j].score < e.score
    ensures var t := s[..at] + [e] + s[at..]; Descending(t) && multiset(t) == multiset(s) + multiset{e}
  {
    InsertedMultiset(s, at, e);
    InsertedDescends(s, at, e);
  }

  lemma InsertedMultiset(s: seq<Entry>, at: nat, e: Entry)
    requires at <= |s|
    ensures multiset(s[..at] + [e] + s[at..]) == multiset(s) + multiset{e}
  {
    assert s == s[..at] + s[at..];
    assert multiset(s) == multiset(s[..at]) + multiset(s[at..]);
  }

  lemma InsertedDescends(s: seq<Entry>, at: nat, e: Entry)
    requires Descending(s) && at <= |s| && (at > 0 ==> s[at - 1].score >= e.score)
      && forall j | at <= j < |s| :: s[j].score < e.score
    ensures Descending(s[..at] + [e] + s[at..])
  {
    var t := s[..at] + [e] + s[at..];
    forall i, j | 0 <= i < j < |t|
      ensures t[i].score >= t[j].score
    {
      if at > 0 && i < at { assert s[i].score >= s[at - 1].score; }
    }
  }

  // The best k of all entries, by descending score.
  ghost predicate KeptBest(results: seq<Entry>, all: seq<Entry>, k: nat)
  {
    Descending(results) && exists discarded: multiset<Entry> :: Best(multiset(results), discarded, all, k)
  }

  // Streams the candidates through the bounded heap; asking for none of some fails.
  method Search(candidates: seq<Candidate>, topK: int) returns (outcome: Outcome)
    ensures outcome.IndexError? <==> topK <= 0 && Scored(candidates) != []
    ensures outcome.Ranked? ==> KeptBest(outcome.results, Scored(candidates), if topK < 0 then 0 else topK)
  {
    var k: nat := if topK < 0 then 0 else topK;
    var best := new BoundedHeap(k);
    ghost var discarded: multiset<Entry> := multiset{};
    hide Less, IsHeap, Best;
    BestNone(k);
    assert best.items[..0] == [];
    for i := 0 to |candidates|
      invariant fresh(best) && fresh(best.items) && best.Valid() && best.items.Length == k
      invariant Best(multiset(best.Contents()), discarded, Scored(candidates[..i]), k)
      invariant best.size == Lesser(k, |Scored(candidates[..i])|) && (k == 0 ==> Scored(candidates[..i]) == [])
    {
      assert candidates[..i + 1][..i] == candidates[..i];
      if candidates[i].score.Some? {
        var e := Entry(candidates[i].score.value, candidates[i].id);
        ghost var was := multiset(best.Contents());
        ghost var all := Scored(candidates[..i]);
        if best.size < k {
          best.Push(e);
          BestNext(was, discarded, all, k, e);
        } else if k == 0 {
          ScoredGrows(candidates, i + 1);
          return IndexError;
        } else if e.score > best.items[0].score {
          RootScores(best.Contents());
          var least := best.Replace(e);
          BestReplaced(was, discarded, all, k, e, least, multiset(best.Contents()));
          discarded := discarded + multiset{least};
        } else {
          RootScores(best.Contents());
          BestKept(was, discarded, all, k, e);
          discarded := discarded + multiset{e};
        }
      }
    }
    assert candidates[..|candidates|] == candidates;
    var sorted := SortByScore(best.Contents());
    return Ranked(sorted);
  }

  lemma BestNone(k: nat)
    ensures Best(multiset([]), multiset{}, [], k)
  {
  }

  lemma RootScores(s: seq<Entry>)
    requires IsHeap(s) && s != []
    ensures s[0] in multiset(s) && forall x | x in multiset(s) :: x.score >= s[0].score
  {
    forall x | x in multiset(s)
      ensures x.score >= s[0].score
    {
      var i :| 0 <= i < |s| && s[i] == x;
      RootLeast(s, i);
    }
  }

  lemma {:induction false} ScoredGrows(candidates: seq<Candidate>, n: nat)
    requires n <= |candidates| && Scored(candidates[..n]) != []
    ensures Scored(candidates) != []
    decreases |candidates| - n
  {
    if n < |candidates| {
      assert candidates[..n + 1][..n] == candidates[..n];
      ScoredGrows(candidates, n + 1);
    } else {
      assert candidates[..n] == candidates;
    }
  }

  // ---------- the full sort ----------

  function Scores(s: seq<Entry>): (r: seq<real>)
    ensures |r| == |s| && forall i | 0 <= i < |s| :: r[i] == s[i].score
  {
    seq(|s|, i requires 0 <= i < |s| => s[i].score)
  }

  lemma ScoresSplit(s: seq<Entry>, a: nat)
    requires a < |s|
    ensures multiset(s) == multiset(s[..a] + s[a + 1..]) + multiset{s[a]}
    ensures multiset(Scores(s)) == multiset(Scores(s[..a] + s[a + 1..])) + multiset{s[a].score}
  {
    assert s == s[..a] + [s[a]] + s[a + 1..];
    var r, rest := Scores(s), Scores(s[..a] + s[a + 1..]);
    assert r == r[..a] + [r[a]] + r[a + 1..] && rest == r[..a] + r[a + 1..];
  }

  lemma {:induction false} SameScores(s: seq<Entry>, t: seq<Entry>)
    requires multiset(s) == multiset(t)
    ensures multiset(Scores(s)) == multiset(Scores(t))
    decreases |s|
  {
    if s == [] {
      assert |t| == |multiset(t)| == 0;
    } else {
      assert s[0] in multiset(t);
      var a :| 0 <= a < |t| && t[a] == s[0];
      ScoresSplit(s, 0);
      ScoresSplit(t, a);
      var rest, others := s[..0] + s[1..], t[..a] + t[a + 1..];
      assert multiset(rest) == multiset(s) - multiset{s[0]} == multiset(others);
      SameScores(rest, others);
    }
  }

  predicate Falling(s: seq<real>)
  {
    forall i, j | 0 <= i < j < |s| :: s[i] >= s[j]
  }

  lemma HeadLargest(s: seq<real>, x: real)
    requires Falling(s) && x in multiset(s)
    ensures s != [] && s[0] >= x
  {
    var i :| 0 <= i < |s| && s[i] == x;
  }

  lemma TailOf(s: seq<real>)
    requires s != []
    ensures s[0] in multiset(s) && multiset(s[1..]) == multiset(s) - multiset{s[0]}
  {
    assert s == [s[0]] + s[1..];
  }

  lemma SameSize(s: seq<real>, t: seq<real>)
    requires multiset(s) == multiset(t)
    ensures |s| == |t|
  {
    assert |multiset(s)| == |s| && |multiset(t)| == |t|;
  }

  lemma SameHead(s: seq<real>, t: seq<real>)
    requires Falling(s) && Falling(t) && multiset(s) == multiset(t) && s != [] && t != []
    ensures s[0] == t[0] && multiset(s[1..]) == multiset(t[1..])
  {
    TailOf(s);
    TailOf(t);
    HeadLargest(s, t[0]);
    HeadLargest(t, s[0]);
  }

  // There is one descending arrangement of given scores.
  lemma {:induction false} OneArrangement(s: seq<real>, t: seq<real>)
    requires Falling(s) && Falling(t) && multiset(s) == multiset(t)
    ensures s == t
    decreases |s|
  {
    SameSize(s, t);
    if s != [] {
      SameHead(s, t);
      OneArrangement(s[1..], t[1..]);
      assert s == [s[0]] + s[1..] && t == [t[0]] + t[1..];
    }
  }

  // The bounded heap refines a full sort: the results have the scores of the best entries of any
  // descending arrangement of everything.
  lemma RefinesFullSort(results: seq<Entry>, all: seq<Entry>, k: nat, full: seq<Entry>, i: nat)
    requires KeptBest(results, all, k)
    requires Descending(full) && multiset(full) == multiset(all) && i < |results|
    ensures |results| == Lesser(k, |all|) && i < |full| && results[i].score == full[i].score
  {
    var discarded: multiset<Entry> :| Best(multiset(results), discarded, all, k);
    var rest := Arranged(discarded);
    var arranged := results + rest;
    assert |results| == |multiset(results)|;
    assert multiset(arranged) == multiset(results) + multiset(rest);
    assert forall j | 0 <= j < |rest| :: rest[j] in multiset(rest);
    assert forall j | 0 <= j < |results| :: results[j] in multiset(results);
    assert Descending(arranged);
    SameScores(arranged, full);
    OneArrangement(Scores(arranged), Scores(full));
    assert arranged[i] == results[i];
    assert |full| == |multiset(full)| == |all|;
  }

  lemma {:induction false} Arranged(m: multiset<Entry>) returns (s: seq<Entry>)
    ensures multiset(s) == m && Descending(s)
    decreases |m|
  {
    if m == multiset{} {
      s := [];
    } else {
      var e :| e in m;
      var rest := Arranged(m - multiset{e});
      var at := Place(rest, e);
      Inserted(rest, at, e);
      s := rest[..at] + [e] + rest[at..];
    }
  }

  lemma {:induction false} Place(s: seq<Entry>, e: Entry) returns (at: nat)
    requires Descending(s)
    ensures at <= |s| && (at > 0 ==> s[at - 1].score >= e.score) && forall j | at <= j < |s| :: s[j].score < e.score
  {
    if s == [] || s[|s| - 1].score >= e.score {
      at := |s|;
    } else {
      at := Place(s[..|s| - 1], e);
    }
  }
}
