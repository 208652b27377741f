// Packing the lines of a text, in order, into chunks of bounded size.
module Packing {
  import opened TextLines

  // The characters of the lines from a on, before b.
  function Size(lines: seq<string>, a: nat, b: nat): (n: nat)
    requires a <= b <= |lines|
    decreases b - a
  {
    if a == b then 0 else Size(lines, a, b - 1) + |lines[b - 1]|
  }

  lemma {:induction false} SizeSplit(lines: seq<string>, a: nat, m: nat, b: nat)
    requires a <= m <= b <= |lines|
    ensures Size(lines, a, b) == Size(lines, a, m) + Size(lines, m, b)
    decreases b - m
  {
    if m < b { SizeSplit(lines, a, m, b - 1); }
  }

  lemma {:induction false} ConcatSplit(xs: seq<string>, ys: seq<string>)
    ensures Concat(xs + ys) == Concat(xs) + Concat(ys)
  {
    if xs == [] {
      assert xs + ys == ys;
    } else {
      ConcatSplit(xs[1..], ys);
      assert (xs + ys)[1..] == xs[1..] + ys && (xs + ys)[0] == xs[0];
      assert xs[0] + Concat(xs[1..]) + Concat(ys) == xs[0] + (Concat(xs[1..]) + Concat(ys));
    }
  }

  lemma {:induction false} ConcatSize(lines: seq<string>, a: nat, b: nat)
    requires a <= b <= |lines|
    ensures |Concat(lines[a..b])| == Size(lines, a, b)
    decreases b - a
  {
    if a < b {
      ConcatSize(lines, a, b - 1);
      assert lines[a..b] == lines[a..b - 1] + [lines[b - 1]];
      ConcatSplit(lines[a..b - 1], [lines[b - 1]]);
      assert Concat([lines[b - 1]]) == lines[b - 1];
    } else {
      assert lines[a..b] == [];
    }
  }

  // ---------- splits of a list of lines ----------

  // Lines a up to b may form one chunk: they fit the budget, or there is only one.
  predicate Fits(lines: seq<string>, a: nat, b: nat, maxChars: nat)
    requires a < b <= |lines|
  {
    b == a + 1 || Size(lines, a, b) <= maxChars
  }

  // The cut points of an in-order split of the first n lines into chunks that fit.
  predicate IsSplit(lines: seq<string>, cuts: seq<nat>, n: nat, maxChars: nat)
  {
    && cuts != [] && cuts[0] == 0 && cuts[|cuts| - 1] == n <= |lines|
    && (forall i, j | 0 <= i < j < |cuts| :: cuts[i] < cuts[j])
    && (forall k | 0 < k < |cuts| :: Fits(lines, cuts[k - 1], cuts[k], maxChars))
  }

  // No chunk could have taken the next line.
  predicate Maximal(lines: seq<string>, cuts: seq<nat>, n: nat, maxChars: nat)
    requires IsSplit(lines, cuts, n, maxChars)
  {
    forall k | 0 < k < |cuts| && cuts[k] < |lines| :: !Fits(lines, cuts[k - 1], cuts[k] + 1, maxChars)
  }

  // A maximal split is always at least as far as any other.
  lemma {:induction false} GreedyAhead(lines: seq<string>, cuts: seq<nat>, n: nat, other: seq<nat>, m: nat,
                                       maxChars: nat, k: nat)
    requires IsSplit(lines, cuts, n, maxChars) && Maximal(lines, cuts, n, maxChars)
    requires IsSplit(lines, other, m, maxChars) && k < |cuts| && k < |other|
    requires k > 0 ==> cuts[k - 1] < |lines|
    ensures other[k] <= cuts[k] || cuts[k] == |lines|
  {
    if k > 0 {
      GreedyAhead(lines, cuts, n, other, m, maxChars, k - 1);
      if cuts[k] < other[k] && cuts[k] < |lines| {
        var a, c, b, d := cuts[k - 1], other[k - 1], cuts[k], other[k];
        assert Fits(lines, c, d, maxChars) && !Fits(lines, a, b + 1, maxChars);
        SizeSplit(lines, c, a, d);
        SizeSplit(lines, a, b + 1, d);
      }
    }
  }

  // A maximal split of all the lines has the fewest chunks of all splits.
  lemma FewestChunks(lines: seq<string>, cuts: seq<nat>, other: seq<nat>, maxChars: nat)
    requires IsSplit(lines, cuts, |lines|, maxChars) && Maximal(lines, cuts, |lines|, maxChars)
    requires IsSplit(lines, other, |lines|, maxChars)
    ensures |cuts| <= |other|
  {
    if |other| < |cuts| {
      var k := |other| - 1;
      assert cuts[k] < cuts[|cuts| - 1];
      if k > 0 { assert cuts[k - 1] < cuts[k]; }
      GreedyAhead(lines, cuts, |lines|, other, |lines|, maxChars, k);
    }
  }

  predicate CutsIn(lines: seq<string>, cuts: seq<nat>)
  {
    (forall i, j | 0 <= i <= j < |cuts| :: cuts[i] <= cuts[j]) && forall k | 0 <= k < |cuts| :: cuts[k] <= |lines|
  }

  // The chunks between the cut points.
  function Groups(lines: seq<string>, cuts: seq<nat>): (chunks: seq<string>)
    requires CutsIn(lines, cuts)
    decreases |cuts|
  {
    if |cuts| < 2 then []
    else Groups(lines, cuts[..|cuts| - 1]) + [Concat(lines[cuts[|cuts| - 2]..cuts[|cuts| - 1]])]
  }

  lemma GroupsNext(lines: seq<string>, cuts: seq<nat>, i: nat)
    requires CutsIn(lines, cuts) && cuts != [] && cuts[|cuts| - 1] <= i <= |lines|
    ensures CutsIn(lines, cuts + [i])
    ensures Groups(lines, cuts + [i]) == Groups(lines, cuts) + [Concat(lines[cuts[|cuts| - 1]..i])]
  {
    hide Concat;
    assert (cuts + [i])[..|cuts|] == cuts;
  }

  lemma SplitCuts(lines: seq<string>, cuts: seq<nat>, n: nat, maxChars: nat)
    requires IsSplit(lines, cuts, n, maxChars)
    ensures CutsIn(lines, cuts) && cuts != [] && cuts[|cuts| - 1] == n <= |lines|
  {
  }

  lemma ConcatOne(line: string)
    ensures Concat([line]) == line
  {
    assert Concat([line]) == line + Concat([]);
  }

  lemma ShorterSplit(lines: seq<string>, cuts: seq<nat>, n: nat, maxChars: nat)
    requires IsSplit(lines, cuts, n, maxChars) && |cuts| > 1
    ensures IsSplit(lines, cuts[..|cuts| - 1], cuts[|cuts| - 2], maxChars) && cuts[|cuts| - 2] < n
  {
  }

  lemma {:induction false} GroupsLossless(lines: seq<string>, cuts: seq<nat>, n: nat, maxChars: nat)
    requires IsSplit(lines, cuts, n, maxChars)
    ensures CutsIn(lines, cuts) && |Groups(lines, cuts)| == |cuts| - 1
      && Concat(Groups(lines, cuts)) == Concat(lines[..n])
    decreases |cuts|
  {
    SplitCuts(lines, cuts, n, maxChars);
    if |cuts| == 1 {
      assert lines[..0] == [];
    } else {
      var shorter := cuts[..|cuts| - 1];
      var m := cuts[|cuts| - 2];
      ShorterSplit(lines, cuts, n, maxChars);
      GroupsLossless(lines, shorter, m, maxChars);
      assert Groups(lines, cuts) == Groups(lines, shorter) + [Concat(lines[m..n])];
      hide Groups, Concat, IsSplit;
      ConcatSplit(Groups(lines, shorter), [Concat(lines[m..n])]);
      ConcatOne(Concat(lines[m..n]));
      ConcatSplit(lines[..m], lines[m..n]);
      assert lines[..n] == lines[..m] + lines[m..n];
    }
  }

  lemma {:induction false} GroupAt(lines: seq<string>, cuts: seq<nat>, n: nat, maxChars: nat, k: nat)
    requires IsSplit(lines, cuts, n, maxChars) && k + 1 < |cuts|
    ensures CutsIn(lines, cuts) && k < |Groups(lines, cuts)|
      && Groups(lines, cuts)[k] == Concat(lines[cuts[k]..cuts[k + 1]])
    decreases |cuts|
  {
    GroupsLossless(lines, cuts, n, maxChars);
    if k + 2 < |cuts| {
      ShorterSplit(lines, cuts, n, maxChars);
      GroupAt(lines, cuts[..|cuts| - 1], cuts[|cuts| - 2], maxChars, k);
    }
  }

  // ---------- summary inputs ----------

  // What a packing of the text into chunks of at most maxChars characters promises: the chunks are
  // the lines between some cut points, each fits, none is lost, and no split has fewer.
  ghost predicate PackedBest(text: string, chunks: seq<string>, maxChars: nat)
  {
    var lines := SplitLines(text, true);
    && Concat(chunks) == text
    && (forall c | c in chunks :: |c| <= maxChars || c in lines)
    && (exists cuts: seq<nat> ::
         CutsIn(lines, cuts) && IsSplit(lines, cuts, |lines|, maxChars) && chunks == Groups(lines, cuts))
    && (forall other: seq<nat> :: IsSplit(lines, other, |lines|, maxChars) ==> |chunks| < |other|)
  }

  lemma PackedFromCuts(text: string, cuts: seq<nat>, maxChars: nat)
    requires var lines := SplitLines(text, true);
      IsSplit(lines, cuts, |lines|, maxChars) && Maximal(lines, cuts, |lines|, maxChars)
    ensures var lines := SplitLines(text, true); CutsIn(lines, cuts) && PackedBest(text, Groups(lines, cuts), maxChars)
  {
    hide SplitLines;
    var lines := SplitLines(text, true);
    SplitCuts(lines, cuts, |lines|, maxChars);
    var chunks := Groups(lines, cuts);
    LinesLossless(text);
    GroupsLossless(lines, cuts, |lines|, maxChars);
    assert lines[..|lines|] == lines;
    hide Groups;
    forall c | c in chunks
      ensures |c| <= maxChars || c in lines
    {
      GroupFits(lines, cuts, maxChars, c);
    }
    forall other: seq<nat> | IsSplit(lines, other, |lines|, maxChars)
      ensures |chunks| < |other|
    {
      FewestChunks(lines, cuts, other, maxChars);
    }
  }

  lemma GroupFits(lines: seq<string>, cuts: seq<nat>, maxChars: nat, c: string)
    requires IsSplit(lines, cuts, |lines|, maxChars) && CutsIn(lines, cuts) && c in Groups(lines, cuts)
    ensures |c| <= maxChars || c in lines
  {
    var chunks := Groups(lines, cuts);
    GroupsLossless(lines, cuts, |lines|, maxChars);
    hide Groups;
    var k :| 0 <= k < |chunks| && chunks[k] == c;
    GroupAt(lines, cuts, |lines|, maxChars, k);
    assert Fits(lines, cuts[k + 1 - 1], cuts[k + 1], maxChars);
    if cuts[k + 1] == cuts[k] + 1 {
      assert lines[cuts[k]..cuts[k + 1]] == [lines[cuts[k]]];
      ConcatOne(lines[cuts[k]]);
    } else {
      ConcatSize(lines, cuts[k], cuts[k + 1]);
    }
  }

  lemma CutAdded(lines: seq<string>, cuts: seq<nat>, s: nat, i: nat, maxChars: nat)
    requires IsSplit(lines, cuts, s, maxChars) && Maximal(lines, cuts, s, maxChars)
    requires s < i <= |lines| && Fits(lines, s, i, maxChars) && (i < |lines| ==> Size(lines, s, i + 1) > maxChars)
    ensures IsSplit(lines, cuts + [i], i, maxChars) && Maximal(lines, cuts + [i], i, maxChars)
  {
  }

  method SplitByLines(text: string, maxChars: nat) returns (chunks: seq<string>)
    ensures PackedBest(text, chunks, maxChars)
  {
    hide SplitLines, Groups, PackedBest;
    var lines := SplitLines(text, true);
    var current, currentLen := [], 0;
    chunks := [];
    ghost var cuts: seq<nat> := [0];
    ghost var s: nat := 0;
    var i := 0;
    NoGroups(lines);
    while i < |lines|
      invariant s <= i <= |lines| && current == lines[s..i] && currentLen == Size(lines, s, i)
      invariant s < i ==> Fits(lines, s, i, maxChars)
      invariant s == i ==> i == 0
      invariant IsSplit(lines, cuts, s, maxChars) && Maximal(lines, cuts, s, maxChars)
      invariant CutsIn(lines, cuts) && chunks == Groups(lines, cuts)
    {
      var line := lines[i];
      if currentLen + |line| > maxChars && current != [] {
        CutAdded(lines, cuts, s, i, maxChars);
        GroupsNext(lines, cuts, i);
        chunks := chunks + [Concat(current)];
        cuts, s := cuts + [i], i;
        current, currentLen := [], 0;
      }
      assert lines[s..i] + [line] == lines[s..i + 1];
      current, currentLen := current + [line], currentLen + |line|;
      i := i + 1;
    }
    if current != [] {
      CutAdded(lines, cuts, s, i, maxChars);
      GroupsNext(lines, cuts, i);
      chunks := chunks + [Concat(current)];
      cuts := cuts + [i];
    }
    PackedFromCuts(text, cuts, maxChars);
  }

  lemma NoGroups(lines: seq<string>)
    ensures CutsIn(lines, [0]) && Groups(lines, [0]) == []
  {
  }
}
