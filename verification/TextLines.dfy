// Lines of a text: splitting, joining, and what they cost in characters.
module TextLines {
  // The characters that end a line, apart from the pair "\r\n" that ends one together.
  predicate IsBreak(c: char)
  {
    c in {'\n', '\r', '\U{0B}', '\U{0C}', '\U{1C}', '\U{1D}', '\U{1E}', '\U{85}', '\U{2028}', '\U{2029}'}
  }

  lemma SliceOfSlice<T>(s: seq<T>, a: nat, b: nat, x: nat, y: nat)
    requires a <= b <= |s| && x <= y <= b - a
    ensures s[a..b][x..y] == s[a + x..a + y]
  {
    var p, q := s[a..b][x..y], s[a + x..a + y];
    assert |p| == |q| && forall j | 0 <= j < |p| :: p[j] == q[j];
  }

  // The number of characters of the line ending at the given position.
  function BreakLength(text: string, i: nat): (n: nat)
    requires i < |text| && IsBreak(text[i])
    ensures 1 <= n <= |text| - i
  {
    if text[i] == '\r' && i + 1 < |text| && text[i + 1] == '\n' then 2 else 1
  }

  // The position of the first line end at or after i.
  function LineEnd(text: string, i: nat): (e: nat)
    requires i <= |text|
    ensures i <= e <= |text|
    ensures e < |text| ==> IsBreak(text[e])
    ensures forall k | i <= k < e :: !IsBreak(text[k])
    decreases |text| - i
  {
    if i == |text| || IsBreak(text[i]) then i else LineEnd(text, i + 1)
  }

  // splitlines, with or without the line ends kept; a final line end opens no further line.
  function SplitLines(text: string, keepEnds: bool): (lines: seq<string>)
    decreases |text|
  {
    if text == "" then []
    else
      var e := LineEnd(text, 0);
      if e == |text| then [text]
      else
        var next := e + BreakLength(text, e);
        [if keepEnds then text[..next] else text[..e]] + SplitLines(text[next..], keepEnds)
  }

  function Concat(parts: seq<string>): string
  {
    if parts == [] then "" else parts[0] + Concat(parts[1..])
  }

  // With the ends kept nothing is lost.
  lemma {:induction false} LinesLossless(text: string)
    ensures Concat(SplitLines(text, true)) == text
    ensures forall k | 0 <= k < |SplitLines(text, true)| :: SplitLines(text, true)[k] != ""
    decreases |text|
  {
    if text != "" {
      var e := LineEnd(text, 0);
      if e < |text| {
        var next := e + BreakLength(text, e);
        LinesLossless(text[next..]);
        assert text == text[..next] + text[next..];
      } else {
        assert Concat([text]) == text + Concat([]);
      }
    }
  }

  // "\n".join.
  function Join(lines: seq<string>): string
  {
    if lines == [] then "" else if |lines| == 1 then lines[0] else lines[0] + "\n" + Join(lines[1..])
  }

  // What the lines from a on, before b, cost when each is charged one more character than it has.
  function Cost(lines: seq<string>, a: nat, b: nat): (c: nat)
    requires a <= b <= |lines|
    ensures b - a <= c
    decreases b - a
  {
    if a == b then 0 else Cost(lines, a, b - 1) + |lines[b - 1]| + 1
  }

  lemma {:induction false} CostSplit(lines: seq<string>, a: nat, m: nat, b: nat)
    requires a <= m <= b <= |lines|
    ensures Cost(lines, a, b) == Cost(lines, a, m) + Cost(lines, m, b)
    decreases b - m
  {
    if m < b { CostSplit(lines, a, m, b - 1); }
  }

  lemma {:induction false} CostOfSlice(lines: seq<string>, w: nat, i: nat, a: nat, b: nat)
    requires w <= i <= |lines| && a <= b <= i - w
    ensures Cost(lines[w..i], a, b) == Cost(lines, w + a, w + b)
    decreases b - a
  {
    if a < b { CostOfSlice(lines, w, i, a, b - 1); }
  }

  lemma {:induction false} JoinLength(lines: seq<string>)
    requires lines != []
    ensures |Join(lines)| + 1 == Cost(lines, 0, |lines|)
  {
    if |lines| == 1 {
      assert Cost(lines, 0, 0) == 0;
    } else {
      JoinLength(lines[1..]);
      CostOfSlice(lines, 1, |lines|, 0, |lines| - 1);
      assert lines[1..|lines|] == lines[1..];
      CostSplit(lines, 0, 1, |lines|);
      assert Cost(lines, 0, 0) == 0;
    }
  }

  predicate StandsAt(part: string, whole: string, o: nat)
  {
    o + |part| <= |whole| && whole[o..o + |part|] == part
  }

  ghost predicate Within(part: string, whole: string)
  {
    exists o: nat :: StandsAt(part, whole, o)
  }

  lemma {:induction false} JoinPrefix(lines: seq<string>, b: nat)
    requires 0 < b <= |lines|
    ensures Join(lines[..b]) <= Join(lines)
  {
    if b < |lines| && |lines| > 1 {
      if b == 1 {
        assert Join(lines[..1]) == lines[0];
      } else {
        JoinPrefix(lines[1..], b - 1);
        assert lines[..b][1..] == lines[1..][..b - 1];
        assert lines[..b][0] == lines[0];
      }
    } else {
      assert lines[..b] == lines;
    }
  }

  // Consecutive lines stand whole in the joined text.
  lemma {:induction false} JoinWithin(lines: seq<string>, a: nat, b: nat)
    requires a < b <= |lines|
    ensures Within(Join(lines[a..b]), Join(lines))
    decreases a
  {
    if a == 0 {
      JoinPrefix(lines, b);
      assert lines[0..b] == lines[..b];
      assert StandsAt(Join(lines[..b]), Join(lines), 0);
    } else {
      JoinWithin(lines[1..], a - 1, b - 1);
      assert lines[1..][a - 1..b - 1] == lines[a..b];
      var part, rest := Join(lines[a..b]), Join(lines[1..]);
      var o: nat :| StandsAt(part, rest, o);
      var head := lines[0] + "\n";
      assert Join(lines) == head + rest;
      assert StandsAt(part, head + rest, |head| + o);
    }
  }
}
