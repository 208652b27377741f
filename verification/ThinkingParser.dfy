// The incremental <think> parser: how far its output depends on where the stream was cut.
module TextSearch {
  // The tag stands in the text at position i.
  predicate TagAt(text: string, i: nat, tag: string)
  {
    i + |tag| <= |text| && text[i..i + |tag|] == tag
  }

  // The first position of a tag at or after i; the text's length when there is none.
  function Find(text: string, tag: string, i: nat): (p: nat)
    requires i <= |text| && tag != ""
    ensures i <= p <= |text|
    ensures p < |text| ==> TagAt(text, p, tag)
    ensures forall k | i <= k < p :: !TagAt(text, k, tag)
    decreases |text| - i
  {
    if i == |text| || TagAt(text, i, tag) then i else Find(text, tag, i + 1)
  }
}

module Thinking {
  import opened TextLines
  import opened TextSearch

  const OPEN: string := "<think>"
  const CLOSE: string := "</think>"

  datatype Output = Output(thinking: string, content: string)

  function Both(a: Output, b: Output): Output
  {
    Output(a.thinking + b.thinking, a.content + b.content)
  }

  // The parser between two fragments.
  datatype Parser = Parser(inThink: bool, carry: string)

  // What one feed does with the carried text and the new fragment.
  function Scan(inThink: bool, remaining: string): (r: (Parser, Output))
    decreases |remaining|
  {
    if remaining == "" then (Parser(inThink, ""), Output("", ""))
    else if inThink then
      var end := Find(remaining, CLOSE, 0);
      if end == |remaining| then
        var safe := if |remaining| < 8 then 0 else |remaining| - 8;
        (Parser(true, remaining[safe..]), Output(remaining[..safe], ""))
      else
        var (parser, out) := Scan(false, remaining[end + 8..]);
        (parser, Both(Output(remaining[..end], ""), out))
    else
      var start := Find(remaining, OPEN, 0);
      if start == |remaining| then (Parser(false, ""), Output("", remaining))
      else
        var (parser, out) := Scan(true, remaining[start + 7..]);
        (parser, Both(Output("", remaining[..start]), out))
  }

  function Flushed(parser: Parser): Output
  {
    if parser.inThink then Output(parser.carry, "") else Output("", parser.carry)
  }

  // All fragments fed in order, then the flush.
  function FeedAll(parser: Parser, fragments: seq<string>): Output
    decreases |fragments|
  {
    if fragments == [] then Flushed(parser)
    else
      var (next, out) := Scan(parser.inThink, parser.carry + fragments[0]);
      Both(out, FeedAll(next, fragments[1..]))
  }

  lemma BothAssociates(a: Output, b: Output, c: Output)
    ensures Both(Both(a, b), c) == Both(a, Both(b, c))
    ensures Both(Output("", ""), a) == a == Both(a, Output("", ""))
  {
  }

  class ThinkingParser {
    var inThink: bool
    var carry: string

    // Text is carried only inside a think block, and never as much as a closing tag with more.
    ghost predicate Valid()
      reads this
    {
      |carry| <= 8 && (carry != "" ==> inThink)
    }

    function State(): Parser
      reads this
    {
      Parser(inThink, carry)
    }

    constructor ()
      ensures Valid() && State() == Parser(false, "")
    {
      inThink, carry := false, "";
    }

    method Feed(fragment: string) returns (thinking: string, content: string)
      requires Valid()
      modifies this
      ensures Valid()
      ensures (State(), Output(thinking, content)) == Scan(old(inThink), old(carry) + fragment)
    {
      var remaining := carry + fragment;
      carry := "";
      thinking, content := "", "";
      ghost var whole := Scan(inThink, remaining);
      BothAssociates(whole.1, whole.1, whole.1);
      while remaining != ""
        invariant carry == ""
        invariant whole == (Scan(inThink, remaining).0, Both(Output(thinking, content), Scan(inThink, remaining).1))
        decreases |remaining|
      {
        hide Find;
        if inThink {
          var end := Find(remaining, CLOSE, 0);
          if end == |remaining| {
            var safe := if |remaining| < 8 then 0 else |remaining| - 8;
            assert content + "" == content;
            thinking := thinking + remaining[..safe];
            carry := remaining[safe..];
            break;
          }
          BothAssociates(Output(thinking, content), Output(remaining[..end], ""), Scan(false, remaining[end + 8..]).1);
          thinking := thinking + remaining[..end];
          remaining := remaining[end + 8..];
          inThink := false;
        } else {
          var start := Find(remaining, OPEN, 0);
          if start == |remaining| {
            assert thinking + "" == thinking;
            content := content + remaining;
            break;
          }
          BothAssociates(Output(thinking, content), Output("", remaining[..start]),
                         Scan(true, remaining[start + 7..]).1);
          content := content + remaining[..start];
          remaining := remaining[start + 7..];
          inThink := true;
        }
      }
      BothAssociates(Output(thinking, content), Output("", ""), Output("", ""));
    }

    method Flush() returns (thinking: string, content: string)
      requires Valid()
      modifies this`carry
      ensures Valid() && State() == Parser(old(inThink), "") && Output(thinking, content) == Flushed(old(State()))
    {
      var remaining := carry;
      carry := "";
      thinking, content := "", "";
      if inThink { thinking := remaining; } else { content := remaining; }
    }
  }

  // ---------- the parse as a walk over the characters ----------

  // An opening tag at i that no cut of the stream falls inside.
  ghost predicate OpensAt(text: string, cuts: set<nat>, i: nat)
  {
    TagAt(text, i, OPEN) && forall c | c in cuts :: c <= i || i + 7 <= c
  }

  // The parse of a text delivered with the given cuts; closing tags are found whatever the cuts.
  ghost function Parse(text: string, cuts: set<nat>, i: nat, inThink: bool): Output
    requires i <= |text|
    decreases |text| - i
  {
    if i == |text| then Output("", "")
    else if inThink then
      if TagAt(text, i, CLOSE) then Parse(text, cuts, i + 8, false)
      else Both(Output([text[i]], ""), Parse(text, cuts, i + 1, true))
    else
      if OpensAt(text, cuts, i) then Parse(text, cuts, i + 7, true)
      else Both(Output("", [text[i]]), Parse(text, cuts, i + 1, false))
  }

  // No cut falls inside an opening tag that the parse of the uncut text recognises.
  ghost predicate Clean(text: string, cuts: set<nat>, i: nat, inThink: bool)
    requires i <= |text|
    decreases |text| - i
  {
    if i == |text| then true
    else if inThink then
      if TagAt(text, i, CLOSE) then Clean(text, cuts, i + 8, false) else Clean(text, cuts, i + 1, true)
    else
      if TagAt(text, i, OPEN) then OpensAt(text, cuts, i) && Clean(text, cuts, i + 7, true)
      else Clean(text, cuts, i + 1, false)
  }

  // ---------- feeding fragments is the parse with their boundaries as cuts ----------

  lemma {:induction false} PlainContent(text: string, cuts: set<nat>, i: nat, e: nat)
    requires i <= e <= |text| && forall k | i <= k < e :: !OpensAt(text, cuts, k)
    ensures Parse(text, cuts, i, false) == Both(Output("", text[i..e]), Parse(text, cuts, e, false))
    decreases e - i
  {
    hide OpensAt;
    if i < e {
      PlainContent(text, cuts, i + 1, e);
      assert text[i..e] == [text[i]] + text[i + 1..e];
      BothAssociates(Output("", [text[i]]), Output("", text[i + 1..e]), Parse(text, cuts, e, false));
    } else {
      BothAssociates(Parse(text, cuts, e, false), Output("", ""), Output("", ""));
    }
  }

  lemma {:induction false} PlainThinking(text: string, cuts: set<nat>, i: nat, e: nat)
    requires i <= e <= |text| && forall k | i <= k < e :: !TagAt(text, k, CLOSE)
    ensures Parse(text, cuts, i, true) == Both(Output(text[i..e], ""), Parse(text, cuts, e, true))
    decreases e - i
  {
    hide OpensAt;
    if i < e {
      PlainThinking(text, cuts, i + 1, e);
      assert text[i..e] == [text[i]] + text[i + 1..e];
      BothAssociates(Output([text[i]], ""), Output(text[i + 1..e], ""), Parse(text, cuts, e, true));
    } else {
      BothAssociates(Parse(text, cuts, e, true), Output("", ""), Output("", ""));
    }
  }

  // A tag in a piece of the text is a tag of the text.
  lemma TagInPiece(text: string, i: nat, n: nat, k: nat, tag: string)
    requires i <= n <= |text| && i <= k && k + |tag| <= n
    ensures TagAt(text[i..n], k - i, tag) <==> TagAt(text, k, tag)
  {
    var a, b := text[i..n][k - i..k - i + |tag|], text[k..k + |tag|];
    assert |a| == |b| && forall j | 0 <= j < |a| :: a[j] == b[j];
  }

  // The first tag of a piece, if any, is the first one of the text that lies within the piece.
  lemma FirstInPiece(text: string, i: nat, n: nat, tag: string)
    requires i <= n <= |text| && tag != ""
    ensures var p := i + Find(text[i..n], tag, 0);
      && (forall k | i <= k < p && k + |tag| <= n :: !TagAt(text, k, tag))
      && (p < n ==> TagAt(text, p, tag) && p + |tag| <= n)
  {
    hide TagAt;
    var piece := text[i..n];
    var e := Find(piece, tag, 0);
    forall k | i <= k < i + e && k + |tag| <= n
      ensures !TagAt(text, k, tag)
    {
      TagInPiece(text, i, n, k, tag);
      assert !TagAt(piece, k - i, tag);
    }
    if e < |piece| {
      TagRoom(piece, e, tag);
      TagInPiece(text, i, n, i + e, tag);
    }
  }

  lemma TagRoom(text: string, i: nat, tag: string)
    requires TagAt(text, i, tag)
    ensures i + |tag| <= |text|
  {
  }

  // The stream has been cut at n, and nowhere between f and n.
  ghost predicate Fragment(text: string, cuts: set<nat>, f: nat, n: nat)
  {
    f <= n <= |text| && (n in cuts || n == |text|) && forall c | c in cuts :: c <= f || n <= c
  }

  lemma FirstOpening(text: string, cuts: set<nat>, f: nat, i: nat, n: nat)
    requires Fragment(text, cuts, f, n) && f <= i <= n
    ensures var p := i + Find(text[i..n], OPEN, 0);
      && (forall k | i <= k < p :: !OpensAt(text, cuts, k))
      && (p < n ==> OpensAt(text, cuts, p) && p + 7 <= n)
  {
    FirstInPiece(text, i, n, OPEN);
    hide Find;
    var p := i + Find(text[i..n], OPEN, 0);
    forall k | i <= k < p
      ensures !OpensAt(text, cuts, k)
    {
      if k + 7 > n && n == |text| { assert !TagAt(text, k, OPEN); }
    }
  }

  // What a feed that turned Parse at i into the given parser and output amounts to.
  ghost predicate Advances(text: string, cuts: set<nat>, i: nat, n: nat, inThink: bool, parser: Parser, out: Output)
  {
    var e := n - |parser.carry|;
    && i <= e <= n <= |text| && parser.carry == text[e..n] && (parser.carry != "" ==> parser.inThink)
    && Parse(text, cuts, i, inThink) == Both(out, Parse(text, cuts, e, parser.inThink))
    && (parser.inThink ==> forall k | e <= k && k + 8 <= n :: !TagAt(text, k, CLOSE))
  }

  lemma AdvancesAfter(text: string, cuts: set<nat>, i: nat, first: Output, j: nat, n: nat, before: bool,
                      inThink: bool, parser: Parser, out: Output)
    requires i <= j && Advances(text, cuts, j, n, inThink, parser, out)
    requires Parse(text, cuts, i, before) == Both(first, Parse(text, cuts, j, inThink))
    ensures Advances(text, cuts, i, n, before, parser, Both(first, out))
  {
    hide Parse, TagAt;
    BothAssociates(first, out, Parse(text, cuts, n - |parser.carry|, parser.inThink));
  }

  // One feed advances the parse to what it leaves carried.
  lemma {:induction false} ScanAdvances(text: string, cuts: set<nat>, f: nat, i: nat, n: nat, inThink: bool)
    requires Fragment(text, cuts, f, n) && i <= n
    requires if inThink then forall k | i <= k && k + 8 <= f :: !TagAt(text, k, CLOSE) else f <= i
    ensures Advances(text, cuts, i, n, inThink, Scan(inThink, text[i..n]).0, Scan(inThink, text[i..n]).1)
    decreases n - i
  {
    hide OpensAt, TagAt, Find, Advances, Scan, Parse;
    if i == n {
      NothingScanned(text, cuts, i, inThink);
    } else if inThink {
      FirstInPiece(text, i, n, CLOSE);
      var end := i + Find(text[i..n], CLOSE, 0);
      if end == n {
        StillThinking(text, cuts, i, n);
      } else {
        PlainThinking(text, cuts, i, end);
        ScanAdvances(text, cuts, f, end + 8, n, false);
        ThinkingEnds(text, cuts, i, end, n);
      }
    } else {
      FirstOpening(text, cuts, f, i, n);
      var start := i + Find(text[i..n], OPEN, 0);
      PlainContent(text, cuts, i, start);
      if start == n {
        AllContent(text, cuts, i, n);
      } else {
        ScanAdvances(text, cuts, f, start + 7, n, true);
        ThinkingStarts(text, cuts, i, start, n);
      }
    }
  }

  lemma NothingScanned(text: string, cuts: set<nat>, i: nat, inThink: bool)
    requires i <= |text|
    ensures Advances(text, cuts, i, i, inThink, Scan(inThink, text[i..i]).0, Scan(inThink, text[i..i]).1)
  {
    hide Parse, TagAt;
    assert text[i..i] == "";
    BothAssociates(Parse(text, cuts, i, inThink), Output("", ""), Output("", ""));
  }

  lemma StillThinking(text: string, cuts: set<nat>, i: nat, n: nat)
    requires i < n <= |text| && Find(text[i..n], CLOSE, 0) == n - i
    requires forall k | i <= k < n && k + 8 <= n :: !TagAt(text, k, CLOSE)
    ensures Advances(text, cuts, i, n, true, Scan(true, text[i..n]).0, Scan(true, text[i..n]).1)
  {
    hide Parse, TagAt, Find;
    var e := if n - i < 8 then i else n - 8;
    PlainThinking(text, cuts, i, e);
    SliceOfSlice(text, i, n, 0, e - i);
    SliceOfSlice(text, i, n, e - i, n - i);
  }

  lemma AllContent(text: string, cuts: set<nat>, i: nat, n: nat)
    requires i < n <= |text| && Find(text[i..n], OPEN, 0) == n - i
    requires Parse(text, cuts, i, false) == Both(Output("", text[i..n]), Parse(text, cuts, n, false))
    ensures Advances(text, cuts, i, n, false, Scan(false, text[i..n]).0, Scan(false, text[i..n]).1)
  {
    hide Parse, TagAt, Find;
  }

  lemma ScanEnds(remaining: string, end: nat)
    requires end + 8 <= |remaining| && Find(remaining, CLOSE, 0) == end
    ensures Scan(true, remaining) == (Scan(false, remaining[end + 8..]).0,
                                      Both(Output(remaining[..end], ""), Scan(false, remaining[end + 8..]).1))
  {
    hide Find;
  }

  lemma ScanStarts(remaining: string, start: nat)
    requires start + 7 <= |remaining| && Find(remaining, OPEN, 0) == start
    ensures Scan(false, remaining) == (Scan(true, remaining[start + 7..]).0,
                                       Both(Output("", remaining[..start]), Scan(true, remaining[start + 7..]).1))
  {
    hide Find;
  }

  lemma ThinkingEnds(text: string, cuts: set<nat>, i: nat, e: nat, n: nat)
    requires i <= e && e + 8 <= n <= |text| && TagAt(text, e, CLOSE) && Find(text[i..n], CLOSE, 0) == e - i
    requires Parse(text, cuts, i, true) == Both(Output(text[i..e], ""), Parse(text, cuts, e, true))
    requires Advances(text, cuts, e + 8, n, false, Scan(false, text[e + 8..n]).0, Scan(false, text[e + 8..n]).1)
    ensures Advances(text, cuts, i, n, true, Scan(true, text[i..n]).0, Scan(true, text[i..n]).1)
  {
    assert Parse(text, cuts, e, true) == Parse(text, cuts, e + 8, false);
    hide Parse, Advances, Find, TagAt, Scan;
    assert text[i..n][e - i + 8..] == text[e + 8..n] && text[i..n][..e - i] == text[i..e];
    ScanEnds(text[i..n], e - i);
    var (parser, out) := Scan(false, text[e + 8..n]);
    AdvancesAfter(text, cuts, i, Output(text[i..e], ""), e + 8, n, true, false, parser, out);
  }

  lemma ThinkingStarts(text: string, cuts: set<nat>, i: nat, p: nat, n: nat)
    requires i <= p && p + 7 <= n <= |text| && OpensAt(text, cuts, p) && Find(text[i..n], OPEN, 0) == p - i
    requires Parse(text, cuts, i, false) == Both(Output("", text[i..p]), Parse(text, cuts, p, false))
    requires Advances(text, cuts, p + 7, n, true, Scan(true, text[p + 7..n]).0, Scan(true, text[p + 7..n]).1)
    ensures Advances(text, cuts, i, n, false, Scan(false, text[i..n]).0, Scan(false, text[i..n]).1)
  {
    assert Parse(text, cuts, p, false) == Parse(text, cuts, p + 7, true);
    hide Parse, Advances, Find, TagAt, OpensAt, Scan;
    assert text[i..n][p - i + 7..] == text[p + 7..n] && text[i..n][..p - i] == text[i..p];
    ScanStarts(text[i..n], p - i);
    var (parser, out) := Scan(true, text[p + 7..n]);
    AdvancesAfter(text, cuts, i, Output("", text[i..p]), p + 7, n, false, true, parser, out);
  }

  // The positions at which a fragmentation cuts the text, counted from the given start.
  function Cuts(fragments: seq<string>, start: nat): (cuts: set<nat>)
    ensures forall c | c in cuts :: start <= c
    decreases |fragments|
  {
    if fragments == [] then {} else {start + |fragments[0]|} + Cuts(fragments[1..], start + |fragments[0]|)
  }

  // Feeding the fragments of a text, from a state that has taken in the first f characters and
  // still carries those from i on.
  lemma {:induction false} FeedParses(text: string, cuts: set<nat>, i: nat, f: nat, parser: Parser,
                                      fragments: seq<string>)
    requires i <= f <= |text| && text[f..] == Concat(fragments)
    requires Cuts(fragments, f) <= cuts && forall c | c in cuts :: c <= f || c in Cuts(fragments, f)
    requires parser.carry == text[i..f] && (parser.carry != "" ==> parser.inThink)
    requires parser.inThink ==> forall k | i <= k && k + 8 <= f :: !TagAt(text, k, CLOSE)
    ensures FeedAll(parser, fragments) == Parse(text, cuts, i, parser.inThink)
    decreases |fragments|
  {
    hide Scan, OpensAt, TagAt;
    if fragments == [] {
      assert f == |text|;
      if parser.inThink {
        NoRoom(text, CLOSE);
        PlainThinking(text, cuts, i, f);
      }
    } else {
      var n := f + |fragments[0]|;
      NextFragment(text, i, f, fragments[0], Concat(fragments[1..]));
      assert Fragment(text, cuts, f, n);
      hide Fragment;
      ScanAdvances(text, cuts, f, i, n, parser.inThink);
      var (next, out) := Scan(parser.inThink, text[i..n]);
      hide Parse;
      FeedParses(text, cuts, n - |next.carry|, n, next, fragments[1..]);
    }
  }

  lemma NextFragment(text: string, i: nat, f: nat, fragment: string, rest: string)
    requires i <= f <= |text| && text[f..] == fragment + rest
    ensures var n := f + |fragment|; n <= |text| && text[i..f] + fragment == text[i..n] && text[n..] == rest
  {
    assert text == text[..f] + (fragment + rest);
  }

  lemma NoRoom(text: string, tag: string)
    ensures forall k: nat | k + |tag| > |text| :: !TagAt(text, k, tag)
  {
  }

  // ---------- when the cuts do not matter ----------

  // No tag starts inside another.
  lemma TagsApart(text: string, i: nat)
    ensures TagAt(text, i, OPEN) ==> !TagAt(text, i, CLOSE) && forall k | i < k < i + 7 ::
        !TagAt(text, k, OPEN) && !TagAt(text, k, CLOSE)
    ensures TagAt(text, i, CLOSE) ==> forall k | i <= k < i + 8 :: !TagAt(text, k, OPEN)
  {
    if TagAt(text, i, OPEN) {
      assert forall k | i < k < i + 7 :: text[k] == text[i..i + 7][k - i] == OPEN[k - i] != '<';
      NoBracket(text, i + 1, i + 7);
      assert text[i + 1] == 't';
      NotBoth(text, i);
    }
    if TagAt(text, i, CLOSE) {
      assert forall k | i < k < i + 8 :: text[k] == text[i..i + 8][k - i] == CLOSE[k - i] != '<';
      NoBracket(text, i + 1, i + 8);
    }
  }

  lemma NotBoth(text: string, i: nat)
    requires i + 1 < |text| && text[i + 1] == 't'
    ensures !TagAt(text, i, CLOSE)
  {
    if i + 8 <= |text| { assert text[i..i + 8][1] == text[i + 1] != CLOSE[1]; }
  }

  lemma NoBracket(text: string, a: nat, b: nat)
    requires b <= |text| && forall k | a <= k < b :: text[k] != '<'
    ensures forall k | a <= k < b :: !TagAt(text, k, OPEN) && !TagAt(text, k, CLOSE)
  {
    forall k | a <= k < b
      ensures !TagAt(text, k, OPEN) && !TagAt(text, k, CLOSE)
    {
      TagStarts(text, k, OPEN);
      TagStarts(text, k, CLOSE);
    }
  }

  lemma TagStarts(text: string, k: nat, tag: string)
    requires k < |text| && tag != ""
    ensures TagAt(text, k, tag) ==> text[k] == tag[0]
  {
    if TagAt(text, k, tag) { assert text[k] == text[k..k + |tag|][0]; }
  }

  lemma {:induction false} CleanParses(text: string, cuts: set<nat>, i: nat, inThink: bool)
    requires i <= |text| && Clean(text, cuts, i, inThink)
    ensures Parse(text, cuts, i, inThink) == Parse(text, {}, i, inThink)
    decreases |text| - i
  {
    if i < |text| {
      if inThink {
        if TagAt(text, i, CLOSE) { CleanParses(text, cuts, i + 8, false);
        } else { CleanParses(text, cuts, i + 1, true); }
      } else if TagAt(text, i, OPEN) {
        CleanParses(text, cuts, i + 7, true);
      } else {
        CleanParses(text, cuts, i + 1, false);
      }
    }
  }

  // A parse with cuts never takes less for content than the uncut one.
  lemma {:induction false} ContentGrows(text: string, cuts: set<nat>, i: nat, inThink: bool, uncut: bool)
    requires i <= |text| && (inThink ==> uncut)
    ensures |Parse(text, cuts, i, inThink).content| >= |Parse(text, {}, i, uncut).content|
    decreases |text| - i
  {
    TagsApart(text, i);
    if i < |text| {
      if !inThink && !OpensAt(text, cuts, i) && (TagAt(text, i, OPEN) || TagAt(text, i, CLOSE)) {
        MissedTag(text, cuts, i, uncut);
      } else if !inThink && uncut && TagAt(text, i, OPEN) {
        assert forall k | i <= k < i + 7 :: !TagAt(text, k, CLOSE);
        hide TagAt, OpensAt;
        ContentGrows(text, cuts, i + 7, true, true);
        PlainThinking(text, {}, i, i + 7);
      } else {
        hide TagAt, OpensAt;
        if inThink {
          if TagAt(text, i, CLOSE) { ContentGrows(text, cuts, i + 8, false, false);
          } else { ContentGrows(text, cuts, i + 1, true, true); }
        } else if OpensAt(text, cuts, i) {
          Opened(text, cuts, i);
          ContentGrows(text, cuts, i + 7, true, true);
        } else {
          NotOpened(text, cuts, i);
          ContentGrows(text, cuts, i + 1, false, uncut);
        }
      }
    }
  }

  lemma Opened(text: string, cuts: set<nat>, i: nat)
    requires OpensAt(text, cuts, i)
    ensures OpensAt(text, {}, i) && TagAt(text, i, OPEN) && i + 7 <= |text|
  {
  }

  lemma NotOpened(text: string, cuts: set<nat>, i: nat)
    requires !TagAt(text, i, OPEN)
    ensures !OpensAt(text, {}, i) && !OpensAt(text, cuts, i)
  {
  }

  // A tag that the parse with cuts passes over as content.
  lemma {:induction false} MissedTag(text: string, cuts: set<nat>, i: nat, uncut: bool)
    requires i < |text| && !OpensAt(text, cuts, i) && (TagAt(text, i, OPEN) || TagAt(text, i, CLOSE))
    ensures |Parse(text, cuts, i, false).content| >= |Parse(text, {}, i, uncut).content|
    ensures TagAt(text, i, OPEN) && !uncut ==>
        |Parse(text, cuts, i, false).content| > |Parse(text, {}, i, uncut).content|
    decreases |text| - i, 0
  {
    TagsApart(text, i);
    var e := if TagAt(text, i, OPEN) then i + 7 else i + 8;
    assert e <= |text| && forall k | i < k < e :: !TagAt(text, k, OPEN);
    assert forall k | i <= k < e :: !OpensAt(text, cuts, k);
    PlainContent(text, cuts, i, e);
    if TagAt(text, i, OPEN) {
      ContentGrows(text, cuts, e, false, true);
      assert forall k | i <= k < e :: !TagAt(text, k, CLOSE);
      hide TagAt;
      if uncut { PlainThinking(text, {}, i, e); } else { assert OpensAt(text, {}, i); }
    } else {
      ContentGrows(text, cuts, e, false, false);
      assert forall k | i <= k < e :: !OpensAt(text, {}, k);
      if !uncut { PlainContent(text, {}, i, e); }
    }
  }

  // A cut inside a recognised opening tag leaves more content.
  lemma {:induction false} DirtyGrows(text: string, cuts: set<nat>, i: nat, inThink: bool)
    requires i <= |text| && !Clean(text, cuts, i, inThink)
    ensures |Parse(text, cuts, i, inThink).content| > |Parse(text, {}, i, inThink).content|
    decreases |text| - i
  {
    if inThink {
      if TagAt(text, i, CLOSE) { DirtyGrows(text, cuts, i + 8, false); } else { DirtyGrows(text, cuts, i + 1, true); }
    } else if TagAt(text, i, OPEN) {
      if OpensAt(text, cuts, i) { DirtyGrows(text, cuts, i + 7, true); } else { MissedTag(text, cuts, i, false); }
    } else {
      DirtyGrows(text, cuts, i + 1, false);
    }
  }

  const FRESH := Parser(false, "")

  // Fragmentation independence: the fragments of a text give what the whole text gives, exactly
  // when no boundary falls inside an opening tag that the one-shot parse recognises.
  lemma FragmentsAgree(fragments: seq<string>)
    ensures FeedAll(FRESH, fragments) == FeedAll(FRESH, [Concat(fragments)]) <==>
      Clean(Concat(fragments), Cuts(fragments, 0), 0, false)
  {
    hide TagAt;
    var text := Concat(fragments);
    var cuts := Cuts(fragments, 0);
    assert text[0..] == text && text[0..0] == "";
    FeedParses(text, cuts, 0, 0, FRESH, fragments);
    WholeClean(text, 0, false);
    OneFragment(text);
    hide FeedAll, Clean, Parse, Cuts, Concat;
    FeedParses(text, {|text|}, 0, 0, FRESH, [text]);
    CleanParses(text, {|text|}, 0, false);
    if Clean(text, cuts, 0, false) {
      CleanParses(text, cuts, 0, false);
    } else {
      DirtyGrows(text, cuts, 0, false);
    }
  }

  lemma OneFragment(text: string)
    ensures Cuts([text], 0) == {|text|} && Concat([text]) == text
  {
    assert Concat([text]) == text + Concat([]);
    assert [text][1..] == [];
  }

  lemma {:induction false} WholeClean(text: string, i: nat, inThink: bool)
    requires i <= |text|
    ensures Clean(text, {|text|}, i, inThink)
    decreases |text| - i
  {
    if i < |text| {
      if inThink {
        if TagAt(text, i, CLOSE) { WholeClean(text, i + 8, false); } else { WholeClean(text, i + 1, true); }
      } else if TagAt(text, i, OPEN) {
        WholeClean(text, i + 7, true);
      } else {
        WholeClean(text, i + 1, false);
      }
    }
  }

  // An opening tag split over two fragments is taken for content.
  lemma SplitOpening()
    ensures FeedAll(FRESH, ["<th", "ink>x"]) == Output("", "<think>x")
    ensures FeedAll(FRESH, ["<th" + "ink>x"]).content == ""
  {
    WholeOpening();
    assert "<th" + "ink>x" == "<think>x";
  }

  lemma WholeOpening()
    ensures FeedAll(FRESH, ["<think>x"]) == Output("x", "")
  {
  }
}
