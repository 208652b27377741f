// Splitting the streamed answer live into prose and the raw text of a tool call.
module ToolCallText {
  import opened Options
  import opened TextSearch

  const TOOL_CALL: string := "<tool_call>"
  const FUNCTION: string := "<function="

  // The end of the run of word characters from i on.
  function WordEnd(text: string, word: char -> bool, i: nat): (e: nat)
    requires i <= |text|
    ensures i <= e <= |text| && (forall k | i <= k < e :: word(text[k])) && (e < |text| ==> !word(text[e]))
    decreases |text| - i
  {
    if i == |text| || !word(text[i]) then i else WordEnd(text, word, i + 1)
  }

  // The name of a complete function opening that starts at i.
  function NameAt(text: string, word: char -> bool, i: nat): Option<string>
  {
    if !TagAt(text, i, FUNCTION) then None
    else
      var e := WordEnd(text, word, i + 10);
      if e > i + 10 && e < |text| && text[e] == '>' then Some(text[i + 10..e]) else None
  }

  // The name of the first complete function opening at or after i.
  function FunctionName(text: string, word: char -> bool, i: nat): (name: Option<string>)
    requires i <= |text|
    ensures name.None? ==> forall k | i <= k <= |text| :: NameAt(text, word, k) == None
    decreases |text| - i
  {
    if NameAt(text, word, i).Some? then NameAt(text, word, i)
    else if i == |text| then None else FunctionName(text, word, i + 1)
  }

  // A word character is neither bracket.
  predicate Words(word: char -> bool)
  {
    !word('<') && !word('>')
  }

  lemma {:induction false} WordEndGrows(text: string, more: string, word: char -> bool, i: nat)
    requires i <= |text|
    ensures WordEnd(text, word, i) < |text| ==> WordEnd(text + more, word, i) == WordEnd(text, word, i)
    ensures WordEnd(text, word, i) == |text| ==> WordEnd(text + more, word, i) >= |text|
    decreases |text| - i
  {
    if i < |text| {
      assert (text + more)[i] == text[i];
      if word(text[i]) { WordEndGrows(text, more, word, i + 1); }
    }
  }

  lemma TagGrows(text: string, more: string, i: nat, tag: string)
    requires i + |tag| <= |text|
    ensures TagAt(text + more, i, tag) == TagAt(text, i, tag)
  {
    assert (text + more)[i..i + |tag|] == text[i..i + |tag|];
  }

  // A complete opening stays one, with the same name.
  lemma NameGrows(text: string, more: string, word: char -> bool, i: nat)
    requires NameAt(text, word, i).Some?
    ensures NameAt(text + more, word, i) == NameAt(text, word, i)
  {
    TagGrows(text, more, i, FUNCTION);
    WordEndGrows(text, more, word, i + 10);
    var e := WordEnd(text, word, i + 10);
    assert (text + more)[i + 10..e] == text[i + 10..e];
  }

  // What follows the text cannot complete an opening that starts before a complete one.
  lemma NothingEarlier(text: string, more: string, word: char -> bool, i: nat, k: nat)
    requires Words(word) && i < k && NameAt(text, word, i) == None && NameAt(text, word, k).Some?
    ensures NameAt(text + more, word, i) == None
  {
    assert text[k] == text[k..k + 10][0] == '<';
    if NameAt(text + more, word, i).Some? {
      assert forall j | i < j < i + 10 :: (text + more)[j] == (text + more)[i..i + 10][j - i] == FUNCTION[j - i] != '<';
      assert (text + more)[k] == text[k];
      assert k >= i + 10;
      TagGrows(text, more, i, FUNCTION);
      WordEndGrows(text, more, word, i + 10);
    }
  }

  // The name found in a text is the name found in everything that continues it.
  lemma {:induction false} FunctionNameStable(text: string, more: string, word: char -> bool, i: nat)
    requires Words(word) && i <= |text| && FunctionName(text, word, i).Some?
    ensures FunctionName(text + more, word, i) == FunctionName(text, word, i)
    decreases |text| - i
  {
    hide NameAt;
    if NameAt(text, word, i).Some? {
      NameGrows(text, more, word, i);
    } else {
      var k := NameStart(text, word, i + 1);
      NothingEarlier(text, more, word, i, k);
      FunctionNameStable(text, more, word, i + 1);
    }
  }

  lemma {:induction false} NameStart(text: string, word: char -> bool, i: nat) returns (k: nat)
    requires i <= |text| && FunctionName(text, word, i).Some?
    ensures i <= k <= |text| && NameAt(text, word, k).Some?
    decreases |text| - i
  {
    hide NameAt;
    if NameAt(text, word, i).Some? { k := i; } else { k := NameStart(text, word, i + 1); }
  }
}

module LiveSplitter {
  import opened Options
  import opened TextLines
  import opened TextSearch
  import opened ToolCallText
  import opened Thinking

  datatype LiveEvent = ContentEvent(content: string) | ToolCallStart(name: string) | ToolCallRaw(fragment: string)

  function ContentOf(events: seq<LiveEvent>): string
  {
    if events == [] then ""
    else
      var last := events[|events| - 1];
      ContentOf(events[..|events| - 1]) + (if last.ContentEvent? then last.content else "")
  }

  function RawOf(events: seq<LiveEvent>): string
  {
    if events == [] then ""
    else
      var last := events[|events| - 1];
      RawOf(events[..|events| - 1]) + (if last.ToolCallRaw? then last.fragment else "")
  }

  predicate Started(events: seq<LiveEvent>)
  {
    exists k :: 0 <= k < |events| && events[k].ToolCallStart?
  }

  // No raw text before the one start, no prose after it, and no second start.
  predicate WellOrdered(events: seq<LiveEvent>)
  {
    forall k | 0 <= k < |events| :: events[k].ToolCallRaw? <==> (Started(events[..k]))
  }

  lemma Emitted(events: seq<LiveEvent>, e: LiveEvent)
    ensures ContentOf(events + [e]) == ContentOf(events) + (if e.ContentEvent? then e.content else "")
    ensures RawOf(events + [e]) == RawOf(events) + (if e.ToolCallRaw? then e.fragment else "")
    ensures Started(events + [e]) == (Started(events) || e.ToolCallStart?)
    ensures WellOrdered(events + [e]) == (WellOrdered(events) && (e.ToolCallRaw? <==> Started(events)))
  {
    var out := events + [e];
    assert out[..|events|] == events;
    assert forall k | 0 <= k < |events| :: out[..k] == events[..k] && out[k] == events[k];
    assert out[|events|] == e;
  }

  // Where the tool call starts in the text taken in so far.
  function CallStart(taken: string): (p: nat)
    ensures p <= |taken|
  {
    Find(taken, TOOL_CALL, 0)
  }

  predicate Unstarted(events: seq<LiveEvent>)
  {
    WellOrdered(events) && !Started(events) && RawOf(events) == ""
  }

  // No tag so far: all but the last ten characters are shown as prose.
  ghost predicate Prose(taken: string, events: seq<LiveEvent>, carry: string)
  {
    && CallStart(taken) == |taken| && Unstarted(events)
    && ContentOf(events) + carry == taken && |carry| == (if |taken| < 10 then |taken| else 10)
  }

  // In the call, before its name is complete: everything from the tag on is held back.
  ghost predicate Unnamed(taken: string, word: char -> bool, events: seq<LiveEvent>, nameBuffer: string)
  {
    var p := CallStart(taken);
    && p < |taken| && Unstarted(events)
    && ContentOf(events) == taken[..p] && nameBuffer == taken[p..] && FunctionName(nameBuffer, word, 0).None?
  }

  // In the call, with its name announced once and everything from the tag on shown raw.
  ghost predicate Named(taken: string, word: char -> bool, events: seq<LiveEvent>)
  {
    var p := CallStart(taken);
    && p < |taken| && WellOrdered(events) && Started(events)
    && ContentOf(events) == taken[..p] && RawOf(events) == taken[p..] && FunctionName(taken[p..], word, 0).Some?
    && forall k | 0 <= k < |events| && events[k].ToolCallStart? ::
         events[k].name == FunctionName(taken[p..], word, 0).value
  }

  lemma {:induction false} FindGrows(text: string, more: string, tag: string, i: nat)
    requires tag != "" && i <= |text| && Find(text, tag, i) < |text|
    ensures Find(text + more, tag, i) == Find(text, tag, i)
    decreases |text| - i
  {
    var p := Find(text, tag, i);
    TagGrows(text, more, p, tag);
    if i < p {
      if i + |tag| <= |text| {
        TagGrows(text, more, i, tag);
      } else {
        assert false;
      }
      FindGrows(text, more, tag, i + 1);
    }
  }

  lemma {:induction false} FindFrom(text: string, tag: string, i: nat, j: nat)
    requires tag != "" && i <= j <= |text| && forall k | i <= k < j :: !TagAt(text, k, tag)
    ensures Find(text, tag, i) == Find(text, tag, j)
    decreases j - i
  {
    if i < j { FindFrom(text, tag, i + 1, j); }
  }

  lemma {:induction false} FindTail(text: string, tag: string, i: nat, j: nat)
    requires tag != "" && i <= j <= |text|
    ensures Find(text, tag, j) == i + Find(text[i..], tag, j - i)
    decreases |text| - j
  {
    if j < |text| {
      if j + |tag| <= |text| { TagInPiece(text, i, |text|, j, tag); }
      assert text[i..|text|] == text[i..];
      FindTail(text, tag, i, j + 1);
    }
  }

  // While no tag is complete, the tag may only start within the last ten characters.
  lemma TagStillAhead(taken: string, text: string)
    requires CallStart(taken) == |taken|
    ensures var q := if |taken| < 10 then 0 else |taken| - 10;
      CallStart(taken + text) == q + Find((taken + text)[q..], TOOL_CALL, 0)
  {
    hide Find;
    var q := if |taken| < 10 then 0 else |taken| - 10;
    forall k | 0 <= k < q
      ensures !TagAt(taken + text, k, TOOL_CALL)
    {
      TagGrows(taken, text, k, TOOL_CALL);
    }
    FindFrom(taken + text, TOOL_CALL, 0, q);
    FindTail(taken + text, TOOL_CALL, q, q);
  }

  // A tag found stays where it is.
  lemma CallStays(taken: string, text: string)
    requires CallStart(taken) < |taken|
    ensures var p := CallStart(taken);
      CallStart(taken + text) == p && (taken + text)[..p] == taken[..p] && (taken + text)[p..] == taken[p..] + text
  {
    FindGrows(taken, text, TOOL_CALL, 0);
  }

  // Text shown as prose is never part of the tag, whatever the stream still brings.
  lemma ShownBeforeTag(taken: string, events: seq<LiveEvent>, carry: string, more: string)
    requires Prose(taken, events, carry)
    ensures ContentOf(events) <= (taken + more)[..CallStart(taken + more)]
  {
    TagStillAhead(taken, more);
    hide Find, Unstarted;
    var shown := ContentOf(events);
    assert shown == taken[..|shown|];
    assert (taken + more)[..|shown|] == taken[..|shown|];
  }

  // ---------- the stream after the tag ----------

  lemma StartKept(events: seq<LiveEvent>, e: LiveEvent)
    requires !e.ToolCallStart?
    ensures forall k | 0 <= k < |events + [e]| && (events + [e])[k].ToolCallStart? ::
        k < |events| && (events + [e])[k] == events[k]
  {
  }

  // More text of a call whose name is known.
  lemma CallContinues(taken: string, word: char -> bool, events: seq<LiveEvent>, text: string)
    requires Words(word) && Named(taken, word, events)
    ensures Named(taken + text, word, if text == "" then events else events + [ToolCallRaw(text)])
  {
    CallStays(taken, text);
    FunctionNameStable(taken[CallStart(taken)..], text, word, 0);
    hide FunctionName, CallStart, ContentOf, RawOf, WellOrdered, Started;
    if text == "" {
      assert taken + text == taken;
    } else {
      StartKept(events, ToolCallRaw(text));
      Emitted(events, ToolCallRaw(text));
    }
  }

  // More text before the name is complete.
  lemma NameContinues(taken: string, word: char -> bool, events: seq<LiveEvent>, nameBuffer: string, text: string)
    requires Unnamed(taken, word, events, nameBuffer) && FunctionName(nameBuffer + text, word, 0).None?
    ensures Unnamed(taken + text, word, events, nameBuffer + text)
  {
    hide FunctionName, CallStart, Unstarted;
    CallStays(taken, text);
  }

  // The events that announce a call and show what was held back of it.
  function Announced(events: seq<LiveEvent>, name: string, raw: string): seq<LiveEvent>
  {
    events + [ToolCallStart(name)] + [ToolCallRaw(raw)]
  }

  lemma AnnouncedOnce(events: seq<LiveEvent>, name: string, raw: string)
    requires Unstarted(events)
    ensures var out := Announced(events, name, raw);
      && WellOrdered(out) && Started(out) && ContentOf(out) == ContentOf(events) && RawOf(out) == raw
      && forall k | 0 <= k < |out| && out[k].ToolCallStart? :: out[k].name == name
  {
    hide ContentOf, RawOf;
    Emitted(events, ToolCallStart(name));
    assert forall k | 0 <= k < |events| :: !events[k].ToolCallStart?;
    hide WellOrdered, Started;
    Emitted(events + [ToolCallStart(name)], ToolCallRaw(raw));
  }

  // The name is complete: it is announced, followed by everything held back.
  lemma NameComplete(taken: string, word: char -> bool, events: seq<LiveEvent>, nameBuffer: string, text: string)
    requires Unnamed(taken, word, events, nameBuffer) && FunctionName(nameBuffer + text, word, 0).Some?
    ensures Named(taken + text, word, Announced(events, FunctionName(nameBuffer + text, word, 0).value, nameBuffer +
        text))
  {
    hide FunctionName, CallStart, Unstarted, Announced, ContentOf, RawOf, WellOrdered, Started;
    CallStays(taken, text);
    AnnouncedOnce(events, FunctionName(nameBuffer + text, word, 0).value, nameBuffer + text);
  }

  // ---------- the stream before the tag ----------

  // Shows a stretch of prose, if there is any.
  function Shown(events: seq<LiveEvent>, prose: string): seq<LiveEvent>
  {
    if prose == "" then events else events + [ContentEvent(prose)]
  }

  lemma ShownMore(events: seq<LiveEvent>, prose: string)
    requires Unstarted(events)
    ensures Unstarted(Shown(events, prose)) && ContentOf(Shown(events, prose)) == ContentOf(events) + prose
  {
    hide ContentOf, RawOf;
    if prose != "" { Emitted(events, ContentEvent(prose));
    } else { assert ContentOf(events) + prose == ContentOf(events); }
  }

  // The carried characters are the end of the text taken in, so the tag is found where it stands.
  lemma CarryIsTail(taken: string, events: seq<LiveEvent>, carry: string, text: string)
    requires Prose(taken, events, carry)
    ensures CallStart(taken + text) == |taken| - |carry| + Find(carry + text, TOOL_CALL, 0)
    ensures taken + text == ContentOf(events) + (carry + text) && |ContentOf(events)| == |taken| - |carry|
  {
    TagStillAhead(taken, text);
    hide Find, Unstarted, ContentOf;
    TailOf(ContentOf(events), carry, text);
  }

  lemma TailOf(shown: string, carry: string, text: string)
    ensures (shown + carry + text)[|shown|..] == carry + text && shown + carry + text == shown + (carry + text)
  {
  }

  function Safe(buf: string): nat
  {
    if |buf| < 10 then 0 else |buf| - 10
  }

  lemma Rejoined(shown: string, buf: string, n: nat)
    requires n <= |buf|
    ensures shown + buf[..n] + buf[n..] == shown + buf
  {
  }

  // What the carried characters and a fragment show without a complete tag.
  lemma NoTagYet(taken: string, events: seq<LiveEvent>, carry: string, text: string)
    requires Prose(taken, events, carry) && Find(carry + text, TOOL_CALL, 0) == |carry + text|
    ensures var buf := carry + text; Prose(taken + text, Shown(events, buf[..Safe(buf)]), buf[Safe(buf)..])
  {
    var buf := carry + text;
    hide Find, ContentOf, Unstarted, Shown;
    CarryIsTail(taken, events, carry, text);
    ShownMore(events, buf[..Safe(buf)]);
    Rejoined(ContentOf(events), buf, Safe(buf));
  }

  // The tag is complete: the prose before it is shown and the call begins.
  lemma TagFound(taken: string, events: seq<LiveEvent>, carry: string, text: string)
    requires Prose(taken, events, carry) && Find(carry + text, TOOL_CALL, 0) < |carry + text|
    ensures var buf := carry + text; var m := Find(buf, TOOL_CALL, 0);
      && CallStart(taken + text) < |taken + text| && Unstarted(Shown(events, buf[..m]))
      && ContentOf(Shown(events, buf[..m])) == (taken + text)[..CallStart(taken + text)]
      && buf[m..] == (taken + text)[CallStart(taken + text)..]
  {
    var buf := carry + text;
    var m := Find(buf, TOOL_CALL, 0);
    hide Find, ContentOf, Unstarted, Shown, CallStart, Prose;
    CarryIsTail(taken, events, carry, text);
    ProseUnstarted(taken, events, carry);
    ShownMore(events, buf[..m]);
    SplitAt(taken + text, ContentOf(events), buf, m);
  }

  lemma ProseUnstarted(taken: string, events: seq<LiveEvent>, carry: string)
    requires Prose(taken, events, carry)
    ensures Unstarted(events)
  {
  }

  lemma SplitAt(whole: string, shown: string, buf: string, m: nat)
    requires m <= |buf| && whole == shown + buf
    ensures whole[..|shown| + m] == shown + buf[..m] && whole[|shown| + m..] == buf[m..]
  {
  }

  // The call's first text: its name may be complete at once.
  lemma CallBegins(taken: string, word: char -> bool, events: seq<LiveEvent>, rest: string)
    requires CallStart(taken) < |taken| && Unstarted(events)
    requires ContentOf(events) == taken[..CallStart(taken)] && rest == taken[CallStart(taken)..]
    ensures FunctionName(rest, word, 0).None? ==> Unnamed(taken, word, events, rest)
    ensures FunctionName(rest, word, 0).Some? ==>
        Named(taken, word, Announced(events, FunctionName(rest, word, 0).value, rest))
  {
    hide FunctionName, CallStart, Unstarted, Announced, ContentOf, RawOf, WellOrdered, Started;
    if FunctionName(rest, word, 0).Some? { AnnouncedOnce(events, FunctionName(rest, word, 0).value, rest); }
  }

  class LiveSplitter {
    const word: char -> bool
    var carry: string
    var inToolCall: bool
    var nameKnown: bool
    var nameBuffer: string
    var emitted: seq<LiveEvent>
    ghost var taken: string

    // The state is what the text taken in so far demands, whatever fragments it came in.
    ghost predicate Valid()
      reads this
    {
      && Words(word)
      && (if !inToolCall then Prose(taken, emitted, carry) && !nameKnown && nameBuffer == ""
          else if !nameKnown then Unnamed(taken, word, emitted, nameBuffer) && carry == ""
          else Named(taken, word, emitted) && carry == "" && nameBuffer == "")
    }

    constructor (word: char -> bool)
      requires Words(word)
      ensures Valid() && this.word == word && taken == "" && emitted == []
    {
      this.word, carry, inToolCall, nameKnown, nameBuffer, emitted, taken := word, "", false, false, "", [], "";
    }

    // A call's text, from the tag on, until and after its name is known.
    method TakeCallText(text: string)
      modifies this`nameKnown, this`nameBuffer, this`emitted
      ensures old(nameKnown) ==>
        nameKnown && nameBuffer == old(nameBuffer)
            && emitted == if text == "" then old(emitted) else old(emitted) + [ToolCallRaw(text)]
      ensures !old(nameKnown) && FunctionName(old(nameBuffer) + text, word, 0).None? ==>
        !nameKnown && nameBuffer == old(nameBuffer) + text && emitted == old(emitted)
      ensures !old(nameKnown) && FunctionName(old(nameBuffer) + text, word, 0).Some? ==>
        nameKnown && nameBuffer == "" &&
        emitted == Announced(old(emitted), FunctionName(old(nameBuffer) + text, word, 0).value, old(nameBuffer) + text)
    {
      if nameKnown {
        if text != "" { emitted := emitted + [ToolCallRaw(text)]; }
        return;
      }
      nameBuffer := nameBuffer + text;
      var name := FunctionName(nameBuffer, word, 0);
      if name.Some? {
        nameKnown := true;
        emitted := emitted + [ToolCallStart(name.value)];
        emitted := emitted + [ToolCallRaw(nameBuffer)];
        nameBuffer := "";
      }
    }

    // Takes in one fragment of the answer.
    method Split(text: string)
      requires Valid()
      modifies this
      ensures Valid() && taken == old(taken) + text && old(emitted) <= emitted
    {
      hide Prose, Unnamed, Named, FunctionName, Find, ContentOf, RawOf, Unstarted, WellOrdered, Started, CallStart,
        Words;
      if inToolCall {
        if nameKnown {
          CallContinues(taken, word, emitted, text);
        } else if FunctionName(nameBuffer + text, word, 0).Some? {
          NameComplete(taken, word, emitted, nameBuffer, text);
        } else {
          NameContinues(taken, word, emitted, nameBuffer, text);
        }
        TakeCallText(text);
      } else {
        var buf := carry + text;
        var marker := Find(buf, TOOL_CALL, 0);
        if marker == |buf| {
          NoTagYet(taken, emitted, carry, text);
          var safe := Safe(buf);
          if buf[..safe] != "" { emitted := emitted + [ContentEvent(buf[..safe])]; }
          carry := buf[safe..];
        } else {
          TagFound(taken, emitted, carry, text);
          CallBegins(taken + text, word, Shown(emitted, buf[..marker]), buf[marker..]);
          if buf[..marker] != "" { emitted := emitted + [ContentEvent(buf[..marker])]; }
          carry := "";
          inToolCall := true;
          assert "" + buf[marker..] == buf[marker..];
          TakeCallText(buf[marker..]);
        }
      }
      taken := taken + text;
    }

    // The end of an answer without a tool call shows what was still carried.
    method Finish()
      requires Valid()
      modifies this`emitted
      ensures !inToolCall ==> ContentOf(emitted) == taken && CallStart(taken) == |taken|
      ensures inToolCall ==> Valid() && emitted == old(emitted)
    {
      if !inToolCall && carry != "" {
        Emitted(emitted, ContentEvent(carry));
        emitted := emitted + [ContentEvent(carry)];
      }
    }
  }

  // The answer of one stream: its fragments through the think parser, the content it yields
  // through the splitter. Both see the text as if it came whole, when no boundary splits an
  // opening tag. What is still carried is shown at the end, unless the answer is known to be a tool
  // call (one was parsed from it, or one was demanded).
  method StreamAnswer(fragments: seq<string>, word: char -> bool, toolCall: bool)
    returns (splitter: LiveSplitter, thinking: string, tailText: string)
    requires Words(word)
    ensures splitter.taken == tailText && Output(thinking, tailText) == FeedAll(FRESH, fragments)
    ensures toolCall || splitter.inToolCall ==> splitter.Valid()
    ensures !toolCall && !splitter.inToolCall ==>
        ContentOf(splitter.emitted) == tailText && CallStart(tailText) == |tailText|
  {
    hide FeedAll, Scan, Prose, Unnamed, Named, Words, ContentOf, CallStart;
    var parser := new ThinkingParser();
    splitter := new LiveSplitter(word);
    thinking, tailText := "", "";
    var i := 0;
    BothAssociates(FeedAll(FRESH, fragments), Output("", ""), Output("", ""));
    while i < |fragments|
      invariant i <= |fragments| && parser.Valid() && splitter.Valid() && splitter.taken == tailText
      invariant fresh(parser) && fresh(splitter)
      invariant FeedAll(FRESH, fragments) == Both(Output(thinking, tailText), FeedAll(parser.State(), fragments[i..]))
    {
      FeedNext(parser.State(), fragments[i..]);
      assert fragments[i..][0] == fragments[i] && fragments[i..][1..] == fragments[i + 1..];
      var before := Output(thinking, tailText);
      var thinkingPart, contentPart := parser.Feed(fragments[i]);
      thinking, tailText := thinking + thinkingPart, tailText + contentPart;
      BothAssociates(before, Output(thinkingPart, contentPart), FeedAll(parser.State(), fragments[i + 1..]));
      splitter.Split(contentPart);
      i := i + 1;
    }
    assert fragments[i..] == [];
    FeedNone(parser.State());
    var thinkingPart, contentPart := parser.Flush();
    thinking, tailText := thinking + thinkingPart, tailText + contentPart;
    splitter.Split(contentPart);
    if !toolCall { splitter.Finish(); }
  }

  lemma FeedNext(parser: Parser, fragments: seq<string>)
    requires fragments != []
    ensures var (next, out) := Scan(parser.inThink, parser.carry + fragments[0]);
      FeedAll(parser, fragments) == Both(out, FeedAll(next, fragments[1..]))
  {
  }

  lemma FeedNone(parser: Parser)
    ensures FeedAll(parser, []) == Flushed(parser)
  {
  }
}
