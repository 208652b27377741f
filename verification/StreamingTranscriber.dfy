// Cutting a continuous sample stream into segments for transcription.
module AudioSegments {
  const SAMPLE_RATE: nat := 16000
  const FRAME_SAMPLES: nat := 320

  // The default tuning, in samples.
  const SILENCE_COMMIT: nat := 6 * SAMPLE_RATE / 10
  const MIN_SPEECH: nat := SAMPLE_RATE
  const FORCE_CUT: nat := 24 * SAMPLE_RATE
  const FORCE_CUT_TRANSCRIBE: nat := 22 * SAMPLE_RATE
  const FORCE_CUT_OVERLAP: nat := 2 * SAMPLE_RATE
  const PAUSE_KEEP_TAIL: nat := 3 * SAMPLE_RATE / 10
  const PROVISIONAL_MIN_BUFFER: nat := 6 * SAMPLE_RATE
  const PROVISIONAL_INTERVAL: real := 2.0
  const COMMITTED_TAIL_WORDS: nat := 15

  // A segment sent for commit: its stretch of the stream, and whether it was a forced cut.
  datatype Segment = Segment(start: nat, end: nat, forced: bool)

  // Where the buffer begins after a segment was taken.
  function Resumes(s: Segment): int
  {
    if s.forced then s.end - FORCE_CUT_OVERLAP else s.end
  }

  // The segments cover the stream from its start: each begins where the one before it ended, or
  // exactly the overlap earlier after a forced cut, and every end lies further on.
  ghost predicate Tiled(sent: seq<Segment>)
  {
    && (sent != [] ==> sent[0].start == 0)
    && (forall k | 0 <= k < |sent| ::
         sent[k].start < sent[k].end && (sent[k].forced ==> sent[k].end - sent[k].start == FORCE_CUT_TRANSCRIBE))
    && (forall k | 0 < k < |sent| :: sent[k].start == Resumes(sent[k - 1]) && sent[k - 1].end < sent[k].end)
  }

  // The first sample still buffered.
  function Base(sent: seq<Segment>): int
  {
    if sent == [] then 0 else Resumes(sent[|sent| - 1])
  }

  lemma TiledNext(sent: seq<Segment>, s: Segment)
    requires Tiled(sent) && s.start == Base(sent) && s.start < s.end
    requires s.forced ==> s.end - s.start == FORCE_CUT_TRANSCRIBE
    requires sent != [] ==> sent[|sent| - 1].end < s.end
    ensures Tiled(sent + [s])
  {
  }

  lemma {:induction false} EndsIncrease(sent: seq<Segment>, i: nat, j: nat)
    requires Tiled(sent) && i < j < |sent|
    ensures sent[i].end < sent[j].end
    decreases j
  {
    if i < j - 1 { EndsIncrease(sent, i, j - 1); }
  }

  // No gaps: every sample before the last end lies in a segment.
  lemma {:induction false} NoGap(sent: seq<Segment>, n: nat, x: nat)
    requires Tiled(sent) && n < |sent| && x < sent[n].end
    ensures exists k :: 0 <= k <= n && sent[k].start <= x < sent[k].end
  {
    if x < sent[n].start {
      NoGap(sent, n - 1, x);
    }
  }

  // Segments further than neighbours never meet, so no sample is in more than two.
  lemma {:induction false} OnlyNeighboursMeet(sent: seq<Segment>, i: nat, j: nat)
    requires Tiled(sent) && i + 2 <= j < |sent|
    ensures sent[i].end <= sent[j].start
    decreases j
  {
    var before := sent[j - 1];
    assert sent[j].start == Resumes(before);
    if i + 2 < j {
      OnlyNeighboursMeet(sent, i, j - 1);
    } else {
      assert before.start == Resumes(sent[i]);
    }
  }

  lemma AtMostTwo(sent: seq<Segment>, x: nat, i: nat, j: nat, k: nat)
    requires Tiled(sent) && i < j < k < |sent|
    ensures !(sent[i].start <= x < sent[i].end && sent[j].start <= x < sent[j].end && sent[k].start <= x < sent[k].end)
  {
    OnlyNeighboursMeet(sent, i, k);
  }

  // A pause commit keeps only silence behind: the samples after its end belong to no speech frame.
  ghost predicate QuietTails(sent: seq<Segment>, speech: seq<bool>)
  {
    forall k | 0 <= k < |sent| && !sent[k].forced ::
      sent[k].end + PAUSE_KEEP_TAIL <= |speech| && forall x | sent[k].end <= x < sent[k].end + PAUSE_KEEP_TAIL ::
          !speech[x]
  }

  // ---------- the buffer ----------

  // What the buffer and the speech counters say about the stream taken in and the segments sent.
  ghost predicate Tracks(stream: seq<real>, speech: seq<bool>, sent: seq<Segment>, buffer: seq<real>, count: nat,
                         silence: nat)
  {
    && Tiled(sent) && QuietTails(sent, speech)
    && |stream| == |speech| && 0 <= Base(sent) <= |stream| && buffer == stream[Base(sent)..]
    && (sent != [] && sent[|sent| - 1].forced ==> |buffer| >= FORCE_CUT_OVERLAP + FORCE_CUT - FORCE_CUT_TRANSCRIBE)
    && count <= |buffer| && silence <= |buffer|
    && forall x | |stream| - silence <= x < |stream| :: !speech[x]
  }

  lemma FrameAdded(stream: seq<real>, speech: seq<bool>, sent: seq<Segment>, buffer: seq<real>, count: nat,
                   silence: nat, frame: seq<real>, voiced: bool)
    requires Tracks(stream, speech, sent, buffer, count, silence)
    ensures Tracks(stream + frame, speech + seq(|frame|, _ => voiced), sent, buffer + frame,
                   if voiced then count + |frame| else count, if voiced then 0 else silence + |frame|)
  {
    hide Tiled;
    var more := speech + seq(|frame|, _ => voiced);
    assert forall x | 0 <= x < |speech| :: more[x] == speech[x];
    assert QuietTails(sent, more);
  }

  lemma BaseKnown(stream: seq<real>, speech: seq<bool>, sent: seq<Segment>, buffer: seq<real>, count: nat, silence: nat)
    requires Tracks(stream, speech, sent, buffer, count, silence)
    ensures Base(sent) >= 0 && silence <= |buffer|
  {
  }

  // The segment a pause commits, and what stays buffered.
  function PauseSegment(sent: seq<Segment>, buffer: seq<real>): Segment
    requires Base(sent) >= 0 && |buffer| >= PAUSE_KEEP_TAIL
  {
    Segment(Base(sent), Base(sent) + |buffer| - PAUSE_KEEP_TAIL, false)
  }

  lemma PauseTaken(stream: seq<real>, speech: seq<bool>, sent: seq<Segment>, buffer: seq<real>, count: nat,
                   silence: nat)
    requires Tracks(stream, speech, sent, buffer, count, silence) && silence >= SILENCE_COMMIT
    ensures |buffer| >= PAUSE_KEEP_TAIL
    ensures var s := PauseSegment(sent, buffer);
      && buffer[..|buffer| - PAUSE_KEEP_TAIL] == stream[s.start..s.end] && s.end == |stream| - PAUSE_KEEP_TAIL
      && Tracks(stream, speech, sent + [s], buffer[|buffer| - PAUSE_KEEP_TAIL..], 0, 0)
  {
    var s := PauseSegment(sent, buffer);
    TiledNext(sent, s);
    hide Tiled;
    assert QuietTails(sent + [s], speech);
  }

  // The segment a forced cut sends, and what stays buffered.
  function ForcedSegment(sent: seq<Segment>): Segment
    requires Base(sent) >= 0
  {
    Segment(Base(sent), Base(sent) + FORCE_CUT_TRANSCRIBE, true)
  }

  lemma ForcedTaken(stream: seq<real>, speech: seq<bool>, sent: seq<Segment>, buffer: seq<real>, count: nat,
                    silence: nat)
    requires Tracks(stream, speech, sent, buffer, count, silence) && |buffer| >= FORCE_CUT
    ensures var s := ForcedSegment(sent);
      && s.end <= |stream| && buffer[..FORCE_CUT_TRANSCRIBE] == stream[s.start..s.end]
      && Tracks(stream, speech, sent + [s], buffer[FORCE_CUT_TRANSCRIBE - FORCE_CUT_OVERLAP..], FORCE_CUT_OVERLAP, 0)
  {
    var s := ForcedSegment(sent);
    TiledNext(sent, s);
    hide Tiled;
    assert QuietTails(sent + [s], speech);
  }

  // ---------- the words already committed ----------

  // The last n words of a text.
  function LastWords(words: seq<string>, n: nat): seq<string>
  {
    if |words| <= n then words else words[|words| - n..]
  }

  lemma LastOfMore(words: seq<string>, more: seq<string>, n: nat)
    ensures LastWords(LastWords(words, n) + more, n) == LastWords(words + more, n)
  {
  }

  function Normalized(words: seq<string>, normalize: string -> string): (r: seq<string>)
    ensures |r| == |words| && forall k | 0 <= k < |words| :: r[k] == normalize(words[k])
  {
    seq(|words|, k requires 0 <= k < |words| => normalize(words[k]))
  }

  // The first n of the new words repeat the last n committed ones.
  predicate Repeats(tail: seq<string>, words: seq<string>, normalize: string -> string, n: nat)
  {
    n <= |tail| && n <= |words| && Normalized(tail[|tail| - n..], normalize) == Normalized(words[..n], normalize)
  }
}

module StreamingTranscription {
  import opened Options
  import opened AudioSegments

  datatype Event = Status(transcribing: bool) | Provisional(words: seq<string>) | Committed(words: seq<string>) | Error

  // The one transcription in flight.
  datatype Task = Task(samples: seq<real>, provisional: bool)

  datatype Outcome = Heard(words: seq<string>) | Unheard

  // The speech counters of the segment being heard.
  datatype Hearing = Hearing(count: nat, silence: nat, hasSpeech: bool)

  datatype Act = Wait | Pause | Cut | Refresh

  function Listened(h: Hearing, samples: nat, speech: bool): Hearing
  {
    if speech then Hearing(h.count + samples, 0, true) else h.(silence := h.silence + samples)
  }

  // What is to be done with so many buffered samples, and so long after the last provisional text.
  function Decide(h: Hearing, buffered: nat, busy: bool, since: real): Act
  {
    if busy then Wait
    else if h.hasSpeech && h.silence >= SILENCE_COMMIT && h.count >= MIN_SPEECH then Pause
    else if buffered >= FORCE_CUT then Cut
    else if buffered >= PROVISIONAL_MIN_BUFFER && since >= PROVISIONAL_INTERVAL then Refresh
    else Wait
  }

  // The transcriber's segments, task, counters and clock before and after an act.
  datatype Moment = Moment(hearing: Hearing, sent: seq<Segment>, task: Option<Task>, lastProvisional: real)

  predicate Acted(act: Act, buffer: seq<real>, now: real, was: Moment, next: Moment)
  {
    match act
    case Wait => next == was
    case Pause =>
      && |buffer| >= PAUSE_KEEP_TAIL && 0 <= Base(was.sent)
      && next == Moment(Hearing(0, 0, false), was.sent + [PauseSegment(was.sent, buffer)],
                         Some(Task(buffer[..|buffer| - PAUSE_KEEP_TAIL], false)), was.lastProvisional)
    case Cut =>
      && |buffer| >= FORCE_CUT && 0 <= Base(was.sent)
      && next == Moment(Hearing(FORCE_CUT_OVERLAP, 0, true), was.sent + [ForcedSegment(was.sent)],
                         Some(Task(buffer[..FORCE_CUT_TRANSCRIBE], false)), was.lastProvisional)
    case Refresh => next == was.(task := Some(Task(buffer, true)), lastProvisional := now)
  }

  // What a finished transcription has said, for a commit with the words that were new.
  function Said(provisional: bool, outcome: Outcome, novel: seq<string>): seq<Event>
  {
    match outcome
    case Unheard => [Error]
    case Heard(words) =>
      if provisional then (if words == [] then [] else [Provisional(words)])
      else (if novel == [] then [] else [Committed(novel)]) + [Provisional([])]
  }

  // A segment in flight for commit is the last one sent.
  ghost predicate SentLast(task: Option<Task>, stream: seq<real>, sent: seq<Segment>)
  {
    task.Some? && !task.value.provisional ==>
      && sent != [] && sent[|sent| - 1].start <= sent[|sent| - 1].end <= |stream|
      && task.value.samples == stream[sent[|sent| - 1].start..sent[|sent| - 1].end]
  }

  lemma SentKept(task: Option<Task>, stream: seq<real>, sent: seq<Segment>, frame: seq<real>)
    requires SentLast(task, stream, sent)
    ensures SentLast(task, stream + frame, sent)
  {
  }

  lemma ProvisionalSent(task: Option<Task>, stream: seq<real>, sent: seq<Segment>)
    requires task.Some? ==> task.value.provisional
    ensures SentLast(task, stream, sent)
  {
  }

  class StreamingTranscriber {
    const normalize: string -> string
    var buffer: seq<real>
    var speechSampleCount: nat
    var trailingSilence: nat
    var hasSpeech: bool
    var busy: bool
    var lastProvisionalAt: real
    var committedTail: seq<string>
    var task: Option<Task>
    var events: seq<Event>
    ghost var stream: seq<real>
    ghost var speech: seq<bool>
    ghost var sent: seq<Segment>
    ghost var committed: seq<string>

    ghost predicate Valid()
      reads this
    {
      && Tracks(stream, speech, sent, buffer, speechSampleCount, trailingSilence)
      && (busy <==> task.Some?) && SentLast(task, stream, sent)
      && committedTail == LastWords(committed, COMMITTED_TAIL_WORDS)
    }

    ghost function Now(): Moment
      reads this
    {
      Moment(Hearing(speechSampleCount, trailingSilence, hasSpeech), sent, task, lastProvisionalAt)
    }

    constructor (normalize: string -> string)
      ensures Valid() && stream == [] && sent == [] && committed == [] && events == [] && !busy
      ensures this.normalize == normalize
    {
      this.normalize := normalize;
      buffer, speechSampleCount, trailingSilence, hasSpeech, busy, lastProvisionalAt := [], 0, 0, false, false, 0.0;
      committedTail, task, events, stream, speech, sent, committed := [], None, [], [], [], [], [];
    }

    // Appends one frame and acts if a boundary was hit; voiced is what the detector says of it.
    method Feed(frame: seq<real>, voiced: bool, now: real)
      requires Valid()
      modifies this
      ensures Valid()
      ensures stream == old(stream) + frame
        && speech == old(speech) + seq(|frame|, _ => voiced && |frame| == FRAME_SAMPLES)
      ensures var heard := Listened(old(Now()).hearing, |frame|, voiced && |frame| == FRAME_SAMPLES);
        Acted(Decide(heard, |old(buffer)| + |frame|, old(busy), now - old(lastProvisionalAt)), old(buffer) + frame,
              now, old(Now()).(hearing := heard), Now())
      ensures committed == old(committed) && events == old(events)
    {
      hide Tracks, SentLast, Acted, Decide;
      var isSpeech := voiced && |frame| == FRAME_SAMPLES;
      FrameAdded(stream, speech, sent, buffer, speechSampleCount, trailingSilence, frame, isSpeech);
      SentKept(task, stream, sent, frame);
      buffer := buffer + frame;
      stream, speech := stream + frame, speech + seq(|frame|, _ => isSpeech);
      if isSpeech {
        hasSpeech := true;
        speechSampleCount := speechSampleCount + |frame|;
        trailingSilence := 0;
      } else {
        trailingSilence := trailingSilence + |frame|;
      }
      MaybeAct(now);
    }

    method ResetSpeechState()
      modifies this`speechSampleCount, this`trailingSilence, this`hasSpeech
      ensures speechSampleCount == trailingSilence == 0 && !hasSpeech
    {
      speechSampleCount, trailingSilence, hasSpeech := 0, 0, false;
    }

    // Sends everything but the last stretch of silence, which stays buffered.
    method CommitPause()
      requires Valid() && !busy && trailingSilence >= SILENCE_COMMIT
      modifies this`buffer, this`sent, this`speechSampleCount, this`trailingSilence, this`hasSpeech, this`busy,
      this`task
      ensures Valid() && busy && Acted(Pause, old(buffer), 0.0, old(Now()), Now())
      ensures sent != [] && sent[|sent| - 1].end == |stream| - PAUSE_KEEP_TAIL
    {
      PauseTaken(stream, speech, sent, buffer, speechSampleCount, trailingSilence);
      BaseKnown(stream, speech, sent, buffer, speechSampleCount, trailingSilence);
      hide Tracks;
      var segment := buffer[..|buffer| - PAUSE_KEEP_TAIL];
      sent := sent + [PauseSegment(sent, buffer)];
      buffer := buffer[|buffer| - PAUSE_KEEP_TAIL..];
      ResetSpeechState();
      StartTranscription(segment, false);
    }

    // Sends the head of a buffer without a pause, and keeps a short overlap of it.
    method CutByForce()
      requires Valid() && !busy && |buffer| >= FORCE_CUT
      modifies this`buffer, this`sent, this`speechSampleCount, this`trailingSilence, this`hasSpeech, this`busy,
      this`task
      ensures Valid() && busy && Acted(Cut, old(buffer), 0.0, old(Now()), Now())
    {
      ForcedTaken(stream, speech, sent, buffer, speechSampleCount, trailingSilence);
      BaseKnown(stream, speech, sent, buffer, speechSampleCount, trailingSilence);
      hide Tracks;
      var segment := buffer[..FORCE_CUT_TRANSCRIBE];
      sent := sent + [ForcedSegment(sent)];
      buffer := buffer[FORCE_CUT_TRANSCRIBE - FORCE_CUT_OVERLAP..];
      ResetSpeechState();
      hasSpeech, speechSampleCount := true, FORCE_CUT_OVERLAP;
      StartTranscription(segment, false);
    }

    // Commits a segment, cuts one by force, or refreshes the provisional text; never while a
    // transcription is in flight.
    method MaybeAct(now: real)
      requires Valid()
      modifies this
      ensures Valid() && stream == old(stream) && speech == old(speech)
      ensures committed == old(committed) && events == old(events)
      ensures Acted(Decide(old(Now()).hearing, |old(buffer)|, old(busy), now - old(lastProvisionalAt)), old(buffer),
                    now, old(Now()), Now())
    {
      if busy { return; }
      hide Tracks, SentLast;
      if hasSpeech && trailingSilence >= SILENCE_COMMIT && speechSampleCount >= MIN_SPEECH {
        CommitPause();
        return;
      }
      if |buffer| >= FORCE_CUT {
        CutByForce();
        return;
      }
      if |buffer| >= PROVISIONAL_MIN_BUFFER && now - lastProvisionalAt >= PROVISIONAL_INTERVAL {
        lastProvisionalAt := now;
        StartTranscription(buffer, true);
        ProvisionalSent(task, stream, sent);
      }
    }

    method StartTranscription(segment: seq<real>, provisional: bool)
      requires !busy
      modifies this`busy, this`task
      ensures busy && task == Some(Task(segment, provisional))
    {
      busy, task := true, Some(Task(segment, provisional));
    }

    // The transcription in flight ends: its text is emitted and the next boundary looked for.
    method TranscriptionDone(outcome: Outcome, now: real)
      requires Valid() && task.Some?
      modifies this
      ensures Valid() && stream == old(stream) && speech == old(speech) && old(committed) <= committed
      ensures events == old(events) + [Status(true)] +
          Said(old(task).value.provisional, outcome, committed[|old(committed)|..]) + [Status(false)]
      ensures Acted(Decide(old(Now()).hearing, |old(buffer)|, false, now - old(lastProvisionalAt)), old(buffer), now,
                    old(Now()).(task := None), Now())
      ensures old(task).value.provisional || outcome.Unheard? ==> committed == old(committed)
      ensures !old(task).value.provisional && outcome.Heard? ==> exists n: nat ::
        && n <= |outcome.words| && committed == old(committed) + outcome.words[n..]
        && Repeats(old(committedTail), outcome.words, normalize, n)
        && forall m: nat :: m > n ==> !Repeats(old(committedTail), outcome.words, normalize, m)
    {
      hide Tracks, Repeats, Acted, Decide, Said;
      var provisional := task.value.provisional;
      Publish(provisional, outcome);
      busy, task := false, None;
      MaybeAct(now);
    }

    // Emits what a transcription has heard, between the two status events.
    method Publish(provisional: bool, outcome: Outcome)
      requires committedTail == LastWords(committed, COMMITTED_TAIL_WORDS)
      modifies this`events, this`committed, this`committedTail
      ensures committedTail == LastWords(committed, COMMITTED_TAIL_WORDS) && old(committed) <= committed
      ensures events == old(events) + [Status(true)] + Said(provisional, outcome, committed[|old(committed)|..]) +
          [Status(false)]
      ensures provisional || outcome.Unheard? ==> committed == old(committed)
      ensures !provisional && outcome.Heard? ==> exists n: nat ::
        && n <= |outcome.words| && committed == old(committed) + outcome.words[n..]
        && Repeats(old(committedTail), outcome.words, normalize, n)
        && forall m: nat :: m > n ==> !Repeats(old(committedTail), outcome.words, normalize, m)
    {
      hide Repeats;
      events := events + [Status(true)];
      match outcome {
        case Heard(words) =>
          if provisional {
            if words != [] { events := events + [Provisional(words)]; }
          } else {
            var remaining := DedupeAgainstCommitted(words);
            if remaining != [] { events := events + [Committed(remaining)]; }
            events := events + [Provisional([])];
          }
        case Unheard => events := events + [Error];
      }
      events := events + [Status(false)];
    }

    // Drops the longest run of leading words that repeats the end of the committed text.
    method DedupeAgainstCommitted(words: seq<string>) returns (remaining: seq<string>)
      requires committedTail == LastWords(committed, COMMITTED_TAIL_WORDS)
      modifies this`committedTail, this`committed
      ensures committedTail == LastWords(committed, COMMITTED_TAIL_WORDS) && committed == old(committed) + remaining
      ensures exists n: nat ::
        && n <= |words| && remaining == words[n..] && Repeats(old(committedTail), words, normalize, n)
        && forall m: nat :: m > n ==> !Repeats(old(committedTail), words, normalize, m)
    {
      var overlap: nat := if |committedTail| < |words| then |committedTail| else |words|;
      while overlap > 0 && !Repeats(committedTail, words, normalize, overlap)
        invariant overlap <= |committedTail| && overlap <= |words|
        invariant forall m: nat :: m > overlap ==> !Repeats(committedTail, words, normalize, m)
      {
        overlap := overlap - 1;
      }
      assert Repeats(committedTail, words, normalize, overlap);
      remaining := words[overlap..];
      LastOfMore(committed, remaining, COMMITTED_TAIL_WORDS);
      committedTail := LastWords(committedTail + remaining, COMMITTED_TAIL_WORDS);
      committed := committed + remaining;
    }
  }
}
