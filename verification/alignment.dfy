/** The alignment engine: `align_transcript_with_diarization` asks a chat
    model to merge the transcript with the segments and falls back to a
    deterministic, timestamp-only rendering when the model gives nothing.
    The chat call is an input: its outcome is passed in. */
module Alignment {
  import opened Outcomes
  import opened Strings
  import opened Diarizer

  /** What the chat-completion call yields: the first choice's content,
      which may be None, or an exception. */
  datatype ChatOutcome = Completed(content: Option<string>) | ChatRaised(message: string)

  /** The note that ends every fallback transcript. */
  const FallbackNote: string :=
    "\n\n[Note: This is a simplified diarization using timestamps only. For a more accurate result, please retry the process.]"

  /** The "MM:SS" stamp of a start time: whole minutes and remaining whole
      seconds, each padded to two digits. Floor division and the float
      remainder of a start time by 60, truncated to integers, depend only on
      its whole seconds: floor(start) div 60 and floor(start) mod 60. */
  function Timestamp(start: real): (stamp: string)
    ensures |stamp| >= 5 && stamp[|stamp| - 3] == ':' && AllDigits(stamp[|stamp| - 2..])
  {
    var whole := start.Floor;
    ZeroPad2RoundTrip(whole % 60);
    ZeroPad2(whole / 60) + ":" + ZeroPad2(whole % 60)
  }

  /** Whether the `i`-th segment starts a new speaker turn: the first one
      always does, since the current speaker starts as None. */
  predicate SpeakerChanges(segments: seq<Segment>, i: nat)
    requires i < |segments|
  {
    i == 0 || segments[i].speaker != segments[i - 1].speaker
  }

  /** The line the fallback emits for the `i`-th segment. */
  function FallbackLine(segments: seq<Segment>, i: nat): (line: string)
    requires i < |segments|
    ensures |line| >= 2 && line[..2] == "\n["
    ensures line[|line| - 1] == ':' <==> SpeakerChanges(segments, i)
  {
    "\n[" + Timestamp(segments[i].start) + "] " +
    (if SpeakerChanges(segments, i) then segments[i].speaker + ":" else "")
  }

  /** `"".join(parts)`. */
  function Concat(parts: seq<string>): string {
    if parts == [] then [] else Concat(parts[..|parts| - 1]) + parts[|parts| - 1]
  }

  function FallbackLines(segments: seq<Segment>): seq<string> {
    seq(|segments|, i requires 0 <= i < |segments| => FallbackLine(segments, i))
  }

  /** What `create_fallback_diarized_transcript` returns. */
  function FallbackTranscript(segments: seq<Segment>): (text: string)
    ensures text == FallbackNote <==> segments == []
  {
    Concat(FallbackLines(segments)) + FallbackNote
  }

  /** One step of the fallback loop: the line for the `i`-th segment, given
      the speaker of the previous one, and the speaker carried forward. */
  method FallbackStep(segments: seq<Segment>, i: nat, currentSpeaker: Option<string>)
    returns (line: string, nextSpeaker: Option<string>)
    requires i < |segments|
    requires currentSpeaker == if i == 0 then None else Some(segments[i - 1].speaker)
    ensures line == FallbackLine(segments, i)
    ensures nextSpeaker == Some(segments[i].speaker)
  {
    var speaker := segments[i].speaker;
    var startStr := Timestamp(segments[i].start);
    if currentSpeaker != Some(speaker) {
      line := "\n[" + startStr + "] " + speaker + ":";
      assert SpeakerChanges(segments, i);
      nextSpeaker := Some(speaker);
    } else {
      line := "\n[" + startStr + "] ";
      assert !SpeakerChanges(segments, i);
      nextSpeaker := currentSpeaker;
    }
  }

  /** The loop of `create_fallback_diarized_transcript`: one line per
      segment, the current speaker carried from one segment to the next. */
  method FallbackLinesLoop(segments: seq<Segment>) returns (lines: seq<string>)
    ensures lines == FallbackLines(segments)
  {
    lines := [];
    var currentSpeaker: Option<string> := None;
    ghost var all := FallbackLines(segments);
    for i := 0 to |segments|
      invariant lines == all[..i]
      invariant currentSpeaker == if i == 0 then None else Some(segments[i - 1].speaker)
    {
      var line;
      line, currentSpeaker := FallbackStep(segments, i, currentSpeaker);
      PrefixGrows(all, i);
      lines := lines + [line];
    }
    assert all[..|segments|] == all;
  }

  /** Taking one more element of a sequence appends that element. */
  lemma PrefixGrows(s: seq<string>, i: nat)
    requires i < |s|
    ensures s[..i + 1] == s[..i] + [s[i]]
  {
  }

  /** `create_fallback_diarized_transcript`: the lines joined, then the note.
      The transcript is not used. */
  method CreateFallbackDiarizedTranscript(transcript: string, segments: seq<Segment>)
    returns (diarizedText: string)
    ensures diarizedText == FallbackTranscript(segments)
  {
    var lines := FallbackLinesLoop(segments);
    diarizedText := Concat(lines);
    diarizedText := diarizedText + FallbackNote;
  }

  /** What `align_transcript_with_diarization` returns: the model's content
      when there is some, the fallback otherwise. It never raises. */
  function AlignedText(transcript: string, segments: seq<Segment>, chat: ChatOutcome): (text: string)
    ensures chat.Completed? && chat.content.Some? ==> text == chat.content.value
    ensures text != FallbackTranscript(segments) ==> chat.Completed? && chat.content == Some(text)
  {
    if chat.Completed? && chat.content.Some? then chat.content.value else FallbackTranscript(segments)
  }

  method AlignTranscriptWithDiarization(transcript: string, segments: seq<Segment>, chat: ChatOutcome)
    returns (diarizedText: string)
    ensures chat.Completed? && chat.content.Some? ==> diarizedText == chat.content.value
    ensures !(chat.Completed? && chat.content.Some?) ==> diarizedText == FallbackTranscript(segments)
    ensures diarizedText == AlignedText(transcript, segments, chat)
  {
    match chat {
      case Completed(Some(content)) =>
        diarizedText := content;
      case Completed(None) =>
        diarizedText := CreateFallbackDiarizedTranscript(transcript, segments);
      case ChatRaised(_) =>
        diarizedText := CreateFallbackDiarizedTranscript(transcript, segments);
    }
  }

  /** The fallback always ends with the fixed note. */
  lemma FallbackEndsWithNote(segments: seq<Segment>)
    ensures |FallbackTranscript(segments)| >= |FallbackNote|
    ensures FallbackTranscript(segments)[|FallbackTranscript(segments)| - |FallbackNote|..] == FallbackNote
  {
  }

  /** Without segments the fallback is just the note. */
  lemma FallbackOfNoSegments()
    ensures FallbackTranscript([]) == FallbackNote
  {
  }

  /** Any failed alignment still yields a transcript ending with the note. */
  lemma FailedAlignmentEndsWithNote(transcript: string, segments: seq<Segment>, chat: ChatOutcome)
    requires !(chat.Completed? && chat.content.Some?)
    ensures var t := AlignedText(transcript, segments, chat);
            |t| >= |FallbackNote| && t[|t| - |FallbackNote|..] == FallbackNote
  {
    FallbackEndsWithNote(segments);
  }

  lemma {:induction false} ConcatAppend(parts: seq<string>, more: seq<string>)
    ensures Concat(parts + more) == Concat(parts) + Concat(more)
    decreases |more|
  {
    if more != [] {
      var last := more[|more| - 1];
      assert (parts + more)[..|parts + more| - 1] == parts + more[..|more| - 1];
      ConcatAppend(parts, more[..|more| - 1]);
    } else {
      assert parts + more == parts;
    }
  }

  /** The fallback is one line per segment, in segment order: it is the
      fallback of the first segments followed by the last segment's line. */
  lemma FallbackAddsOneLinePerSegment(segments: seq<Segment>)
    requires segments != []
    ensures var n := |segments|;
            FallbackTranscript(segments) ==
            Concat(FallbackLines(segments[..n - 1])) + FallbackLine(segments, n - 1) + FallbackNote
  {
    var n := |segments|;
    var init := segments[..n - 1];
    var lines := FallbackLines(segments);
    assert lines[..n - 1] == FallbackLines(init) by {
      forall k | 0 <= k < n - 1 ensures lines[k] == FallbackLine(init, k) {
        SameNeighbourhoodSameLine(segments, init, k);
      }
    }
    assert Concat(lines) == Concat(lines[..n - 1]) + FallbackLine(segments, n - 1);
  }

  /** A segment's line depends only on that segment and the one before it. */
  lemma SameNeighbourhoodSameLine(a: seq<Segment>, b: seq<Segment>, k: nat)
    requires k < |a| && k < |b| && a[k] == b[k]
    requires k > 0 ==> a[k - 1] == b[k - 1]
    ensures FallbackLine(a, k) == FallbackLine(b, k)
  {
    assert SpeakerChanges(a, k) == SpeakerChanges(b, k);
  }

  /** Only the starts and speakers matter: neither the transcript nor the
      segments' ends affect the fallback. */
  lemma FallbackIgnoresEnds(segments: seq<Segment>, others: seq<Segment>)
    requires |segments| == |others|
    requires forall i :: 0 <= i < |segments| ==>
               segments[i].start == others[i].start && segments[i].speaker == others[i].speaker
    ensures FallbackTranscript(segments) == FallbackTranscript(others)
  {
    assert FallbackLines(segments) == FallbackLines(others);
  }

  /** For a non-negative start the stamp is "MM:SS" where MM reads back as
      the whole minutes, zero-padded to two digits and never beyond, and SS,
      always two digits, as the remaining seconds. */
  lemma TimestampDenotes(start: real)
    requires start >= 0.0
    ensures var whole := start.Floor;
            var mm := ZeroPad2(whole / 60);
            var ss := ZeroPad2(whole % 60);
            Timestamp(start) == mm + ":" + ss && |mm| >= 2 && |ss| == 2 &&
            (|mm| > 2 ==> mm[0] != '0') &&
            AllDigits(mm) && AllDigits(ss) &&
            DigitsValue(mm) == whole / 60 && DigitsValue(ss) == whole % 60
  {
    var whole := start.Floor;
    ZeroPad2RoundTrip(whole / 60);
    ZeroPad2RoundTrip(whole % 60);
  }

  /** `needle` sits in `hay` at offset `p`. */
  predicate OccursAt(needle: string, hay: string, p: nat) {
    p + |needle| <= |hay| && hay[p..p + |needle|] == needle
  }

  /** Python's `needle in hay` on strings. */
  ghost predicate Occurs(needle: string, hay: string) {
    exists p: nat :: OccursAt(needle, hay, p)
  }

  lemma OccursInItself(s: string)
    ensures Occurs(s, s)
  {
    assert OccursAt(s, s, 0);
  }

  lemma OccursWithin(needle: string, before: string, mid: string, after: string)
    requires Occurs(needle, mid)
    ensures Occurs(needle, before + mid + after)
  {
    var p: nat :| OccursAt(needle, mid, p);
    var hay := before + mid + after;
    assert hay[|before| + p..|before| + p + |needle|] == mid[p..p + |needle|];
    assert OccursAt(needle, hay, |before| + p);
  }

  lemma OccursTransitive(a: string, b: string, c: string)
    requires Occurs(a, b) && Occurs(b, c)
    ensures Occurs(a, c)
  {
    var p: nat :| OccursAt(a, b, p);
    var q: nat :| OccursAt(b, c, q);
    forall k | 0 <= k < |a|
      ensures c[q + p + k] == a[k]
    {
      assert c[q + p + k] == c[q..q + |b|][p + k] == b[p + k] == b[p..p + |a|][k];
    }
    assert c[q + p..q + p + |a|] == a;
    assert OccursAt(a, c, q + p);
  }

  /** A join splits around any of its parts. */
  lemma ConcatAround(parts: seq<string>, j: nat)
    requires j < |parts|
    ensures Concat(parts) == Concat(parts[..j]) + parts[j] + Concat(parts[j + 1..])
  {
    var init, rest := parts[..j + 1], parts[j + 1..];
    assert Concat(parts) == Concat(init) + Concat(rest) by {
      assert parts == init + rest;
      ConcatAppend(init, rest);
    }
    assert Concat(init) == Concat(parts[..j]) + parts[j] by {
      assert init[..|init| - 1] == parts[..j];
    }
  }

  /** Every part of a join occurs in the joined string. */
  lemma OccursInConcat(parts: seq<string>, j: nat)
    requires j < |parts|
    ensures Occurs(parts[j], Concat(parts))
  {
    ConcatAround(parts, j);
    OccursInItself(parts[j]);
    OccursWithin(parts[j], Concat(parts[..j]), parts[j], Concat(parts[j + 1..]));
  }

  /** The segment that opened the speaker turn the `i`-th segment belongs to. */
  lemma {:induction false} TurnStart(segments: seq<Segment>, i: nat) returns (j: nat)
    requires i < |segments|
    ensures j <= i && SpeakerChanges(segments, j) && segments[j].speaker == segments[i].speaker
  {
    if SpeakerChanges(segments, i) {
      j := i;
    } else {
      j := TurnStart(segments, i - 1);
    }
  }

  /** Every segment's speaker is named in the joined fallback lines: each
      turn opens with a line carrying its speaker. */
  lemma LinesNameEverySpeaker(segments: seq<Segment>, i: nat)
    requires i < |segments|
    ensures Occurs(segments[i].speaker, Concat(FallbackLines(segments)))
  {
    var j := TurnStart(segments, i);
    var speaker := segments[i].speaker;
    var lines := FallbackLines(segments);
    var prefix := "\n[" + Timestamp(segments[j].start) + "] ";
    assert lines[j] == prefix + speaker + ":";
    OccursInItself(speaker);
    OccursWithin(speaker, prefix, speaker, ":");
    OccursInConcat(lines, j);
    OccursTransitive(speaker, lines[j], Concat(lines));
  }

  lemma OccursBeforeSuffix(needle: string, hay: string, suffix: string)
    requires Occurs(needle, hay)
    ensures Occurs(needle, hay + suffix)
  {
    OccursWithin(needle, [], hay, suffix);
    assert [] + hay + suffix == hay + suffix;
  }

  /** Every segment's speaker is named in the fallback transcript. */
  lemma FallbackNamesEverySpeaker(segments: seq<Segment>, i: nat)
    requires i < |segments|
    ensures Occurs(segments[i].speaker, FallbackTranscript(segments))
  {
    LinesNameEverySpeaker(segments, i);
    OccursBeforeSuffix(segments[i].speaker, Concat(FallbackLines(segments)), FallbackNote);
  }

  /** 65 seconds is stamped "01:05". */
  lemma TimestampAt65Seconds(start: real)
    requires start == 65.0
    ensures Timestamp(start) == "01:05"
  {
    assert start.Floor == 65;
    assert NatToString(1) == "1" && NatToString(5) == "5";
  }

  /** A segment at 65 seconds whose speaker differs from the previous one
      gives the line "[01:05] X:". */
  lemma SpeakerChangeAt65Seconds(segments: seq<Segment>)
    requires segments == [Segment(0.0, 2.0, "Y"), Segment(65.0, 70.0, "X")]
    ensures FallbackLine(segments, 1) == "\n[01:05] X:"
  {
    TimestampAt65Seconds(segments[1].start);
    assert SpeakerChanges(segments, 1);
  }
}
