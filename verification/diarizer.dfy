/** The speaker diarizer: `diarize_audio` turns the diarization model's
    (start, end, label) tracks into segments and renames each raw label
    (such as SPEAKER_00) to a display name chosen by the label's rank among
    the sorted unique labels. The model is an input: `pipeline(path)` is
    what running it on the file at `path` yields. */
module Diarizer {
  import opened Outcomes
  import opened Strings

  /** One (turn, track, label) tuple of the model's output. */
  datatype Track = Track(start: real, end: real, rawLabel: string)

  /** One segment dictionary: {"start", "end", "speaker"}. */
  datatype Segment = Segment(start: real, end: real, speaker: string)

  /** Running the model either yields its tracks or raises with a message
      (a missing token, a failed load, a failed run). */
  datatype PipelineOutcome = Tracks(tracks: seq<Track>) | PipelineFailed(message: string)

  function Labels(tracks: seq<Track>): seq<string> {
    seq(|tracks|, i requires 0 <= i < |tracks| => tracks[i].rawLabel)
  }

  function Speakers(segments: seq<Segment>): seq<string> {
    seq(|segments|, i requires 0 <= i < |segments| => segments[i].speaker)
  }

  predicate StrictlySorted(s: seq<string>) {
    forall i, j :: 0 <= i < j < |s| ==> LexLess(s[i], s[j])
  }

  /** Adds `x` to a sorted list of unique labels. */
  function Insert(s: seq<string>, x: string): (r: seq<string>)
    ensures forall y :: y in r <==> y in s || y == x
  {
    if s == [] then [x]
    else if x == s[0] then s
    else if LexLess(x, s[0]) then [x] + s
    else [s[0]] + Insert(s[1..], x)
  }

  /** `sorted(set(labels))`: the unique labels in code-point order. */
  function SortedUnique(labels: seq<string>): (r: seq<string>)
    ensures forall y :: y in r <==> y in labels
  {
    if labels == [] then []
    else Insert(SortedUnique(labels[..|labels| - 1]), labels[|labels| - 1])
  }

  lemma {:induction false} InsertKeepsStrictlySorted(s: seq<string>, x: string)
    requires StrictlySorted(s)
    ensures StrictlySorted(Insert(s, x))
  {
    if s != [] && x != s[0] {
      if LexLess(x, s[0]) {
        forall j | 0 < j < |s| ensures LexLess(x, s[j]) {
          LexLessTransitive(x, s[0], s[j]);
        }
      } else {
        LexLessTotal(x, s[0]);
        InsertKeepsStrictlySorted(s[1..], x);
        var r := Insert(s, x);
        forall j | 0 < j < |r| ensures LexLess(s[0], r[j]) {
          assert r[j] in Insert(s[1..], x);
          assert r[j] in s[1..] || r[j] == x;
        }
      }
    }
  }

  /** The unique labels come out strictly increasing, so without repeats. */
  lemma {:induction false} SortedUniqueIsStrictlySorted(labels: seq<string>)
    ensures StrictlySorted(SortedUnique(labels))
  {
    if labels != [] {
      SortedUniqueIsStrictlySorted(labels[..|labels| - 1]);
      InsertKeepsStrictlySorted(SortedUnique(labels[..|labels| - 1]), labels[|labels| - 1]);
    }
  }

  lemma StrictlySortedHasNoRepeats(s: seq<string>)
    requires StrictlySorted(s)
    ensures forall i, j :: 0 <= i < j < |s| ==> s[i] != s[j]
  {
    forall i, j | 0 <= i < j < |s| ensures s[i] != s[j] {
      LexLessIrreflexive(s[i]);
    }
  }

  function IndexOf(s: seq<string>, x: string): (k: nat)
    requires x in s
    ensures k < |s| && s[k] == x && x !in s[..k]
  {
    if s[0] == x then 0 else 1 + IndexOf(s[1..], x)
  }

  /** The position of `x` in `sorted(set(labels))`. */
  function Rank(labels: seq<string>, x: string): (k: nat)
    requires x in labels
    ensures k < |SortedUnique(labels)| && SortedUnique(labels)[k] == x
  {
    IndexOf(SortedUnique(labels), x)
  }

  /** The label in position k of the sorted unique labels has rank k. */
  lemma RankOfPosition(labels: seq<string>, k: nat)
    requires k < |SortedUnique(labels)|
    ensures SortedUnique(labels)[k] in labels
    ensures Rank(labels, SortedUnique(labels)[k]) == k
  {
    var u := SortedUnique(labels);
    assert u[k] in u;
    SortedUniqueIsStrictlySorted(labels);
    StrictlySortedHasNoRepeats(u);
  }

  /** The name the label of rank `rank` gets: the supplied name at that
      position if there is one, otherwise "Speaker {rank+1}". */
  function DisplayName(rank: nat, names: seq<string>): (name: string)
    ensures rank < |names| ==> name == names[rank]
    ensures |names| <= rank ==>
              "Speaker " <= name && AllDigits(name[8..]) && DigitsValue(name[8..]) == rank + 1
  {
    if rank < |names| then names[rank]
    else
      NatToStringRoundTrip(rank + 1);
      assert ("Speaker " + NatToString(rank + 1))[8..] == NatToString(rank + 1);
      "Speaker " + NatToString(rank + 1)
  }

  /** The names actually used: `speaker_names` when given, none otherwise. */
  function NameList(speakerNames: Option<seq<string>>): seq<string> {
    match speakerNames
    case Some(names) => names
    case None => []
  }

  /** The rank of the `i`-th track's label among all the labels. */
  function TrackRank(tracks: seq<Track>, i: nat): nat
    requires i < |tracks|
  {
    Rank(Labels(tracks), Labels(tracks)[i])
  }

  /** The segments `diarize_audio` returns for the model's tracks. */
  function Relabelled(tracks: seq<Track>, speakerNames: Option<seq<string>>): (segments: seq<Segment>)
    ensures |segments| == |tracks|
    ensures forall i :: 0 <= i < |tracks| ==>
              segments[i].speaker in NameList(speakerNames) || "Speaker " <= segments[i].speaker
  {
    seq(|tracks|, i requires 0 <= i < |tracks| =>
      Segment(tracks[i].start, tracks[i].end, DisplayName(TrackRank(tracks, i), NameList(speakerNames))))
  }

  /** `mapping` sends the label of rank k to its display name. */
  ghost predicate MapsRanks(mapping: map<string, string>, unique: seq<string>, names: seq<string>, upTo: nat)
    requires upTo <= |unique|
  {
    forall k :: 0 <= k < upTo ==> unique[k] in mapping && mapping[unique[k]] == DisplayName(k, names)
  }

  /** The segment list `diarize_audio` builds from the tracks, labels still raw. */
  function RawSegments(tracks: seq<Track>): seq<Segment> {
    seq(|tracks|, i requires 0 <= i < |tracks| => Segment(tracks[i].start, tracks[i].end, tracks[i].rawLabel))
  }

  /** The loop that appends one segment per track. */
  method CollectSegments(tracks: seq<Track>) returns (segments: seq<Segment>)
    ensures segments == RawSegments(tracks)
    ensures Speakers(segments) == Labels(tracks)
  {
    segments := [];
    for i := 0 to |tracks|
      invariant |segments| == i
      invariant forall k :: 0 <= k < i ==> segments[k] == Segment(tracks[k].start, tracks[k].end, tracks[k].rawLabel)
    {
      segments := segments + [Segment(tracks[i].start, tracks[i].end, tracks[i].rawLabel)];
    }
  }

  /** The names branch: a loop over the sorted unique labels that gives the
      label of rank i the i-th name while names last, "Speaker i+1" after. */
  method MappingWithNames(uniqueSpeakers: seq<string>, names: seq<string>)
    returns (nameMapping: map<string, string>)
    requires forall i, j :: 0 <= i < j < |uniqueSpeakers| ==> uniqueSpeakers[i] != uniqueSpeakers[j]
    ensures MapsRanks(nameMapping, uniqueSpeakers, names, |uniqueSpeakers|)
    ensures forall y :: y in nameMapping <==> y in uniqueSpeakers
  {
    nameMapping := map[];
    for i := 0 to |uniqueSpeakers|
      invariant MapsRanks(nameMapping, uniqueSpeakers, names, i)
      invariant forall y :: y in nameMapping <==> y in uniqueSpeakers[..i]
    {
      if i < |names| {
        nameMapping := nameMapping[uniqueSpeakers[i] := names[i]];
      } else {
        nameMapping := nameMapping[uniqueSpeakers[i] := "Speaker " + NatToString(i + 1)];
      }
      assert uniqueSpeakers[..i + 1] == uniqueSpeakers[..i] + [uniqueSpeakers[i]];
    }
    assert uniqueSpeakers[..|uniqueSpeakers|] == uniqueSpeakers;
  }

  /** The branch without names: the label of rank i becomes "Speaker i+1". */
  method GenericMapping(uniqueSpeakers: seq<string>) returns (nameMapping: map<string, string>)
    requires forall i, j :: 0 <= i < j < |uniqueSpeakers| ==> uniqueSpeakers[i] != uniqueSpeakers[j]
    ensures MapsRanks(nameMapping, uniqueSpeakers, [], |uniqueSpeakers|)
    ensures forall y :: y in nameMapping <==> y in uniqueSpeakers
  {
    nameMapping := map i | 0 <= i < |uniqueSpeakers| :: uniqueSpeakers[i] := "Speaker " + NatToString(i + 1);
    forall k | 0 <= k < |uniqueSpeakers|
      ensures uniqueSpeakers[k] in nameMapping
      ensures nameMapping[uniqueSpeakers[k]] == DisplayName(k, [])
    {
    }
  }

  /** `name_mapping`, built by either branch of `if speaker_names:`. Both
      branches give every label the name DisplayName assigns to its rank. */
  method BuildNameMapping(uniqueSpeakers: seq<string>, speakerNames: Option<seq<string>>)
    returns (nameMapping: map<string, string>)
    requires forall i, j :: 0 <= i < j < |uniqueSpeakers| ==> uniqueSpeakers[i] != uniqueSpeakers[j]
    ensures MapsRanks(nameMapping, uniqueSpeakers, NameList(speakerNames), |uniqueSpeakers|)
    ensures forall y :: y in nameMapping <==> y in uniqueSpeakers
  {
    if speakerNames.Some? && speakerNames.value != [] {
      nameMapping := MappingWithNames(uniqueSpeakers, speakerNames.value);
    } else {
      nameMapping := GenericMapping(uniqueSpeakers);
    }
  }

  /** The relabelling part of `diarize_audio`: segments are built in track
      order, then each segment's speaker is overwritten in place. */
  method RelabelSegments(tracks: seq<Track>, speakerNames: Option<seq<string>>)
    returns (segments: seq<Segment>)
    ensures segments == Relabelled(tracks, speakerNames)
  {
    segments := CollectSegments(tracks);
    var uniqueSpeakers := SortedUnique(Speakers(segments));
    SortedUniqueIsStrictlySorted(Labels(tracks));
    StrictlySortedHasNoRepeats(uniqueSpeakers);
    var nameMapping := BuildNameMapping(uniqueSpeakers, speakerNames);
    segments := OverwriteSpeakers(tracks, speakerNames, segments, nameMapping);
  }

  /** The loop `for segment in segments: segment["speaker"] = name_mapping[...]`,
      given the raw segments and a mapping that names each label by its rank. */
  method OverwriteSpeakers(tracks: seq<Track>, speakerNames: Option<seq<string>>,
                           raw: seq<Segment>, nameMapping: map<string, string>)
    returns (segments: seq<Segment>)
    requires |raw| == |tracks|
    requires forall k :: 0 <= k < |tracks| ==>
               raw[k] == Segment(tracks[k].start, tracks[k].end, tracks[k].rawLabel)
    requires MapsRanks(nameMapping, SortedUnique(Labels(tracks)), NameList(speakerNames),
                       |SortedUnique(Labels(tracks))|)
    ensures segments == Relabelled(tracks, speakerNames)
  {
    segments := raw;
    ghost var uniqueSpeakers := SortedUnique(Labels(tracks));
    for i := 0 to |segments|
      invariant |segments| == |tracks|
      invariant forall k :: 0 <= k < i ==> segments[k] == Relabelled(tracks, speakerNames)[k]
      invariant forall k :: i <= k < |segments| ==> segments[k] == raw[k]
    {
      assert uniqueSpeakers[TrackRank(tracks, i)] == segments[i].speaker;
      segments := segments[i := segments[i].(speaker := nameMapping[segments[i].speaker])];
    }
  }

  /** `diarize_audio`: a failure of the model is re-raised as a
      DiarizationError; otherwise the tracks are relabelled. */
  function Diarization(audioPath: string, speakerNames: Option<seq<string>>,
                       pipeline: string -> PipelineOutcome): (r: Result<seq<Segment>>)
    ensures r.Err? <==> pipeline(audioPath).PipelineFailed?
    ensures r.Err? ==> r.error.DiarizationError? && "Failed to diarize audio: " <= r.error.message
    ensures r.Ok? ==> |r.value| == |pipeline(audioPath).tracks|
  {
    match pipeline(audioPath)
    case PipelineFailed(message) => Err(DiarizationError("Failed to diarize audio: " + message))
    case Tracks(tracks) => Ok(Relabelled(tracks, speakerNames))
  }

  method DiarizeAudio(audioPath: string, speakerNames: Option<seq<string>>,
                      pipeline: string -> PipelineOutcome)
    returns (result: Result<seq<Segment>>)
    ensures result == Diarization(audioPath, speakerNames, pipeline)
  {
    var diarization := pipeline(audioPath);
    match diarization {
      case PipelineFailed(message) =>
        result := Err(DiarizationError("Failed to diarize audio: " + message));
      case Tracks(tracks) =>
        var segments := RelabelSegments(tracks, speakerNames);
        result := Ok(segments);
    }
  }

  lemma {:induction false} NoRepeatsSetSize(s: seq<string>)
    requires forall i, j :: 0 <= i < j < |s| ==> s[i] != s[j]
    ensures |set y | y in s| == |s|
  {
    if s != [] {
      var init := s[..|s| - 1];
      NoRepeatsSetSize(init);
      assert (set y | y in s) == (set y | y in init) + {s[|s| - 1]};
      assert s[|s| - 1] !in init;
    }
  }

  /** The distinct labels sorting before `x` are those ranked before it. */
  lemma SmallerLabelsRankedBefore(labels: seq<string>, x: string)
    requires x in labels
    ensures (set y | y in labels && LexLess(y, x)) == (set y | y in SortedUnique(labels)[..Rank(labels, x)])
  {
    var u := SortedUnique(labels);
    var k := Rank(labels, x);
    SortedUniqueIsStrictlySorted(labels);
    forall y | y in labels && LexLess(y, x) ensures y in u[..k] {
      var m := IndexOf(u, y);
      if m == k {
        LexLessIrreflexive(x);
      } else if m > k {
        LexLessAsymmetric(x, y);
      }
      assert u[..k][m] == y;
    }
    forall y | y in u[..k] ensures y in labels && LexLess(y, x) {
      var m :| 0 <= m < k && u[..k][m] == y;
      assert u[m] == y;
    }
  }

  /** A label's rank is the number of distinct labels that sort before it. */
  lemma RankCountsSmallerLabels(labels: seq<string>, x: string)
    requires x in labels
    ensures Rank(labels, x) == |set y | y in labels && LexLess(y, x)|
  {
    var u := SortedUnique(labels);
    var k := Rank(labels, x);
    SmallerLabelsRankedBefore(labels, x);
    SortedUniqueIsStrictlySorted(labels);
    StrictlySortedHasNoRepeats(u);
    NoRepeatsSetSize(u[..k]);
  }

  /** Relabelling keeps the segments as the model gave them: same number,
      same order, same start and end; only the speaker changes. */
  lemma RelabelKeepsTiming(tracks: seq<Track>, speakerNames: Option<seq<string>>)
    ensures |Relabelled(tracks, speakerNames)| == |tracks|
    ensures forall i :: 0 <= i < |tracks| ==>
              Relabelled(tracks, speakerNames)[i].start == tracks[i].start &&
              Relabelled(tracks, speakerNames)[i].end == tracks[i].end
    ensures (forall i, j :: 0 <= i < j < |tracks| ==> tracks[i].start <= tracks[j].start) ==>
            forall i, j :: 0 <= i < j < |tracks| ==>
              Relabelled(tracks, speakerNames)[i].start <= Relabelled(tracks, speakerNames)[j].start
  {
  }

  /** Segments that share a raw label get the same name. */
  lemma SameLabelSameName(tracks: seq<Track>, speakerNames: Option<seq<string>>, i: nat, j: nat)
    requires i < |tracks| && j < |tracks| && tracks[i].rawLabel == tracks[j].rawLabel
    ensures Relabelled(tracks, speakerNames)[i].speaker == Relabelled(tracks, speakerNames)[j].speaker
  {
    assert Labels(tracks)[i] == Labels(tracks)[j];
  }

  /** With a non-empty list of names, the label of rank i is named
      `speaker_names[i]` while names last, then "Speaker {i+1}". */
  lemma NamedByRank(tracks: seq<Track>, names: seq<string>, i: nat)
    requires i < |tracks|
    ensures tracks[i].rawLabel in Labels(tracks)
    ensures var r := Rank(Labels(tracks), tracks[i].rawLabel);
            Relabelled(tracks, Some(names))[i].speaker ==
              if r < |names| then names[r] else "Speaker " + NatToString(r + 1)
  {
    assert Labels(tracks)[i] == tracks[i].rawLabel;
  }

  /** An empty list of names is falsy and takes the other branch, which
      names every label as if no names had been passed. */
  lemma EmptyNamesLikeNoNames(tracks: seq<Track>)
    ensures Relabelled(tracks, Some([])) == Relabelled(tracks, None)
  {
  }

  /** Without names, distinct raw labels get distinct names. */
  lemma DistinctLabelsGetDistinctGenericNames(tracks: seq<Track>, i: nat, j: nat)
    requires i < |tracks| && j < |tracks| && tracks[i].rawLabel != tracks[j].rawLabel
    ensures Relabelled(tracks, None)[i].speaker != Relabelled(tracks, None)[j].speaker
  {
    var ri, rj := TrackRank(tracks, i), TrackRank(tracks, j);
    assert ri != rj by {
      assert SortedUnique(Labels(tracks))[ri] == tracks[i].rawLabel;
      assert SortedUnique(Labels(tracks))[rj] == tracks[j].rawLabel;
    }
    NatToStringInjective(ri + 1, rj + 1);
    var a, b := "Speaker " + NatToString(ri + 1), "Speaker " + NatToString(rj + 1);
    assert a[8..] == NatToString(ri + 1) && b[8..] == NatToString(rj + 1);
  }

  /** A strictly sorted list is determined by its elements, so SortedUnique
      is the one strictly sorted list of the labels. */
  lemma {:induction false} StrictlySortedUnique(a: seq<string>, b: seq<string>)
    requires StrictlySorted(a) && StrictlySorted(b)
    requires forall y :: y in a <==> y in b
    ensures a == b
  {
    if b != [] {
      assert b[0] in b;
    }
    if a != [] {
      assert a[0] in b && b[0] in a;
      if a[0] != b[0] {
        var m := IndexOf(b, a[0]);
        var n := IndexOf(a, b[0]);
        LexLessAsymmetric(a[0], b[0]);
      }
      StrictlySortedHasNoRepeats(a);
      StrictlySortedHasNoRepeats(b);
      assert a == [a[0]] + a[1..] && b == [b[0]] + b[1..];
      forall y ensures y in a[1..] <==> y in b[1..] {
        if y in a[1..] {
          var m :| 1 <= m < |a| && a[m] == y;
          var n := IndexOf(b, y);
          assert n != 0;
          assert b[1..][n - 1] == y;
        }
        if y in b[1..] {
          var m :| 1 <= m < |b| && b[m] == y;
          var n := IndexOf(a, y);
          assert n != 0;
          assert a[1..][n - 1] == y;
        }
      }
      StrictlySortedUnique(a[1..], b[1..]);
    }
  }

  lemma TwoLabelsSorted(labels: seq<string>, sorted: seq<string>)
    requires labels == ["SPEAKER_00", "SPEAKER_01", "SPEAKER_00"]
    requires sorted == ["SPEAKER_00", "SPEAKER_01"]
    ensures SortedUnique(labels) == sorted
  {
    TwoLabelsStrictlySorted(sorted);
    SortedUniqueIsStrictlySorted(labels);
    StrictlySortedUnique(SortedUnique(labels), sorted);
  }

  lemma RepeatedLabelRanks(tracks: seq<Track>)
    requires tracks == [Track(0.0, 2.5, "SPEAKER_00"), Track(3.0, 5.5, "SPEAKER_01"), Track(6.0, 8.5, "SPEAKER_00")]
    ensures TrackRank(tracks, 0) == 0 && TrackRank(tracks, 1) == 1 && TrackRank(tracks, 2) == 0
  {
    var labels := Labels(tracks);
    assert labels == ["SPEAKER_00", "SPEAKER_01", "SPEAKER_00"];
    TwoLabelsSorted(labels, ["SPEAKER_00", "SPEAKER_01"]);
    RankOfPosition(labels, 0);
    RankOfPosition(labels, 1);
  }

  /** SPEAKER_00, SPEAKER_01, SPEAKER_00 with the names Alice and Bob become
      Alice, Bob, Alice. */
  lemma AliceBobAlice(tracks: seq<Track>, names: seq<string>)
    requires tracks == [Track(0.0, 2.5, "SPEAKER_00"), Track(3.0, 5.5, "SPEAKER_01"), Track(6.0, 8.5, "SPEAKER_00")]
    requires names == ["Alice", "Bob"]
    ensures var speakers := Speakers(Relabelled(tracks, Some(names)));
            |speakers| == 3 && speakers[0] == "Alice" && speakers[1] == "Bob" && speakers[2] == "Alice"
  {
    RepeatedLabelRanks(tracks);
  }

  lemma TwoLabelsStrictlySorted(labels: seq<string>)
    requires labels == ["SPEAKER_00", "SPEAKER_01"]
    ensures StrictlySorted(labels)
  {
    LexLessAfterCommonPrefix("SPEAKER_0", "0", "1");
  }

  lemma TwoLabelRanks(labels: seq<string>)
    requires labels == ["SPEAKER_00", "SPEAKER_01"]
    ensures "SPEAKER_00" in labels && "SPEAKER_01" in labels
    ensures Rank(labels, "SPEAKER_00") == 0 && Rank(labels, "SPEAKER_01") == 1
  {
    TwoLabelsStrictlySorted(labels);
    SortedUniqueIsStrictlySorted(labels);
    StrictlySortedUnique(SortedUnique(labels), labels);
    RankOfPosition(labels, 0);
    RankOfPosition(labels, 1);
  }

  lemma TwoTrackRanks(tracks: seq<Track>)
    requires tracks == [Track(0.0, 2.0, "SPEAKER_00"), Track(2.0, 4.0, "SPEAKER_01")]
    ensures TrackRank(tracks, 0) == 0 && TrackRank(tracks, 1) == 1
  {
    assert Labels(tracks) == ["SPEAKER_00", "SPEAKER_01"];
    TwoLabelRanks(Labels(tracks));
  }

  lemma FirstGenericNames(names: seq<string>)
    requires names == []
    ensures DisplayName(0, names) == "Speaker 1" && DisplayName(1, names) == "Speaker 2"
  {
    assert NatToString(1) == "1" && NatToString(2) == "2";
  }

  /** Without names, SPEAKER_00 and SPEAKER_01 become "Speaker 1" and
      "Speaker 2". */
  lemma GenericNamesForTwoLabels(tracks: seq<Track>)
    requires tracks == [Track(0.0, 2.0, "SPEAKER_00"), Track(2.0, 4.0, "SPEAKER_01")]
    ensures var speakers := Speakers(Relabelled(tracks, None));
            |speakers| == 2 && speakers[0] == "Speaker 1" && speakers[1] == "Speaker 2"
  {
    TwoTrackRanks(tracks);
    FirstGenericNames(NameList(None));
  }

  /** With the names Alice and Bob, SPEAKER_00 and SPEAKER_01 become Alice
      and Bob. */
  lemma NamesForTwoLabels(tracks: seq<Track>, names: seq<string>)
    requires tracks == [Track(0.0, 2.0, "SPEAKER_00"), Track(2.0, 4.0, "SPEAKER_01")]
    requires names == ["Alice", "Bob"]
    ensures var speakers := Speakers(Relabelled(tracks, Some(names)));
            |speakers| == 2 && speakers[0] == "Alice" && speakers[1] == "Bob"
  {
    TwoTrackRanks(tracks);
  }

  lemma ThreeLabelsStrictlySorted(sorted: seq<string>)
    requires sorted == ["SPEAKER_00", "SPEAKER_01", "SPEAKER_02"]
    ensures StrictlySorted(sorted)
  {
    LexLessAfterCommonPrefix("SPEAKER_0", "0", "1");
    LexLessAfterCommonPrefix("SPEAKER_0", "0", "2");
    LexLessAfterCommonPrefix("SPEAKER_0", "1", "2");
  }

  lemma ThreeLabelsSorted(labels: seq<string>, sorted: seq<string>)
    requires labels == ["SPEAKER_02", "SPEAKER_00", "SPEAKER_01"]
    requires sorted == ["SPEAKER_00", "SPEAKER_01", "SPEAKER_02"]
    ensures SortedUnique(labels) == sorted
  {
    ThreeLabelsStrictlySorted(sorted);
    SortedUniqueIsStrictlySorted(labels);
    StrictlySortedUnique(SortedUnique(labels), sorted);
  }

  lemma ThreeLabelRanks(labels: seq<string>)
    requires labels == ["SPEAKER_02", "SPEAKER_00", "SPEAKER_01"]
    ensures "SPEAKER_00" in labels && "SPEAKER_01" in labels && "SPEAKER_02" in labels
    ensures Rank(labels, "SPEAKER_00") == 0 && Rank(labels, "SPEAKER_01") == 1 && Rank(labels, "SPEAKER_02") == 2
  {
    ThreeLabelsSorted(labels, ["SPEAKER_00", "SPEAKER_01", "SPEAKER_02"]);
    RankOfPosition(labels, 0);
    RankOfPosition(labels, 1);
    RankOfPosition(labels, 2);
  }

  lemma ThreeTrackRanks(tracks: seq<Track>)
    requires tracks == [Track(0.0, 1.0, "SPEAKER_02"), Track(1.0, 2.0, "SPEAKER_00"), Track(2.0, 3.0, "SPEAKER_01")]
    ensures TrackRank(tracks, 0) == 2 && TrackRank(tracks, 1) == 0 && TrackRank(tracks, 2) == 1
  {
    assert Labels(tracks) == ["SPEAKER_02", "SPEAKER_00", "SPEAKER_01"];
    ThreeLabelRanks(Labels(tracks));
  }

  lemma ThirdSpeakerName(names: seq<string>)
    requires |names| == 2
    ensures DisplayName(2, names) == "Speaker 3"
  {
    assert NatToString(3) == "3";
  }

  /** Three labels and two names: the third label in sorted order falls back
      to "Speaker 3". */
  lemma MoreLabelsThanNames(tracks: seq<Track>, names: seq<string>)
    requires tracks == [Track(0.0, 1.0, "SPEAKER_02"), Track(1.0, 2.0, "SPEAKER_00"), Track(2.0, 3.0, "SPEAKER_01")]
    requires names == ["Alice", "Bob"]
    ensures var speakers := Speakers(Relabelled(tracks, Some(names)));
            |speakers| == 3 && speakers[0] == "Speaker 3" && speakers[1] == "Alice" && speakers[2] == "Bob"
  {
    ThreeTrackRanks(tracks);
    ThirdSpeakerName(names);
  }
}
