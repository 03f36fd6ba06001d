/** The command line's input validation, `validate_input_paths`: exactly one
    of an audio file and a transcript file, inputs that exist, and output
    directories that exist and are writable. The filesystem is an input: two
    predicates standing for `os.path.exists` and `os.access(_, os.W_OK)`. */
module InputValidation {
  import opened Outcomes

  /** The two filesystem queries the validator makes. */
  datatype FileSystem = FileSystem(pathExists: string -> bool, writable: string -> bool)

  /** Which output path a directory check is about. */
  datatype OutputKind = SummaryOutput | TranscriptOutput

  /** Why validation fails; each case is one of the validator's error messages. */
  datatype Rejection =
    | NeedExactlyOneInput
    | AudioNotFound(path: string)
    | TranscriptNotFound(path: string)
    | OutputDirMissing(kind: OutputKind, dir: string)
    | OutputDirNotWritable(kind: OutputKind, dir: string)

  /** Python truthiness of an optional string: present and non-empty. */
  predicate Truthy(s: Option<string>) {
    s.Some? && s.value != ""
  }

  /** The index just past the last '/' of `p`, or 0 when there is none. */
  function LastSlashEnd(p: string): (i: nat)
    ensures i <= |p|
    ensures i > 0 ==> p[i - 1] == '/'
    ensures forall k :: i <= k < |p| ==> p[k] != '/'
  {
    if p == [] then 0
    else if p[|p| - 1] == '/' then |p|
    else LastSlashEnd(p[..|p| - 1])
  }

  predicate AllSlashes(s: string) {
    forall k :: 0 <= k < |s| ==> s[k] == '/'
  }

  /** `s.rstrip('/')`. */
  function StripTrailingSlashes(s: string): (r: string)
    ensures |r| <= |s| && r == s[..|r|]
    ensures r == [] || r[|r| - 1] != '/'
    ensures AllSlashes(s[|r|..])
  {
    if s != [] && s[|s| - 1] == '/' then
      var r := StripTrailingSlashes(s[..|s| - 1]);
      assert s[..|s| - 1][|r|..] + ['/'] == s[|r|..];
      r
    else
      s
  }

  /** POSIX `os.path.dirname`: everything up to the last '/', with the
      trailing slashes removed unless that part is made of slashes only. */
  function Dirname(p: string): (d: string)
    ensures d <= p
    ensures |d| <= LastSlashEnd(p) && AllSlashes(p[|d|..LastSlashEnd(p)])
    ensures d == [] <==> LastSlashEnd(p) == 0
  {
    var head := p[..LastSlashEnd(p)];
    if head != [] && !AllSlashes(head) then StripTrailingSlashes(head) else head
  }

  /** The directory an output file goes to: `dirname(path) or "."`. */
  function OutputDir(path: string): (dir: string)
    ensures dir != ""
    ensures dir == "." || dir <= path
  {
    var dir := Dirname(path);
    if dir == "" then "." else dir
  }

  /** The two checks on an output path, skipped for an empty path. */
  function CheckOutputDir(kind: OutputKind, path: string, fs: FileSystem): (r: Option<Rejection>)
    ensures r.None? <==> path == "" || (fs.pathExists(OutputDir(path)) && fs.writable(OutputDir(path)))
    ensures r.Some? ==> (r.value.OutputDirMissing? || r.value.OutputDirNotWritable?) &&
                        r.value.kind == kind && r.value.dir == OutputDir(path)
  {
    if path == "" then None
    else
      var dir := OutputDir(path);
      if !fs.pathExists(dir) then Some(OutputDirMissing(kind, dir))
      else if !fs.writable(dir) then Some(OutputDirNotWritable(kind, dir))
      else None
  }

  /** The first check that fails, in the validator's order, or None. */
  function FirstRejection(summaryOutput: string, audio: Option<string>, transcript: Option<string>,
                          transcriptOutput: Option<string>, fs: FileSystem): (r: Option<Rejection>)
    ensures r.Some? ==>
              match r.value
              case NeedExactlyOneInput => audio.None? == transcript.None?
              case AudioNotFound(path) => audio == Some(path) && path != "" && !fs.pathExists(path)
              case TranscriptNotFound(path) => transcript == Some(path) && path != "" && !fs.pathExists(path)
              case OutputDirMissing(_, dir) => !fs.pathExists(dir)
              case OutputDirNotWritable(_, dir) => fs.pathExists(dir) && !fs.writable(dir)
  {
    if audio.None? == transcript.None? then Some(NeedExactlyOneInput)
    else if Truthy(audio) && !fs.pathExists(audio.value) then Some(AudioNotFound(audio.value))
    else if Truthy(transcript) && !fs.pathExists(transcript.value) then Some(TranscriptNotFound(transcript.value))
    else
      var summary := CheckOutputDir(SummaryOutput, summaryOutput, fs);
      if summary.Some? then summary
      else CheckOutputDir(TranscriptOutput, if transcriptOutput.Some? then transcriptOutput.value else "", fs)
  }

  /** Whether an output path passes: empty, or its directory exists and is writable. */
  predicate OutputDirUsable(path: Option<string>, fs: FileSystem) {
    Truthy(path) ==> fs.pathExists(OutputDir(path.value)) && fs.writable(OutputDir(path.value))
  }

  /** `validate_input_paths`: true exactly when every check passes, whatever
      their order. */
  function ValidateInputPaths(summaryOutput: string, audio: Option<string>, transcript: Option<string>,
                              transcriptOutput: Option<string>, fs: FileSystem): (valid: bool)
    ensures valid <==>
            (audio.Some? <==> transcript.None?) &&
            (Truthy(audio) ==> fs.pathExists(audio.value)) &&
            (Truthy(transcript) ==> fs.pathExists(transcript.value)) &&
            OutputDirUsable(Some(summaryOutput), fs) &&
            OutputDirUsable(transcriptOutput, fs)
  {
    FirstRejection(summaryOutput, audio, transcript, transcriptOutput, fs).None?
  }

  /** The input checks come first and each rejection names what failed:
      the exactly-one rule, then the audio file, then the transcript file. */
  lemma InputRejections(summaryOutput: string, audio: Option<string>, transcript: Option<string>,
                        transcriptOutput: Option<string>, fs: FileSystem)
    requires FirstRejection(summaryOutput, audio, transcript, transcriptOutput, fs).Some?
    ensures var r := FirstRejection(summaryOutput, audio, transcript, transcriptOutput, fs).value;
            (r.NeedExactlyOneInput? <==> audio.None? == transcript.None?) &&
            (r.AudioNotFound? ==>
               transcript.None? && Truthy(audio) && r.path == audio.value && !fs.pathExists(audio.value)) &&
            (r.TranscriptNotFound? ==>
               audio.None? && Truthy(transcript) && r.path == transcript.value && !fs.pathExists(transcript.value))
  {
  }

  /** An output-directory rejection means every input check passed; the
      summary directory is checked before the transcript directory, and
      existence before writability. */
  lemma OutputRejections(summaryOutput: string, audio: Option<string>, transcript: Option<string>,
                         transcriptOutput: Option<string>, fs: FileSystem)
    requires var r := FirstRejection(summaryOutput, audio, transcript, transcriptOutput, fs);
             r.Some? && (r.value.OutputDirMissing? || r.value.OutputDirNotWritable?)
    ensures var r := FirstRejection(summaryOutput, audio, transcript, transcriptOutput, fs).value;
            (audio.Some? <==> transcript.None?) &&
            (Truthy(audio) ==> fs.pathExists(audio.value)) &&
            (Truthy(transcript) ==> fs.pathExists(transcript.value)) &&
            (r.OutputDirMissing? ==> !fs.pathExists(r.dir)) &&
            (r.OutputDirNotWritable? ==> fs.pathExists(r.dir) && !fs.writable(r.dir)) &&
            (r.kind == SummaryOutput ==> summaryOutput != "" && r.dir == OutputDir(summaryOutput)) &&
            (r.kind == TranscriptOutput ==>
               OutputDirUsable(Some(summaryOutput), fs) &&
               Truthy(transcriptOutput) && r.dir == OutputDir(transcriptOutput.value))
  {
  }

  /** The directory of a path is a prefix of it, and a path without '/'
      puts its output in the current directory. */
  lemma DirnameIsPrefix(p: string)
    ensures var d := Dirname(p); |d| <= |p| && d == p[..|d|]
    ensures '/' !in p ==> Dirname(p) == "" && OutputDir(p) == "."
  {
  }

  /** A directory that is not the root does not end in '/'. */
  lemma DirnameHasNoTrailingSlash(p: string)
    requires Dirname(p) != [] && !AllSlashes(Dirname(p))
    ensures Dirname(p)[|Dirname(p)| - 1] != '/'
  {
  }

  /** Exactly one input must be given: neither and both are rejected,
      whatever the filesystem says. */
  lemma NeitherOrBothRejected(summaryOutput: string, audioPath: string, transcriptPath: string,
                               transcriptOutput: Option<string>, fs: FileSystem)
    ensures !ValidateInputPaths(summaryOutput, None, None, transcriptOutput, fs)
    ensures !ValidateInputPaths(summaryOutput, Some(audioPath), Some(transcriptPath), transcriptOutput, fs)
    ensures FirstRejection(summaryOutput, Some(audioPath), Some(transcriptPath), transcriptOutput, fs) == Some(NeedExactlyOneInput)
    ensures FirstRejection(summaryOutput, None, None, transcriptOutput, fs) == Some(NeedExactlyOneInput)
  {
  }

  /** Empty paths are given but falsy: an empty audio path skips the
      existence check, and an empty summary path skips the directory check. */
  lemma EmptyPathsSkipChecks(fs: FileSystem)
    ensures ValidateInputPaths("", Some(""), None, None, fs)
    ensures ValidateInputPaths("", None, Some(""), Some(""), fs)
  {
  }

  /** With every path existing and writable, an audio or a transcript input
      with output "output.md" is accepted. */
  lemma AcceptedWhenEverythingExists(fs: FileSystem)
    requires forall p :: fs.pathExists(p) && fs.writable(p)
    ensures ValidateInputPaths("output.md", Some("input.mp3"), None, None, fs)
    ensures ValidateInputPaths("output.md", None, Some("input.txt"), None, fs)
  {
  }

  /** A missing audio file is reported before anything else is looked at. */
  lemma MissingAudioReported(audio: string, fs: FileSystem)
    requires audio == "nonexistent.mp3"
    requires !fs.pathExists(audio)
    ensures FirstRejection("test.md", Some(audio), None, None, fs) == Some(AudioNotFound("nonexistent.mp3"))
  {
  }

  /** The directory of "/nonwritable/test.md" is "/nonwritable". */
  lemma NonwritableDirname(p: string)
    requires p == "/nonwritable/test.md"
    ensures Dirname(p) == "/nonwritable"
  {
    var i := LastSlashEnd(p);
    assert p[12] == '/';
    assert forall k :: 13 <= k < |p| ==> p[k] != '/';
    assert i == 13;
    assert p[..13] == "/nonwritable/";
    assert StripTrailingSlashes("/nonwritable/") == "/nonwritable";
  }

  /** An existing but read-only output directory is reported by name. */
  lemma NonwritableOutputReported(output: string, fs: FileSystem)
    requires output == "/nonwritable/test.md"
    requires forall p :: fs.pathExists(p) && !fs.writable(p)
    ensures FirstRejection(output, Some("test.mp3"), None, None, fs) ==
            Some(OutputDirNotWritable(SummaryOutput, "/nonwritable"))
  {
    NonwritableDirname(output);
  }
}
