/**
 * The JavaScript server, src/server.js: `POST /api/trim` takes an uploaded
 * video and a JSON list of `{ start, end }` segments, extracts each segment
 * (re-encoding) into `output/<jobId>/part<i>.mp4`, concatenates the parts
 * through an unescaped concat list into `<jobId>-final.mp4`, streams the
 * result back and then deletes the job's files one by one. A thrown error
 * answers 500 and deletes nothing.
 */
module ServerJs {
  import opened Wrappers
  import opened Js
  import opened Fs
  import opened Http
  import opened Engine
  import opened Manifest
  import opened Segments
  import opened Jobs
  import opened Cleanup

  /** `path.join(__dirname, "output", jobId)` */
  function OutputDir(root: Path, jobId: string): (d: Path)
    ensures |d| > 0
  {
    JoinPath(JoinPath(root, "output"), jobId)
  }

  function ConcatListPath(outputDir: Path): Path
  {
    JoinPath(outputDir, "concat.txt")
  }

  function FinalName(jobId: string): string
  {
    jobId + "-final.mp4"
  }

  /** `path.join(outputDir, `${jobId}-final.mp4`)`: named after the same id as its directory. */
  function FinalPath(outputDir: Path, jobId: string): Path
  {
    JoinPath(outputDir, FinalName(jobId))
  }

  /**
   * What the loop walks over, as `parsedSegments.length` and
   * `parsedSegments[i]` see the parsed value: an array's elements; for a
   * string, one character per index, whose `start` and `end` are
   * `undefined`; for `null`, reading `.length` throws the same TypeError
   * that destructuring a `null` element does; any other value has no
   * `length`, so the loop does not run.
   */
  function LoopEntries(v: Json): (es: seq<Entry>)
    ensures v.JArray? ==> es == v.items
    ensures |es| == 0 <==> v.Other? || (v.JArray? && |v.items| == 0) || (v.JString? && |v.s| == 0)
    ensures !v.JArray? ==> forall i :: 0 <= i < |es| ==> es[i].Null? || es[i].start.NotText?
  {
    match v
    case JArray(items) => items
    case JString(s) => seq(|s|, _ => Obj(NotText, NotText))
    case JNull => [Null]
    case Other => []
  }

  /** The loop of this handler: parts are read from multer's file and written into `outputDir`. */
  function JsLoop(entries: seq<Entry>, upload: Upload, outputDir: Path, engine: Invocation -> EngineResult): (l: Loop)
    ensures |l.checks| == |entries|
  {
    SegmentLoop(JsProfile, entries, upload.path, outputDir, engine)
  }

  /** The concatenation call over the part files, with the unescaped list. */
  function JoinCall(outputDir: Path, jobId: string, parts: seq<Path>): Invocation
  {
    Concat(ConcatListPath(outputDir), ListText(parts, false), FinalPath(outputDir, jobId))
  }

  /** The files the cleanup unlinks, in order: the input, the final output, each part, the concat list. */
  function CleanupFiles(input: Path, outputDir: Path, jobId: string, parts: seq<Path>): seq<Path>
  {
    [input, FinalPath(outputDir, jobId)] + parts + [ConcatListPath(outputDir)]
  }

  /** The cleanup on the stream's `close`: unlink those files, then `rmdirSync(outputDir)`. */
  function CleanupPlan(input: Path, outputDir: Path, jobId: string, parts: seq<Path>): (plan: seq<Step>)
    ensures |plan| == |parts| + 4
    ensures plan[0] == UnlinkStep(input) && plan[|parts| + 3] == RmdirStep(outputDir)
    ensures forall i :: 0 <= i < |parts| ==> plan[i + 2] == UnlinkStep(parts[i])
  {
    Unlinks(CleanupFiles(input, outputDir, jobId, parts)) + [RmdirStep(outputDir)]
  }

  /** How the `try` block answers once the loop has stopped with progress `r`: `err.message` on a throw. */
  function TryReply(r: Progress, outputDir: Path, jobId: string, engine: Invocation -> EngineResult): Reply
  {
    if r.failure.Some? then Reply(ErrorJson(500, Message(r.failure.value)), r.calls)
    else
      var join := JoinCall(outputDir, jobId, r.parts);
      match engine(join)
      case Failed(m) => Reply(ErrorJson(500, Message(EngineError(m))), r.calls + [join])
      case Done => Reply(VideoStream(FinalPath(outputDir, jobId)), r.calls + [join])
  }

  /**
   * The filesystem once the `try` block is over, starting from `made` (the
   * output directory just created): the written parts stay, and so does the
   * concat list once written; only after a streamed video does the cleanup
   * run.
   */
  function Leftover(made: FsState, r: Progress, input: Path, outputDir: Path, jobId: string, engine: Invocation -> EngineResult): FsState
  {
    var written := FsState(made.files + Elems(r.created), made.dirs);
    if r.failure.Some? then written
    else
      var listed := FsState(written.files + {ConcatListPath(outputDir)}, written.dirs);
      match engine(JoinCall(outputDir, jobId, r.parts))
      case Failed(_) => listed
      case Done =>
        RunPlan(FsState(listed.files + {FinalPath(outputDir, jobId)}, listed.dirs), CleanupPlan(input, outputDir, jobId, r.parts))
  }

  /** What one request does, end to end. */
  function Expected(req: JobRequest, root: Path, jobId: string, s: FsState, engine: Invocation -> EngineResult): Outcome
  {
    if req.file.None? || req.segments.Missing? then Outcome(ErrorJson(400, "Missing video or segments"), [], s)
    else if req.segments.Unparseable? then Outcome(ErrorJson(400, "Invalid segments format"), [], s)
    else
      var upload := req.file.value;
      var outputDir := OutputDir(root, jobId);
      match MkdirRecursive(s, outputDir)
      case None => Outcome(ErrorJson(500, Message(MkdirError)), [], s)
      case Some(made) =>
        var r := Run(JsLoop(LoopEntries(req.segments.value), upload, outputDir, engine), |LoopEntries(req.segments.value)|);
        var a := TryReply(r, outputDir, jobId, engine);
        Outcome(a.response, a.calls, Leftover(made, r, upload.path, outputDir, jobId, engine))
  }

  /** The concat list and the final output sit directly in the output directory, which did not exist before. */
  lemma OutputFiles(s: FsState, outputDir: Path, jobId: string)
    requires s.VacantAt(outputDir) && |outputDir| > 0 && '/' !in jobId
    ensures Ancestors(ConcatListPath(outputDir)) == Ancestors(outputDir) + {outputDir}
    ensures Ancestors(FinalPath(outputDir, jobId)) == Ancestors(outputDir) + {outputDir}
    ensures Under(ConcatListPath(outputDir), outputDir) && Under(FinalPath(outputDir, jobId), outputDir)
    ensures ConcatListPath(outputDir) !in s.files && ConcatListPath(outputDir) !in Claimed(s, outputDir).dirs
    ensures FinalPath(outputDir, jobId) !in s.files && FinalPath(outputDir, jobId) !in Claimed(s, outputDir).dirs
  {
    AncestorsOfJoin(outputDir, "concat.txt");
    AncestorsOfJoin(outputDir, FinalName(jobId));
    FreshInside(s, outputDir, ConcatListPath(outputDir));
    FreshInside(s, outputDir, FinalPath(outputDir, jobId));
  }

  /** The concatenation, and after a streamed video the cleanup. */
  method Deliver(fs: FileSystem, input: Path, outputDir: Path, jobId: string, segmentFiles: seq<Path>, extracts: seq<Invocation>,
                 engine: Invocation -> EngineResult, ghost s: FsState, ghost r: Progress)
      returns (resp: Response, calls: seq<Invocation>)
    requires s.VacantAt(outputDir) && |outputDir| > 0 && '/' !in jobId
    requires r.failure.None? && r.parts == segmentFiles && r.calls == extracts
    requires fs.dirs == Claimed(s, outputDir).dirs
    modifies fs
    ensures Reply(resp, calls) == TryReply(r, outputDir, jobId, engine)
    ensures var listed := FsState(old(fs.files) + {ConcatListPath(outputDir)}, old(fs.dirs));
            fs.State() == match engine(JoinCall(outputDir, jobId, r.parts))
              case Failed(_) => listed
              case Done =>
                RunPlan(FsState(listed.files + {FinalPath(outputDir, jobId)}, listed.dirs), CleanupPlan(input, outputDir, jobId, r.parts))
  {
    var concatListPath := ConcatListPath(outputDir);
    var finalOutputPath := FinalPath(outputDir, jobId);
    OutputFiles(s, outputDir, jobId);
    var concatText := ListText(segmentFiles, false);
    fs.WriteFileSync(concatListPath);
    var join := Concat(concatListPath, concatText, finalOutputPath);
    calls := extracts + [join];
    var outcome := RunEngine(fs, engine, join);
    if outcome.Failed? {
      resp := ErrorJson(500, Message(EngineError(outcome.message)));
      return;
    }
    resp := VideoStream(finalOutputPath);
    RunSteps(fs, CleanupPlan(input, outputDir, jobId, segmentFiles));
  }

  /** The `try` block once the output directory exists. */
  method Process(fs: FileSystem, entries: seq<Entry>, upload: Upload, outputDir: Path, jobId: string,
                 engine: Invocation -> EngineResult, ghost s: FsState)
      returns (resp: Response, calls: seq<Invocation>)
    requires s.VacantAt(outputDir) && |outputDir| > 0 && '/' !in jobId
    requires fs.State() == Claimed(s, outputDir)
    modifies fs
    ensures var r := Run(JsLoop(entries, upload, outputDir, engine), |entries|);
            && Reply(resp, calls) == TryReply(r, outputDir, jobId, engine)
            && fs.State() == Leftover(Claimed(s, outputDir), r, upload.path, outputDir, jobId, engine)
  {
    ClaimedIsEmpty(s, outputDir);
    var segmentFiles, failure;
    segmentFiles, calls, failure := ExtractParts(fs, JsProfile, entries, upload.path, outputDir, engine);
    ghost var r := Run(JsLoop(entries, upload, outputDir, engine), |entries|);
    if failure.Some? {
      resp := ErrorJson(500, Message(failure.value));
      return;
    }
    resp, calls := Deliver(fs, upload.path, outputDir, jobId, segmentFiles, calls, engine, s, r);
  }

  /**
   * The `/api/trim` handler. The job id is fresh (nothing exists at or
   * below its output directory) and, being a UUID, holds no separator.
   */
  method HandleTrim(fs: FileSystem, req: JobRequest, root: Path, jobId: string, engine: Invocation -> EngineResult)
      returns (resp: Response, calls: seq<Invocation>)
    requires fs.State().VacantAt(OutputDir(root, jobId)) && '/' !in jobId
    modifies fs
    ensures Outcome(resp, calls, fs.State()) == Expected(req, root, jobId, old(fs.State()), engine)
  {
    ghost var s := fs.State();
    if req.file.None? || req.segments.Missing? {
      return ErrorJson(400, "Missing video or segments"), [];
    }
    if req.segments.Unparseable? {
      return ErrorJson(400, "Invalid segments format"), [];
    }
    var outputDir := OutputDir(root, jobId);
    ClaimVacant(s, outputDir);
    var made := fs.MkdirSync(outputDir, true);
    if !made {
      return ErrorJson(500, Message(MkdirError)), [];
    }
    resp, calls := Process(fs, LoopEntries(req.segments.value), req.file.value, outputDir, jobId, engine, s);
  }

  /**
   * A 400 is answered exactly when the upload or the segments field is
   * missing, or the field is not JSON; no engine call is made and nothing
   * changes on disk, not even the upload.
   */
  lemma BadRequestIff(req: JobRequest, root: Path, jobId: string, s: FsState, engine: Invocation -> EngineResult)
    ensures var o := Expected(req, root, jobId, s, engine);
            o.response.ErrorJson? && o.response.status == 400 <==> req.file.None? || !req.segments.Parsed?
    ensures var o := Expected(req, root, jobId, s, engine);
            req.file.None? || !req.segments.Parsed? ==> o.calls == [] && o.fs == s
  {
  }

  /** The reply once the loop `l` has run over every entry. */
  function LoopReply(l: Loop, outputDir: Path, jobId: string): Reply
  {
    TryReply(Run(l, |l.checks|), outputDir, jobId, l.engine)
  }

  /** For a parsed request whose output directory was created, the handler's response and calls are its loop's reply. */
  lemma ExpectedIsLoopReply(req: JobRequest, root: Path, jobId: string, s: FsState, engine: Invocation -> EngineResult)
    requires req.file.Some? && req.segments.Parsed?
    requires MkdirRecursive(s, OutputDir(root, jobId)).Some?
    ensures var l := JsLoop(LoopEntries(req.segments.value), req.file.value, OutputDir(root, jobId), engine);
            var o := Expected(req, root, jobId, s, engine);
            && l.engine == engine
            && Reply(o.response, o.calls) == LoopReply(l, OutputDir(root, jobId), jobId)
            && o.fs == Leftover(Claimed(s, OutputDir(root, jobId)), Run(l, |l.checks|), req.file.value.path, OutputDir(root, jobId), jobId, engine)
            && forall j :: 0 <= j < |l.checks| ==> l.part(j) == PartPath(JsProfile, OutputDir(root, jobId), j)
  {
  }

  /** A video is only ever streamed after every segment went through. */
  lemma VideoOnlyIfAllExtract(l: Loop, outputDir: Path, jobId: string)
    ensures LoopReply(l, outputDir, jobId).response.VideoStream? ==> forall j :: 0 <= j < |l.checks| ==> l.Extracts(j)
  {
    RunFirstFailure(l, |l.checks|);
  }

  /**
   * When segment `i` is the first that does not go through, the reply is a
   * 500 carrying that segment's own error message, after one engine call
   * per earlier segment (and one for segment `i` when it validated), each
   * extracting its segment as validated.
   */
  lemma FirstFailureReply(l: Loop, outputDir: Path, jobId: string, i: nat)
    requires i < |l.checks| && (forall j :: 0 <= j < i ==> l.Extracts(j)) && !l.Extracts(i)
    ensures var a := LoopReply(l, outputDir, jobId);
            && a.response == ErrorJson(500, Message(l.SegmentFailure(i)))
            && |a.calls| == (if l.checks[i].Success? then i + 1 else i)
            && forall j :: 0 <= j < |a.calls| ==> l.checks[j].Success? && a.calls[j] == l.Call(j, l.checks[j].value)
  {
    RunFirstFailure(l, |l.checks|);
    RunCounts(l, |l.checks|);
    RunCalls(l, |l.checks|);
    assert Run(l, |l.checks|).failure.Some?;
  }

  /**
   * There is no emptiness or array check: an empty array, or any parsed
   * value other than an array, a string or `null`, goes straight to the
   * concatenation, over an empty concat list.
   */
  lemma NothingToExtract(req: JobRequest, root: Path, jobId: string, s: FsState, engine: Invocation -> EngineResult)
    requires req.file.Some? && req.segments.Parsed?
    requires req.segments.value == JArray([]) || req.segments.value.Other?
    requires MkdirRecursive(s, OutputDir(root, jobId)).Some?
    ensures var o := Expected(req, root, jobId, s, engine);
            var join := o.calls[0];
            && o.calls == [JoinCall(OutputDir(root, jobId), jobId, [])]
            && join.manifest == ""
            && (o.response == VideoStream(FinalPath(OutputDir(root, jobId), jobId)) <==> engine(join).Done?)
  {
  }

  /** A parsed string or `null` in place of the segment array throws a TypeError before any engine call. */
  lemma NotAnArrayThrows(req: JobRequest, root: Path, jobId: string, s: FsState, engine: Invocation -> EngineResult)
    requires req.file.Some? && req.segments.Parsed?
    requires req.segments.value.JNull? || (req.segments.value.JString? && |req.segments.value.s| > 0)
    requires MkdirRecursive(s, OutputDir(root, jobId)).Some?
    ensures var o := Expected(req, root, jobId, s, engine);
            o.response == ErrorJson(500, TypeErrorText) && o.calls == []
  {
    var entries := LoopEntries(req.segments.value);
    var l := JsLoop(entries, req.file.value, OutputDir(root, jobId), engine);
    ChecksAt(JsProfile, entries, 0);
    assert l.checks[0] == Failure(TypeError);
    assert Run(l, 1).failure == Some(TypeError);
    RunStopped(l, 1, |entries|);
  }

  /**
   * A thrown error deletes nothing: every file and directory that existed
   * is still there, and once the output directory was created it stays,
   * with every part file the engine wrote.
   */
  lemma ErrorKeepsFiles(req: JobRequest, root: Path, jobId: string, s: FsState, engine: Invocation -> EngineResult)
    requires req.file.Some? && req.segments.Parsed?
    requires Expected(req, root, jobId, s, engine).response.ErrorJson?
    ensures var o := Expected(req, root, jobId, s, engine);
            var outputDir := OutputDir(root, jobId);
            var r := Run(JsLoop(LoopEntries(req.segments.value), req.file.value, outputDir, engine), |LoopEntries(req.segments.value)|);
            && s.files <= o.fs.files && s.dirs <= o.fs.dirs
            && (MkdirRecursive(s, outputDir).Some? ==> outputDir in o.fs.dirs && Elems(r.created) <= o.fs.files)
  {
  }

  lemma {:induction false} PartPathPlain(outputDir: Path, j: nat)
    requires NoLineBreak(outputDir) && '\'' !in outputDir
    ensures NoLineBreak(PartPath(JsProfile, outputDir, j)) && '\'' !in PartPath(JsProfile, outputDir, j)
  {
    DigitsAvoid(NatToString(j), '\n');
    DigitsAvoid(NatToString(j), '\'');
    assert PartPath(JsProfile, outputDir, j) == outputDir + "/" + ("part" + NatToString(j) + ".mp4");
  }

  /**
   * The unescaped concat list reads back as exactly the part files, in
   * order, as long as the output directory holds no quote or line break
   * (a quote is dropped by the reader: see `RawManifestLosesQuote`).
   */
  lemma JoinReadsBack(outputDir: Path, jobId: string, parts: seq<Path>)
    requires NoLineBreak(outputDir) && '\'' !in outputDir
    requires forall j :: 0 <= j < |parts| ==> parts[j] == PartPath(JsProfile, outputDir, j)
    ensures ReadManifest(JoinCall(outputDir, jobId, parts).manifest) == Some(parts)
  {
    forall j | 0 <= j < |parts|
      ensures NoLineBreak(parts[j]) && '\'' !in parts[j]
    {
      PartPathPlain(outputDir, j);
    }
    RawManifestRoundTrip(parts);
  }
}
