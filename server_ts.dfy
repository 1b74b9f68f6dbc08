/**
 * The TypeScript server, src/server.ts: `POST /api/trim` takes an uploaded
 * video and a JSON list of `{ start, end }` segments, extracts each segment
 * into a part file with stream copy, concatenates the parts through an
 * escaped concat list, streams the result back, and removes the per-job
 * directory on every path that gets that far.
 */
module ServerTs {
  import opened Wrappers
  import opened Js
  import opened Fs
  import opened Http
  import opened Engine
  import opened Utils
  import opened Manifest
  import opened Segments
  import opened Jobs

  /** `path.join(os.tmpdir(), "uploads")` */
  function UploadsBase(tmp: Path): Path
  {
    JoinPath(tmp, "uploads")
  }

  /** `path.join(os.tmpdir(), "video-jobs", uuidv4())` */
  function JobDir(tmp: Path, jobId: string): (d: Path)
    ensures |d| > 0
  {
    JoinPath(JoinPath(tmp, "video-jobs"), jobId)
  }

  /** `input${path.extname(originalname) || ".mp4"}` */
  function InputName(upload: Upload): string
  {
    "input" + (if upload.ext == "" then ".mp4" else upload.ext)
  }

  function InputPath(jobDir: Path, upload: Upload): Path
  {
    JoinPath(jobDir, InputName(upload))
  }

  function ConcatListPath(jobDir: Path): Path
  {
    JoinPath(jobDir, "concat.txt")
  }

  function FinalPath(jobDir: Path): Path
  {
    JoinPath(jobDir, "final.mp4")
  }

  /** The request-level checks before any work: the segment list, or the 400 message. */
  function Accepted(f: SegmentsField): (r: Result<seq<Entry>, string>)
    ensures r.Success? <==> f.Parsed? && f.value.JArray? && |f.value.items| > 0
    ensures r.Success? ==> r.value == f.value.items
    ensures r.Failure? ==> r.error == if f.Missing? then "Missing segments" else "Invalid segments format"
  {
    match f
    case Missing => Failure("Missing segments")
    case Unparseable => Failure("Invalid segments format")
    case Parsed(v) =>
      if v.JArray? && |v.items| > 0 then Success(v.items) else Failure("Invalid segments format")
  }

  /** `err.message || "Processing failed"` */
  function ErrorBody(f: JobError): string
  {
    if Message(f) == "" then "Processing failed" else Message(f)
  }

  /** The concatenation call over the part files, in order. */
  function JoinCall(jobDir: Path, parts: seq<Path>): Invocation
  {
    Concat(ConcatListPath(jobDir), ListText(parts, true), FinalPath(jobDir))
  }

  /** The loop of this handler, for an accepted request. */
  function JobLoop(segs: seq<Entry>, upload: Upload, jobDir: Path, engine: Invocation -> EngineResult): (l: Loop)
    ensures |l.checks| == |segs|
  {
    SegmentLoop(TsProfile, segs, InputPath(jobDir, upload), jobDir, engine)
  }

  /** How the `try` block answers once the loop has stopped with progress `r`. */
  function TryReply(r: Progress, jobDir: Path, engine: Invocation -> EngineResult): Reply
  {
    if r.failure.Some? then Reply(ErrorJson(500, ErrorBody(r.failure.value)), r.calls)
    else
      var join := JoinCall(jobDir, r.parts);
      match engine(join)
      case Failed(m) => Reply(ErrorJson(500, ErrorBody(EngineError(m))), r.calls + [join])
      case Done => Reply(VideoStream(FinalPath(jobDir)), r.calls + [join])
  }

  /**
   * The `try` block: extract every segment, stopping at the first failure,
   * then concatenate the parts; any throw becomes a 500 with its message.
   */
  function Processed(segs: seq<Entry>, upload: Upload, jobDir: Path, engine: Invocation -> EngineResult): Reply
  {
    TryReply(Run(JobLoop(segs, upload, jobDir, engine), |segs|), jobDir, engine)
  }

  /**
   * What one request does, end to end. On every path past the job
   * directory's creation the directory is gone afterwards and only the
   * upload has disappeared; the streamed response's `finish` cleanup is
   * taken as having run.
   */
  function Expected(req: JobRequest, tmp: Path, jobId: string, s: FsState, engine: Invocation -> EngineResult): Outcome
  {
    match req.file
    case None => Outcome(ErrorJson(400, "Missing video file"), [], s)
    case Some(upload) =>
      var consumed := FsState(s.files - {upload.path}, s.dirs);
      var accepted := Accepted(req.segments);
      if accepted.Failure? then Outcome(ErrorJson(400, accepted.error), [], consumed)
      else
        var jobDir := JobDir(tmp, jobId);
        if EnsureDirState(s, jobDir).None? then Outcome(Unanswered, [], s)
        else
          var p := Processed(accepted.value, upload, jobDir, engine);
          Outcome(p.response, p.calls, FsState(consumed.files, s.dirs + Ancestors(jobDir)))
  }

  /** Module load: `ensureDir(uploadsBase)`. */
  method Startup(fs: FileSystem, tmp: Path) returns (ok: bool)
    modifies fs
    ensures ok ==> UploadsBase(tmp) in fs.State().dirs || UploadsBase(tmp) in old(fs.State()).files
    ensures var r := EnsureDirState(old(fs.State()), UploadsBase(tmp));
            ok == r.Some? && fs.State() == if ok then r.value else old(fs.State())
  {
    ok := EnsureDir(fs, UploadsBase(tmp));
  }

  /** Writes the concat list and runs the concatenation; the job directory gains the list, and the output when the engine succeeds. */
  method ConcatParts(fs: FileSystem, jobDir: Path, segmentFiles: seq<Path>, engine: Invocation -> EngineResult, ghost base: FsState)
      returns (join: Invocation, outcome: EngineResult)
    requires base.VacantAt(jobDir) && |jobDir| > 0
    requires fs.dirs == Claimed(base, jobDir).dirs
    modifies fs
    ensures join == JoinCall(jobDir, segmentFiles) && outcome == engine(join)
    ensures fs.dirs == old(fs.dirs)
    ensures fs.files == old(fs.files) + {ConcatListPath(jobDir)} + (if outcome.Done? then {FinalPath(jobDir)} else {})
  {
    var concatListPath := ConcatListPath(jobDir);
    var finalPath := FinalPath(jobDir);
    AncestorsOfJoin(jobDir, "concat.txt");
    AncestorsOfJoin(jobDir, "final.mp4");
    FreshInside(base, jobDir, concatListPath);
    FreshInside(base, jobDir, finalPath);
    var concatText := ListText(segmentFiles, true);
    fs.WriteFileSync(concatListPath);
    join := Concat(concatListPath, concatText, finalPath);
    outcome := RunEngine(fs, engine, join);
  }

  /** The extraction loop on a claimed job directory holding the input; every file it leaves lies inside the directory. */
  method ExtractAll(fs: FileSystem, segs: seq<Entry>, upload: Upload, jobDir: Path, engine: Invocation -> EngineResult, ghost base: FsState)
      returns (segmentFiles: seq<Path>, calls: seq<Invocation>, failure: Option<JobError>, ghost extra: set<Path>)
    requires base.VacantAt(jobDir) && |jobDir| > 0 && '/' !in upload.ext
    requires fs.State() == FsState(base.files + {InputPath(jobDir, upload)}, Claimed(base, jobDir).dirs)
    modifies fs
    ensures var r := Run(JobLoop(segs, upload, jobDir, engine), |segs|);
            segmentFiles == r.parts && calls == r.calls && failure == r.failure
    ensures fs.State() == FsState(base.files + extra, Claimed(base, jobDir).dirs)
    ensures forall p :: p in extra ==> Under(p, jobDir)
  {
    var inputPath := InputPath(jobDir, upload);
    AncestorsOfJoin(jobDir, InputName(upload));
    ClaimedIsEmpty(base, jobDir);
    segmentFiles, calls, failure := ExtractParts(fs, TsProfile, segs, inputPath, jobDir, engine);
    ghost var r := Run(JobLoop(segs, upload, jobDir, engine), |segs|);
    LoopPartPaths(TsProfile, segs, inputPath, jobDir, engine);
    extra := {inputPath} + Elems(r.created);
  }

  /** After a loop that stopped without failure: the concatenation, and the reply it leads to. */
  method Deliver(fs: FileSystem, jobDir: Path, segmentFiles: seq<Path>, extracts: seq<Invocation>, engine: Invocation -> EngineResult,
                 ghost base: FsState, ghost r: Progress)
      returns (resp: Response, calls: seq<Invocation>, ghost made: set<Path>)
    requires base.VacantAt(jobDir) && |jobDir| > 0
    requires r.failure.None? && r.parts == segmentFiles && r.calls == extracts
    requires fs.dirs == Claimed(base, jobDir).dirs
    modifies fs
    ensures Reply(resp, calls) == TryReply(r, jobDir, engine)
    ensures fs.dirs == old(fs.dirs) && fs.files == old(fs.files) + made
    ensures forall p :: p in made ==> Under(p, jobDir)
  {
    var join, outcome := ConcatParts(fs, jobDir, segmentFiles, engine, base);
    calls := extracts + [join];
    AncestorsOfJoin(jobDir, "concat.txt");
    AncestorsOfJoin(jobDir, "final.mp4");
    if outcome.Done? {
      made := {ConcatListPath(jobDir), FinalPath(jobDir)};
      resp := VideoStream(FinalPath(jobDir));
    } else {
      made := {ConcatListPath(jobDir)};
      resp := ErrorJson(500, ErrorBody(EngineError(outcome.message)));
    }
  }

  /**
   * The `try` block on a claimed job directory holding the input: every
   * file it leaves behind lies inside the job directory.
   */
  method Process(fs: FileSystem, segs: seq<Entry>, upload: Upload, jobDir: Path, engine: Invocation -> EngineResult, ghost base: FsState)
      returns (resp: Response, calls: seq<Invocation>, ghost extra: set<Path>)
    requires base.VacantAt(jobDir) && |jobDir| > 0 && '/' !in upload.ext
    requires fs.State() == FsState(base.files + {InputPath(jobDir, upload)}, Claimed(base, jobDir).dirs)
    modifies fs
    ensures Reply(resp, calls) == Processed(segs, upload, jobDir, engine)
    ensures fs.State() == FsState(base.files + extra, Claimed(base, jobDir).dirs)
    ensures forall p :: p in extra ==> Under(p, jobDir)
  {
    var segmentFiles, failure;
    segmentFiles, calls, failure, extra := ExtractAll(fs, segs, upload, jobDir, engine, base);
    ghost var r := Run(JobLoop(segs, upload, jobDir, engine), |segs|);
    if failure.Some? {
      resp := ErrorJson(500, ErrorBody(failure.value));
      return;
    }
    ghost var made;
    resp, calls, made := Deliver(fs, jobDir, segmentFiles, calls, engine, base, r);
    extra := extra + made;
  }

  /**
   * The `/api/trim` handler. The job id is fresh: nothing exists at or
   * below its directory. multer has stored the upload as a file, and
   * `path.extname` never contains a separator.
   */
  method HandleTrim(fs: FileSystem, req: JobRequest, tmp: Path, jobId: string, engine: Invocation -> EngineResult)
      returns (resp: Response, calls: seq<Invocation>)
    requires fs.State().Valid()
    requires fs.State().VacantAt(JobDir(tmp, jobId))
    requires req.file.Some? ==> req.file.value.path in fs.files && '/' !in req.file.value.ext
    modifies fs
    ensures Outcome(resp, calls, fs.State()) == Expected(req, tmp, jobId, old(fs.State()), engine)
  {
    ghost var s := fs.State();
    if req.file.None? {
      return ErrorJson(400, "Missing video file"), [];
    }
    var upload := req.file.value;
    var accepted := Accepted(req.segments);
    if accepted.Failure? {
      var _ := fs.UnlinkSync(upload.path);
      return ErrorJson(400, accepted.error), [];
    }
    var jobDir := JobDir(tmp, jobId);
    ClaimVacant(s, jobDir);
    var made := EnsureDir(fs, jobDir);
    if !made {
      return Unanswered, [];
    }
    ghost var base := FsState(s.files - {upload.path}, s.dirs);
    var inputPath := InputPath(jobDir, upload);
    AncestorsOfJoin(jobDir, InputName(upload));
    FreshInside(s, jobDir, inputPath);
    fs.RenameSync(upload.path, inputPath);
    ghost var extra;
    resp, calls, extra := Process(fs, accepted.value, upload, jobDir, engine, base);
    SafeRmDir(fs, jobDir);
    Release(base, jobDir, extra);
  }

  /**
   * A 400 is answered exactly when the upload or the segment list is
   * rejected; then no engine call is made, no directory is created, and at
   * most the upload is gone.
   */
  lemma BadRequestIff(req: JobRequest, tmp: Path, jobId: string, s: FsState, engine: Invocation -> EngineResult)
    ensures var o := Expected(req, tmp, jobId, s, engine);
            o.response.ErrorJson? && o.response.status == 400 <==> req.file.None? || Accepted(req.segments).Failure?
    ensures var o := Expected(req, tmp, jobId, s, engine);
            req.file.None? || Accepted(req.segments).Failure? ==>
              && o.calls == []
              && o.fs.dirs == s.dirs
              && o.fs.files == s.files - (if req.file.Some? then {req.file.value.path} else {})
  {
  }

  /**
   * Whatever happens, the job directory is gone afterwards, no file is left
   * behind, the upload is the only file that can disappear, and the only
   * directories that can appear are the job directory's ancestors.
   */
  lemma WorkspaceReleased(req: JobRequest, tmp: Path, jobId: string, s: FsState, engine: Invocation -> EngineResult)
    requires s.VacantAt(JobDir(tmp, jobId))
    ensures var o := Expected(req, tmp, jobId, s, engine);
            && o.fs.VacantAt(JobDir(tmp, jobId))
            && o.fs.files <= s.files
            && (forall p :: p in s.files && p !in o.fs.files ==> req.file.Some? && p == req.file.value.path)
            && s.dirs <= o.fs.dirs
            && (forall d :: d in o.fs.dirs && d !in s.dirs ==> d in Ancestors(JobDir(tmp, jobId)))
  {
    var jobDir := JobDir(tmp, jobId);
    if req.file.Some? && Accepted(req.segments).Success? && EnsureDirState(s, jobDir).Some? {
      var consumed := FsState(s.files - {req.file.value.path}, s.dirs);
      ReleasedVacant(consumed, jobDir);
    }
  }

  /** The reply once the loop `l` has run over every segment. */
  function LoopReply(l: Loop, jobDir: Path): Reply
  {
    TryReply(Run(l, |l.checks|), jobDir, l.engine)
  }

  /** A video is only ever streamed after every segment went through. */
  lemma VideoOnlyIfAllExtract(l: Loop, jobDir: Path)
    ensures LoopReply(l, jobDir).response.VideoStream? ==> forall j :: 0 <= j < |l.checks| ==> l.Extracts(j)
  {
    RunFirstFailure(l, |l.checks|);
  }

  /**
   * When segment `i` is the first that does not go through, the reply is a
   * 500 with that segment's own error, after one engine call per earlier
   * segment (and one for segment `i` when it validated), each extracting
   * its segment as validated.
   */
  lemma FirstFailureReply(l: Loop, jobDir: Path, i: nat)
    requires i < |l.checks| && (forall j :: 0 <= j < i ==> l.Extracts(j)) && !l.Extracts(i)
    ensures var a := LoopReply(l, jobDir);
            && a.response == ErrorJson(500, ErrorBody(l.SegmentFailure(i)))
            && |a.calls| == (if l.checks[i].Success? then i + 1 else i)
            && forall j :: 0 <= j < |a.calls| ==> l.checks[j].Success? && a.calls[j] == l.Call(j, l.checks[j].value)
  {
    RunFirstFailure(l, |l.checks|);
    RunCounts(l, |l.checks|);
    RunCalls(l, |l.checks|);
    var r := Run(l, |l.checks|);
    assert r.failure.Some?;
  }

  /**
   * When every segment goes through, the reply's last engine call is the
   * concatenation into `final.mp4` over a concat list that reads back as the
   * loop's part files, in segment order; the video is streamed exactly when
   * that call succeeds.
   */
  lemma AllExtractReply(l: Loop, jobDir: Path)
    requires NoLineBreak(jobDir)
    requires forall j :: 0 <= j < |l.checks| ==> l.Extracts(j) && l.part(j) == PartPath(TsProfile, jobDir, j)
    ensures var a := LoopReply(l, jobDir);
            var n := |l.checks|;
            && |a.calls| == n + 1
            && a.calls[n].Concat?
            && a.calls[n].list == ConcatListPath(jobDir) && a.calls[n].output == FinalPath(jobDir)
            && ReadManifest(a.calls[n].manifest).Some?
            && |ReadManifest(a.calls[n].manifest).value| == n
            && (forall j :: 0 <= j < n ==> ReadManifest(a.calls[n].manifest).value[j] == PartPath(TsProfile, jobDir, j))
            && (a.response == VideoStream(FinalPath(jobDir)) <==> l.engine(a.calls[n]).Done?)
  {
    var r := Run(l, |l.checks|);
    RunFirstFailure(l, |l.checks|);
    RunCounts(l, |l.checks|);
    RunParts(l, |l.checks|);
    JoinReadsBack(jobDir, r.parts);
  }

  /** For an accepted request whose job directory was created, the handler's response and calls are its loop's reply. */
  lemma ExpectedIsLoopReply(req: JobRequest, tmp: Path, jobId: string, s: FsState, engine: Invocation -> EngineResult)
    requires req.file.Some? && Accepted(req.segments).Success?
    requires EnsureDirState(s, JobDir(tmp, jobId)).Some?
    ensures var l := JobLoop(Accepted(req.segments).value, req.file.value, JobDir(tmp, jobId), engine);
            var o := Expected(req, tmp, jobId, s, engine);
            && l.engine == engine
            && Reply(o.response, o.calls) == LoopReply(l, JobDir(tmp, jobId))
            && forall j :: 0 <= j < |l.checks| ==> l.part(j) == PartPath(TsProfile, JobDir(tmp, jobId), j)
  {
  }

  /**
   * For an accepted request whose job directory was created: the response
   * is a video only when every segment validated and was extracted; when
   * segment `i` is the first that does not go through, the response is a
   * 500 carrying that segment's own error, and the engine was called once
   * for each earlier segment (and for segment `i` itself when it
   * validated), extracting it as validated and nothing else.
   */
  lemma FailFast(req: JobRequest, tmp: Path, jobId: string, s: FsState, engine: Invocation -> EngineResult, i: nat)
    requires req.file.Some? && Accepted(req.segments).Success?
    requires EnsureDirState(s, JobDir(tmp, jobId)).Some?
    ensures var segs := Accepted(req.segments).value;
            var l := JobLoop(segs, req.file.value, JobDir(tmp, jobId), engine);
            var o := Expected(req, tmp, jobId, s, engine);
            && (o.response.VideoStream? ==> forall j :: 0 <= j < |segs| ==> l.Extracts(j))
            && (i < |segs| && (forall j :: 0 <= j < i ==> l.Extracts(j)) && !l.Extracts(i) ==>
                  && o.response == ErrorJson(500, ErrorBody(l.SegmentFailure(i)))
                  && |o.calls| == (if l.checks[i].Success? then i + 1 else i)
                  && forall j :: 0 <= j < |o.calls| ==> l.checks[j].Success? && o.calls[j] == l.Call(j, l.checks[j].value))
  {
    var segs := Accepted(req.segments).value;
    var l := JobLoop(segs, req.file.value, JobDir(tmp, jobId), engine);
    ExpectedIsLoopReply(req, tmp, jobId, s, engine);
    VideoOnlyIfAllExtract(l, JobDir(tmp, jobId));
    if i < |segs| && (forall j :: 0 <= j < i ==> l.Extracts(j)) && !l.Extracts(i) {
      FirstFailureReply(l, JobDir(tmp, jobId), i);
    }
  }

  /** An invalid segment's 500 names its index. */
  lemma InvalidSegmentBody(i: nat)
    ensures ErrorBody(InvalidSegment(i)) == "Invalid segment at index " + NatToString(i)
  {
    InvalidSegmentMessage(i, i);
  }

  lemma {:induction false} PartPathNoLineBreak(jobDir: Path, j: nat)
    requires NoLineBreak(jobDir)
    ensures NoLineBreak(PartPath(TsProfile, jobDir, j))
  {
    DigitsAvoid(NatToString(j), '\n');
    assert PartPath(TsProfile, jobDir, j) == jobDir + "/" + ("part_" + NatToString(j) + ".mp4");
  }

  /** The concat list over `dir`'s part files reads back as exactly those files, in order. */
  lemma JoinReadsBack(jobDir: Path, parts: seq<Path>)
    requires NoLineBreak(jobDir)
    requires forall j :: 0 <= j < |parts| ==> parts[j] == PartPath(TsProfile, jobDir, j)
    ensures ReadManifest(JoinCall(jobDir, parts).manifest) == Some(parts)
  {
    forall j | 0 <= j < |parts|
      ensures NoLineBreak(parts[j])
    {
      PartPathNoLineBreak(jobDir, j);
    }
    EscapedManifestRoundTrip(parts);
  }
}
