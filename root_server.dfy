/**
 * The single-range trim service of the top-level server.js: one `POST
 * /api/trim` that cuts `[startTime, startTime + duration)` out of the upload
 * into `output/<jobId>.webm` and answers with a URL, and the static route
 * that serves the `output` directory under `/output`.
 */
module RootServer {
  import opened Wrappers
  import opened Js
  import opened Fs
  import opened Http
  import opened Engine

  /** The multipart request: multer's `req.file` and the two text fields of `req.body`, absent when not sent. */
  datatype TrimRequest = TrimRequest(file: Option<Upload>, startTime: Option<string>, endTime: Option<string>)

  /** `OUTPUT_DIR`: `path.join(__dirname, "output")`. */
  function OutputDir(root: Path): (d: Path)
    ensures |d| > 0
  {
    JoinPath(root, "output")
  }

  function OutputName(jobId: string): string
  {
    jobId + ".webm"
  }

  /** Where the trimmed clip of job `jobId` is written. */
  function OutputPath(root: Path, jobId: string): Path
  {
    JoinPath(OutputDir(root), OutputName(jobId))
  }

  const Origin: string := "http://localhost:4000"
  const StaticPrefix: string := "/output/"

  /** The `videoUrl` the client receives for job `jobId`. */
  function VideoUrlOf(jobId: string): string
  {
    Origin + StaticPrefix + OutputName(jobId)
  }

  /** A body field as a number: `undefined` is NaN, a string goes through `Number(...)`. */
  function FieldNumber(f: Option<string>): (n: Num)
    ensures n.Val? <==> f.Some? && IsDigits(f.value)
  {
    match f
    case None => NaN
    case Some(t) => ToNumber(t)
  }

  /** `endTime - startTime`, with JavaScript's coercion of both operands. */
  function Duration(req: TrimRequest): Num
  {
    Minus(FieldNumber(req.endTime), FieldNumber(req.startTime))
  }

  /** The guard `!req.file || duration <= 0`; a NaN duration does not trip it. */
  predicate Rejected(req: TrimRequest)
  {
    req.file.None? || AtMostZero(Duration(req))
  }

  /** The one engine run: `startTime` is handed to `setStartTime` as received, `duration` as computed. */
  function TrimCall(req: TrimRequest, root: Path, jobId: string): Invocation
    requires req.file.Some?
  {
    Extract(req.file.value.path, RawField(req.startTime), Duration(req), OutputPath(root, jobId), false)
  }

  /**
   * What the route does to a request when the job id is `jobId` and the
   * filesystem starts as `s`; the engine fails when `OUTPUT_DIR` is not a
   * directory.
   */
  function Expected(req: TrimRequest, root: Path, jobId: string, s: FsState, engine: Invocation -> EngineResult): Outcome
  {
    if Rejected(req) then Outcome(ErrorJson(400, "Invalid trim request"), [], s)
    else
      var call := TrimCall(req, root, jobId);
      match Answer(s, engine, call)
      case Done => Outcome(VideoUrl(VideoUrlOf(jobId)), [call], WriteFile(s, OutputPath(root, jobId)))
      case Failed(_) => Outcome(ErrorJson(500, "FFmpeg failed"), [call], s)
  }

  /**
   * Module start-up: create `OUTPUT_DIR` (not recursively) unless something
   * already exists at that path; `ok` is false when `mkdirSync` throws,
   * which ends the process.
   */
  method Startup(fs: FileSystem, root: Path) returns (ok: bool)
    modifies fs
    ensures var s := old(fs.State());
            if s.Exists(OutputDir(root)) then ok && fs.State() == s
            else ok == Mkdir(s, OutputDir(root)).Some? && fs.State() == if ok then Mkdir(s, OutputDir(root)).value else s
  {
    var present := fs.ExistsSync(OutputDir(root));
    if !present {
      ok := fs.MkdirSync(OutputDir(root), false);
    } else {
      ok := true;
    }
  }

  /** The `/api/trim` handler, on whatever start-up left at `OUTPUT_DIR`. */
  method HandleTrim(fs: FileSystem, req: TrimRequest, root: Path, jobId: string, engine: Invocation -> EngineResult)
      returns (response: Response, calls: seq<Invocation>)
    modifies fs
    ensures Outcome(response, calls, fs.State()) == Expected(req, root, jobId, old(fs.State()), engine)
  {
    if req.file.None? {
      return ErrorJson(400, "Invalid trim request"), [];
    }
    var duration := Minus(FieldNumber(req.endTime), FieldNumber(req.startTime));
    if AtMostZero(duration) {
      return ErrorJson(400, "Invalid trim request"), [];
    }
    var inputPath := req.file.value.path;
    var outputPath := JoinPath(OutputDir(root), jobId + ".webm");
    var call := Extract(inputPath, RawField(req.startTime), duration, outputPath, false);
    var result := RunEngine(fs, engine, call);
    calls := [call];
    match result
    case Done =>
      response := VideoUrl(VideoUrlOf(jobId));
    case Failed(_) =>
      response := ErrorJson(500, "FFmpeg failed");
  }

  /** `express.static(OUTPUT_DIR)` mounted at `/output`: the file a request path names, if any. */
  function StaticFile(root: Path, urlPath: string): (p: Option<Path>)
    ensures p.Some? ==> Under(p.value, OutputDir(root))
  {
    if |urlPath| > |StaticPrefix| && urlPath[..|StaticPrefix|] == StaticPrefix then
      var p := JoinPath(OutputDir(root), urlPath[|StaticPrefix|..]);
      assert p[..|OutputDir(root)|] == OutputDir(root);
      Some(p)
    else None
  }

  /** The path part of an absolute URL on this server. */
  function UrlPath(url: string): Option<string>
  {
    if |url| >= |Origin| && url[..|Origin|] == Origin then Some(url[|Origin|..]) else None
  }

  // ---------------------------------------------------------------------
  // Properties of the route
  // ---------------------------------------------------------------------

  /** Start-up leaves `OUTPUT_DIR` a directory whenever it does not throw, unless a file already sits there. */
  lemma StartupReady(s: FsState, root: Path)
    requires s.Valid() && OutputDir(root) !in s.files
    requires s.Exists(OutputDir(root)) || Mkdir(s, OutputDir(root)).Some?
    ensures var t := if s.Exists(OutputDir(root)) then s else Mkdir(s, OutputDir(root)).value;
            OutputDir(root) in t.dirs && Ancestors(OutputDir(root)) <= t.dirs && t.files == s.files
  {
  }

  /**
   * A file at the `OUTPUT_DIR` path passes start-up unnoticed, since the
   * existence test does not ask for a directory; no clip can then be written.
   */
  lemma StartupOverlooksFile(s: FsState, root: Path, jobId: string)
    requires s.Valid() && OutputDir(root) in s.files && '/' !in jobId
    ensures s.Exists(OutputDir(root)) && !(Ancestors(OutputPath(root, jobId)) <= s.dirs)
  {
    AncestorsOfJoin(OutputDir(root), OutputName(jobId));
  }

  /**
   * With a file sitting at `OUTPUT_DIR`, every accepted request runs the
   * engine, which cannot open its output: the answer is a 500 and the disk
   * is left as it was.
   */
  lemma OverlookedFileFails(req: TrimRequest, root: Path, jobId: string, s: FsState, engine: Invocation -> EngineResult)
    requires s.Valid() && OutputDir(root) in s.files && '/' !in jobId
    requires !Rejected(req)
    ensures Expected(req, root, jobId, s, engine) == Outcome(ErrorJson(500, "FFmpeg failed"), [TrimCall(req, root, jobId)], s)
  {
    StartupOverlooksFile(s, root, jobId);
  }

  /** The duration is the difference of the two fields exactly when both are digit strings, and NaN otherwise. */
  lemma DurationValue(req: TrimRequest)
    ensures Duration(req).Val? <==> req.startTime.Some? && IsDigits(req.startTime.value) && req.endTime.Some? && IsDigits(req.endTime.value)
    ensures Duration(req).Val? ==> Duration(req).v == DigitsValue(req.endTime.value) - DigitsValue(req.startTime.value)
  {
  }

  /**
   * The request is answered 400 exactly when there is no file or the
   * duration is a number at most zero; the engine is then never run and
   * nothing on disk changes.
   */
  lemma BadRequestIff(req: TrimRequest, root: Path, jobId: string, s: FsState, engine: Invocation -> EngineResult)
    ensures var o := Expected(req, root, jobId, s, engine);
            && (o.response.ErrorJson? && o.response.status == 400 <==> req.file.None? || AtMostZero(Duration(req)))
            && (o.response.ErrorJson? && o.response.status == 400 ==> o.calls == [] && o.fs == s)
  {
  }

  /**
   * An accepted request runs the engine once, on the upload, writing
   * `output/<jobId>.webm` with a duration that is positive or NaN; the
   * answer is the clip's URL when the clip can be written and the engine
   * succeeds, and a 500 otherwise, and only the clip is added to the disk.
   */
  lemma AcceptedRunsOnce(req: TrimRequest, root: Path, jobId: string, s: FsState, engine: Invocation -> EngineResult)
    requires !Rejected(req)
    ensures var o := Expected(req, root, jobId, s, engine);
            && |o.calls| == 1 && o.calls[0].Extract?
            && o.calls[0].input == req.file.value.path && o.calls[0].output == OutputPath(root, jobId)
            && (o.calls[0].duration.NaN? || o.calls[0].duration.v > 0)
            && (o.response.VideoUrl? <==> Writable(s, OutputPath(root, jobId)) && engine(o.calls[0]).Done?)
            && (!o.response.VideoUrl? ==> o.response == ErrorJson(500, "FFmpeg failed"))
            && o.fs.dirs == s.dirs
            && o.fs.files == s.files + (if o.response.VideoUrl? then {OutputPath(root, jobId)} else {})
  {
  }

  /** A start time that is not a digit string (absent included) makes the duration NaN, and the guard lets it through. */
  lemma NaNDurationAccepted(req: TrimRequest, root: Path, jobId: string, s: FsState, engine: Invocation -> EngineResult)
    requires req.file.Some? && (req.startTime.None? || !IsDigits(req.startTime.value))
    ensures var o := Expected(req, root, jobId, s, engine);
            o.calls == [TrimCall(req, root, jobId)] && o.calls[0].duration.NaN?
  {
  }

  /** The URL handed back is served by the static route from the very file the engine wrote. */
  lemma UrlServesClip(req: TrimRequest, root: Path, jobId: string, s: FsState, engine: Invocation -> EngineResult)
    requires Expected(req, root, jobId, s, engine).response.VideoUrl?
    ensures var o := Expected(req, root, jobId, s, engine);
            && UrlPath(o.response.url).Some?
            && StaticFile(root, UrlPath(o.response.url).value) == Some(OutputPath(root, jobId))
            && OutputPath(root, jobId) in o.fs.files
  {
    var url := VideoUrlOf(jobId);
    assert url[..|Origin|] == Origin;
    var path := url[|Origin|..];
    assert path == StaticPrefix + OutputName(jobId);
    assert path[..|StaticPrefix|] == StaticPrefix;
    assert path[|StaticPrefix|..] == OutputName(jobId);
  }
}
