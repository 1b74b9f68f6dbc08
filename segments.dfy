/**
 * The per-segment loop shared by the two multi-segment handlers
 * (src/server.ts:83-104 and src/server.js:57-79): validate segment `i`,
 * record `<dir>/<prefix><i>.mp4`, run the engine on it, and stop at the
 * first thrown error.
 */
module Segments {
  import opened Wrappers
  import opened Js
  import opened Fs
  import opened Http
  import opened Engine
  import opened TimeCode

  /** What the two handlers' loops differ in: the timecode grammar, the part-file prefix and `-c copy`. */
  datatype Profile = Profile(strict: bool, partPrefix: string, streamCopy: bool)

  /** src/server.ts: lenient grammar, `part_<i>.mp4`, stream copy. */
  const TsProfile := Profile(false, "part_", true)

  /** src/server.js: strict grammar, `part<i>.mp4`, re-encode. */
  const JsProfile := Profile(true, "part", false)

  /** The errors thrown inside a handler's `try` block. */
  datatype JobError =
    | InvalidSegment(index: nat)
      /** reading `start`/`end` of `null`, or calling `split` on a non-string */
    | TypeError
      /** `mkdirSync` threw */
    | MkdirError
    | EngineError(message: string)

  /** Stand-ins for the runtime's own message texts, which the model does not reproduce. */
  const TypeErrorText := "TypeError"
  const MkdirErrorText := "ENOTDIR"

  /** `err.message` */
  function Message(f: JobError): string
  {
    match f
    case InvalidSegment(i) => "Invalid segment at index " + NatToString(i)
    case TypeError => TypeErrorText
    case MkdirError => MkdirErrorText
    case EngineError(m) => m
  }

  /** The message of a rejected segment names its index, and only that index. */
  lemma InvalidSegmentMessage(i: nat, j: nat)
    ensures |Message(InvalidSegment(i))| > 25
    ensures Message(InvalidSegment(i)) == Message(InvalidSegment(j)) ==> i == j
  {
    var prefix := "Invalid segment at index ";
    if Message(InvalidSegment(i)) == Message(InvalidSegment(j)) {
      assert (prefix + NatToString(i))[|prefix|..] == NatToString(i);
      assert (prefix + NatToString(j))[|prefix|..] == NatToString(j);
      NatToStringInjective(i, j);
    }
  }

  /** A validated segment: where to start and how long to extract, in seconds. */
  datatype Timing = Timing(startSec: int, duration: int)

  /** Lines 84-89 (server.ts) / 58-65 (server.js): destructure, parse both times, check them. */
  function CheckSegment(pr: Profile, e: Entry, i: nat): (r: Result<Timing, JobError>)
    ensures r.Success? ==> r.value.startSec >= 0 && r.value.duration > 0
  {
    match e
    case Null => Failure(TypeError)
    case Obj(start, end) =>
      if start.NotText? || end.NotText? then Failure(TypeError)
      else
        CheckTimes(Parse(pr.strict, start.s), Parse(pr.strict, end.s), i)
  }

  /** The validation of the two parsed times: `isNaN(startSec) || isNaN(endSec) || duration <= 0`. */
  function CheckTimes(startSec: Num, endSec: Num, i: nat): (r: Result<Timing, JobError>)
    ensures r.Failure? ==> r.error == InvalidSegment(i)
    ensures r.Success? ==>
              && r.value.duration > 0
              && startSec == Val(r.value.startSec)
              && endSec == Val(r.value.startSec + r.value.duration)
  {
    var duration := Minus(endSec, startSec);
    if startSec.NaN? || endSec.NaN? || AtMostZero(duration) then Failure(InvalidSegment(i))
    else Success(Timing(startSec.v, duration.v))
  }

  /**
   * A segment with two parsed times is rejected as invalid exactly when a
   * time is NaN or the duration is not positive; otherwise it is extracted
   * from the start for `end - start` seconds.
   */
  lemma CheckTimesIff(a: Num, b: Num, i: nat)
    ensures var r := CheckTimes(a, b, i);
            && (r == Failure(InvalidSegment(i)) <==> a.NaN? || b.NaN? || b.v - a.v <= 0)
            && (r.Success? <==> !(a.NaN? || b.NaN? || b.v - a.v <= 0))
            && (r.Success? ==> r.value == Timing(a.v, b.v - a.v))
  {
  }

  function PartName(pr: Profile, i: nat): string
  {
    pr.partPrefix + NatToString(i) + ".mp4"
  }

  /** `path.join(dir, "part_" + i + ".mp4")` or `path.join(dir, "part" + i + ".mp4")` */
  function PartPath(pr: Profile, dir: Path, i: nat): Path
  {
    JoinPath(dir, PartName(pr, i))
  }

  predicate ProfileOk(pr: Profile)
  {
    '/' !in pr.partPrefix && '\n' !in pr.partPrefix
  }

  /** Part files sit directly in `dir`, and distinct indices give distinct files. */
  lemma PartPathFacts(pr: Profile, dir: Path, i: nat, j: nat)
    requires ProfileOk(pr) && |dir| > 0
    ensures Under(PartPath(pr, dir, i), dir)
    ensures Ancestors(PartPath(pr, dir, i)) == Ancestors(dir) + {dir}
    ensures PartPath(pr, dir, i) == PartPath(pr, dir, j) ==> i == j
  {
    var name := PartName(pr, i);
    DigitsAvoid(NatToString(i), '/');
    assert '/' !in name by {
      assert name == pr.partPrefix + NatToString(i) + ".mp4";
    }
    AncestorsOfJoin(dir, name);
    if PartPath(pr, dir, i) == PartPath(pr, dir, j) {
      var k := |dir| + 1 + |pr.partPrefix|;
      var x := PartPath(pr, dir, i);
      var y := PartPath(pr, dir, j);
      assert |NatToString(i)| == |x| - k - 4 == |NatToString(j)|;
      assert x[k..|x| - 4] == NatToString(i);
      assert y[k..|y| - 4] == NatToString(j);
      NatToStringInjective(i, j);
    }
  }

  /** Each segment's check, in order: the validation step of every iteration. */
  function Checks(pr: Profile, segs: seq<Entry>): (cs: seq<Result<Timing, JobError>>)
    ensures |cs| == |segs|
    decreases |segs|
  {
    if |segs| == 0 then [] else Checks(pr, segs[..|segs| - 1]) + [CheckSegment(pr, segs[|segs| - 1], |segs| - 1)]
  }

  lemma {:induction false} ChecksAt(pr: Profile, segs: seq<Entry>, i: nat)
    requires i < |segs|
    ensures Checks(pr, segs)[i] == CheckSegment(pr, segs[i], i)
    decreases |segs|
  {
    if i < |segs| - 1 {
      ChecksAt(pr, segs[..|segs| - 1], i);
    }
  }

  /**
   * What one run of the loop depends on: the outcome of validating each
   * segment, the uploaded input, where iteration `i` writes its part file,
   * whether parts are stream-copied, and what the engine does.
   */
  datatype Loop = Loop(
    checks: seq<Result<Timing, JobError>>,
    input: Path,
    part: nat -> Path,
    streamCopy: bool,
    engine: Invocation -> EngineResult)
  {
    /** The engine call of iteration `i`, once segment `i` validated as `t`. */
    function Call(i: nat, t: Timing): Invocation
    {
      Extract(input, AtSeconds(t.startSec), Val(t.duration), part(i), streamCopy)
    }

    /** Segment `i` on its own goes through: it validates and the engine extracts it. */
    predicate Extracts(i: nat)
      requires i < |checks|
    {
      checks[i].Success? && engine(Call(i, checks[i].value)).Done?
    }

    /** The error segment `i` throws when it does not go through. */
    function SegmentFailure(i: nat): JobError
      requires i < |checks| && !Extracts(i)
    {
      match checks[i]
      case Failure(f) => f
      case Success(t) => EngineError(engine(Call(i, t)).message)
    }
  }

  /** The loop of a handler with profile `pr`, writing its parts into `dir`. */
  function SegmentLoop(pr: Profile, segs: seq<Entry>, input: Path, dir: Path, engine: Invocation -> EngineResult): (l: Loop)
    ensures |l.checks| == |segs|
  {
    Loop(Checks(pr, segs), input, (i: nat) => PartPath(pr, dir, i), pr.streamCopy, engine)
  }

  /** The loop's variables: `segmentFiles`, the engine calls made, the part files the engine wrote, the error thrown. */
  datatype Progress = Progress(parts: seq<Path>, calls: seq<Invocation>, created: seq<Path>, failure: Option<JobError>)

  /** The loop's variables after its first `k` iterations, or after the iteration that threw. */
  function Run(l: Loop, k: nat): Progress
    requires k <= |l.checks|
    decreases k
  {
    if k == 0 then Progress([], [], [], None)
    else
      var p := Run(l, k - 1);
      if p.failure.Some? then p
      else match l.checks[k - 1]
        case Failure(f) => p.(failure := Some(f))
        case Success(t) =>
          var call := l.Call(k - 1, t);
          match l.engine(call)
          case Failed(m) => Progress(p.parts + [l.part(k - 1)], p.calls + [call], p.created, Some(EngineError(m)))
          case Done => Progress(p.parts + [l.part(k - 1)], p.calls + [call], p.created + [l.part(k - 1)], None)
  }

  /** Once an iteration has thrown, later iterations never run. */
  lemma {:induction false} RunStopped(l: Loop, k: nat, n: nat)
    requires k <= n <= |l.checks|
    requires Run(l, k).failure.Some?
    ensures Run(l, n) == Run(l, k)
    decreases n
  {
    if n > k {
      RunStopped(l, k, n - 1);
    }
  }

  /**
   * How many entries the loop's variables hold: one part path and one
   * engine call per iteration that got past validation, and one written
   * part file per iteration that completed.
   */
  lemma {:induction false} RunCounts(l: Loop, k: nat)
    requires k <= |l.checks|
    ensures var r := Run(l, k);
            && |r.created| <= |r.parts| == |r.calls| <= k
            && (r.failure.None? ==> |r.parts| == |r.created| == k)
            && (r.failure.Some? ==>
                  |r.created| < k && |r.parts| == |r.created| + (if l.checks[|r.created|].Success? then 1 else 0))
    decreases k
  {
    if k > 0 {
      RunCounts(l, k - 1);
    }
  }

  /**
   * `segmentFiles` lists iteration `j`'s part at position `j`, and the part
   * files the engine wrote are a prefix of it.
   */
  lemma RunParts(l: Loop, k: nat)
    requires k <= |l.checks|
    ensures var r := Run(l, k);
            && r.created <= r.parts
            && forall j :: 0 <= j < |r.parts| ==> r.parts[j] == l.part(j)
  {
    RunPartsAt(l, k);
    RunCreatedPrefix(l, k);
  }

  /** Position `j` of `segmentFiles` is iteration `j`'s part. */
  lemma {:induction false} RunPartsAt(l: Loop, k: nat)
    requires k <= |l.checks|
    ensures var r := Run(l, k);
            forall j :: 0 <= j < |r.parts| ==> r.parts[j] == l.part(j)
    decreases k
  {
    if k > 0 {
      RunPartsAt(l, k - 1);
      var p := Run(l, k - 1);
      if p.failure.None? && l.checks[k - 1].Success? {
        RunCounts(l, k - 1);
        var r := Run(l, k);
        assert |p.parts| == k - 1;
        assert r.parts == p.parts + [l.part(k - 1)];
        forall j | 0 <= j < |r.parts|
          ensures r.parts[j] == l.part(j)
        {
          if j < k - 1 {
            assert r.parts[j] == p.parts[j];
          }
        }
      } else if p.failure.None? {
        RunInvalidStep(l, k - 1);
      }
    }
  }

  /** The part files the engine wrote are a prefix of `segmentFiles`. */
  lemma {:induction false} RunCreatedPrefix(l: Loop, k: nat)
    requires k <= |l.checks|
    ensures Run(l, k).created <= Run(l, k).parts
    decreases k
  {
    if k > 0 {
      RunCreatedPrefix(l, k - 1);
      var p := Run(l, k - 1);
      if p.failure.None? && l.checks[k - 1].Success? {
        RunCounts(l, k - 1);
        RunExtractStep(l, k - 1);
        var r := Run(l, k);
        assert p.created == p.parts;
        if l.engine(l.Call(k - 1, l.checks[k - 1].value)).Done? {
          assert r.created == r.parts;
        } else {
          assert r.created == p.created == r.parts[..k - 1];
        }
      } else if p.failure.None? {
        RunInvalidStep(l, k - 1);
      }
    }
  }

  /** Engine call `j` extracts segment `j`, as validated. */
  lemma {:induction false} RunCalls(l: Loop, k: nat)
    requires k <= |l.checks|
    ensures var r := Run(l, k);
            forall j :: 0 <= j < |r.calls| ==>
              j < k && l.checks[j].Success? && r.calls[j] == l.Call(j, l.checks[j].value)
    decreases k
  {
    if k > 0 {
      RunCalls(l, k - 1);
      var p := Run(l, k - 1);
      if p.failure.None? && l.checks[k - 1].Success? {
        RunCounts(l, k - 1);
        RunExtractStep(l, k - 1);
        var r := Run(l, k);
        assert |p.calls| == k - 1;
        assert r.calls == p.calls + [l.Call(k - 1, l.checks[k - 1].value)];
        forall j | 0 <= j < |r.calls|
          ensures j < k && l.checks[j].Success? && r.calls[j] == l.Call(j, l.checks[j].value)
        {
          if j < k - 1 {
            assert p.calls[j] == l.Call(j, l.checks[j].value);
            assert r.calls[j] == p.calls[j];
          } else {
            assert j == k - 1 && r.calls[j] == l.Call(k - 1, l.checks[k - 1].value);
          }
        }
      } else if p.failure.None? {
        RunInvalidStep(l, k - 1);
      }
    }
  }

  /**
   * When the loop stops: it fails exactly when some segment does not go
   * through, and then at the first such segment, with that segment's own
   * error, after the part files of all earlier segments were written.
   */
  lemma {:induction false} RunFirstFailure(l: Loop, k: nat)
    requires k <= |l.checks|
    ensures var r := Run(l, k);
            var i := |r.created|;
            && (r.failure.None? <==> forall j :: 0 <= j < k ==> l.Extracts(j))
            && (r.failure.Some? ==>
                  && i < k
                  && (forall j :: 0 <= j < i ==> l.Extracts(j))
                  && !l.Extracts(i)
                  && r.failure.value == l.SegmentFailure(i))
    decreases k
  {
    if k > 0 {
      RunFirstFailure(l, k - 1);
      RunCounts(l, k - 1);
      var p := Run(l, k - 1);
      if p.failure.None? {
        assert |p.created| == k - 1;
        if l.Extracts(k - 1) {
          assert forall j :: 0 <= j < k ==> l.Extracts(j);
        }
      }
    }
  }

  /** The paths listed in `ps`. */
  function Elems(ps: seq<Path>): set<Path>
  {
    if |ps| == 0 then {} else Elems(ps[..|ps| - 1]) + {ps[|ps| - 1]}
  }

  /** The part files the engine wrote, added to a filesystem. */
  function AddFiles(s: FsState, ps: seq<Path>): FsState
  {
    FsState(s.files + Elems(ps), s.dirs)
  }

  /** Iteration `i` of a running loop whose segment fails validation. */
  lemma RunInvalidStep(l: Loop, i: nat)
    requires i < |l.checks| && Run(l, i).failure.None? && l.checks[i].Failure?
    ensures Run(l, i + 1) == Run(l, i).(failure := Some(l.checks[i].error))
  {
  }

  /** Iteration `i` of a running loop whose segment validates: its part is recorded and the engine runs. */
  lemma RunExtractStep(l: Loop, i: nat)
    requires i < |l.checks| && Run(l, i).failure.None? && l.checks[i].Success?
    ensures var p := Run(l, i);
            var call := l.Call(i, l.checks[i].value);
            Run(l, i + 1) ==
              if l.engine(call).Done? then Progress(p.parts + [l.part(i)], p.calls + [call], p.created + [l.part(i)], None)
              else Progress(p.parts + [l.part(i)], p.calls + [call], p.created, Some(EngineError(l.engine(call).message)))
  {
  }

  lemma {:induction false} ElemsIff(ps: seq<Path>, p: Path)
    ensures p in Elems(ps) <==> p in ps
  {
    if |ps| > 0 {
      ElemsIff(ps[..|ps| - 1], p);
      assert ps == ps[..|ps| - 1] + [ps[|ps| - 1]];
    }
  }

  lemma ElemsStep(ps: seq<Path>, p: Path)
    ensures Elems(ps + [p]) == Elems(ps) + {p}
  {
    assert (ps + [p])[..|ps|] == ps;
  }

  /**
   * The body of one iteration once segment `i` validated as `t`: the part
   * path, and the awaited engine run that writes it.
   */
  method ExtractSegment(fs: FileSystem, pr: Profile, input: Path, dir: Path, engine: Invocation -> EngineResult, i: nat, t: Timing)
      returns (partPath: Path, call: Invocation, outcome: EngineResult)
    requires ProfileOk(pr) && |dir| > 0
    requires Ancestors(dir) + {dir} <= fs.dirs
    requires forall p :: p in fs.dirs ==> !Under(p, dir)
    modifies fs
    ensures partPath == PartPath(pr, dir, i)
    ensures call == Extract(input, AtSeconds(t.startSec), Val(t.duration), partPath, pr.streamCopy)
    ensures outcome == engine(call)
    ensures fs.dirs == old(fs.dirs)
    ensures fs.files == if outcome.Done? then old(fs.files) + {partPath} else old(fs.files)
  {
    partPath := PartPath(pr, dir, i);
    call := Extract(input, AtSeconds(t.startSec), Val(t.duration), partPath, pr.streamCopy);
    PartPathFacts(pr, dir, i, i);
    outcome := RunEngine(fs, engine, call);
  }

  /**
   * A handler's loop names its parts `dir/<prefix><j>.mp4` in iteration
   * order, and every file it leaves behind is one of them, directly in `dir`.
   */
  lemma LoopPartPaths(pr: Profile, segs: seq<Entry>, input: Path, dir: Path, engine: Invocation -> EngineResult)
    requires ProfileOk(pr) && |dir| > 0
    ensures var r := Run(SegmentLoop(pr, segs, input, dir, engine), |segs|);
            && r.created <= r.parts
            && (forall j :: 0 <= j < |r.parts| ==> r.parts[j] == PartPath(pr, dir, j))
            && (forall p :: p in Elems(r.created) ==> Under(p, dir) && Ancestors(p) == Ancestors(dir) + {dir})
  {
    var l := SegmentLoop(pr, segs, input, dir, engine);
    var r := Run(l, |segs|);
    RunParts(l, |segs|);
    forall p | p in Elems(r.created)
      ensures Under(p, dir) && Ancestors(p) == Ancestors(dir) + {dir}
    {
      ElemsIff(r.created, p);
      var j :| 0 <= j < |r.created| && r.created[j] == p;
      assert r.parts[j] == p;
      PartPathFacts(pr, dir, j, j);
    }
  }

  /**
   * One iteration: validate segment `i`; if it passes, record its part and
   * let the engine extract it. The iteration moves the loop from `Run(l, i)`
   * to `Run(l, i + 1)`, and the only file it can add is segment `i`'s part.
   */
  method Iterate(fs: FileSystem, pr: Profile, segs: seq<Entry>, input: Path, dir: Path, engine: Invocation -> EngineResult,
                 i: nat, segmentFiles: seq<Path>, calls: seq<Invocation>, ghost created: seq<Path>, ghost base: set<Path>)
      returns (segmentFiles': seq<Path>, calls': seq<Invocation>, failure: Option<JobError>, ghost created': seq<Path>)
    requires ProfileOk(pr) && |dir| > 0
    requires Ancestors(dir) + {dir} <= fs.dirs
    requires forall p :: p in fs.dirs ==> !Under(p, dir)
    requires i < |segs|
    requires Run(SegmentLoop(pr, segs, input, dir, engine), i) == Progress(segmentFiles, calls, created, None)
    requires fs.files == base + Elems(created)
    modifies fs
    ensures Run(SegmentLoop(pr, segs, input, dir, engine), i + 1) == Progress(segmentFiles', calls', created', failure)
    ensures fs.dirs == old(fs.dirs)
    ensures created' == created || created' == created + [PartPath(pr, dir, i)]
    ensures fs.files == base + Elems(created')
  {
    ghost var l := SegmentLoop(pr, segs, input, dir, engine);
    segmentFiles', calls', created' := segmentFiles, calls, created;
    var check := CheckSegment(pr, segs[i], i);
    ChecksAt(pr, segs, i);
    if check.Failure? {
      RunInvalidStep(l, i);
      failure := Some(check.error);
    } else {
      RunExtractStep(l, i);
      var partPath, call, outcome := ExtractSegment(fs, pr, input, dir, engine, i, check.value);
      segmentFiles' := segmentFiles + [partPath];
      calls' := calls + [call];
      if outcome.Failed? {
        failure := Some(EngineError(outcome.message));
      } else {
        failure := None;
        ElemsStep(created, partPath);
        created' := created + [partPath];
      }
    }
  }

  /**
   * The loop itself: for each segment in order, validate it, record its
   * part path, and let the engine extract it; stop at the first error.
   * The engine's part files land in `dir`, which holds no directories.
   */
  method ExtractParts(fs: FileSystem, pr: Profile, segs: seq<Entry>, input: Path, dir: Path, engine: Invocation -> EngineResult)
      returns (segmentFiles: seq<Path>, calls: seq<Invocation>, failure: Option<JobError>)
    requires ProfileOk(pr) && |dir| > 0
    requires Ancestors(dir) + {dir} <= fs.dirs
    requires forall p :: p in fs.dirs ==> !Under(p, dir)
    modifies fs
    ensures var r := Run(SegmentLoop(pr, segs, input, dir, engine), |segs|);
            && segmentFiles == r.parts && calls == r.calls && failure == r.failure
            && fs.State() == AddFiles(old(fs.State()), r.created)
  {
    ghost var l := SegmentLoop(pr, segs, input, dir, engine);
    ghost var s := fs.State();
    segmentFiles := [];
    calls := [];
    failure := None;
    ghost var created: seq<Path> := [];
    var i := 0;
    // A thrown error leaves the loop: the guard's `failure.None?` stands for it.
    while i < |segs| && failure.None?
      invariant i <= |segs|
      invariant Run(l, i) == Progress(segmentFiles, calls, created, failure)
      invariant fs.files == s.files + Elems(created) && fs.dirs == s.dirs
    {
      segmentFiles, calls, failure, created := Iterate(fs, pr, segs, input, dir, engine, i, segmentFiles, calls, created, s.files);
      i := i + 1;
    }
    if failure.Some? {
      RunStopped(l, i, |segs|);
    }
    assert Run(l, |segs|) == Progress(segmentFiles, calls, created, failure);
    assert fs.State() == AddFiles(s, created);
  }
}
