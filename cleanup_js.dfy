/**
 * Why the success-path cleanup of src/server.js (lines 121-131) always runs
 * to the end: the files it unlinks are distinct and all exist, and the
 * output directory is empty once they are gone.
 */
module CleanupProof {
  import opened Wrappers
  import opened Js
  import opened Fs
  import opened Http
  import opened Engine
  import opened Segments
  import opened Jobs
  import opened Cleanup
  import opened ServerJs

  /** A character near the end of `dir/name` is that of `name`. */
  lemma JoinTail(dir: Path, name: string, k: nat)
    requires 0 < k <= |name|
    ensures |JoinPath(dir, name)| - k >= 0
    ensures JoinPath(dir, name)[|JoinPath(dir, name)| - k] == name[|name| - k]
  {
  }

  /** `part<j>.mp4` ends in `<digit>.mp4`. */
  lemma PartNameTail(j: nat)
    ensures var n := PartName(JsProfile, j);
            |n| >= 5 && IsDigit(n[|n| - 5]) && n[|n| - 1] == '4'
  {
    var d := NatToString(j);
    var n := PartName(JsProfile, j);
    assert n == "part" + d + ".mp4";
    assert n[|n| - 5] == d[|d| - 1];
  }

  /** The part files, the final output and the concat list are told apart by how their names end. */
  lemma OutputNamesDiffer(dir: Path, jobId: string, j: nat)
    ensures PartPath(JsProfile, dir, j) != FinalPath(dir, jobId)
    ensures PartPath(JsProfile, dir, j) != ConcatListPath(dir)
    ensures FinalPath(dir, jobId) != ConcatListPath(dir)
  {
    var p := PartName(JsProfile, j);
    var f := FinalName(jobId);
    var c := "concat.txt";
    PartNameTail(j);
    assert f[|f| - 5] == 'l' && f[|f| - 1] == '4';
    assert c[|c| - 1] == 't';
    JoinTail(dir, p, 5);
    JoinTail(dir, f, 5);
    JoinTail(dir, p, 1);
    JoinTail(dir, c, 1);
    JoinTail(dir, f, 1);
  }

  /** The files the cleanup unlinks are pairwise distinct. */
  lemma CleanupTargetsDistinct(input: Path, dir: Path, jobId: string, parts: seq<Path>)
    requires |dir| > 0 && !Under(input, dir) && '/' !in jobId
    requires forall j :: 0 <= j < |parts| ==> parts[j] == PartPath(JsProfile, dir, j)
    ensures var fs := CleanupFiles(input, dir, jobId, parts);
            forall i, j :: 0 <= i < j < |fs| ==> fs[i] != fs[j]
  {
    var fs := CleanupFiles(input, dir, jobId, parts);
    var n := |parts|;
    assert |fs| == n + 3;
    AncestorsOfJoin(dir, "concat.txt");
    AncestorsOfJoin(dir, FinalName(jobId));
    forall i, j | 0 <= i < j < |fs|
      ensures fs[i] != fs[j]
    {
      if 2 <= j < n + 2 {
        PartPathFacts(JsProfile, dir, j - 2, j - 2);
        assert fs[j] == parts[j - 2];
        OutputNamesDiffer(dir, jobId, j - 2);
        if 2 <= i {
          assert fs[i] == parts[i - 2];
          PartPathFacts(JsProfile, dir, i - 2, j - 2);
        }
      } else if j == n + 2 && 2 <= i < n + 2 {
        assert fs[i] == parts[i - 2];
        OutputNamesDiffer(dir, jobId, i - 2);
      } else if j == n + 2 && i == 1 {
        OutputNamesDiffer(dir, jobId, 0);
      }
    }
  }

  /** The filesystem just before the cleanup: the new directory holds the parts, the concat list and the final output. */
  function Finished(s: FsState, dir: Path, jobId: string, parts: seq<Path>): FsState
  {
    FsState(Claimed(s, dir).files + Elems(parts) + {ConcatListPath(dir)} + {FinalPath(dir, jobId)}, Claimed(s, dir).dirs)
  }

  /** Every file the cleanup unlinks exists in the finished tree. */
  lemma TargetsPresent(s: FsState, input: Path, dir: Path, jobId: string, parts: seq<Path>)
    requires input in s.files
    ensures var ts := CleanupFiles(input, dir, jobId, parts);
            forall k :: 0 <= k < |ts| ==> ts[k] in Finished(s, dir, jobId, parts).files
  {
    var f0 := Finished(s, dir, jobId, parts);
    var ts := CleanupFiles(input, dir, jobId, parts);
    forall k | 0 <= k < |ts|
      ensures ts[k] in f0.files
    {
      if 2 <= k < |ts| - 1 {
        assert ts[k] == parts[k - 2];
        ElemsIff(parts, ts[k]);
      }
    }
  }

  /** The finished tree without the cleanup's files is the original tree without the input. */
  lemma TargetsCover(s: FsState, input: Path, dir: Path, jobId: string, parts: seq<Path>)
    requires s.VacantAt(dir) && |dir| > 0 && '/' !in jobId
    requires forall j :: 0 <= j < |parts| ==> parts[j] == PartPath(JsProfile, dir, j)
    ensures Finished(s, dir, jobId, parts).files - Elems(CleanupFiles(input, dir, jobId, parts)) == s.files - {input}
  {
    var f0 := Finished(s, dir, jobId, parts);
    var ts := CleanupFiles(input, dir, jobId, parts);
    OutputFiles(s, dir, jobId);
    forall p
      ensures p in f0.files - Elems(ts) <==> p in s.files - {input}
    {
      ElemsIff(ts, p);
      ElemsIff(parts, p);
      if p in parts {
        var j :| 0 <= j < |parts| && parts[j] == p;
        PartPathFacts(JsProfile, dir, j, j);
        assert ts[j + 2] == p;
      }
      if p == input {
        assert ts[0] == p;
      }
      if p == FinalPath(dir, jobId) {
        assert ts[1] == p;
      }
      if p == ConcatListPath(dir) {
        assert ts[|ts| - 1] == p;
      }
    }
  }

  /** Unlinking every target from the finished tree leaves the original files without the input. */
  lemma UnlinkTargets(s: FsState, input: Path, dir: Path, jobId: string, parts: seq<Path>)
    requires s.VacantAt(dir) && |dir| > 0 && '/' !in jobId && input in s.files
    requires forall j :: 0 <= j < |parts| ==> parts[j] == PartPath(JsProfile, dir, j)
    ensures var ts := CleanupFiles(input, dir, jobId, parts);
            && Completes(Finished(s, dir, jobId, parts), Unlinks(ts))
            && RunPlan(Finished(s, dir, jobId, parts), Unlinks(ts)) == FsState(s.files - {input}, Claimed(s, dir).dirs)
  {
    var f0 := Finished(s, dir, jobId, parts);
    var ts := CleanupFiles(input, dir, jobId, parts);
    assert !Under(input, dir);
    CleanupTargetsDistinct(input, dir, jobId, parts);
    TargetsPresent(s, input, dir, jobId, parts);
    UnlinksRemove(f0, ts);
    TargetsCover(s, input, dir, jobId, parts);
  }

  /**
   * After a streamed video, the cleanup deletes every file of the job and
   * the output directory itself: what remains is the tree as it was before
   * the request, without the upload, plus the output directory's ancestors.
   */
  lemma SuccessCleanup(s: FsState, input: Path, dir: Path, jobId: string, parts: seq<Path>)
    requires s.VacantAt(dir) && |dir| > 0 && '/' !in jobId && input in s.files
    requires forall j :: 0 <= j < |parts| ==> parts[j] == PartPath(JsProfile, dir, j)
    ensures var f0 := Finished(s, dir, jobId, parts);
            && Completes(f0, CleanupPlan(input, dir, jobId, parts))
            && RunPlan(f0, CleanupPlan(input, dir, jobId, parts)) == FsState(s.files - {input}, s.dirs + Ancestors(dir))
  {
    var f0 := Finished(s, dir, jobId, parts);
    var ts := CleanupFiles(input, dir, jobId, parts);
    UnlinkTargets(s, input, dir, jobId, parts);
    PlanSplit(f0, Unlinks(ts), [RmdirStep(dir)]);
    var f1 := FsState(s.files - {input}, Claimed(s, dir).dirs);
    ClaimedIsEmpty(s, dir);
    assert !f1.HasEntriesUnder(dir);
    var f2 := FsState(f1.files, f1.dirs - {dir});
    assert Apply(f1, RmdirStep(dir)) == Some(f2);
    assert RunPlan(f1, [RmdirStep(dir)]) == f2;
    assert Completes(f1, [RmdirStep(dir)]);
    PlanCompletes(f0, Unlinks(ts), [RmdirStep(dir)]);
    AncestorIff(dir, dir);
    assert AtOrUnder(dir, dir);
    assert f2.dirs == s.dirs + Ancestors(dir);
  }

  /** Running `a` then `b` completes when `a` completes and `b` completes from where `a` left off. */
  lemma {:induction false} PlanCompletes(s: FsState, a: seq<Step>, b: seq<Step>)
    requires Completes(s, a) && Completes(RunPlan(s, a), b)
    ensures Completes(s, a + b)
    decreases |a|
  {
    if |a| > 0 {
      assert (a + b)[0] == a[0];
      assert (a + b)[1..] == a[1..] + b;
      PlanCompletes(Apply(s, a[0]).value, a[1..], b);
    } else {
      assert a + b == b;
    }
  }

  /** When the loop finishes without a throw, every part it recorded was written. */
  lemma AllPartsWritten(l: Loop)
    requires Run(l, |l.checks|).failure.None?
    ensures Run(l, |l.checks|).created == Run(l, |l.checks|).parts
  {
    RunCounts(l, |l.checks|);
    RunParts(l, |l.checks|);
  }

  /**
   * For a loop that names its parts `dir/part<j>.mp4`: when its reply is a
   * streamed video, the cleanup leaves the tree as it was before the
   * request, without the input, plus the output directory's ancestors.
   */
  lemma LoopSuccessReleases(s: FsState, l: Loop, input: Path, dir: Path, jobId: string)
    requires s.VacantAt(dir) && |dir| > 0 && '/' !in jobId && input in s.files
    requires forall j :: 0 <= j < |l.checks| ==> l.part(j) == PartPath(JsProfile, dir, j)
    requires LoopReply(l, dir, jobId).response.VideoStream?
    ensures Leftover(Claimed(s, dir), Run(l, |l.checks|), input, dir, jobId, l.engine)
         == FsState(s.files - {input}, s.dirs + Ancestors(dir))
  {
    var r := Run(l, |l.checks|);
    assert r.failure.None? && l.engine(JoinCall(dir, jobId, r.parts)).Done?;
    AllPartsWritten(l);
    RunCounts(l, |l.checks|);
    RunParts(l, |l.checks|);
    forall j | 0 <= j < |r.parts|
      ensures r.parts[j] == PartPath(JsProfile, dir, j)
    {
      assert r.parts[j] == l.part(j);
    }
    assert Leftover(Claimed(s, dir), r, input, dir, jobId, l.engine)
        == RunPlan(Finished(s, dir, jobId, r.parts), CleanupPlan(input, dir, jobId, r.parts));
    SuccessCleanup(s, input, dir, jobId, r.parts);
  }

  /**
   * Whenever the handler streams a video, the filesystem ends as it was
   * before the request, without the upload, plus the output directory's
   * ancestors: every file of the job and its directory are gone.
   */
  lemma SuccessReleases(req: JobRequest, root: Path, jobId: string, s: FsState, engine: Invocation -> EngineResult)
    requires req.file.Some? && req.file.value.path in s.files
    requires s.VacantAt(OutputDir(root, jobId)) && '/' !in jobId
    requires Expected(req, root, jobId, s, engine).response.VideoStream?
    ensures Expected(req, root, jobId, s, engine).fs
         == FsState(s.files - {req.file.value.path}, s.dirs + Ancestors(OutputDir(root, jobId)))
  {
    var dir := OutputDir(root, jobId);
    var l := JsLoop(LoopEntries(req.segments.value), req.file.value, dir, engine);
    ExpectedIsLoopReply(req, root, jobId, s, engine);
    LoopSuccessReleases(s, l, req.file.value.path, dir, jobId);
  }
}
