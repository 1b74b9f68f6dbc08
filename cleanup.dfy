/**
 * The success-path cleanup of src/server.js (lines 121-131): a fixed list
 * of `unlinkSync` / `rmdirSync` calls inside one `try`, so the first call
 * that throws ends the sequence and the error is only logged.
 */
module Cleanup {
  import opened Wrappers
  import opened Fs
  import opened Segments

  /** One deletion. */
  datatype Step = UnlinkStep(path: Path) | RmdirStep(dir: Path)

  /** The filesystem after one deletion; `None` when it throws. */
  function Apply(s: FsState, st: Step): Option<FsState>
  {
    match st
    case UnlinkStep(p) => Unlink(s, p)
    case RmdirStep(d) => Rmdir(s, d)
  }

  /** Every step of `plan`, run in order from `s`, succeeds. */
  predicate Completes(s: FsState, plan: seq<Step>)
    decreases |plan|
  {
    |plan| == 0 || (Apply(s, plan[0]).Some? && Completes(Apply(s, plan[0]).value, plan[1..]))
  }

  /** The filesystem after running `plan` in order from `s`, stopping at the first step that throws. */
  function RunPlan(s: FsState, plan: seq<Step>): FsState
    decreases |plan|
  {
    if |plan| == 0 then s
    else match Apply(s, plan[0])
      case None => s
      case Some(t) => RunPlan(t, plan[1..])
  }

  /** `ps.forEach(f => fs.unlinkSync(f))`, as steps. */
  function Unlinks(ps: seq<Path>): (steps: seq<Step>)
    ensures |steps| == |ps|
    ensures forall i :: 0 <= i < |ps| ==> steps[i] == UnlinkStep(ps[i])
    decreases |ps|
  {
    if |ps| == 0 then [] else [UnlinkStep(ps[0])] + Unlinks(ps[1..])
  }

  /** One `unlinkSync` or `rmdirSync` on the live filesystem; `ok` is false when it threw. */
  method ApplySync(fs: FileSystem, st: Step) returns (ok: bool)
    modifies fs
    ensures var r := Apply(old(fs.State()), st);
            ok == r.Some? && fs.State() == if ok then r.value else old(fs.State())
  {
    match st
    case UnlinkStep(p) =>
      ok := fs.UnlinkSync(p);
    case RmdirStep(d) =>
      ok := fs.RmdirSync(d);
  }

  /** The `try` block: run the deletions in order; the first that throws ends it. */
  method RunSteps(fs: FileSystem, plan: seq<Step>)
    modifies fs
    ensures fs.State() == RunPlan(old(fs.State()), plan)
  {
    var i := 0;
    var ok := true;
    while i < |plan| && ok
      invariant 0 <= i <= |plan|
      invariant ok ==> RunPlan(old(fs.State()), plan) == RunPlan(fs.State(), plan[i..])
      invariant !ok ==> RunPlan(old(fs.State()), plan) == fs.State()
    {
      assert plan[i..][1..] == plan[i + 1..];
      ok := ApplySync(fs, plan[i]);
      i := i + 1;
    }
  }

  /**
   * Running `a` then `b` in one `try`: when every step of `a` succeeds, `b`
   * runs from where `a` left off; otherwise `b` never runs.
   */
  lemma {:induction false} PlanSplit(s: FsState, a: seq<Step>, b: seq<Step>)
    ensures RunPlan(s, a + b) == if Completes(s, a) then RunPlan(RunPlan(s, a), b) else RunPlan(s, a)
    decreases |a|
  {
    if |a| > 0 {
      assert (a + b)[0] == a[0];
      assert (a + b)[1..] == a[1..] + b;
      if Apply(s, a[0]).Some? {
        PlanSplit(Apply(s, a[0]).value, a[1..], b);
      }
    } else {
      assert a + b == b;
    }
  }

  /** The first unlink of a list, when its file exists. */
  lemma UnlinksHead(s: FsState, ps: seq<Path>)
    requires |ps| > 0 && ps[0] in s.files
    ensures var t := FsState(s.files - {ps[0]}, s.dirs);
            && RunPlan(s, Unlinks(ps)) == RunPlan(t, Unlinks(ps[1..]))
            && (Completes(s, Unlinks(ps)) <==> Completes(t, Unlinks(ps[1..])))
  {
    var steps := Unlinks(ps);
    assert steps[0] == UnlinkStep(ps[0]);
    assert steps[1..] == Unlinks(ps[1..]);
  }

  /** Unlinking distinct files that all exist succeeds step by step and removes exactly them. */
  lemma {:induction false} UnlinksRemove(s: FsState, ps: seq<Path>)
    requires forall i :: 0 <= i < |ps| ==> ps[i] in s.files
    requires forall i, j :: 0 <= i < j < |ps| ==> ps[i] != ps[j]
    ensures Completes(s, Unlinks(ps))
    ensures RunPlan(s, Unlinks(ps)) == FsState(s.files - Elems(ps), s.dirs)
    decreases |ps|
  {
    if |ps| > 0 {
      var t := FsState(s.files - {ps[0]}, s.dirs);
      var tail := ps[1..];
      UnlinksHead(s, ps);
      forall i | 0 <= i < |tail|
        ensures tail[i] in t.files
      {
        assert tail[i] == ps[i + 1] && ps[0] != ps[i + 1];
      }
      forall i, j | 0 <= i < j < |tail|
        ensures tail[i] != tail[j]
      {
        assert tail[i] == ps[i + 1] && tail[j] == ps[j + 1];
      }
      UnlinksRemove(t, tail);
      ElemsHeadTail(ps);
    }
  }

  /** Removing the head and then the tail's paths removes all of `ps`. */
  lemma ElemsHeadTail(ps: seq<Path>)
    requires |ps| > 0
    ensures Elems(ps) == {ps[0]} + Elems(ps[1..])
  {
    assert ps == [ps[0]] + ps[1..];
    ElemsCons(ps[0], ps[1..]);
  }

  /** The paths of `[p] + ps` are `p` and those of `ps`. */
  lemma ElemsCons(p: Path, ps: seq<Path>)
    ensures Elems([p] + ps) == {p} + Elems(ps)
  {
    forall q
      ensures q in Elems([p] + ps) <==> q in {p} + Elems(ps)
    {
      ElemsIff([p] + ps, q);
      ElemsIff(ps, q);
      if q in [p] + ps && q != p {
        var k :| 0 <= k < |[p] + ps| && ([p] + ps)[k] == q;
        assert ps[k - 1] == q;
      }
    }
  }

  /** A step that throws stops the sequence where it stands. */
  lemma FirstFailureStops(s: FsState, plan: seq<Step>)
    requires |plan| > 0 && Apply(s, plan[0]).None?
    ensures RunPlan(s, plan) == s && !Completes(s, plan)
  {
  }
}
