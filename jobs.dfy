/**
 * The life cycle of a per-job directory: created while nothing exists at or
 * below it, filled with files, and removed again.
 */
module Jobs {
  import opened Wrappers
  import opened Fs
  import opened Utils

  /** The filesystem once `dir` and all its ancestors are directories. */
  function Claimed(s: FsState, dir: Path): FsState
  {
    FsState(s.files, s.dirs + {dir} + Ancestors(dir))
  }

  /** Creating a vacant directory adds exactly it and its ancestors; `ensureDir` then behaves as a recursive `mkdirSync`. */
  lemma ClaimVacant(s: FsState, dir: Path)
    requires s.VacantAt(dir)
    ensures EnsureDirState(s, dir) == MkdirRecursive(s, dir)
    ensures MkdirRecursive(s, dir).Some? ==> MkdirRecursive(s, dir).value == Claimed(s, dir)
    ensures MkdirRecursive(s, dir).None? <==> Ancestors(dir) * s.files != {}
  {
    assert AtOrUnder(dir, dir);
  }

  /** A path strictly inside a vacant directory is neither a file nor, once the directory is claimed, a directory. */
  lemma FreshInside(s: FsState, dir: Path, p: Path)
    requires s.VacantAt(dir) && Under(p, dir)
    ensures p !in s.files && p !in Claimed(s, dir).dirs
  {
    AncestorIff(dir, p);
  }

  /**
   * Removing a claimed directory that holds only new files leaves exactly
   * the original tree plus the directory's ancestors.
   */
  lemma Release(s: FsState, dir: Path, extra: set<Path>)
    requires s.VacantAt(dir)
    requires forall p :: p in extra ==> Under(p, dir)
    ensures SafeRmDirState(FsState(s.files + extra, Claimed(s, dir).dirs), dir)
         == FsState(s.files, s.dirs + Ancestors(dir))
  {
    var w := FsState(s.files + extra, Claimed(s, dir).dirs);
    assert w.Exists(dir);
    var r := RmRecursive(w, dir);
    forall a | a in Ancestors(dir)
      ensures !AtOrUnder(a, dir)
    {
      AncestorIff(dir, a);
    }
    assert r.files == s.files;
    assert r.dirs == s.dirs + Ancestors(dir);
  }

  /** After release, nothing is left at or below the directory. */
  lemma ReleasedVacant(s: FsState, dir: Path)
    requires s.VacantAt(dir)
    ensures FsState(s.files, s.dirs + Ancestors(dir)).VacantAt(dir)
  {
    forall a | a in Ancestors(dir)
      ensures !AtOrUnder(a, dir)
    {
      AncestorIff(dir, a);
    }
  }

  /** A freshly claimed directory is empty: nothing, file or directory, lies below it. */
  lemma ClaimedIsEmpty(s: FsState, dir: Path)
    requires s.VacantAt(dir)
    ensures Ancestors(dir) + {dir} <= Claimed(s, dir).dirs
    ensures forall p :: p in Claimed(s, dir).dirs ==> !Under(p, dir)
    ensures forall p :: p in Claimed(s, dir).files ==> !Under(p, dir)
  {
    forall p | p in Claimed(s, dir).dirs && Under(p, dir)
      ensures false
    {
      if p in Ancestors(dir) {
        AncestorIff(dir, p);
      }
    }
  }
}
