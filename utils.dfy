/**
 * The workspace helpers of src/utils/utils.ts: `ensureDir` and `safeRmDir`.
 * src/server.ts carries near-identical copies; its `safeRmDir` also
 * swallows exceptions, which cannot arise in this model.
 */
module Utils {
  import opened Wrappers
  import opened Fs

  /** The filesystem after `ensureDir(d)`; `None` when `mkdirSync` threw. */
  function EnsureDirState(s: FsState, d: Path): Option<FsState>
  {
    if s.Exists(d) then Some(s) else MkdirRecursive(s, d)
  }

  /** `if (!fs.existsSync(dir)) fs.mkdirSync(dir, { recursive: true })`; `ok` is false when the mkdir threw. */
  method EnsureDir(fs: FileSystem, d: Path) returns (ok: bool)
    modifies fs
    ensures var r := EnsureDirState(old(fs.State()), d);
            ok == r.Some? && fs.State() == if ok then r.value else old(fs.State())
  {
    var present := fs.ExistsSync(d);
    if !present {
      ok := fs.MkdirSync(d, true);
    } else {
      ok := true;
    }
  }

  /** The filesystem after `safeRmDir(d)`. */
  function SafeRmDirState(s: FsState, d: Path): FsState
  {
    if s.Exists(d) then RmRecursive(s, d) else s
  }

  /** `if (fs.existsSync(dir)) fs.rmSync(dir, { recursive: true, force: true })`. */
  method SafeRmDir(fs: FileSystem, d: Path)
    modifies fs
    ensures fs.State() == SafeRmDirState(old(fs.State()), d)
  {
    var present := fs.ExistsSync(d);
    if present {
      fs.RmSync(d);
    }
  }

  /**
   * After `ensureDir(d)` succeeds, `d` exists, no file changed, and the only
   * new entries are `d` and its ancestors; it throws exactly when `d` is
   * absent and an ancestor of `d` is a file.
   */
  lemma EnsureDirEffect(s: FsState, d: Path)
    ensures EnsureDirState(s, d).None? <==> !s.Exists(d) && Ancestors(d) * s.files != {}
    ensures EnsureDirState(s, d).Some? ==>
              var r := EnsureDirState(s, d).value;
              && r.Exists(d)
              && r.files == s.files
              && s.dirs <= r.dirs
              && forall p :: r.Exists(p) && !s.Exists(p) ==> p == d || p in Ancestors(d)
  {
  }

  /** `ensureDir` is idempotent: a second call changes nothing and does not throw. */
  lemma EnsureDirIdempotent(s: FsState, d: Path)
    requires EnsureDirState(s, d).Some?
    ensures EnsureDirState(EnsureDirState(s, d).value, d) == EnsureDirState(s, d)
  {
  }

  /**
   * After `safeRmDir(d)`, `d` and every path below it are gone and every
   * other entry is exactly as before; on an absent `d` nothing changes.
   */
  lemma SafeRmDirEffect(s: FsState, d: Path)
    requires s.Valid() && |d| > 0
    ensures var r := SafeRmDirState(s, d);
            && r.Valid()
            && (forall p :: p in r.files <==> p in s.files && !AtOrUnder(p, d))
            && (forall p :: p in r.dirs <==> p in s.dirs && !AtOrUnder(p, d))
    ensures !s.Exists(d) ==> SafeRmDirState(s, d) == s
  {
    if !s.Exists(d) {
      forall p | s.Exists(p) && AtOrUnder(p, d)
        ensures false
      {
        AncestorIff(p, d);
      }
    }
  }

  /** `safeRmDir` is idempotent. */
  lemma SafeRmDirIdempotent(s: FsState, d: Path)
    requires s.Valid() && |d| > 0
    ensures SafeRmDirState(SafeRmDirState(s, d), d) == SafeRmDirState(s, d)
  {
    SafeRmDirEffect(s, d);
  }
}
