/**
 * The host filesystem as the handlers see it through Node's `fs` module:
 * a set of file paths and a set of directory paths, `/`-separated, forming
 * a tree (every proper ancestor of an entry is a directory; the root `/` is
 * implicit). File contents are not modelled.
 *
 * `FsState` and the functions over it say what each `fs.*Sync` call does;
 * the class `FileSystem` holds the mutable state the handlers change step
 * by step, and each of its methods is proved against those functions.
 */
module Fs {
  import opened Wrappers

  type Path = string

  /** `p` lies strictly inside directory `d`. */
  predicate Under(p: Path, d: Path)
  {
    |p| > |d| && p[..|d|] == d && p[|d|] == '/'
  }

  predicate AtOrUnder(p: Path, d: Path)
  {
    p == d || Under(p, d)
  }

  /** The proper, non-root ancestors of `p`: every prefix that ends just before a `/`. */
  function Ancestors(p: Path): set<Path>
  {
    set i | 0 < i < |p| && p[i] == '/' :: p[..i]
  }

  /** `path.join(dir, name)` for a normalised directory and a plain name. */
  function JoinPath(dir: Path, name: string): Path
  {
    dir + "/" + name
  }

  lemma AncestorIff(p: Path, a: Path)
    ensures a in Ancestors(p) <==> |a| > 0 && Under(p, a)
  {
    if |a| > 0 && Under(p, a) {
      assert p[..|a|] in Ancestors(p);
    }
  }

  lemma UnderTransitive(p: Path, a: Path, d: Path)
    requires Under(p, a) && AtOrUnder(a, d)
    ensures Under(p, d)
  {
    if a != d {
      assert p[..|d|] == p[..|a|][..|d|];
      assert p[|d|] == p[..|a|][|d|];
    }
  }

  lemma AncestorsOfAncestor(p: Path, a: Path)
    requires a in Ancestors(p)
    ensures Ancestors(a) <= Ancestors(p)
  {
    AncestorIff(p, a);
    forall b | b in Ancestors(a)
      ensures b in Ancestors(p)
    {
      AncestorIff(a, b);
      UnderTransitive(a, b, b);
      assert p[..|b|] == a[..|b|];
      assert p[|b|] == a[|b|];
      AncestorIff(p, b);
    }
  }

  /** The ancestors of `dir/name` are `dir` and the ancestors of `dir`. */
  lemma AncestorsOfJoin(dir: Path, name: string)
    requires |dir| > 0 && '/' !in name
    ensures Ancestors(JoinPath(dir, name)) == Ancestors(dir) + {dir}
    ensures Under(JoinPath(dir, name), dir)
  {
    var p := JoinPath(dir, name);
    assert p[..|dir|] == dir;
    forall a | a in Ancestors(p)
      ensures a in Ancestors(dir) + {dir}
    {
      var i :| 0 < i < |p| && p[i] == '/' && a == p[..i];
      if i < |dir| {
        assert dir[i] == '/' && a == dir[..i];
      }
    }
    forall a | a in Ancestors(dir) + {dir}
      ensures a in Ancestors(p)
    {
      if a == dir {
        AncestorIff(p, a);
      } else {
        var i :| 0 < i < |dir| && dir[i] == '/' && a == dir[..i];
        assert p[i] == '/' && p[..i] == a;
      }
    }
  }

  /** Everything the handlers can observe of the filesystem. */
  datatype FsState = FsState(files: set<Path>, dirs: set<Path>)
  {
    predicate Exists(p: Path)
    {
      p in files || p in dirs
    }

    /** A well-formed tree: no path is both a file and a directory, and every ancestor of an entry is a directory. */
    predicate Valid()
    {
      && files !! dirs
      && (forall p :: p in files ==> Ancestors(p) <= dirs)
      && (forall p :: p in dirs ==> Ancestors(p) <= dirs)
    }

    /** Something exists strictly below `d`. */
    predicate HasEntriesUnder(d: Path)
    {
      (exists p :: p in files && Under(p, d)) || (exists p :: p in dirs && Under(p, d))
    }

    /** Nothing exists at or below `d`. */
    predicate VacantAt(d: Path)
    {
      && (forall p :: p in files ==> !AtOrUnder(p, d))
      && (forall p :: p in dirs ==> !AtOrUnder(p, d))
    }
  }

  /** `fs.mkdirSync(d, { recursive: true })`: creates `d` and its missing ancestors; fails when `d` or an ancestor is a file. */
  function MkdirRecursive(s: FsState, d: Path): (r: Option<FsState>)
    ensures s.Valid() && r.Some? ==> r.value.Valid()
  {
    if d in s.files || Ancestors(d) * s.files != {} then None
    else
      var r := FsState(s.files, s.dirs + {d} + Ancestors(d));
      assert s.Valid() ==> r.Valid() by {
        forall a | a in Ancestors(d) {
          AncestorsOfAncestor(d, a);
        }
      }
      Some(r)
  }

  /** `fs.mkdirSync(d)`: fails when something exists at `d` (EEXIST) or its parent is missing (ENOENT). */
  function Mkdir(s: FsState, d: Path): (r: Option<FsState>)
    ensures s.Valid() && r.Some? ==> r.value.Valid()
  {
    if s.Exists(d) || !(Ancestors(d) <= s.dirs) then None
    else Some(FsState(s.files, s.dirs + {d}))
  }

  /** `fs.rmSync(d, { recursive: true, force: true })`: removes `d` and everything below it; nothing to do when `d` is absent. */
  function RmRecursive(s: FsState, d: Path): (r: FsState)
    ensures s.Valid() ==> r.Valid()
  {
    if !s.Exists(d) then s
    else
      var r := FsState(set p | p in s.files && !AtOrUnder(p, d), set p | p in s.dirs && !AtOrUnder(p, d));
      assert s.Valid() ==> r.Valid() by {
        if s.Valid() {
          forall p, a | r.Exists(p) && a in Ancestors(p)
            ensures a in r.dirs
          {
            AncestorIff(p, a);
            if AtOrUnder(a, d) {
              UnderTransitive(p, a, d);
            }
          }
        }
      }
      r
  }

  /** `fs.unlinkSync(p)`: fails unless `p` is a file. */
  function Unlink(s: FsState, p: Path): (r: Option<FsState>)
    ensures s.Valid() && r.Some? ==> r.value.Valid()
  {
    if p !in s.files then None else Some(FsState(s.files - {p}, s.dirs))
  }

  /** `fs.rmdirSync(d)`: fails unless `d` is an empty directory. */
  function Rmdir(s: FsState, d: Path): (r: Option<FsState>)
    ensures s.Valid() && r.Some? ==> r.value.Valid()
  {
    if d !in s.dirs || s.HasEntriesUnder(d) then None
    else
      var r := FsState(s.files, s.dirs - {d});
      assert s.Valid() ==> r.Valid() by {
        if s.Valid() {
          forall p | r.Exists(p)
            ensures Ancestors(p) <= r.dirs
          {
            AncestorIff(p, d);
          }
        }
      }
      Some(r)
  }

  /** `fs.renameSync(src, dst)` of a file into an existing directory. */
  function Rename(s: FsState, src: Path, dst: Path): (r: FsState)
    requires src in s.files && dst !in s.dirs && Ancestors(dst) <= s.dirs
    ensures s.Valid() ==> r.Valid()
  {
    FsState(s.files - {src} + {dst}, s.dirs)
  }

  /** A file comes to exist at `p` (`fs.writeFileSync`, or an output the media engine writes). */
  function WriteFile(s: FsState, p: Path): (r: FsState)
    requires p !in s.dirs && Ancestors(p) <= s.dirs
    ensures s.Valid() ==> r.Valid()
  {
    FsState(s.files + {p}, s.dirs)
  }

  /** The mutable filesystem one handler run works on. */
  class FileSystem {
    var files: set<Path>
    var dirs: set<Path>

    constructor (initial: FsState)
      ensures State() == initial
    {
      files := initial.files;
      dirs := initial.dirs;
    }

    function State(): FsState
      reads this
    {
      FsState(files, dirs)
    }

    method ExistsSync(p: Path) returns (b: bool)
      ensures b == State().Exists(p)
    {
      b := p in files || p in dirs;
    }

    method MkdirSync(d: Path, recursive: bool) returns (ok: bool)
      modifies this
      ensures var r := if recursive then MkdirRecursive(old(State()), d) else Mkdir(old(State()), d);
              ok == r.Some? && State() == if ok then r.value else old(State())
    {
      if recursive {
        ok := d !in files && Ancestors(d) * files == {};
        if ok {
          dirs := dirs + {d} + Ancestors(d);
        }
      } else {
        ok := d !in files && d !in dirs && Ancestors(d) <= dirs;
        if ok {
          dirs := dirs + {d};
        }
      }
    }

    method RmSync(d: Path)
      modifies this
      ensures State() == RmRecursive(old(State()), d)
    {
      if d in files || d in dirs {
        files := set p | p in files && !AtOrUnder(p, d);
        dirs := set p | p in dirs && !AtOrUnder(p, d);
      }
    }

    method UnlinkSync(p: Path) returns (ok: bool)
      modifies this
      ensures var r := Unlink(old(State()), p);
              ok == r.Some? && State() == if ok then r.value else old(State())
    {
      ok := p in files;
      if ok {
        files := files - {p};
      }
    }

    method RmdirSync(d: Path) returns (ok: bool)
      modifies this
      ensures var r := Rmdir(old(State()), d);
              ok == r.Some? && State() == if ok then r.value else old(State())
    {
      ok := d in dirs && !State().HasEntriesUnder(d);
      if ok {
        dirs := dirs - {d};
      }
    }

    method RenameSync(src: Path, dst: Path)
      requires src in files && dst !in dirs && Ancestors(dst) <= dirs
      modifies this
      ensures State() == Rename(old(State()), src, dst)
    {
      files := files - {src} + {dst};
    }

    method WriteFileSync(p: Path)
      requires p !in dirs && Ancestors(p) <= dirs
      modifies this
      ensures State() == WriteFile(old(State()), p)
    {
      files := files + {p};
    }
  }
}
