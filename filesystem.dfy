/** The part of a POSIX file system the organizer touches: regular files (with
    their bytes and modification date) and directories, addressed by paths made
    of name components. `FileSystem` is the mutable object the organizer's
    functions act on; `Fs` is its value, which the specifications talk about. */
module FileTree {
  import opened Wrappers
  import opened OrganizerKeys

  /** A path as its sequence of components; `[]` is the root directory. */
  type Path = seq<string>

  datatype Entry = Entry(data: seq<bv8>, modified: CalendarDate)

  datatype Fs = Fs(files: map<Path, Entry>, dirs: set<Path>)

  /** pathlib `PurePath.name`. */
  function Name(p: Path): string {
    if p == [] then "" else p[|p| - 1]
  }

  function Parent(p: Path): Path {
    if p == [] then [] else p[..|p| - 1]
  }

  predicate IsFile(s: Fs, p: Path) { p in s.files }

  predicate IsDir(s: Fs, p: Path) { p == [] || p in s.dirs }

  predicate Exists(s: Fs, p: Path) { IsFile(s, p) || IsDir(s, p) }

  /** Every path other than the root that names something. */
  function Occupied(s: Fs): set<Path> {
    s.files.Keys + s.dirs
  }

  /** `p` lies strictly inside `folder`, at any depth. */
  predicate Inside(p: Path, folder: Path) {
    |folder| < |p| && p[..|folder|] == folder
  }

  /** `p` is an immediate entry of `folder`. */
  predicate IsChild(p: Path, folder: Path) {
    |p| == |folder| + 1 && p[..|folder|] == folder
  }

  /** What `folder.iterdir()` lists. */
  function Children(s: Fs, folder: Path): set<Path> {
    set p | p in Occupied(s) && IsChild(p, folder)
  }

  /** A well-formed tree: nothing is both a file and a directory, the root is
      neither listed as a file nor as a directory, and every entry sits in a
      directory. */
  ghost predicate WellFormed(s: Fs) {
    && s.files.Keys !! s.dirs
    && [] !in s.files && [] !in s.dirs
    && (forall p :: p in s.files ==> IsDir(s, Parent(p)))
    && (forall d :: d in s.dirs ==> IsDir(s, Parent(d)))
  }

  /** In a well-formed tree every proper ancestor of an entry is a directory. */
  lemma {:induction false} AncestorIsDir(s: Fs, p: Path, k: nat)
    requires WellFormed(s) && p in Occupied(s) && 1 <= k < |p|
    ensures p[..k] in s.dirs
    decreases |p| - k
  {
    var q := p[..|p| - 1];
    assert q == Parent(p) && q in s.dirs;
    if k < |q| {
      AncestorIsDir(s, q, k);
      assert q[..k] == p[..k];
    }
  }

  /** Nothing lies inside a regular file. */
  lemma NothingInsideFile(s: Fs, f: Path, p: Path)
    requires WellFormed(s) && f in s.files && p in Occupied(s)
    ensures !Inside(p, f)
  {
    if Inside(p, f) {
      AncestorIsDir(s, p, |f|);
      assert false;
    }
  }

  // ---------------------------------------------------------------------------
  // Primitive operations, as values

  /** The folder and all its ancestors below the root. */
  function Lineage(folder: Path): set<Path> {
    set k | 1 <= k <= |folder| :: folder[..k]
  }

  /** Some ancestor of `folder`, or `folder` itself, is a regular file. */
  predicate BlockedByFile(s: Fs, folder: Path) {
    exists k :: 1 <= k <= |folder| && folder[..k] in s.files
  }

  /** `folder.mkdir(parents=True, exist_ok=True)`: raises (None) when a regular
      file is in the way, in which case nothing is created; otherwise the folder
      and its missing ancestors exist afterwards. */
  function Mkdirs(s: Fs, folder: Path): (r: Option<Fs>)
    ensures r.Some? ==> r.value.files == s.files
  {
    if BlockedByFile(s, folder) then None else Some(Fs(s.files, s.dirs + Lineage(folder)))
  }

  /** `mkdir` keeps the tree well-formed, adds no file, removes nothing, and
      leaves the folder existing as a directory. */
  lemma MkdirsFacts(s: Fs, folder: Path)
    requires WellFormed(s)
    ensures Mkdirs(s, folder).None? <==> BlockedByFile(s, folder)
    ensures Mkdirs(s, folder).Some? ==>
      var r := Mkdirs(s, folder).value;
      && WellFormed(r) && IsDir(r, folder)
      && r.files == s.files && s.dirs <= r.dirs
      && (forall p :: p in r.dirs - s.dirs ==> !Inside(p, folder) && p != [])
  {
    if !BlockedByFile(s, folder) {
      var r := Mkdirs(s, folder).value;
      forall d | d in r.dirs
        ensures IsDir(r, Parent(d)) && d !in r.files && d != []
      {
        if d !in s.dirs {
          var k :| 1 <= k <= |folder| && d == folder[..k];
          assert Parent(d) == [] || Parent(d) == folder[..k - 1];
        }
      }
      if folder != [] {
        assert folder == folder[..|folder|];
      }
    }
  }

  /** Python `os.rename(src, dst)` onto a free path: the entry changes its path. */
  function MoveEntry(s: Fs, src: Path, dst: Path): Fs
    requires src in s.files
  {
    Fs((s.files - {src})[dst := s.files[src]], s.dirs)
  }

  /** Everything at or inside `d` removed, as `shutil.rmtree(d)` does. */
  function RemoveTree(s: Fs, d: Path): Fs {
    Fs(map p | p in s.files && !(p == d || Inside(p, d)) :: s.files[p],
       set q | q in s.dirs && !(q == d || Inside(q, d)))
  }

  // ---------------------------------------------------------------------------
  // The mutable file system

  class FileSystem {
    var files: map<Path, Entry>
    var dirs: set<Path>

    function State(): Fs
      reads this
    {
      Fs(files, dirs)
    }

    ghost predicate Valid()
      reads this
    {
      WellFormed(State())
    }

    constructor (s: Fs)
      requires WellFormed(s)
      ensures Valid() && State() == s
    {
      files := s.files;
      dirs := s.dirs;
    }

    /** `path.exists()`. */
    function PathExists(p: Path): bool
      reads this
    {
      Exists(State(), p)
    }

    /** `path.is_file()`. */
    function PathIsFile(p: Path): bool
      reads this
    {
      p in files
    }

    /** `path.is_dir()`. */
    function PathIsDir(p: Path): bool
      reads this
    {
      IsDir(State(), p)
    }

    /** `folder.mkdir(parents=True, exist_ok=True)`, and also
        `folder.mkdir(parents=True)` on a folder that does not exist yet. */
    method Mkdir(folder: Path) returns (ok: bool)
      requires Valid()
      modifies this
      ensures Valid()
      ensures Mkdirs(old(State()), folder) == if ok then Some(State()) else None
      ensures !ok ==> State() == old(State())
    {
      MkdirsFacts(State(), folder);
      ok := !BlockedByFile(State(), folder);
      if ok {
        dirs := dirs + Lineage(folder);
      }
    }

    /** `shutil.move(src, dst)` where `dst` does not exist and its folder does. */
    method Rename(src: Path, dst: Path)
      requires Valid() && src in files
      requires dst != [] && !PathExists(dst) && PathIsDir(Parent(dst))
      modifies this
      ensures Valid()
      ensures State() == MoveEntry(old(State()), src, dst)
    {
      ghost var s := State();
      files := (files - {src})[dst := files[src]];
      forall p | p in files
        ensures IsDir(State(), Parent(p))
      {
        if p != dst {
          assert IsDir(s, Parent(p));
        }
      }
      forall d | d in dirs
        ensures IsDir(State(), Parent(d))
      {
        assert IsDir(s, Parent(d));
      }
    }

    /** `path.unlink()` on a regular file. */
    method Unlink(p: Path)
      requires Valid() && p in files
      modifies this
      ensures Valid()
      ensures State() == Fs(old(files) - {p}, old(dirs))
    {
      files := files - {p};
    }

    /** `shutil.rmtree(d)` on a directory. */
    method Rmtree(d: Path)
      requires Valid() && d in dirs
      modifies this
      ensures Valid()
      ensures State() == RemoveTree(old(State()), d)
    {
      ghost var s := State();
      files := map p | p in files && !(p == d || Inside(p, d)) :: files[p];
      dirs := set q | q in dirs && !(q == d || Inside(q, d));
      forall p | p in files
        ensures IsDir(State(), Parent(p))
      {
        assert IsDir(s, Parent(p));
        if p != [] && |d| <= |Parent(p)| {
          assert Parent(p)[..|d|] == p[..|d|];
        }
      }
      forall q | q in dirs
        ensures IsDir(State(), Parent(q))
      {
        assert IsDir(s, Parent(q));
        if q != [] && |d| <= |Parent(q)| {
          assert Parent(q)[..|d|] == q[..|d|];
        }
      }
    }

    /** `path.touch()` on a path that does not exist: an empty file dated `now`. */
    method Touch(p: Path, now: CalendarDate)
      requires Valid() && p != [] && !PathExists(p) && PathIsDir(Parent(p))
      modifies this
      ensures Valid()
      ensures State() == Fs(old(files)[p := Entry([], now)], old(dirs))
    {
      files := files[p := Entry([], now)];
    }

    /** `folder.iterdir()`: every entry of the folder exactly once, in an order
        the operating system chooses. */
    method IterDir(folder: Path) returns (items: seq<Path>)
      ensures Enumerates(items, Children(State(), folder))
    {
      var rest := Children(State(), folder);
      items := [];
      while rest != {}
        invariant forall c :: c in Children(State(), folder) <==> c in rest || c in items
        invariant forall i :: 0 <= i < |items| ==> items[i] !in rest
        invariant Distinct(items)
        decreases |rest|
      {
        var c :| c in rest;
        items := items + [c];
        rest := rest - {c};
      }
    }
  }

  predicate Distinct<T(==)>(xs: seq<T>) {
    forall i, j :: 0 <= i < j < |xs| ==> xs[i] != xs[j]
  }

  /** `xs` lists the elements of `elements`, each exactly once. */
  predicate Enumerates<T(==)>(xs: seq<T>, elements: set<T>) {
    Distinct(xs) && elements == set x | x in xs
  }
}
