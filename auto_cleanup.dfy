/** The file organizer: moves the regular files of a folder into subfolders named
    after their extension or modification date without ever overwriting a file,
    and resets a test folder to its five sample files. */
module AutoCleanup {
  import opened Wrappers
  import opened PyStr
  import opened OrganizerKeys
  import opened FileTree

  // ---------------------------------------------------------------------------
  // Collision-avoiding names

  /** The k-th name `safe_move` tries: the file's own name first, then
      `stem_k` followed by the suffix. */
  function CandidateName(name: string, k: nat): string {
    if k == 0 then name else Stem(name) + "_" + Decimal(k) + Suffix(name)
  }

  function Candidate(folder: Path, name: string, k: nat): Path {
    folder + [CandidateName(name, k)]
  }

  /** Different counters give different names, so the search always reaches a
      free one. */
  lemma CandidateNameInjective(name: string, j: nat, k: nat)
    ensures CandidateName(name, j) == CandidateName(name, k) ==> j == k
  {
    if j != 0 && k != 0 {
      var stem, suffix := Stem(name), Suffix(name);
      var a, b := Decimal(j), Decimal(k);
      var x, y := stem + "_" + a + suffix, stem + "_" + b + suffix;
      if x == y {
        assert |a| == |b|;
        assert x[|stem| + 1..|stem| + 1 + |a|] == a;
        assert y[|stem| + 1..|stem| + 1 + |b|] == b;
        DecimalInjective(j, k);
      }
    }
  }

  /** The candidates with counters below `n`. */
  function CandidateSet(folder: Path, name: string, n: nat): set<Path> {
    set j | 0 <= j < n :: Candidate(folder, name, j)
  }

  lemma CandidateInjective(folder: Path, name: string, j: nat, k: nat)
    ensures Candidate(folder, name, j) == Candidate(folder, name, k) ==> j == k
  {
    if Candidate(folder, name, j) == Candidate(folder, name, k) {
      assert Candidate(folder, name, j)[|folder|] == CandidateName(name, j);
      assert Candidate(folder, name, k)[|folder|] == CandidateName(name, k);
      CandidateNameInjective(name, j, k);
    }
  }

  lemma CandidateSetStep(folder: Path, name: string, n: nat)
    ensures CandidateSet(folder, name, n + 1) == CandidateSet(folder, name, n) + {Candidate(folder, name, n)}
  {
  }

  lemma CandidateSetFresh(folder: Path, name: string, n: nat)
    ensures Candidate(folder, name, n) !in CandidateSet(folder, name, n)
  {
    forall j | 0 <= j < n
      ensures Candidate(folder, name, j) != Candidate(folder, name, n)
    {
      CandidateInjective(folder, name, j, n);
    }
  }

  lemma {:induction false} CandidateSetSize(folder: Path, name: string, n: nat)
    ensures |CandidateSet(folder, name, n)| == n
  {
    if n > 0 {
      CandidateSetSize(folder, name, n - 1);
      CandidateSetStep(folder, name, n - 1);
      CandidateSetFresh(folder, name, n - 1);
    }
  }

  /** If the first `n` candidates are all taken, the folder holds at least `n`
      entries: the search for a free name is bounded. */
  lemma CandidatesBound(s: Fs, folder: Path, name: string, n: nat)
    requires forall j :: 0 <= j < n ==> Candidate(folder, name, j) in Occupied(s)
    ensures n <= |Occupied(s)|
  {
    CandidateSetSize(folder, name, n);
    forall p | p in CandidateSet(folder, name, n)
      ensures p in Occupied(s)
    {
      var j :| 0 <= j < n && p == Candidate(folder, name, j);
    }
    SubsetCard(CandidateSet(folder, name, n), Occupied(s));
  }

  lemma {:induction false} SubsetCard<T>(a: set<T>, b: set<T>)
    requires a <= b
    ensures |a| <= |b|
    decreases |a|
  {
    if a != {} {
      var x :| x in a;
      SubsetCard(a - {x}, b - {x});
    }
  }

  /** A free candidate preceded only by taken ones is the one the search finds. */
  lemma FirstFreeIsLeast(s: Fs, folder: Path, name: string, m: nat)
    requires forall j :: 0 <= j < m ==> Candidate(folder, name, j) in Occupied(s)
    requires Candidate(folder, name, m) !in Occupied(s)
    ensures FirstFree(s, folder, name, 0) == m
  {
    var f := FirstFree(s, folder, name, 0);
  }

  /** The least counter from `k` on whose candidate is free, given that the
      candidates below `k` are taken. */
  function FirstFree(s: Fs, folder: Path, name: string, k: nat): (m: nat)
    requires forall j :: 0 <= j < k ==> Candidate(folder, name, j) in Occupied(s)
    ensures k <= m
    ensures Candidate(folder, name, m) !in Occupied(s)
    ensures forall j :: 0 <= j < m ==> Candidate(folder, name, j) in Occupied(s)
    decreases |Occupied(s)| - k
  {
    if Candidate(folder, name, k) !in Occupied(s) then k
    else
      CandidatesBound(s, folder, name, k + 1);
      FirstFree(s, folder, name, k + 1)
  }

  /** The path `safe_move` settles on in `folder` for a file called `name`. */
  function Resolve(s: Fs, folder: Path, name: string): Path {
    Candidate(folder, name, FirstFree(s, folder, name, 0))
  }

  /** The resolved path is free and lies directly in the folder; if the file's
      own name is free it is used unchanged, otherwise the result is
      `stem_k + suffix` for the least `k >= 1` that is free. */
  lemma ResolveFacts(s: Fs, folder: Path, name: string)
    ensures var r := Resolve(s, folder, name);
      && !Exists(s, r) && Parent(r) == folder && r != []
      && (folder + [name] !in Occupied(s) ==> r == folder + [name])
      && (folder + [name] in Occupied(s) ==>
            exists k :: k >= 1 && r == folder + [Stem(name) + "_" + Decimal(k) + Suffix(name)]
                     && forall j :: 1 <= j < k ==> Candidate(folder, name, j) in Occupied(s))
  {
    var m := FirstFree(s, folder, name, 0);
    var r := Resolve(s, folder, name);
    assert r[..|folder|] == folder;
    if folder + [name] in Occupied(s) {
      assert Candidate(folder, name, 0) in Occupied(s);
      assert m >= 1;
    }
  }

  /** A counter-suffixed name keeps the original suffix, so the file keeps its
      extension key. */
  lemma CandidateKeepsSuffix(name: string, k: nat)
    requires Suffix(name) != ""
    ensures Suffix(CandidateName(name, k)) == Suffix(name)
    ensures ExtensionKey(CandidateName(name, k)) == ExtensionKey(name)
  {
    if k != 0 {
      var suffix := Suffix(name);
      var c := CandidateName(name, k);
      var pre := Stem(name) + "_" + Decimal(k);
      assert c == pre + suffix;
      ExtensionKeyIsLastDotPart(name);
      assert |Stem(name)| > 0;
      var i := |pre|;
      assert c[i] == '.';
      assert forall t :: i < t < |c| ==> c[t] == suffix[t - i];
      assert RFind(c, '.') == i;
    }
  }

  // ---------------------------------------------------------------------------
  // safe_move

  /** `safe_move(file, folder, dry_run)` as a value: `None` when `mkdir` raises.
      The folder is created before the dry-run check, so a dry run still creates
      it; a real run then moves the file to the resolved path. */
  function SafeMoveSpec(s: Fs, file: Path, folder: Path, dryRun: bool): Option<Fs>
    requires file in s.files
  {
    match Mkdirs(s, folder)
    case None => None
    case Some(s1) =>
      if dryRun then Some(s1)
      else Some(MoveEntry(s1, file, Resolve(s1, folder, Name(file))))
  }

  /** What one `safe_move` does: the tree stays well-formed and the folder
      exists; a dry run changes no file; a real run puts the file's entry at a
      path that did not exist before, removes it from its old path and leaves
      every other file where it was with its content. */
  lemma SafeMoveFacts(s: Fs, file: Path, folder: Path, dryRun: bool)
    requires WellFormed(s) && file in s.files
    ensures SafeMoveSpec(s, file, folder, dryRun).None? <==> BlockedByFile(s, folder)
    ensures SafeMoveSpec(s, file, folder, dryRun).Some? ==>
      var r := SafeMoveSpec(s, file, folder, dryRun).value;
      && WellFormed(r) && IsDir(r, folder) && s.dirs <= r.dirs
      && (dryRun ==> r.files == s.files)
      && (!dryRun ==>
            var target := Resolve(Mkdirs(s, folder).value, folder, Name(file));
            && !Exists(s, target) && Parent(target) == folder
            && target in r.files && r.files[target] == s.files[file]
            && file !in r.files
            && r.files.Keys == s.files.Keys - {file} + {target}
            && (forall p :: p in s.files && p != file ==> p in r.files && r.files[p] == s.files[p]))
  {
    MkdirsFacts(s, folder);
    if !BlockedByFile(s, folder) && !dryRun {
      var s1 := Mkdirs(s, folder).value;
      var target := Resolve(s1, folder, Name(file));
      ResolveFacts(s1, folder, Name(file));
      var r := MoveEntry(s1, file, target);
      assert target != file;
      forall p | p in r.files
        ensures IsDir(r, Parent(p))
      {
        if p != target {
          assert IsDir(s1, Parent(p));
        }
      }
      forall d | d in r.dirs
        ensures IsDir(r, Parent(d))
      {
        assert IsDir(s1, Parent(d));
      }
    }
  }

  /** The search loop of `safe_move`: tries `name`, then `stem_1.suffix`,
      `stem_2.suffix`, ... until the path does not exist. */
  method FindFreeTarget(fs: FileSystem, folder: Path, name: string) returns (target: Path)
    ensures target == Resolve(fs.State(), folder, name)
  {
    ghost var s := fs.State();
    target := folder + [name];
    var counter := 1;
    while fs.PathExists(target)
      invariant 1 <= counter
      invariant target == Candidate(folder, name, counter - 1)
      invariant forall j :: 0 <= j < counter - 1 ==> Candidate(folder, name, j) in Occupied(s)
      decreases |Occupied(s)| - counter
    {
      assert target in Occupied(s);
      CandidatesBound(s, folder, name, counter);
      target := folder + [Stem(name) + "_" + Decimal(counter) + Suffix(name)];
      counter := counter + 1;
    }
    FirstFreeIsLeast(s, folder, name, counter - 1);
  }

  /** `safe_move`: creates the folder, picks the first free name and moves the
      file there unless this is a dry run. Returns false when `mkdir` raised. */
  method SafeMove(fs: FileSystem, filePath: Path, targetFolder: Path, dryRun: bool)
    returns (ok: bool, target: Path)
    requires fs.Valid() && filePath in fs.files
    modifies fs
    ensures fs.Valid()
    ensures SafeMoveSpec(old(fs.State()), filePath, targetFolder, dryRun)
         == if ok then Some(fs.State()) else None
    ensures !ok ==> fs.State() == old(fs.State())
    ensures ok ==> target == Resolve(Mkdirs(old(fs.State()), targetFolder).value,
                                     targetFolder, Name(filePath))
  {
    ghost var s0 := fs.State();
    ok := fs.Mkdir(targetFolder);
    if !ok {
      target := targetFolder;
      return;
    }
    ghost var s1 := fs.State();
    MkdirsFacts(s0, targetFolder);
    target := FindFreeTarget(fs, targetFolder, Name(filePath));
    ResolveFacts(s1, targetFolder, Name(filePath));
    if !dryRun {
      fs.Rename(filePath, target);
    }
  }

  // ---------------------------------------------------------------------------
  // organize_by_extension / organize_by_date

  datatype Mode = ByExtension | ByDate

  /** The subfolder of the destination a file goes to. */
  function FolderKey(mode: Mode, item: Path, e: Entry): string {
    match mode
    case ByExtension => ExtensionKey(Name(item))
    case ByDate => DateKey(e.modified)
  }

  /** The final file system and whether the loop ran to its end (false when a
      `safe_move` raised and the exception left the loop). */
  datatype Outcome = Outcome(fs: Fs, completed: bool)

  /** The organizing loop over the folder's entries in the order `iterdir`
      produced them: entries that are not regular files when reached are
      skipped; every file is handed to `safe_move` with the folder for its key. */
  function Organize(s: Fs, order: seq<Path>, dest: Path, mode: Mode, dryRun: bool): Outcome
    decreases |order|
  {
    if order == [] then Outcome(s, true)
    else
      var item := order[0];
      if item !in s.files then Organize(s, order[1..], dest, mode, dryRun)
      else match SafeMoveSpec(s, item, dest + [FolderKey(mode, item, s.files[item])], dryRun)
        case None => Outcome(s, false)
        case Some(s1) => Organize(s1, order[1..], dest, mode, dryRun)
  }

  /** One turn of the organizing loop: a path that is no longer a regular file
      is skipped, a failed `safe_move` ends the loop, and otherwise the loop
      goes on from the state `safe_move` left. */
  lemma OrganizeUnfold(s: Fs, order: seq<Path>, dest: Path, mode: Mode, dryRun: bool)
    requires order != []
    ensures var item := order[0];
      Organize(s, order, dest, mode, dryRun)
      == if item !in s.files then Organize(s, order[1..], dest, mode, dryRun)
         else
           var r := SafeMoveSpec(s, item, dest + [FolderKey(mode, item, s.files[item])], dryRun);
           if r.None? then Outcome(s, false) else Organize(r.value, order[1..], dest, mode, dryRun)
  {
  }

  /** The body of both organizing loops: a regular file is handed to
      `safe_move` with the folder for its key; anything else is skipped.
      Returns false when `safe_move` raised, which ends the loop; `rest` are
      the entries still to come. */
  method OrganizeEntry(fs: FileSystem, item: Path, destination: Path, mode: Mode, dryRun: bool,
                       ghost rest: seq<Path>) returns (ok: bool)
    requires fs.Valid()
    modifies fs
    ensures fs.Valid()
    ensures Organize(old(fs.State()), [item] + rest, destination, mode, dryRun)
         == if ok then Organize(fs.State(), rest, destination, mode, dryRun) else Outcome(fs.State(), false)
  {
    OrganizeUnfold(fs.State(), [item] + rest, destination, mode, dryRun);
    assert ([item] + rest)[0] == item && ([item] + rest)[1..] == rest;
    ok := true;
    if fs.PathIsFile(item) {
      var key := FolderKey(mode, item, fs.files[item]);
      var target;
      ok, target := SafeMove(fs, item, destination + [key], dryRun);
    }
  }

  /** Both organizers: `organize_by_extension` (mode `ByExtension`) and
      `organize_by_date` (mode `ByDate`). `iterdir` raises when the source is
      not a directory. */
  method OrganizeFolder(fs: FileSystem, source: Path, destination: Path, mode: Mode, dryRun: bool)
    returns (visited: seq<Path>, completed: bool)
    requires fs.Valid()
    modifies fs
    ensures fs.Valid()
    ensures !IsDir(old(fs.State()), source) ==>
      !completed && visited == [] && fs.State() == old(fs.State())
    ensures IsDir(old(fs.State()), source) ==>
      && Enumerates(visited, Children(old(fs.State()), source))
      && Organize(old(fs.State()), visited, destination, mode, dryRun) == Outcome(fs.State(), completed)
  {
    if !fs.PathIsDir(source) {
      return [], false;
    }
    visited := fs.IterDir(source);
    ghost var s0 := fs.State();
    var i := 0;
    while i < |visited|
      invariant 0 <= i <= |visited|
      invariant fs.Valid()
      invariant Organize(s0, visited, destination, mode, dryRun)
             == Organize(fs.State(), visited[i..], destination, mode, dryRun)
    {
      assert visited[i..] == [visited[i]] + visited[i + 1..];
      var ok := OrganizeEntry(fs, visited[i], destination, mode, dryRun, visited[i + 1..]);
      if !ok {
        completed := false;
        return;
      }
      i := i + 1;
    }
    completed := true;
  }

  lemma {:induction false} CardSwap<T>(a: set<T>, x: T, y: T)
    requires x in a && y !in a
    ensures |a - {x} + {y}| == |a|
  {
    assert a == (a - {x}) + {x};
  }

  /** Organizing keeps the tree well-formed, only adds directories, never loses
      or overwrites a file (the number of files stays the same), leaves every
      file it did not visit where it was with its content, and in a dry run
      moves nothing at all. */
  lemma {:induction false} OrganizeFacts(s: Fs, order: seq<Path>, dest: Path, mode: Mode, dryRun: bool)
    requires WellFormed(s)
    ensures var r := Organize(s, order, dest, mode, dryRun).fs;
      && WellFormed(r) && s.dirs <= r.dirs
      && |r.files| == |s.files|
      && (dryRun ==> r.files == s.files)
      && (forall p :: p in s.files && p !in order ==> p in r.files && r.files[p] == s.files[p])
    decreases |order|
  {
    if order != [] {
      var item := order[0];
      assert forall p :: p in order[1..] ==> p in order;
      if item in s.files {
        var folder := dest + [FolderKey(mode, item, s.files[item])];
        SafeMoveFacts(s, item, folder, dryRun);
        match SafeMoveSpec(s, item, folder, dryRun)
        case None =>
        case Some(s1) =>
          OrganizeFacts(s1, order[1..], dest, mode, dryRun);
          if !dryRun {
            var target := Resolve(Mkdirs(s, folder).value, folder, Name(item));
            CardSwap(s.files.Keys, item, target);
          }
      } else {
        OrganizeFacts(s, order[1..], dest, mode, dryRun);
      }
    }
  }

  /** After a completed real run, no regular file sits directly in the source
      folder unless it was there before and not visited. This needs the source
      not to be one of the key folders, i.e. not a child of the destination. */
  lemma {:induction false} OrganizeMovesVisitedOut(s: Fs, order: seq<Path>, source: Path, dest: Path, mode: Mode)
    requires !IsChild(source, dest)
    requires Organize(s, order, dest, mode, false).completed
    ensures forall p :: p in Organize(s, order, dest, mode, false).fs.files && IsChild(p, source)
                    ==> p in s.files && p !in order
    decreases |order|
  {
    if order != [] {
      var item := order[0];
      if item in s.files {
        var folder := dest + [FolderKey(mode, item, s.files[item])];
        match SafeMoveSpec(s, item, folder, false)
        case None =>
        case Some(s1) =>
          OrganizeMovesVisitedOut(s1, order[1..], source, dest, mode);
          var target := Resolve(Mkdirs(s, folder).value, folder, Name(item));
          ResolveFacts(Mkdirs(s, folder).value, folder, Name(item));
      } else {
        OrganizeMovesVisitedOut(s, order[1..], source, dest, mode);
      }
    }
  }

  /** The organizer's promise: after a completed real run over all entries of
      the source folder, the source holds no regular file directly (unless the
      source is itself one of the key folders of the destination). */
  lemma OrganizeClearsSource(s: Fs, order: seq<Path>, source: Path, dest: Path, mode: Mode)
    requires Enumerates(order, Children(s, source))
    requires !IsChild(source, dest)
    requires Organize(s, order, dest, mode, false).completed
    ensures forall p :: p in Organize(s, order, dest, mode, false).fs.files ==> !IsChild(p, source)
  {
    OrganizeMovesVisitedOut(s, order, source, dest, mode);
    forall p | p in s.files && IsChild(p, source)
      ensures p in order
    {
      assert p in Children(s, source);
    }
  }

  // ---------------------------------------------------------------------------
  // reset_folder

  /** The file names a reset folder holds. */
  const SampleFiles: seq<string> := ["document.pdf", "photo.jpg", "script.py", "notes.txt", "image.png"]

  /** `p` lies under the child `p[..|folder| + 1]` of `folder`, and that child is in `cut`. */
  predicate UnderCut(p: Path, folder: Path, cut: set<Path>) {
    |p| > |folder| && p[..|folder| + 1] in cut
  }

  /** The tree with the child directories `cut` of `folder` removed, with all
      they contain. */
  function Pruned(s: Fs, folder: Path, cut: set<Path>): Fs {
    Fs(map p | p in s.files && !UnderCut(p, folder, cut) :: s.files[p],
       set q | q in s.dirs && !UnderCut(q, folder, cut))
  }

  /** Removing one more child directory with `rmtree`. */
  lemma PrunedStep(s: Fs, folder: Path, cut: set<Path>, d: Path)
    requires IsChild(d, folder)
    ensures RemoveTree(Pruned(s, folder, cut), d) == Pruned(s, folder, cut + {d})
  {
    forall p: Path
      ensures (p == d || Inside(p, d)) <==> (|p| > |folder| && p[..|folder| + 1] == d)
    {
      if |p| > |folder| && p[..|folder| + 1] == d && p != d {
        assert |p| > |d|;
      }
    }
  }

  /** The child directories of `folder`. */
  function ChildDirs(s: Fs, folder: Path): set<Path> {
    set d | d in s.dirs && IsChild(d, folder)
  }

  /** Stage one: every subfolder removed with its contents. */
  function RemoveSubfolders(s: Fs, folder: Path): Fs {
    Pruned(s, folder, ChildDirs(s, folder))
  }

  /** A regular file directly in `folder` whose name is not a sample name. */
  predicate Stray(p: Path, folder: Path) {
    IsChild(p, folder) && Name(p) !in SampleFiles
  }

  /** Stage two: every stray file directly in the folder unlinked. */
  function RemoveStrays(s: Fs, folder: Path): Fs {
    Fs(map p | p in s.files && !Stray(p, folder) :: s.files[p], s.dirs)
  }

  /** Stage three: each sample name that does not exist yet is touched, in list
      order. */
  function AddSamples(s: Fs, folder: Path, names: seq<string>, now: CalendarDate): Fs
    decreases |names|
  {
    if names == [] then s
    else
      var p := folder + [names[0]];
      var s1 := if Exists(s, p) then s else Fs(s.files[p := Entry([], now)], s.dirs);
      AddSamples(s1, folder, names[1..], now)
  }

  /** `reset_folder(folder)`: `None` when it raises, which happens exactly when
      a regular file sits at the folder or one of its ancestors (`mkdir` or
      `iterdir` fails). */
  function Reset(s: Fs, folder: Path, now: CalendarDate): Option<Fs> {
    var start := if Exists(s, folder) then Some(s) else Mkdirs(s, folder);
    match start
    case None => None
    case Some(s0) =>
      if !IsDir(s0, folder) then None
      else Some(AddSamples(RemoveStrays(RemoveSubfolders(s0, folder), folder), folder, SampleFiles, now))
  }

  /** Whether the child `item` of `folder` is still a directory after pruning
      `cut`. */
  lemma PrunedChildDir(s: Fs, folder: Path, cut: set<Path>, item: Path)
    requires IsChild(item, folder)
    ensures item in Pruned(s, folder, cut).dirs <==> item in s.dirs && item !in cut
  {
    assert item[..|folder| + 1] == item;
  }

  /** The directories among a listing of the folder are its child directories. */
  lemma ChildDirsListed(s: Fs, folder: Path, items: seq<Path>, cut: set<Path>)
    requires Enumerates(items, Children(s, folder))
    requires forall d :: d in cut <==> d in items && d in s.dirs
    ensures cut == ChildDirs(s, folder)
  {
    forall d | d in ChildDirs(s, folder)
      ensures d in cut
    {
      assert d in Children(s, folder);
    }
    forall d | d in cut
      ensures d in ChildDirs(s, folder)
    {
      assert d in Children(s, folder);
    }
  }

  /** One turn of the first loop: the entry `items[i]` is still a directory
      exactly when it was one, and removing it extends the pruned set. */
  lemma SubfolderStep(s: Fs, folder: Path, items: seq<Path>, i: nat, cut: set<Path>)
    requires Enumerates(items, Children(s, folder)) && i < |items|
    requires forall d :: d in cut <==> d in items[..i] && d in s.dirs
    ensures var item, t := items[i], Pruned(s, folder, cut);
      && item != []
      && (item in t.dirs <==> item in s.dirs)
      && (item in s.dirs ==> RemoveTree(t, item) == Pruned(s, folder, cut + {item}))
      && (forall d :: d in (if item in s.dirs then cut + {item} else cut) <==> d in items[..i + 1] && d in s.dirs)
  {
    var item := items[i];
    assert item in Children(s, folder);
    assert items[..i + 1] == items[..i] + [item];
    assert item !in items[..i];
    PrunedChildDir(s, folder, cut, item);
    if item in s.dirs {
      PrunedStep(s, folder, cut, item);
    }
  }

  /** The first loop of `reset_folder`: `rmtree` on every entry that is a
      directory when reached. */
  method DeleteSubfolders(fs: FileSystem, folder: Path)
    requires fs.Valid() && fs.PathIsDir(folder)
    modifies fs
    ensures fs.Valid() && fs.PathIsDir(folder)
    ensures fs.State() == RemoveSubfolders(old(fs.State()), folder)
  {
    ghost var s0 := fs.State();
    var items := fs.IterDir(folder);
    ghost var cut: set<Path> := {};
    var i := 0;
    while i < |items|
      invariant 0 <= i <= |items|
      invariant fs.Valid() && fs.PathIsDir(folder)
      invariant forall d :: d in cut <==> d in items[..i] && d in s0.dirs
      invariant fs.State() == Pruned(s0, folder, cut)
    {
      var item := items[i];
      SubfolderStep(s0, folder, items, i, cut);
      if fs.PathIsDir(item) {
        fs.Rmtree(item);
        cut := cut + {item};
      }
      i := i + 1;
    }
    assert items[..|items|] == items;
    ChildDirsListed(s0, folder, items, cut);
  }

  /** The tree after the second loop has looked at the entries `seen`. */
  function Unlinked(s: Fs, folder: Path, seen: seq<Path>): Fs {
    Fs(map p | p in s.files && !(p in seen && Stray(p, folder)) :: s.files[p], s.dirs)
  }

  lemma UnlinkedStep(s: Fs, folder: Path, seen: seq<Path>, item: Path)
    ensures var t := Unlinked(s, folder, seen);
      Unlinked(s, folder, seen + [item])
      == if item in t.files && Stray(item, folder) then Fs(t.files - {item}, t.dirs) else t
  {
  }

  /** One turn of the second loop, on the `i`-th entry listed. */
  lemma StrayStep(s: Fs, folder: Path, items: seq<Path>, i: nat)
    requires Enumerates(items, Children(s, folder)) && i < |items|
    ensures var t, item := Unlinked(s, folder, items[..i]), items[i];
      Unlinked(s, folder, items[..i + 1])
      == if item in t.files && Name(item) !in SampleFiles then Fs(t.files - {item}, t.dirs) else t
  {
    var item := items[i];
    assert item in Children(s, folder);
    assert items[..i + 1] == items[..i] + [item];
    UnlinkedStep(s, folder, items[..i], item);
  }

  /** Once every entry has been looked at, every stray file is gone. */
  lemma StraysListed(s: Fs, folder: Path, items: seq<Path>)
    requires Enumerates(items, Children(s, folder))
    ensures Unlinked(s, folder, items[..|items|]) == RemoveStrays(s, folder)
  {
    assert items[..|items|] == items;
    forall p | p in s.files && Stray(p, folder)
      ensures p in items
    {
      assert p in Children(s, folder);
    }
  }

  /** The second loop of `reset_folder`: unlinks every regular file whose name
      is not a sample name. */
  method DeleteStrays(fs: FileSystem, folder: Path)
    requires fs.Valid() && fs.PathIsDir(folder)
    modifies fs
    ensures fs.Valid() && fs.PathIsDir(folder)
    ensures fs.State() == RemoveStrays(old(fs.State()), folder)
  {
    ghost var s0 := fs.State();
    var items := fs.IterDir(folder);
    var i := 0;
    while i < |items|
      invariant 0 <= i <= |items|
      invariant fs.Valid() && fs.PathIsDir(folder)
      invariant fs.State() == Unlinked(s0, folder, items[..i])
    {
      var item := items[i];
      StrayStep(s0, folder, items, i);
      if fs.PathIsFile(item) && Name(item) !in SampleFiles {
        fs.Unlink(item);
      }
      i := i + 1;
    }
    StraysListed(s0, folder, items);
  }

  /** The third loop of `reset_folder`: touches each name of `names` (the
      sample list) that does not exist. */
  method CreateSamples(fs: FileSystem, folder: Path, names: seq<string>, now: CalendarDate)
    requires fs.Valid() && fs.PathIsDir(folder)
    modifies fs
    ensures fs.Valid()
    ensures fs.State() == AddSamples(old(fs.State()), folder, names, now)
  {
    ghost var s0 := fs.State();
    var i := 0;
    while i < |names|
      invariant 0 <= i <= |names|
      invariant fs.Valid() && fs.PathIsDir(folder)
      invariant AddSamples(s0, folder, names, now) == AddSamples(fs.State(), folder, names[i..], now)
    {
      var p := folder + [names[i]];
      assert names[i..][1..] == names[i + 1..];
      assert Parent(p) == folder;
      if !fs.PathExists(p) {
        fs.Touch(p, now);
      }
      i := i + 1;
    }
  }

  /** `reset_folder`: creates the folder if needed, removes its subfolders,
      unlinks stray files and touches the missing samples. Returns false when
      `mkdir` or `iterdir` raised. */
  method ResetFolder(fs: FileSystem, folder: Path, now: CalendarDate) returns (ok: bool)
    requires fs.Valid()
    modifies fs
    ensures fs.Valid()
    ensures Reset(old(fs.State()), folder, now) == if ok then Some(fs.State()) else None
    ensures !ok ==> fs.State() == old(fs.State())
  {
    MkdirsFacts(fs.State(), folder);
    if !fs.PathExists(folder) {
      ok := fs.Mkdir(folder);
      if !ok {
        return;
      }
    }
    if !fs.PathIsDir(folder) {
      return false;
    }
    DeleteSubfolders(fs, folder);
    DeleteStrays(fs, folder);
    CreateSamples(fs, folder, SampleFiles, now);
    ok := true;
  }

  // ---------------------------------------------------------------------------
  // What a reset leaves behind

  /** The paths of the sample files in `folder`. */
  function SamplePaths(folder: Path): set<Path> {
    set n | n in SampleFiles :: folder + [n]
  }

  /** Pruning child directories keeps a tree well-formed: whatever lies under a
      removed directory is removed with it. */
  lemma PrunedWellFormed(s: Fs, folder: Path, cut: set<Path>)
    requires WellFormed(s)
    ensures WellFormed(Pruned(s, folder, cut))
  {
    var a := Pruned(s, folder, cut);
    forall p | p in a.files || p in a.dirs
      ensures IsDir(a, Parent(p))
    {
      var q := Parent(p);
      if q != [] && |q| > |folder| {
        assert q[..|folder| + 1] == p[..|folder| + 1];
      }
    }
  }

  /** After stage one nothing inside the folder is a directory or lies deeper
      than its direct entries, and the tree is still well-formed. */
  lemma RemoveSubfoldersFacts(s: Fs, folder: Path)
    requires WellFormed(s) && IsDir(s, folder)
    ensures var a := RemoveSubfolders(s, folder);
      && WellFormed(a) && IsDir(a, folder)
      && (forall p :: Inside(p, folder) && Exists(a, p) ==> IsChild(p, folder) && p in a.files)
  {
    var cut := ChildDirs(s, folder);
    var a := RemoveSubfolders(s, folder);
    PrunedWellFormed(s, folder, cut);
    forall p | Inside(p, folder) && p in Occupied(s) && |p| > |folder| + 1
      ensures p !in a.files && p !in a.dirs
    {
      var c := p[..|folder| + 1];
      assert c[..|folder|] == folder;
      AncestorIsDir(s, p, |folder| + 1);
      assert c in cut;
    }
    forall p | p in s.dirs && IsChild(p, folder)
      ensures p !in a.dirs
    {
      assert p[..|folder| + 1] == p;
    }
  }

  /** Stage one keeps the folder's direct files and everything outside the
      folder, with their contents. */
  lemma RemoveSubfoldersKeeps(s: Fs, folder: Path)
    requires WellFormed(s)
    ensures var a := RemoveSubfolders(s, folder);
      && (forall p :: p in s.files && IsChild(p, folder) ==> p in a.files)
      && (forall p :: p in a.files ==> p in s.files && a.files[p] == s.files[p])
      && (forall p :: !Inside(p, folder) ==> (p in a.files <==> p in s.files) && (p in a.dirs <==> p in s.dirs))
  {
    forall p | p in s.files && IsChild(p, folder)
      ensures p[..|folder| + 1] == p
    {
    }
  }

  /** After stage two the folder's direct files all carry sample names. */
  lemma RemoveStraysFacts(a: Fs, folder: Path)
    requires WellFormed(a) && IsDir(a, folder)
    ensures var b := RemoveStrays(a, folder);
      && WellFormed(b) && IsDir(b, folder) && b.dirs == a.dirs
      && (forall p :: p in b.files ==> p in a.files && b.files[p] == a.files[p])
      && (forall p :: p in a.files && !Stray(p, folder) ==> p in b.files)
      && (forall p :: p in b.files && IsChild(p, folder) ==> Name(p) in SampleFiles)
  {
  }

  /** Stage three only adds empty files dated `now` directly in the folder,
      one for each listed name that did not exist, and keeps everything else. */
  lemma {:induction false} AddSamplesFacts(b: Fs, folder: Path, names: seq<string>, now: CalendarDate)
    requires WellFormed(b) && IsDir(b, folder)
    ensures var c := AddSamples(b, folder, names, now);
      && WellFormed(c) && c.dirs == b.dirs
      && (forall p :: p in b.files ==> p in c.files && c.files[p] == b.files[p])
      && (forall p :: p in c.files && p !in b.files ==>
            c.files[p] == Entry([], now) && IsChild(p, folder) && Name(p) in names)
      && (forall n :: n in names && folder + [n] !in b.dirs ==> folder + [n] in c.files)
    decreases |names|
  {
    if names != [] {
      var b1 := TouchFacts(b, folder, names[0], now);
      AddSamplesFacts(b1, folder, names[1..], now);
      assert names == [names[0]] + names[1..];
    }
  }

  /** One step of stage three: touching `folder/n` when nothing is there. */
  lemma TouchFacts(b: Fs, folder: Path, n: string, now: CalendarDate) returns (b1: Fs)
    requires WellFormed(b) && IsDir(b, folder)
    ensures var p := folder + [n];
      b1 == if Exists(b, p) then b else Fs(b.files[p := Entry([], now)], b.dirs)
    ensures WellFormed(b1) && IsDir(b1, folder) && b1.dirs == b.dirs
    ensures forall p :: p in b.files ==> p in b1.files && b1.files[p] == b.files[p]
    ensures forall p :: p in b1.files && p !in b.files ==>
              p == folder + [n] && b1.files[p] == Entry([], now) && IsChild(p, folder)
    ensures folder + [n] !in b.dirs ==> folder + [n] in b1.files
  {
    var p := folder + [n];
    assert p[..|folder|] == folder && Parent(p) == folder;
    b1 := if Exists(b, p) then b else Fs(b.files[p := Entry([], now)], b.dirs);
  }

  /** `reset_folder` raises exactly when a regular file sits at the folder's
      path or at one of its ancestors. */
  lemma ResetFailsIff(s: Fs, folder: Path, now: CalendarDate)
    requires WellFormed(s)
    ensures Reset(s, folder, now).None? <==> BlockedByFile(s, folder)
  {
    MkdirsFacts(s, folder);
    if IsDir(s, folder) {
      forall k | 1 <= k <= |folder|
        ensures folder[..k] !in s.files
      {
        if k < |folder| {
          AncestorIsDir(s, folder, k);
        } else {
          assert folder[..k] == folder;
        }
      }
    }
    if folder in s.files {
      assert folder[..|folder|] == folder;
    }
  }

  /** The state the three stages of a reset start from. */
  lemma ResetStart(s: Fs, folder: Path, now: CalendarDate) returns (s0: Fs)
    requires WellFormed(s) && Reset(s, folder, now).Some?
    ensures WellFormed(s0) && IsDir(s0, folder)
    ensures s0.files == s.files && s.dirs <= s0.dirs
    ensures Reset(s, folder, now)
         == Some(AddSamples(RemoveStrays(RemoveSubfolders(s0, folder), folder), folder, SampleFiles, now))
  {
    MkdirsFacts(s, folder);
    s0 := if Exists(s, folder) then s else Mkdirs(s, folder).value;
  }

  lemma ChildIsFolderPlusName(p: Path, folder: Path)
    requires IsChild(p, folder)
    ensures p == folder + [Name(p)]
  {
    assert p == p[..|folder|] + [p[|folder|]];
  }

  /** After a reset the folder holds exactly the five sample files and nothing
      else, at any depth, and the tree is well-formed. */
  lemma ResetLeavesExactlySamples(s: Fs, folder: Path, now: CalendarDate)
    requires WellFormed(s) && Reset(s, folder, now).Some?
    ensures var r := Reset(s, folder, now).value;
      && WellFormed(r) && IsDir(r, folder)
      && SamplePaths(folder) <= r.files.Keys
      && forall p :: Inside(p, folder) ==> (Exists(r, p) <==> p in SamplePaths(folder))
  {
    var s0 := ResetStart(s, folder, now);
    StagesLeaveSamples(s0, folder, now);
    var r := Reset(s, folder, now).value;
    forall p | Inside(p, folder) && Exists(r, p)
      ensures p in SamplePaths(folder)
    {
      ChildIsFolderPlusName(p, folder);
    }
    forall p | p in SamplePaths(folder)
      ensures p in r.files && Inside(p, folder)
    {
      var n :| n in SampleFiles && p == folder + [n];
      assert p[..|folder|] == folder;
    }
  }

  /** The three stages run on an existing folder leave in it only direct files
      with sample names, and every sample name present. */
  lemma StagesLeaveSamples(s0: Fs, folder: Path, now: CalendarDate)
    requires WellFormed(s0) && IsDir(s0, folder)
    ensures var r := AddSamples(RemoveStrays(RemoveSubfolders(s0, folder), folder), folder, SampleFiles, now);
      && WellFormed(r) && IsDir(r, folder)
      && (forall p :: Inside(p, folder) && Exists(r, p) ==> IsChild(p, folder) && p in r.files && Name(p) in SampleFiles)
      && (forall n :: n in SampleFiles ==> folder + [n] in r.files)
  {
    var a := RemoveSubfolders(s0, folder);
    var b := RemoveStrays(a, folder);
    RemoveSubfoldersFacts(s0, folder);
    RemoveStraysFacts(a, folder);
    AddSamplesFacts(b, folder, SampleFiles, now);
    var r := AddSamples(b, folder, SampleFiles, now);
    forall p | Inside(p, folder) && Exists(r, p)
      ensures IsChild(p, folder) && p in r.files && Name(p) in SampleFiles
    {
      assert p != [];
      if p in r.dirs {
        assert Exists(a, p) && p in a.dirs;
        assert false;
      }
      if p in b.files {
        assert p in a.files && !Stray(p, folder);
      }
    }
    forall n | n in SampleFiles
      ensures folder + [n] !in b.dirs
    {
      var p := folder + [n];
      assert p[..|folder|] == folder;
      assert Inside(p, folder);
    }
  }

  /** A sample file that already existed keeps its content and date; a missing
      one is created empty, dated `now`. */
  lemma ResetSampleContents(s: Fs, folder: Path, now: CalendarDate)
    requires WellFormed(s) && Reset(s, folder, now).Some?
    ensures var r := Reset(s, folder, now).value;
      forall p :: p in SamplePaths(folder) ==>
        p in r.files && r.files[p] == if p in s.files then s.files[p] else Entry([], now)
  {
    var s0 := ResetStart(s, folder, now);
    var a := RemoveSubfolders(s0, folder);
    var b := RemoveStrays(a, folder);
    RemoveSubfoldersFacts(s0, folder);
    RemoveSubfoldersKeeps(s0, folder);
    RemoveStraysFacts(a, folder);
    AddSamplesFacts(b, folder, SampleFiles, now);
    ResetLeavesExactlySamples(s, folder, now);
    forall p | p in SamplePaths(folder) && p in s.files
      ensures p in b.files
    {
      var n :| n in SampleFiles && p == folder + [n];
      assert p[..|folder|] == folder;
    }
  }

  /** Nothing outside the folder changes, except that `mkdir` may have created
      the folder and its missing ancestors: files outside keep their paths and
      contents, and no directory outside disappears. */
  lemma ResetOutsideUnchanged(s: Fs, folder: Path, now: CalendarDate)
    requires WellFormed(s) && Reset(s, folder, now).Some?
    ensures var r := Reset(s, folder, now).value;
      && (forall p :: !Inside(p, folder) ==> (p in r.files <==> p in s.files))
      && (forall p :: !Inside(p, folder) && p in s.files ==> r.files[p] == s.files[p])
      && (forall p :: !Inside(p, folder) && p in s.dirs ==> p in r.dirs)
  {
    var s0 := ResetStart(s, folder, now);
    var a := RemoveSubfolders(s0, folder);
    var b := RemoveStrays(a, folder);
    RemoveSubfoldersFacts(s0, folder);
    RemoveSubfoldersKeeps(s0, folder);
    RemoveStraysFacts(a, folder);
    AddSamplesFacts(b, folder, SampleFiles, now);
  }

  /** Pruning nothing changes nothing. */
  lemma PrunedNothing(s: Fs, folder: Path)
    ensures Pruned(s, folder, {}) == s
  {
    assert Pruned(s, folder, {}).files == s.files;
  }

  /** Touching names that all exist already changes nothing. */
  lemma {:induction false} AddSamplesExisting(s: Fs, folder: Path, names: seq<string>, now: CalendarDate)
    requires forall n :: n in names ==> Exists(s, folder + [n])
    ensures AddSamples(s, folder, names, now) == s
    decreases |names|
  {
    if names != [] {
      assert forall n :: n in names[1..] ==> n in names;
      AddSamplesExisting(s, folder, names[1..], now);
    }
  }

  /** The folder is a directory holding exactly the sample files. */
  ghost predicate HoldsExactlySamples(r: Fs, folder: Path) {
    && IsDir(r, folder)
    && SamplePaths(folder) <= r.files.Keys
    && forall p :: Inside(p, folder) ==> (Exists(r, p) <==> p in SamplePaths(folder))
  }

  lemma NoSubfoldersToRemove(r: Fs, folder: Path)
    requires WellFormed(r) && HoldsExactlySamples(r, folder)
    ensures RemoveSubfolders(r, folder) == r
  {
    forall d | d in r.dirs && IsChild(d, folder)
      ensures d in r.files
    {
      assert Inside(d, folder);
    }
    assert ChildDirs(r, folder) == {};
    PrunedNothing(r, folder);
  }

  lemma NoStraysToRemove(r: Fs, folder: Path)
    requires HoldsExactlySamples(r, folder)
    ensures RemoveStrays(r, folder) == r
  {
    forall p | p in r.files && IsChild(p, folder)
      ensures !Stray(p, folder)
    {
      assert Inside(p, folder);
      ChildIsFolderPlusName(p, folder);
    }
    assert RemoveStrays(r, folder).files == r.files;
  }

  /** Resetting a folder that holds exactly the samples changes nothing. */
  lemma ResetOfReset(r: Fs, folder: Path, later: CalendarDate)
    requires WellFormed(r) && HoldsExactlySamples(r, folder)
    ensures Reset(r, folder, later) == Some(r)
  {
    NoSubfoldersToRemove(r, folder);
    NoStraysToRemove(r, folder);
    forall n | n in SampleFiles
      ensures Exists(r, folder + [n])
    {
      assert folder + [n] in SamplePaths(folder);
    }
    AddSamplesExisting(r, folder, SampleFiles, later);
  }

  /** Resetting a folder that was just reset changes nothing, whatever the
      time: all samples exist, so none is touched again. */
  lemma ResetIdempotent(s: Fs, folder: Path, now: CalendarDate, later: CalendarDate)
    requires WellFormed(s) && Reset(s, folder, now).Some?
    ensures Reset(Reset(s, folder, now).value, folder, later) == Reset(s, folder, now)
  {
    ResetLeavesExactlySamples(s, folder, now);
    ResetOfReset(Reset(s, folder, now).value, folder, later);
  }

  // ---------------------------------------------------------------------------
  // main

  /** The parsed command line: `--source`, `--destination` (absent or empty),
      `--mode`, `--dry-run`, `--reset`. */
  datatype Args = Args(source: Path, destination: Option<Path>, mode: Mode, dryRun: bool, reset: bool)

  /** How `main` ends: normally, with the "not a valid folder" message, or by
      an exception raised from `mkdir` or `iterdir`. */
  datatype Status = Done | InvalidSource | Raised

  /** The destination defaults to the source. */
  function Destination(args: Args): Path {
    match args.destination
    case None => args.source
    case Some(d) => d
  }

  /** `main`: resets the source when asked; otherwise checks that the source is
      a directory and organizes it into the destination by the chosen mode. */
  method RunCli(fs: FileSystem, args: Args, now: CalendarDate) returns (status: Status, visited: seq<Path>)
    requires fs.Valid()
    modifies fs
    ensures fs.Valid()
    ensures args.reset ==>
      && visited == [] && status != InvalidSource
      && (status == Raised ==> fs.State() == old(fs.State()))
      && Reset(old(fs.State()), args.source, now) == if status == Done then Some(fs.State()) else None
    ensures !args.reset && !IsDir(old(fs.State()), args.source) ==>
      status == InvalidSource && fs.State() == old(fs.State())
    ensures !args.reset && IsDir(old(fs.State()), args.source) ==>
      && status != InvalidSource
      && Enumerates(visited, Children(old(fs.State()), args.source))
      && Organize(old(fs.State()), visited, Destination(args), args.mode, args.dryRun)
         == Outcome(fs.State(), status == Done)
  {
    visited := [];
    if args.reset {
      var ok := ResetFolder(fs, args.source, now);
      status := if ok then Done else Raised;
      return;
    }
    if !fs.PathExists(args.source) || !fs.PathIsDir(args.source) {
      status := InvalidSource;
      return;
    }
    var completed;
    visited, completed := OrganizeFolder(fs, args.source, Destination(args), args.mode, args.dryRun);
    status := if completed then Done else Raised;
  }
}
