/** The POSIX `os.path` functions the CSV cleaner derives its default paths
    with: `split`, `dirname`, `splitext` and `join`, on plain strings. */
module PosixPath {
  import opened PyStr

  predicate AllSlashes(s: string) {
    forall k :: 0 <= k < |s| ==> s[k] == '/'
  }

  /** The string with its trailing slashes removed. */
  function RStripSlashes(s: string): (r: string)
    ensures |r| <= |s| && r == s[..|r|]
    ensures r == [] || r[|r| - 1] != '/'
    ensures forall k :: |r| <= k < |s| ==> s[k] == '/'
  {
    if s != [] && s[|s| - 1] == '/' then RStripSlashes(s[..|s| - 1]) else s
  }

  /** `os.path.split(p)`: everything after the last slash is the tail; the
      head loses its trailing slashes unless it consists of slashes only. */
  function Split(p: string): (string, string) {
    var i := RFind(p, '/') + 1;
    var head, tail := p[..i], p[i..];
    if head != [] && !AllSlashes(head) then (RStripSlashes(head), tail) else (head, tail)
  }

  /** The tail of a split contains no slash and ends the path. */
  lemma SplitTail(p: string)
    ensures var tail := Split(p).1;
      && '/' !in tail && |tail| <= |p| && tail == p[|p| - |tail|..]
  {
  }

  /** `os.path.dirname(p)`. */
  function Dirname(p: string): string {
    Split(p).0
  }

  /** `os.path.basename(p)`. */
  function Basename(p: string): string {
    Split(p).1
  }

  /** There is a character other than a dot in `p[from..to]`. */
  predicate NonDotBetween(p: string, from: int, to: int)
    requires 0 <= from && to <= |p|
  {
    exists k :: from <= k < to && p[k] != '.'
  }

  /** `os.path.splitext(p)`: the extension starts at the last dot of the last
      component, unless that component has only dots before it (leading dots
      do not start an extension). */
  function Splitext(p: string): (string, string) {
    var sep := RFind(p, '/');
    var dot := RFind(p, '.');
    if dot > sep && NonDotBetween(p, sep + 1, dot) then (p[..dot], p[dot..]) else (p, "")
  }

  /** The two parts of `splitext` give the path back, and a non-empty
      extension is a dot followed by characters that are neither dots nor
      slashes. */
  lemma SplitextParts(p: string)
    ensures var (root, ext) := Splitext(p);
      && root + ext == p
      && (ext == "" || (ext[0] == '.' && '.' !in ext[1..] && '/' !in ext))
  {
    var (root, ext) := Splitext(p);
    if ext != "" {
      assert ext == [ext[0]] + ext[1..];
    }
  }

  /** `os.path.join(a, b)` for two components. */
  function Join(a: string, b: string): string {
    if |b| > 0 && b[0] == '/' then b
    else if a == "" || a[|a| - 1] == '/' then a + b
    else a + "/" + b
  }

  /** Joining a slash-free name to a directory and splitting again gives back
      the name as the tail. */
  lemma SplitJoinTail(a: string, b: string)
    requires '/' !in b
    ensures Split(Join(a, b)).1 == b
  {
    var j := Join(a, b);
    var i := RFind(j, '/') + 1;
    assert j[|j| - |b|..] == b;
    assert i == |j| - |b| by {
      if a != "" {
        assert j[|j| - |b| - 1] == '/';
      }
    }
  }

  /** Joining a slash-free name to a directory `d` obtained from `split`
      (so `d` has no trailing slash unless it is all slashes) and taking the
      directory again gives `d` back. */
  lemma SplitJoinHead(d: string, b: string)
    requires '/' !in b
    requires d == [] || AllSlashes(d) || d[|d| - 1] != '/'
    ensures Split(Join(d, b)).0 == d
  {
    var j := Join(d, b);
    SplitJoinTail(d, b);
    var i := RFind(j, '/') + 1;
    if d != "" && !AllSlashes(d) {
      assert j == d + "/" + b;
      assert j[..i] == d + "/";
      assert (d + "/")[..|d|] == d;
    } else if d != "" {
      assert j == d + b;
      assert j[..i] == d;
    }
  }

  /** Joining a non-empty slash-free name to a directory obtained from `split`
      gives a path that does not end in a slash and splits back into the
      two. */
  lemma SplitJoin(d: string, b: string)
    requires b != [] && '/' !in b
    requires d == [] || AllSlashes(d) || d[|d| - 1] != '/'
    ensures var j := Join(d, b);
      j != [] && j[|j| - 1] != '/' && Split(j) == (d, b)
  {
    SplitJoinTail(d, b);
    SplitJoinHead(d, b);
    JoinEndsWith(d, b);
  }

  /** The directory `split` returns has no trailing slash unless it consists of
      slashes only. */
  lemma SplitHeadShape(p: string)
    ensures var d := Split(p).0; d == [] || AllSlashes(d) || d[|d| - 1] != '/'
  {
  }

  /** Appending slash-free text does not move the last slash. */
  lemma {:induction false} RFindAppend(a: string, b: string, c: char)
    requires c !in b
    ensures RFind(a + b, c) == RFind(a, c)
  {
    if b != [] {
      var b' := b[..|b| - 1];
      assert (a + b)[..|a + b| - 1] == a + b';
      RFindAppend(a, b', c);
    } else {
      assert a + b == a;
    }
  }

  /** Appending slash-free text to a path keeps its directory and extends its
      last component. */
  lemma SplitAppend(a: string, b: string)
    requires '/' !in b
    ensures Split(a + b).0 == Split(a).0
    ensures Split(a + b).1 == Split(a).1 + b
  {
    RFindAppend(a, b, '/');
    var i := RFind(a, '/') + 1;
    assert (a + b)[..i] == a[..i];
    assert (a + b)[i..] == a[i..] + b;
  }

  /** A slash-free name without a leading slash ends the joined path. */
  lemma JoinEndsWith(a: string, b: string)
    requires b != [] && b[0] != '/'
    ensures var j := Join(a, b); |b| <= |j| && j[|j| - |b|..] == b
  {
  }

  /** `dirname` is empty exactly for a path without a slash (so
      `os.makedirs(dirname(p))` raises exactly then). */
  lemma DirnameEmptyIff(p: string)
    ensures Dirname(p) == "" <==> '/' !in p
  {
    var i := RFind(p, '/') + 1;
    var head := p[..i];
    if '/' in p {
      var k :| 0 <= k < |p| && p[k] == '/';
      assert i > 0;
      if !AllSlashes(head) {
        var m :| 0 <= m < |head| && head[m] != '/';
        var r := RStripSlashes(head);
        assert m < |r|;
      }
    }
  }
}
