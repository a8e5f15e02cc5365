/** The pandas `DataFrame` both CSV cleaners work on: column names, the dtype
    of each column and the rows, with the column-at-a-time rewrites of the
    cleaning steps, `drop_duplicates` and the fixed-width text table. */
module CsvFrame {
  import opened Wrappers
  import opened PyStr
  import opened CsvRules

  /** The two dtypes the cleaners distinguish: `object` (text) and numeric. */
  datatype Kind = Text | Numeric

  /** Column names, one dtype per column, and the rows (one cell per column). */
  datatype Frame = Frame(names: seq<string>, kinds: seq<Kind>, rows: seq<seq<Cell>>)

  predicate WellFormed(f: Frame) {
    && |f.kinds| == |f.names|
    && forall i :: 0 <= i < |f.rows| ==> |f.rows[i]| == |f.names|
  }

  /** `df[col]` for the column at position `j`. */
  function Column(f: Frame, j: nat): (col: seq<Cell>)
    requires WellFormed(f) && j < |f.names|
    ensures |col| == |f.rows| && forall i :: 0 <= i < |f.rows| ==> col[i] == f.rows[i][j]
  {
    seq(|f.rows|, i requires 0 <= i < |f.rows| => f.rows[i][j])
  }

  // ---------------------------------------------------------------------------
  // Column-at-a-time rewrites: `for col in df.select_dtypes(...): df[col] = ...`

  /** One row after the columns `j < n` that `pick` selects have been rewritten
      by `g`. */
  function MapRow(row: seq<Cell>, pick: nat -> bool, g: (nat, Cell) -> Cell, n: nat): (r: seq<Cell>)
    ensures |r| == |row|
  {
    seq(|row|, j requires 0 <= j < |row| => if j < n && pick(j) then g(j, row[j]) else row[j])
  }

  /** The frame after the loop over the columns has handled the first `n`
      columns: a selected column gets dtype `kind` and each of its cells is
      rewritten by `g`; nothing else changes. */
  function MapColumns(f: Frame, pick: nat -> bool, kind: Kind, g: (nat, Cell) -> Cell, n: nat): (r: Frame)
    requires WellFormed(f)
    ensures WellFormed(r) && r.names == f.names && |r.rows| == |f.rows|
  {
    Frame(f.names,
          seq(|f.kinds|, j requires 0 <= j < |f.kinds| => if j < n && pick(j) then kind else f.kinds[j]),
          seq(|f.rows|, i requires 0 <= i < |f.rows| => MapRow(f.rows[i], pick, g, n)))
  }

  /** `df[col] = g(df[col])` for the single column `j`, with its new dtype. */
  function SetColumn(f: Frame, j: nat, kind: Kind, g: (nat, Cell) -> Cell): (r: Frame)
    requires WellFormed(f) && j < |f.names|
    ensures WellFormed(r)
  {
    Frame(f.names, f.kinds[j := kind],
          seq(|f.rows|, i requires 0 <= i < |f.rows| => f.rows[i][j := g(j, f.rows[i][j])]))
  }

  /** Handling one more column is a `SetColumn` on that column when it is
      selected, and nothing otherwise. */
  lemma MapColumnsStep(f: Frame, pick: nat -> bool, kind: Kind, g: (nat, Cell) -> Cell, j: nat)
    requires WellFormed(f) && j < |f.names|
    ensures var m := MapColumns(f, pick, kind, g, j);
      MapColumns(f, pick, kind, g, j + 1) == if pick(j) then SetColumn(m, j, kind, g) else m
  {
    var m := MapColumns(f, pick, kind, g, j);
    var m1 := MapColumns(f, pick, kind, g, j + 1);
    if pick(j) {
      var s := SetColumn(m, j, kind, g);
      assert m1.kinds == s.kinds;
      forall i | 0 <= i < |f.rows|
        ensures m1.rows[i] == s.rows[i]
      {
        assert m.rows[i][j] == f.rows[i][j];
      }
    } else {
      assert m1.kinds == m.kinds;
      forall i | 0 <= i < |f.rows|
        ensures m1.rows[i] == m.rows[i]
      {
      }
    }
  }

  /** When no column below `n` is selected (in particular when `n` is 0) the
      frame is unchanged. */
  lemma MapColumnsNone(f: Frame, pick: nat -> bool, kind: Kind, g: (nat, Cell) -> Cell, n: nat)
    requires WellFormed(f)
    requires forall j: nat :: j < n ==> !pick(j)
    ensures MapColumns(f, pick, kind, g, n) == f
  {
    var m := MapColumns(f, pick, kind, g, n);
    assert m.kinds == f.kinds;
    forall i | 0 <= i < |f.rows|
      ensures m.rows[i] == f.rows[i]
    {
    }
  }

  /** The cells of a rewritten frame: a selected column holds `g` of the old
      cells, every other cell is the old one. */
  lemma MapColumnsCells(f: Frame, pick: nat -> bool, kind: Kind, g: (nat, Cell) -> Cell, n: nat)
    requires WellFormed(f)
    ensures var r := MapColumns(f, pick, kind, g, n);
      forall i, j :: 0 <= i < |f.rows| && 0 <= j < |f.names| ==>
        r.rows[i][j] == if j < n && pick(j) then g(j, f.rows[i][j]) else f.rows[i][j]
  {
  }

  // ---------------------------------------------------------------------------
  // The cleaning steps, as functions of the frame

  /** `normalize_column_names`: every name normalised, in place. */
  function NormalizedNames(names: seq<string>): (r: seq<string>)
    ensures |r| == |names|
  {
    seq(|names|, j requires 0 <= j < |names| => NormalizeName(names[j]))
  }

  /** `auto_detect_numeric`: each text column that passes the threshold is
      replaced by its `to_numeric(errors='coerce')` conversion. */
  function DetectNumeric(f: Frame, toNumber: string -> Option<real>): Frame
    requires WellFormed(f)
  {
    MapColumns(f, (j: nat) => Detects(f, j, toNumber), Numeric, (j: nat, c: Cell) => Coerce(c, toNumber), |f.names|)
  }

  /** The column at `j` is a text column that the threshold converts. */
  predicate Detects(f: Frame, j: nat, toNumber: string -> Option<real>)
    requires WellFormed(f)
  {
    j < |f.names| && f.kinds[j] == Text && Converts(Column(f, j), toNumber)
  }

  /** The columns the loops over `select_dtypes(include=[kind])` visit. */
  function OfKind(f: Frame, kind: Kind): nat -> bool {
    (j: nat) => j < |f.kinds| && f.kinds[j] == kind
  }

  /** `fill_strings` in src/cleaner.py: fill, then strip, every text column. */
  function FillStrings(f: Frame, fill: string): Frame
    requires WellFormed(f)
  {
    MapColumns(f, OfKind(f, Text), Text, (j: nat, c: Cell) => FillThenStrip(c, fill), |f.names|)
  }

  /** The loop of cleaner.py: strip, then fill, every text column. */
  function StripFillStrings(f: Frame, fill: string): Frame
    requires WellFormed(f)
  {
    MapColumns(f, OfKind(f, Text), Text, (j: nat, c: Cell) => StripThenFill(c, fill), |f.names|)
  }

  /** The `--fill-numbers` choices. */
  datatype NumberFill = MeanFill | ZeroFill | NoFill

  /** The value `fillna` receives for the numeric column `j`: its mean (NaN,
      so nothing changes, when the column holds no number) or zero. */
  function FillValue(f: Frame, j: nat, mode: NumberFill): Option<real>
    requires WellFormed(f)
  {
    match mode
    case ZeroFill => Some(0.0)
    case MeanFill => if j < |f.names| then Mean(Column(f, j)) else None
    case NoFill => None
  }

  /** `fill_numbers`' `fillna` on every numeric column. */
  function FillNumbers(f: Frame, mode: NumberFill): Frame
    requires WellFormed(f)
  {
    MapColumns(f, OfKind(f, Numeric), Numeric,
               (j: nat, c: Cell) => match FillValue(f, j, mode) case Some(v) => FillNumber(c, v) case None => c,
               |f.names|)
  }

  // ---------------------------------------------------------------------------
  // What each step guarantees

  /** Normalising keeps the number of columns and their order, normalises each
      name, and a second pass changes nothing. */
  lemma NormalizedNamesFacts(names: seq<string>)
    ensures var r := NormalizedNames(names);
      && (forall j :: 0 <= j < |r| ==> r[j] == NormalizeName(names[j]))
      && NormalizedNames(r) == r
  {
    var r := NormalizedNames(names);
    forall j | 0 <= j < |r|
      ensures NormalizedNames(r)[j] == r[j]
    {
      NormalizeNameIdempotent(names[j]);
    }
  }

  /** The source's test frame with columns `" Name "` and `" Age "` ends up
      with columns `"name"` and `"age"`. */
  lemma NormalizedNamesExample()
    ensures NormalizedNames([" " + "Name" + " ", " " + "Age" + " "]) == ["name", "age"]
  {
    NormalizeNameExamples();
  }

  /** After detection a column is numeric exactly when it was numeric or was a
      text column that passes the threshold; a converted column holds only
      numbers and NaN, each number parsed from the old cell, and every other
      column is untouched. */
  lemma DetectNumericFacts(f: Frame, toNumber: string -> Option<real>)
    requires WellFormed(f)
    ensures var r := DetectNumeric(f, toNumber);
      && WellFormed(r) && r.names == f.names && |r.rows| == |f.rows|
      && (forall j :: 0 <= j < |f.names| ==>
            (r.kinds[j] == Numeric <==> f.kinds[j] == Numeric || Detects(f, j, toNumber)))
      && (forall i, j :: 0 <= i < |f.rows| && 0 <= j < |f.names| ==>
            if Detects(f, j, toNumber)
            then !r.rows[i][j].Str?
                 && (r.rows[i][j].Num? ==> f.rows[i][j].Num? || (f.rows[i][j].Str? && toNumber(f.rows[i][j].text) == Some(r.rows[i][j].value)))
            else r.rows[i][j] == f.rows[i][j])
  {
    MapColumnsCells(f, (j: nat) => Detects(f, j, toNumber), Numeric, (j: nat, c: Cell) => Coerce(c, toNumber), |f.names|);
  }

  /** Detection is idempotent: a converted column is no longer a text column,
      and a text column that failed the threshold still fails it. */
  lemma DetectNumericIdempotent(f: Frame, toNumber: string -> Option<real>)
    requires WellFormed(f)
    ensures DetectNumeric(DetectNumeric(f, toNumber), toNumber) == DetectNumeric(f, toNumber)
  {
    var r := DetectNumeric(f, toNumber);
    DetectNumericFacts(f, toNumber);
    forall j: nat | j < |r.names|
      ensures !Detects(r, j, toNumber)
    {
      if !Detects(f, j, toNumber) && r.kinds[j] == Text {
        assert Column(r, j) == Column(f, j);
      }
    }
    MapColumnsNone(r, (j: nat) => Detects(r, j, toNumber), Numeric, (j: nat, c: Cell) => Coerce(c, toNumber), |r.names|);
  }

  /** After `fill_strings` no text column holds NaN, every string in it is
      stripped, a missing or blank cell holds the stripped fill value, and the
      numeric columns and all dtypes are unchanged. */
  lemma FillStringsFacts(f: Frame, fill: string)
    requires WellFormed(f)
    ensures var r := FillStrings(f, fill);
      && WellFormed(r) && r.names == f.names && r.kinds == f.kinds && |r.rows| == |f.rows|
      && (forall i, j :: 0 <= i < |f.rows| && 0 <= j < |f.names| ==>
            if f.kinds[j] == Text
            then !r.rows[i][j].NaN?
                 && (r.rows[i][j].Str? ==> Stripped(r.rows[i][j].text))
                 && ((f.rows[i][j].NaN? || (f.rows[i][j].Str? && IsBlank(f.rows[i][j].text))) ==> r.rows[i][j] == Str(Strip(fill)))
            else r.rows[i][j] == f.rows[i][j])
  {
    var r := FillStrings(f, fill);
    MapColumnsCells(f, OfKind(f, Text), Text, (j: nat, c: Cell) => FillThenStrip(c, fill), |f.names|);
    assert r.kinds == f.kinds;
    forall i, j | 0 <= i < |f.rows| && 0 <= j < |f.names| && f.kinds[j] == Text && !f.rows[i][j].Num?
      ensures r.rows[i][j].Str? && Stripped(r.rows[i][j].text)
    {
      FillThenStripFacts(f.rows[i][j], fill);
    }
  }

  /** After the strip-then-fill loop no text column holds NaN, and when the
      fill value is not itself blank no text cell is blank. */
  lemma StripFillStringsFacts(f: Frame, fill: string)
    requires WellFormed(f)
    ensures var r := StripFillStrings(f, fill);
      && WellFormed(r) && r.names == f.names && r.kinds == f.kinds && |r.rows| == |f.rows|
      && (forall i, j :: 0 <= i < |f.rows| && 0 <= j < |f.names| ==>
            if f.kinds[j] == Text
            then !r.rows[i][j].NaN?
                 && (r.rows[i][j].Str? && !IsBlank(fill) ==> !IsBlank(r.rows[i][j].text))
            else r.rows[i][j] == f.rows[i][j])
  {
    var r := StripFillStrings(f, fill);
    MapColumnsCells(f, OfKind(f, Text), Text, (j: nat, c: Cell) => StripThenFill(c, fill), |f.names|);
    assert r.kinds == f.kinds;
    forall i, j | 0 <= i < |f.rows| && 0 <= j < |f.names| && f.kinds[j] == Text && !f.rows[i][j].Num?
      ensures r.rows[i][j].Str? && (!IsBlank(fill) ==> !IsBlank(r.rows[i][j].text))
    {
      StripThenFillFacts(f.rows[i][j], fill);
    }
  }

  /** Zero filling leaves no NaN in a numeric column, turns each NaN into 0,
      keeps every other cell, and does not touch the text columns. */
  lemma ZeroFillFacts(f: Frame)
    requires WellFormed(f)
    ensures var r := FillNumbers(f, ZeroFill);
      && WellFormed(r) && r.names == f.names && r.kinds == f.kinds && |r.rows| == |f.rows|
      && (forall i, j :: 0 <= i < |f.rows| && 0 <= j < |f.names| ==>
            r.rows[i][j] == if f.kinds[j] == Numeric && f.rows[i][j].NaN? then Num(0.0) else f.rows[i][j])
  {
    var r := FillNumbers(f, ZeroFill);
    MapColumnsCells(f, OfKind(f, Numeric), Numeric,
                    (j: nat, c: Cell) => match FillValue(f, j, ZeroFill) case Some(v) => FillNumber(c, v) case None => c,
                    |f.names|);
    assert r.kinds == f.kinds;
  }

  /** Mean filling puts into each NaN of a numeric column a value between the
      column's smallest and largest number, and keeps every other cell. */
  lemma MeanFillFacts(f: Frame, j: nat, lo: real, hi: real)
    requires WellFormed(f) && j < |f.names| && f.kinds[j] == Numeric
    requires forall i :: 0 <= i < |f.rows| && f.rows[i][j].Num? ==> lo <= f.rows[i][j].value <= hi
    ensures var r := FillNumbers(f, MeanFill);
      forall i :: 0 <= i < |f.rows| ==>
        if f.rows[i][j].NaN? then r.rows[i][j].NaN? || lo <= r.rows[i][j].value <= hi
        else r.rows[i][j] == f.rows[i][j]
  {
    MapColumnsCells(f, OfKind(f, Numeric), Numeric,
                    (j: nat, c: Cell) => match FillValue(f, j, MeanFill) case Some(v) => FillNumber(c, v) case None => c,
                    |f.names|);
    MeanBounds(Column(f, j), lo, hi);
  }

  /** "No filling" changes nothing. */
  lemma NoFillKeeps(f: Frame)
    requires WellFormed(f)
    ensures FillNumbers(f, NoFill) == f
  {
    var r := FillNumbers(f, NoFill);
    MapColumnsCells(f, OfKind(f, Numeric), Numeric,
                    (j: nat, c: Cell) => match FillValue(f, j, NoFill) case Some(v) => FillNumber(c, v) case None => c,
                    |f.names|);
    assert r.kinds == f.kinds;
    forall i | 0 <= i < |f.rows|
      ensures r.rows[i] == f.rows[i]
    {
    }
  }

  /** The source's test: the numeric column `[10, None, 20]` zero-fills to
      `[10, 0, 20]`. */
  lemma ZeroFillExample()
    ensures FillNumbers(Frame(["age"], [Numeric], [[Num(10.0)], [NaN], [Num(20.0)]]), ZeroFill)
         == Frame(["age"], [Numeric], [[Num(10.0)], [Num(0.0)], [Num(20.0)]])
  {
    var f := Frame(["age"], [Numeric], [[Num(10.0)], [NaN], [Num(20.0)]]);
    var r := FillNumbers(f, ZeroFill);
    ZeroFillFacts(f);
    assert r.rows[0] == [Num(10.0)] && r.rows[1] == [Num(0.0)] && r.rows[2] == [Num(20.0)];
  }

  // ---------------------------------------------------------------------------
  // drop_duplicates

  /** `drop_duplicates()`: the rows in order, each kept only at its first
      occurrence. */
  function Dedup<T(==, !new)>(xs: seq<T>): (r: seq<T>)
    ensures |r| <= |xs|
    ensures forall x :: x in r <==> x in xs
  {
    if xs == [] then []
    else
      var init := xs[..|xs| - 1];
      assert xs == init + [xs[|xs| - 1]];
      var p := Dedup(init);
      if xs[|xs| - 1] in p then p else p + [xs[|xs| - 1]]
  }

  predicate Distinct<T(==)>(s: seq<T>) {
    forall a, b :: 0 <= a < b < |s| ==> s[a] != s[b]
  }

  /** The index of the first occurrence of `x` in `xs`. */
  function FirstIndex<T(==)>(xs: seq<T>, x: T): (k: nat)
    requires x in xs
    ensures k < |xs| && xs[k] == x && x !in xs[..k]
  {
    var init := xs[..|xs| - 1];
    assert xs == init + [xs[|xs| - 1]];
    if x in init then
      var k := FirstIndex(init, x);
      assert xs[..k] == init[..k];
      k
    else
      |xs| - 1
  }

  /** Every element of `r` occurs in `xs`, and they come in the order of
      their first occurrences in `xs`. */
  predicate FirstOrdered<T(==, !new)>(xs: seq<T>, r: seq<T>) {
    && (forall x :: x in r ==> x in xs)
    && forall a, b :: 0 <= a < b < |r| ==> FirstIndex(xs, r[a]) < FirstIndex(xs, r[b])
  }

  /** The result holds no row twice. */
  lemma {:induction false} DedupDistinct<T(!new)>(xs: seq<T>)
    ensures Distinct(Dedup(xs))
  {
    if xs != [] {
      DedupDistinct(xs[..|xs| - 1]);
    }
  }

  /** The kept rows appear in the order of their first occurrences. */
  lemma {:induction false} DedupKeepsFirstOrder<T(!new)>(xs: seq<T>)
    ensures FirstOrdered(xs, Dedup(xs))
  {
    if xs != [] {
      var init := xs[..|xs| - 1];
      var p := Dedup(init);
      DedupKeepsFirstOrder(init);
      var last := xs[|xs| - 1];
      assert xs == init + [last];
      assert forall y :: y in init ==> y in xs;
      forall a, b | 0 <= a < b < |p|
        ensures FirstIndex(xs, p[a]) < FirstIndex(xs, p[b])
      {
        assert p[a] in init && p[b] in init;
        assert FirstIndex(init, p[a]) < FirstIndex(init, p[b]);
        FirstIndexOfInit(xs, p[a]);
        FirstIndexOfInit(xs, p[b]);
      }
      if last !in p {
        var r := p + [last];
        forall a | 0 <= a < |p|
          ensures FirstIndex(xs, p[a]) < FirstIndex(xs, last)
        {
          assert p[a] in init;
          FirstIndexOfInit(xs, p[a]);
          FirstIndexOfLast(xs);
        }
        assert forall a :: 0 <= a < |p| ==> r[a] == p[a];
      }
    }
  }

  lemma FirstIndexOfInit<T>(xs: seq<T>, y: T)
    requires xs != [] && y in xs[..|xs| - 1]
    ensures FirstIndex(xs, y) == FirstIndex(xs[..|xs| - 1], y)
  {
  }

  lemma FirstIndexOfLast<T>(xs: seq<T>)
    requires xs != [] && xs[|xs| - 1] !in xs[..|xs| - 1]
    ensures FirstIndex(xs, xs[|xs| - 1]) == |xs| - 1
  {
  }

  /** A table without duplicate rows is left as it is, so deduplicating twice
      is the same as once. */
  lemma {:induction false} DedupOfDistinct<T(!new)>(xs: seq<T>)
    requires Distinct(xs)
    ensures Dedup(xs) == xs
  {
    if xs != [] {
      var init := xs[..|xs| - 1];
      assert Distinct(init);
      DedupOfDistinct(init);
      assert xs[|xs| - 1] !in init;
      assert xs == init + [xs[|xs| - 1]];
    }
  }

  lemma DedupIdempotent<T(!new)>(xs: seq<T>)
    ensures Dedup(Dedup(xs)) == Dedup(xs)
  {
    DedupDistinct(xs);
    DedupOfDistinct(Dedup(xs));
  }

  /** `drop_duplicates` on the whole frame. */
  function DropDuplicates(f: Frame): (r: Frame)
    requires WellFormed(f)
    ensures WellFormed(r)
  {
    var rows := Dedup(f.rows);
    assert forall i :: 0 <= i < |rows| ==> rows[i] in f.rows;
    f.(rows := rows)
  }

  /** The source's test: the column `x = [1, 1, 2]` keeps two rows. */
  lemma DropDuplicatesExample()
    ensures DropDuplicates(Frame(["x"], [Numeric], [[Num(1.0)], [Num(1.0)], [Num(2.0)]])).rows
         == [[Num(1.0)], [Num(2.0)]]
  {
    var xs := [[Num(1.0)], [Num(1.0)], [Num(2.0)]];
    assert xs[..2][..1] == [[Num(1.0)]];
    assert xs[..2] == [[Num(1.0)], [Num(1.0)]];
    assert xs[..1] == [[Num(1.0)]];
    assert [Num(2.0)] !in [[Num(1.0)]];
  }

  // ---------------------------------------------------------------------------
  // The fixed-width text table of `save_pretty`

  /** `astype(str)` / `str(...)` of one cell; the text of a number is
      `numText`, which the model leaves open. */
  function Render(c: Cell, numText: real -> string): string {
    match c
    case Str(t) => t
    case Num(v) => numText(v)
    case NaN => "nan"
  }

  /** The longest string of a column, 0 for none. */
  function MaxLen(col: seq<string>): (m: nat)
    ensures forall k :: 0 <= k < |col| ==> |col[k]| <= m
    ensures col == [] ==> m == 0
    ensures col != [] ==> exists k :: 0 <= k < |col| && |col[k]| == m
  {
    if col == [] then 0
    else
      var m := MaxLen(col[1..]);
      assert forall k :: 1 <= k < |col| ==> col[k] == col[1..][k - 1];
      if |col[0]| >= m then |col[0]| else m
  }

  /** The rendered column `j`. */
  function RenderedColumn(f: Frame, j: nat, numText: real -> string): (col: seq<string>)
    requires WellFormed(f) && j < |f.names|
    ensures |col| == |f.rows|
  {
    seq(|f.rows|, i requires 0 <= i < |f.rows| => Render(f.rows[i][j], numText))
  }

  /** The rendered row `i`. */
  function RenderedRow(f: Frame, i: nat, numText: real -> string): (row: seq<string>)
    requires WellFormed(f) && i < |f.rows|
    ensures |row| == |f.names|
  {
    seq(|f.names|, j requires 0 <= j < |f.names| => Render(f.rows[i][j], numText))
  }

  /** `max(...map(len).max(), len(col))` fails when the frame has columns but
      no rows: the maximum of an empty column is NaN, and `ljust(NaN)` raises. */
  predicate PrettyOk(f: Frame) {
    |f.rows| > 0 || |f.names| == 0
  }

  function Max(a: nat, b: nat): nat {
    if a >= b then a else b
  }

  /** `col_widths`: two more than the longest of the name and the cells. */
  function Widths(f: Frame, numText: real -> string): (w: seq<nat>)
    requires WellFormed(f)
    ensures |w| == |f.names|
  {
    seq(|f.names|, j requires 0 <= j < |f.names| => Max(MaxLen(RenderedColumn(f, j, numText)), |f.names[j]|) + 2)
  }

  function Sum(w: seq<nat>): nat {
    if w == [] then 0 else w[0] + Sum(w[1..])
  }

  /** `"".join(cell.ljust(width) for ...)`. */
  function Segments(cells: seq<string>, w: seq<nat>): string
    requires |cells| == |w|
  {
    if cells == [] then "" else LJust(cells[0], w[0]) + Segments(cells[1..], w[1..])
  }

  /** The header, the rule, and one line per row; `None` where pandas raises. */
  function PrettyLines(f: Frame, numText: real -> string): Option<seq<string>>
    requires WellFormed(f)
  {
    if !PrettyOk(f) then None
    else
      var w := Widths(f, numText);
      Some([Segments(f.names, w), Repeat('-', Sum(w))] + RowLines(f, w, numText))
  }

  /** One line per row. */
  function RowLines(f: Frame, w: seq<nat>, numText: real -> string): (ls: seq<string>)
    requires WellFormed(f) && |w| == |f.names|
    ensures |ls| == |f.rows|
  {
    seq(|f.rows|, i requires 0 <= i < |f.rows| => Segments(RenderedRow(f, i, numText), w))
  }

  /** The file text: each line followed by a newline. */
  function PrettyText(lines: seq<string>): string {
    if lines == [] then "" else PrettyText(lines[..|lines| - 1]) + lines[|lines| - 1] + "\n"
  }

  /** Where column `j` starts: the sum of the widths before it. */
  function Offset(w: seq<nat>, j: nat): nat
    requires j <= |w|
  {
    if j == 0 then 0 else w[0] + Offset(w[1..], j - 1)
  }

  /** The text `t` stands at offset `off` of `line`. */
  predicate TextAt(line: string, off: nat, t: string) {
    off + |t| <= |line| && line[off..off + |t|] == t
  }

  lemma PrettyTextSnoc(lines: seq<string>, k: nat)
    requires 0 < k <= |lines|
    ensures PrettyText(lines[..k]) == PrettyText(lines[..k - 1]) + lines[k - 1] + "\n"
  {
    assert lines[..k][..k - 1] == lines[..k - 1];
  }

  /** When every cell fits its width, the line is exactly the sum of the
      widths long. */
  lemma {:induction false} SegmentsLength(cells: seq<string>, w: seq<nat>)
    requires |cells| == |w| && forall k :: 0 <= k < |w| ==> |cells[k]| <= w[k]
    ensures |Segments(cells, w)| == Sum(w)
  {
    if cells != [] {
      SegmentsLength(cells[1..], w[1..]);
    }
  }

  /** The cell of column `j` starts at that column's offset, so the columns
      line up from one line to the next. */
  lemma {:induction false} SegmentsAt(cells: seq<string>, w: seq<nat>, j: nat)
    requires |cells| == |w| && j < |w| && forall k :: 0 <= k < |w| ==> |cells[k]| <= w[k]
    ensures TextAt(Segments(cells, w), Offset(w, j), cells[j])
  {
    var head := LJust(cells[0], w[0]);
    var rest := Segments(cells[1..], w[1..]);
    assert |head| == w[0];
    if j == 0 {
      assert (head + rest)[..|cells[0]|] == head[..|cells[0]|];
    } else {
      SegmentsAt(cells[1..], w[1..], j - 1);
      var off, t := Offset(w[1..], j - 1), cells[j];
      assert t == cells[1..][j - 1];
      assert (head + rest)[w[0] + off..w[0] + off + |t|] == rest[off..off + |t|];
    }
  }

  /** Every cell and every name is shorter than its column's width by at least
      two. */
  lemma WidthsFit(f: Frame, numText: real -> string)
    requires WellFormed(f)
    ensures var w := Widths(f, numText);
      && (forall j :: 0 <= j < |f.names| ==> |f.names[j]| + 2 <= w[j])
      && (forall i, j :: 0 <= i < |f.rows| && 0 <= j < |f.names| ==> |Render(f.rows[i][j], numText)| + 2 <= w[j])
  {
    var w := Widths(f, numText);
    forall i, j | 0 <= i < |f.rows| && 0 <= j < |f.names|
      ensures |Render(f.rows[i][j], numText)| + 2 <= w[j]
    {
      assert RenderedColumn(f, j, numText)[i] == Render(f.rows[i][j], numText);
    }
  }

  /** The table fails exactly when there are columns but no rows; otherwise it
      has the header, a rule of `-` and one line per row, and every line is
      the sum of the widths long. */
  lemma PrettyLineLengths(f: Frame, numText: real -> string)
    requires WellFormed(f)
    ensures PrettyLines(f, numText).Some? <==> PrettyOk(f)
    ensures PrettyOk(f) ==>
      var lines, w := PrettyLines(f, numText).value, Widths(f, numText);
      && |lines| == |f.rows| + 2
      && (forall l :: 0 <= l < |lines| ==> |lines[l]| == Sum(w))
      && (forall k :: 0 <= k < Sum(w) ==> lines[1][k] == '-')
  {
    if PrettyOk(f) {
      var lines, w := PrettyLines(f, numText).value, Widths(f, numText);
      WidthsFit(f, numText);
      SegmentsLength(f.names, w);
      var rl := RowLines(f, w, numText);
      forall i | 0 <= i < |rl|
        ensures |rl[i]| == Sum(w)
      {
        RowFits(f, i, numText);
        SegmentsLength(RenderedRow(f, i, numText), w);
      }
      assert lines == [Segments(f.names, w), Repeat('-', Sum(w))] + rl;
    }
  }

  /** Each rendered cell of a row fits its column's width. */
  lemma RowFits(f: Frame, i: nat, numText: real -> string)
    requires WellFormed(f) && i < |f.rows|
    ensures var row, w := RenderedRow(f, i, numText), Widths(f, numText);
      forall k :: 0 <= k < |w| ==> |row[k]| <= w[k]
  {
    WidthsFit(f, numText);
  }

  /** The lines of a table that can be printed: the header, the rule and one
      line per row. */
  lemma PrettyLinesShape(f: Frame, numText: real -> string)
    requires WellFormed(f) && PrettyOk(f)
    ensures var lines, w := PrettyLines(f, numText).value, Widths(f, numText);
      && |lines| == |f.rows| + 2
      && lines[0] == Segments(f.names, w) && lines[1] == Repeat('-', Sum(w))
      && forall i :: 0 <= i < |f.rows| ==> lines[i + 2] == Segments(RenderedRow(f, i, numText), w)
  {
    var lines, w := PrettyLines(f, numText).value, Widths(f, numText);
    var rl := RowLines(f, w, numText);
    assert lines == [Segments(f.names, w), Repeat('-', Sum(w))] + rl;
    forall i | 0 <= i < |f.rows|
      ensures lines[i + 2] == Segments(RenderedRow(f, i, numText), w)
    {
      assert lines[i + 2] == rl[i];
    }
  }

  /** The text of the header and the rule. */
  lemma PrettyTextStart(f: Frame, numText: real -> string)
    requires WellFormed(f) && PrettyOk(f)
    ensures var lines, w := PrettyLines(f, numText).value, Widths(f, numText);
      && |lines| == |f.rows| + 2
      && PrettyText(lines[..2]) == Segments(f.names, w) + "\n" + Repeat('-', Sum(w)) + "\n"
  {
    var lines := PrettyLines(f, numText).value;
    PrettyLinesShape(f, numText);
    PrettyTextSnoc(lines, 1);
    PrettyTextSnoc(lines, 2);
    assert lines[..0] == [];
  }

  /** The text grows by one row's line and its newline. */
  lemma PrettyTextRow(f: Frame, numText: real -> string, i: nat)
    requires WellFormed(f) && PrettyOk(f) && i < |f.rows|
    ensures var lines, w := PrettyLines(f, numText).value, Widths(f, numText);
      && |lines| == |f.rows| + 2
      && PrettyText(lines[..i + 3]) == PrettyText(lines[..i + 2]) + Segments(RenderedRow(f, i, numText), w) + "\n"
  {
    var lines := PrettyLines(f, numText).value;
    PrettyLinesShape(f, numText);
    PrettyTextSnoc(lines, i + 3);
  }

  /** After the last row the text is that of all the lines. */
  lemma PrettyTextEnd(f: Frame, numText: real -> string)
    requires WellFormed(f) && PrettyOk(f)
    ensures var lines := PrettyLines(f, numText).value;
      lines[..|f.rows| + 2] == lines
  {
    PrettyLinesShape(f, numText);
  }

  /** In every line each name and each cell starts at its column's offset. */
  lemma PrettyColumnsAligned(f: Frame, numText: real -> string)
    requires WellFormed(f) && PrettyOk(f)
    ensures var lines, w := PrettyLines(f, numText).value, Widths(f, numText);
      && (forall j :: 0 <= j < |f.names| ==> TextAt(lines[0], Offset(w, j), f.names[j]))
      && (forall l, j :: 2 <= l < |lines| && 0 <= j < |f.names| ==>
            TextAt(lines[l], Offset(w, j), Render(f.rows[l - 2][j], numText)))
  {
    var lines, w := PrettyLines(f, numText).value, Widths(f, numText);
    PrettyLinesShape(f, numText);
    forall j | 0 <= j < |f.names|
      ensures TextAt(lines[0], Offset(w, j), f.names[j])
    {
      HeaderAligned(f, numText, j);
    }
    forall l, j | 2 <= l < |lines| && 0 <= j < |f.names|
      ensures TextAt(lines[l], Offset(w, j), Render(f.rows[l - 2][j], numText))
    {
      var i := l - 2;
      assert lines[i + 2] == Segments(RenderedRow(f, i, numText), w);
      RowAligned(f, numText, i, j);
    }
  }

  /** The name of column `j` starts at that column's offset in the header. */
  lemma HeaderAligned(f: Frame, numText: real -> string, j: nat)
    requires WellFormed(f) && j < |f.names|
    ensures TextAt(Segments(f.names, Widths(f, numText)), Offset(Widths(f, numText), j), f.names[j])
  {
    WidthsFit(f, numText);
    SegmentsAt(f.names, Widths(f, numText), j);
  }

  /** The cell of row `i` and column `j` starts at that column's offset in the
      row's line. */
  lemma RowAligned(f: Frame, numText: real -> string, i: nat, j: nat)
    requires WellFormed(f) && i < |f.rows| && j < |f.names|
    ensures TextAt(Segments(RenderedRow(f, i, numText), Widths(f, numText)), Offset(Widths(f, numText), j),
                   Render(f.rows[i][j], numText))
  {
    RowFits(f, i, numText);
    SegmentsAt(RenderedRow(f, i, numText), Widths(f, numText), j);
  }

  // ---------------------------------------------------------------------------
  // What a run of a cleaner leaves behind

  /** `os.makedirs(dir, exist_ok=True)`, a text file written, and a frame saved
      with `to_csv` (whose formatting is pandas' own). */
  datatype Effect = MadeDirs(dir: string) | WroteText(path: string, text: string) | WroteCsv(path: string, table: Frame)

  /** The exit status and the effects, in order. */
  datatype Run = Run(exitCode: nat, effects: seq<Effect>)

  /** Some numeric column still holds NaN. */
  predicate NumericNaN(f: Frame)
    requires WellFormed(f)
  {
    exists i, j :: 0 <= i < |f.rows| && 0 <= j < |f.names| && f.kinds[j] == Numeric && f.rows[i][j].NaN?
  }

  // ---------------------------------------------------------------------------
  // The frame object, updated column by column

  class DataFrame {
    var names: seq<string>
    var kinds: seq<Kind>
    var rows: seq<seq<Cell>>

    function State(): Frame
      reads this
    {
      Frame(names, kinds, rows)
    }

    predicate Valid()
      reads this
    {
      WellFormed(State())
    }

    constructor (f: Frame)
      requires WellFormed(f)
      ensures State() == f && Valid()
    {
      names, kinds, rows := f.names, f.kinds, f.rows;
    }

    /** The loop `for col in selected: df[col] = g(df[col])`, visiting the
        columns in order. */
    method RewriteColumns(pick: nat -> bool, kind: Kind, g: (nat, Cell) -> Cell)
      requires Valid()
      modifies this
      ensures Valid()
      ensures State() == MapColumns(old(State()), pick, kind, g, |old(names)|)
    {
      ghost var f0 := State();
      MapColumnsNone(f0, pick, kind, g, 0);
      for j := 0 to |names|
        invariant State() == MapColumns(f0, pick, kind, g, j)
      {
        MapColumnsStep(f0, pick, kind, g, j);
        if pick(j) {
          var rs := rows;
          kinds := kinds[j := kind];
          rows := seq(|rs|, i requires 0 <= i < |rs| => rs[i][j := g(j, rs[i][j])]);
        }
      }
    }

    /** `normalize_column_names`: `df.columns = [...]`. */
    method NormalizeColumnNames()
      requires Valid()
      modifies this
      ensures Valid()
      ensures State() == old(State()).(names := NormalizedNames(old(names)))
    {
      names := NormalizedNames(names);
    }

    /** `auto_detect_numeric`. */
    method AutoDetectNumeric(toNumber: string -> Option<real>)
      requires Valid()
      modifies this
      ensures Valid()
      ensures State() == DetectNumeric(old(State()), toNumber)
    {
      var f := State();
      RewriteColumns((j: nat) => Detects(f, j, toNumber), Numeric, (j: nat, c: Cell) => Coerce(c, toNumber));
    }

    /** `fill_strings` of src/cleaner.py. */
    method FillStringsInPlace(fill: string)
      requires Valid()
      modifies this
      ensures Valid()
      ensures State() == FillStrings(old(State()), fill)
    {
      RewriteColumns(OfKind(State(), Text), Text, (j: nat, c: Cell) => FillThenStrip(c, fill));
    }

    /** The strip-then-fill loop of cleaner.py. */
    method StripFillStringsInPlace(fill: string)
      requires Valid()
      modifies this
      ensures Valid()
      ensures State() == StripFillStrings(old(State()), fill)
    {
      RewriteColumns(OfKind(State(), Text), Text, (j: nat, c: Cell) => StripThenFill(c, fill));
    }

    /** The `fillna` loop over the numeric columns. */
    method FillNumbersInPlace(mode: NumberFill)
      requires Valid()
      modifies this
      ensures Valid()
      ensures State() == FillNumbers(old(State()), mode)
    {
      var f := State();
      RewriteColumns(OfKind(f, Numeric), Numeric,
                     (j: nat, c: Cell) => match FillValue(f, j, mode) case Some(v) => FillNumber(c, v) case None => c);
    }

    /** `df.drop_duplicates()`. */
    method RemoveDuplicates()
      requires Valid()
      modifies this
      ensures Valid()
      ensures State() == DropDuplicates(old(State()))
    {
      var f := State();
      rows := DropDuplicates(f).rows;
    }

    /** What `save_pretty` writes: the header, the rule and then the rows one
        by one, each line followed by a newline; no text where pandas raises. */
    method PrettyFileText(numText: real -> string) returns (ok: bool, text: string)
      requires Valid()
      ensures ok <==> PrettyOk(State())
      ensures ok ==> text == PrettyText(PrettyLines(State(), numText).value)
    {
      var f := State();
      if !PrettyOk(f) {
        return false, "";
      }
      var w := Widths(f, numText);
      PrettyTextStart(f, numText);
      text := Segments(f.names, w) + "\n" + Repeat('-', Sum(w)) + "\n";
      for i := 0 to |f.rows|
        invariant text == PrettyText(PrettyLines(f, numText).value[..i + 2])
      {
        PrettyTextRow(f, numText, i);
        text := text + Segments(RenderedRow(f, i, numText), w) + "\n";
      }
      PrettyTextEnd(f, numText);
      ok := true;
    }
  }
}
