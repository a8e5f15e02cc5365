/** The cell-level rules both CSV cleaners apply: column-name normalisation,
    the markers that count as empty, numeric detection with its 80 % threshold,
    and the two orders of filling and stripping text cells. */
module CsvRules {
  import opened Wrappers
  import opened PyStr

  /** A pandas cell: a string (in a text column), a number (in a numeric
      column), or NaN. */
  datatype Cell = Str(text: string) | Num(value: real) | NaN

  /** The strings the cleaners treat as an empty cell. */
  predicate IsBlank(t: string) {
    t == "" || t == "nan" || t == "NaN"
  }

  // ---------------------------------------------------------------------------
  // Column names

  /** `col.strip().replace(" ", "_").lower()`. */
  function NormalizeName(col: string): string {
    Lower(Replace(Strip(col), ' ', "_"))
  }

  /** Replacing spaces by underscores never creates whitespace at either end. */
  lemma {:induction false} ReplaceSpaceKeepsEnds(s: string)
    ensures |Replace(s, ' ', "_")| == |s|
    ensures forall k :: 0 <= k < |s| ==>
      Replace(s, ' ', "_")[k] == if s[k] == ' ' then '_' else s[k]
  {
    if s != [] {
      ReplaceSpaceKeepsEnds(s[1..]);
      var head: string := if s[0] == ' ' then "_" else [s[0]];
      assert Replace(s, ' ', "_") == head + Replace(s[1..], ' ', "_");
    }
  }

  /** A normalised name has no whitespace at either end, no space and no
      upper-case ASCII letter. */
  lemma NormalizeNameShape(col: string)
    ensures var r := NormalizeName(col);
      && Stripped(r) && ' ' !in r && Lower(r) == r
      && |r| == |Strip(col)|
  {
    var u := Replace(Strip(col), ' ', "_");
    UnderscoredShape(Strip(col));
    LowerKeepsStripped(u);
    LowerFacts(u);
    LowerKeepsNoSpace(u);
  }

  /** Replacing the spaces of a stripped string keeps it stripped and leaves
      no space. */
  lemma UnderscoredShape(t: string)
    requires Stripped(t)
    ensures var u := Replace(t, ' ', "_");
      Stripped(u) && ' ' !in u && |u| == |t|
  {
    ReplaceSpaceKeepsEnds(t);
    var u := Replace(t, ' ', "_");
    forall k | 0 <= k < |u|
      ensures u[k] != ' '
    {
    }
  }

  /** Lower-casing never produces a space. */
  lemma LowerKeepsNoSpace(u: string)
    requires ' ' !in u
    ensures ' ' !in Lower(u)
  {
    forall k | 0 <= k < |u|
      ensures Lower(u)[k] != ' '
    {
      assert u[k] != ' ';
    }
  }

  /** Normalising twice is the same as normalising once. */
  lemma NormalizeNameIdempotent(col: string)
    ensures NormalizeName(NormalizeName(col)) == NormalizeName(col)
  {
    var r := NormalizeName(col);
    NormalizeNameShape(col);
    StripOfStripped(r);
    assert ' ' !in Strip(r);
    ReplaceAbsent(r, ' ', "_");
  }

  /** A space-free name padded with one space on each side normalizes to its
      lower-case form. */
  lemma NormalizePadded(t: string)
    requires t != [] && Stripped(t) && ' ' !in t
    ensures NormalizeName(" " + t + " ") == Lower(t)
  {
    StripPadded(t);
    ReplaceAbsent(t, ' ', "_");
  }

  /** The column names of the source's test, `" Name "` and `" Age "`, become
      `"name"` and `"age"`. */
  lemma NormalizeNameExamples()
    ensures NormalizeName(" " + "Name" + " ") == "name"
    ensures NormalizeName(" " + "Age" + " ") == "age"
  {
    NormalizePadded("Name");
    NormalizePadded("Age");
    LowerName();
    LowerAge();
  }

  lemma LowerName()
    ensures Lower("Name") == "name"
  {
    assert Lower("Name")[0] == LowerChar('N');
  }

  lemma LowerAge()
    ensures Lower("Age") == "age"
  {
    assert Lower("Age")[0] == LowerChar('A');
  }

  // ---------------------------------------------------------------------------
  // Numeric detection

  /** `pd.to_numeric(value, errors='coerce')` on one cell of a text column:
      blanks and strings the parser rejects become NaN. The parser itself is
      `toNumber`. */
  function Coerce(c: Cell, toNumber: string -> Option<real>): Cell {
    match c
    case Str(t) =>
      if IsBlank(t) then NaN
      else (match toNumber(t) case Some(v) => Num(v) case None => NaN)
    case _ => c
  }

  /** Cells that are neither NaN nor one of the blank markers. */
  function NonEmptyCount(col: seq<Cell>): nat {
    if col == [] then 0
    else (if col[0].Str? && !IsBlank(col[0].text) then 1 else 0) + NonEmptyCount(col[1..])
  }

  /** Cells that parse as a number. */
  function ParsedCount(col: seq<Cell>, toNumber: string -> Option<real>): nat {
    if col == [] then 0
    else (if Coerce(col[0], toNumber).Num? && col[0].Str? then 1 else 0) + ParsedCount(col[1..], toNumber)
  }

  /** Only non-empty cells can parse. */
  lemma {:induction false} ParsedAtMostNonEmpty(col: seq<Cell>, toNumber: string -> Option<real>)
    ensures ParsedCount(col, toNumber) <= NonEmptyCount(col)
  {
    if col != [] {
      ParsedAtMostNonEmpty(col[1..], toNumber);
    }
  }

  /** The conversion rule in integers: at least one non-empty cell and
      `5 * parsed >= 4 * nonEmpty`. */
  predicate Converts(col: seq<Cell>, toNumber: string -> Option<real>) {
    var nonEmpty, parsed := NonEmptyCount(col), ParsedCount(col, toNumber);
    nonEmpty > 0 && 5 * parsed >= 4 * nonEmpty
  }

  /** The integer rule is the source's `parsed / nonEmpty >= 0.8`, read with
      exact arithmetic. */
  lemma ConvertsIffRatio(col: seq<Cell>, toNumber: string -> Option<real>)
    ensures Converts(col, toNumber)
        <==> NonEmptyCount(col) > 0
             && (ParsedCount(col, toNumber) as real) / (NonEmptyCount(col) as real) >= 0.8
  {
    if NonEmptyCount(col) > 0 {
      RatioRule(ParsedCount(col, toNumber), NonEmptyCount(col));
    }
  }

  lemma RatioRule(p: nat, n: nat)
    requires n > 0
    ensures 5 * p >= 4 * n <==> (p as real) / (n as real) >= 0.8
  {
    var q := (p as real) / (n as real);
    assert q * (n as real) == p as real;
    if q >= 0.8 {
      MulMonotone(0.8, q, n as real);
      assert 0.8 * (n as real) <= p as real;
    } else {
      MulStrict(q, 0.8, n as real);
      assert p as real < 0.8 * (n as real);
    }
  }

  lemma MulStrict(a: real, b: real, c: real)
    requires a < b && c > 0.0
    ensures a * c < b * c
  {
    var d := b - a;
    assert d * c > 0.0;
    assert b * c == a * c + d * c;
  }

  lemma MulMonotone(a: real, b: real, c: real)
    requires a <= b && c > 0.0
    ensures a * c <= b * c
  {
    var d := b - a;
    assert d * c >= 0.0;
    assert b * c == a * c + d * c;
  }

  /** A column of strings that all parse converts, e.g. `["1", "2", "3"]`. */
  lemma {:induction false} AllParsedConverts(col: seq<Cell>, toNumber: string -> Option<real>)
    requires col != []
    requires forall i :: 0 <= i < |col| ==> col[i].Str? && !IsBlank(col[i].text) && toNumber(col[i].text).Some?
    ensures Converts(col, toNumber)
  {
    AllParsedCounts(col, toNumber);
  }

  lemma {:induction false} AllParsedCounts(col: seq<Cell>, toNumber: string -> Option<real>)
    requires forall i :: 0 <= i < |col| ==> col[i].Str? && !IsBlank(col[i].text) && toNumber(col[i].text).Some?
    ensures NonEmptyCount(col) == ParsedCount(col, toNumber) == |col|
  {
    if col != [] {
      AllParsedCounts(col[1..], toNumber);
    }
  }

  /** Four numbers and one word is exactly at the threshold and converts; three
      numbers and one word is below it and does not. */
  lemma ThresholdExamples(toNumber: string -> Option<real>)
    requires toNumber("1").Some? && toNumber("x") == None
    ensures Converts([Str("1"), Str("1"), Str("1"), Str("1"), Str("x")], toNumber)
    ensures !Converts([Str("1"), Str("1"), Str("1"), Str("x")], toNumber)
    ensures !Converts([NaN, Str(""), Str("nan")], toNumber)
  {
    var a := [Str("1"), Str("1"), Str("1"), Str("1"), Str("x")];
    assert a[1..] == [Str("1"), Str("1"), Str("1"), Str("x")];
    assert a[2..] == [Str("1"), Str("1"), Str("x")];
    assert a[3..] == [Str("1"), Str("x")];
    assert a[4..] == [Str("x")];
    var b := [NaN, Str(""), Str("nan")];
    assert b[1..] == [Str(""), Str("nan")];
    assert b[2..] == [Str("nan")];
  }

  // ---------------------------------------------------------------------------
  // Filling text cells

  /** `fill_strings` in src/cleaner.py on one text cell: NaN and the blank
      markers are replaced by the fill value first, then the string is stripped
      (so the fill value is stripped too). */
  function FillThenStrip(c: Cell, fill: string): Cell {
    match c
    case NaN => Str(Strip(fill))
    case Str(t) => Str(Strip(if IsBlank(t) then fill else t))
    case Num(_) => c
  }

  /** The script's text-column step on one cell: `astype(str)` (NaN becomes
      "nan"), strip, then the blank markers become the fill value. */
  function StripThenFill(c: Cell, fill: string): Cell {
    match c
    case Num(_) => c
    case NaN => Str(fill)  // "nan" is already stripped and blank
    case Str(t) => Str(if IsBlank(Strip(t)) then fill else Strip(t))
  }

  /** After `fill_strings` a text cell is a string without surrounding
      whitespace; a missing or blank cell holds the stripped fill value. */
  lemma FillThenStripFacts(c: Cell, fill: string)
    requires !c.Num?
    ensures var r := FillThenStrip(c, fill);
      && r.Str? && Stripped(r.text)
      && ((c.NaN? || IsBlank(c.text)) ==> r.text == Strip(fill))
  {
  }

  /** After the script's step a text cell is never blank unless the fill value
      is: it holds the fill value or a stripped, non-blank string. */
  lemma StripThenFillFacts(c: Cell, fill: string)
    requires !c.Num?
    ensures var r := StripThenFill(c, fill);
      && r.Str?
      && (r.text == fill || (Stripped(r.text) && !IsBlank(r.text)))
      && (!IsBlank(fill) ==> !IsBlank(r.text))
  {
  }

  /** The two orders disagree on a whitespace-only cell: filling first keeps an
      empty string, stripping first gives the fill value. */
  lemma {:induction false} WhitespaceOnlyCell(t: string, fill: string)
    requires t != "" && forall k :: 0 <= k < |t| ==> IsSpace(t[k])
    ensures FillThenStrip(Str(t), fill) == Str("")
    ensures StripThenFill(Str(t), fill) == Str(fill)
  {
    StripAllSpace(t);
    assert !IsBlank(t) by {
      assert IsSpace(t[0]);
    }
  }

  /** A stripped, non-blank cell is kept as it is; with the test's values,
      `"New York"` stays `"New York"`. */
  lemma FillKeepsText(t: string, fill: string)
    requires t != [] && !IsSpace(t[0]) && !IsSpace(t[|t| - 1]) && !IsBlank(t)
    ensures FillThenStrip(Str(t), fill) == Str(t)
  {
    KeptWhenStripped(t);
  }

  /** A missing or blank cell gets a stripped fill value; with the test's
      values, `None` and `""` both become `"Unknown"`. */
  lemma FillMissing(c: Cell, fill: string)
    requires c.NaN? || (c.Str? && IsBlank(c.text))
    requires fill != [] && !IsSpace(fill[0]) && !IsSpace(fill[|fill| - 1])
    ensures FillThenStrip(c, fill) == Str(fill)
  {
    KeptWhenStripped(fill);
  }

  lemma KeptWhenStripped(t: string)
    requires t != [] && !IsSpace(t[0]) && !IsSpace(t[|t| - 1])
    ensures Strip(t) == t
  {
    StripOfStripped(t);
  }

  // ---------------------------------------------------------------------------
  // Filling numeric cells

  /** `fillna(v)` on one cell of a numeric column. */
  function FillNumber(c: Cell, v: real): Cell {
    if c.NaN? then Num(v) else c
  }

  /** The sum and the count of the numbers in a column. */
  function NumberSum(col: seq<Cell>): real {
    if col == [] then 0.0 else (if col[0].Num? then col[0].value else 0.0) + NumberSum(col[1..])
  }

  function NumberCount(col: seq<Cell>): nat {
    if col == [] then 0 else (if col[0].Num? then 1 else 0) + NumberCount(col[1..])
  }

  /** `Series.mean()` (NaN skipped), in exact arithmetic; NaN when the column
      holds no number. */
  function Mean(col: seq<Cell>): Option<real> {
    if NumberCount(col) == 0 then None else Some(NumberSum(col) / (NumberCount(col) as real))
  }

  /** The mean lies between the smallest and the largest number. */
  lemma {:induction false} MeanBounds(col: seq<Cell>, lo: real, hi: real)
    requires forall i :: 0 <= i < |col| && col[i].Num? ==> lo <= col[i].value <= hi
    ensures Mean(col).Some? ==> lo <= Mean(col).value <= hi
  {
    SumBounds(col, lo, hi);
    if NumberCount(col) > 0 {
      DivBounds(NumberSum(col), NumberCount(col) as real, lo, hi);
    }
  }

  lemma DivBounds(sum: real, n: real, lo: real, hi: real)
    requires n > 0.0 && lo * n <= sum <= hi * n
    ensures lo <= sum / n <= hi
  {
    var m := sum / n;
    assert sum == m * n;
    if m < lo {
      MulMonotone(m, lo, n);
    }
    if m > hi {
      MulMonotone(hi, m, n);
    }
  }

  lemma {:induction false} SumBounds(col: seq<Cell>, lo: real, hi: real)
    requires forall i :: 0 <= i < |col| && col[i].Num? ==> lo <= col[i].value <= hi
    ensures lo * (NumberCount(col) as real) <= NumberSum(col) <= hi * (NumberCount(col) as real)
  {
    if col != [] {
      assert forall i :: 0 <= i < |col[1..]| ==> col[1..][i] == col[i + 1];
      SumBounds(col[1..], lo, hi);
    }
  }
}
