/** The stand-alone CSV cleaner script, cleaner.py: the input check, default
    paths beside the input, the cleaning pipeline (strip before fill, drop
    duplicates before filling numbers), the integer cast, and what a run
    writes. Any exception ends the script with exit status 1. */
module CsvScript {
  import opened Wrappers
  import opened PyStr
  import opened PosixPath
  import opened CsvRules
  import opened CsvFrame

  /** The command line; an empty `output` or `prettyOut` means the option was
      not given (`if not args.output_file`). */
  datatype Options = Options(
    input: string,
    output: string,
    fillStrings: string,
    fillNumbers: NumberFill,
    preview: bool,
    prettyOut: string)

  /** `args.output_file` after its default `<base>_cleaned<ext>` is applied. */
  function CleanedPath(opts: Options): string {
    if opts.output != "" then opts.output
    else
      var (base, ext) := Splitext(opts.input);
      base + "_cleaned" + ext
  }

  /** `args.pretty_out` after its default `<name>_pretty.txt` in the input's
      directory is applied. */
  function PrettyPath(opts: Options): string {
    if opts.prettyOut != "" then opts.prettyOut
    else
      var (baseDir, fileName) := Split(opts.input);
      Join(baseDir, Splitext(fileName).0 + "_pretty.txt")
  }

  /** The cleaning up to the number filling: normalise the names, detect
      numeric columns, strip then fill text, drop duplicates. */
  function Prepared(f: Frame, opts: Options, toNumber: string -> Option<real>): (r: Frame)
    requires WellFormed(f)
    ensures WellFormed(r)
  {
    var normalized := f.(names := NormalizedNames(f.names));
    DropDuplicates(StripFillStrings(DetectNumeric(normalized, toNumber), opts.fillStrings))
  }

  /** The whole pipeline: the `fillna` of the numeric columns comes after
      the duplicates are dropped, and `none` fills nothing. */
  function Clean(f: Frame, opts: Options, toNumber: string -> Option<real>): (r: Frame)
    requires WellFormed(f)
    ensures WellFormed(r)
  {
    var prepared := Prepared(f, opts, toNumber);
    if opts.fillNumbers == NoFill then prepared else FillNumbers(prepared, opts.fillNumbers)
  }

  /** `x % 1 == 0`: the number is whole. */
  predicate IsWhole(v: real) {
    v.Floor as real == v
  }

  /** Column `j` is numeric, every number in it is whole (so the script takes
      it for an integer column), and a NaN is left, which `astype(int)`
      refuses. */
  predicate IntCastFails(f: Frame, j: nat)
    requires WellFormed(f)
  {
    && j < |f.names| && f.kinds[j] == Numeric
    && (forall i :: 0 <= i < |f.rows| && f.rows[i][j].Num? ==> IsWhole(f.rows[i][j].value))
    && (exists i :: 0 <= i < |f.rows| && f.rows[i][j].NaN?)
  }

  /** The loop over the numeric columns raises on some column. */
  predicate CastFails(f: Frame)
    requires WellFormed(f)
  {
    exists j :: 0 <= j < |f.names| && IntCastFails(f, j)
  }

  /** A run of the script. `isFile` is `os.path.isfile(input)`, `table` what
      `read_csv` returns (`None` when pandas rejects the file). Every failure
      happens before the first file is opened, so a failed run writes
      nothing. */
  function ScriptRun(opts: Options, isFile: bool, table: Option<Frame>,
                     toNumber: string -> Option<real>, numText: real -> string): Run
    requires table.Some? ==> WellFormed(table.value)
  {
    if !isFile || table.None? || !PrettyOk(table.value) then Run(1, [])
    else CleanedRun(Clean(table.value, opts, toNumber), opts, numText)
  }

  /** The end of the script on the cleaned frame: the cast, the console print,
      the text layout, then the table unless previewing. */
  function CleanedRun(cleaned: Frame, opts: Options, numText: real -> string): Run
    requires WellFormed(cleaned)
  {
    if CastFails(cleaned) || !PrettyOk(cleaned) then Run(1, [])
    else
      var pretty := [WroteText(PrettyPath(opts), PrettyText(PrettyLines(cleaned, numText).value))];
      if opts.preview then Run(0, pretty) else Run(0, pretty + [WroteCsv(CleanedPath(opts), cleaned)])
  }

  /** The integer-cast check of the numeric loop, column by column and row by
      row. */
  method CheckCasts(df: DataFrame) returns (fails: bool)
    requires df.Valid()
    ensures fails == CastFails(df.State())
  {
    var f := df.State();
    fails := false;
    for j := 0 to |f.names|
      invariant fails == exists k :: 0 <= k < j && IntCastFails(f, k)
    {
      if f.kinds[j] == Numeric {
        var whole, nan := true, false;
        for i := 0 to |f.rows|
          invariant whole == forall r :: 0 <= r < i && f.rows[r][j].Num? ==> IsWhole(f.rows[r][j].value)
          invariant nan == exists r :: 0 <= r < i && f.rows[r][j].NaN?
        {
          var c := f.rows[i][j];
          if c.Num? && !IsWhole(c.value) {
            whole := false;
          }
          if c.NaN? {
            nan := true;
          }
        }
        assert IntCastFails(f, j) == (whole && nan);
        if whole && nan {
          fails := true;
        }
      } else {
        assert !IntCastFails(f, j);
      }
    }
  }

  /** The script from top to bottom, on the frame object. */
  method RunScript(opts: Options, isFile: bool, table: Option<Frame>,
                   toNumber: string -> Option<real>, numText: real -> string) returns (run: Run)
    requires table.Some? ==> WellFormed(table.value)
    ensures run == ScriptRun(opts, isFile, table, toNumber, numText)
  {
    if !isFile {
      return Run(1, []);
    }
    var output, pretty := opts.output, opts.prettyOut;
    if output == "" {
      var (base, ext) := Splitext(opts.input);
      output := base + "_cleaned" + ext;
    }
    if pretty == "" {
      var (baseDir, fileName) := Split(opts.input);
      pretty := Join(baseDir, Splitext(fileName).0 + "_pretty.txt");
    }
    if table.None? || !PrettyOk(table.value) {
      return Run(1, []);
    }
    var df := new DataFrame(table.value);
    df.NormalizeColumnNames();
    df.AutoDetectNumeric(toNumber);
    df.StripFillStringsInPlace(opts.fillStrings);
    df.RemoveDuplicates();
    if opts.fillNumbers != NoFill {
      df.FillNumbersInPlace(opts.fillNumbers);
    }
    var fails := CheckCasts(df);
    if fails || !PrettyOk(df.State()) {
      return Run(1, []);
    }
    var ok, text := df.PrettyFileText(numText);
    var effects := [WroteText(pretty, text)];
    if !opts.preview {
      effects := effects + [WroteCsv(output, df.State())];
    }
    return Run(0, effects);
  }

  // ---------------------------------------------------------------------------
  // Properties

  lemma CleanedSuffixHasNoSlash()
    ensures '/' !in "_cleaned" && '/' !in "_pretty.txt"
  {
  }

  /** Without `--out` the cleaned table goes into the input's directory, under
      the input's file name with `_cleaned` put before the extension. */
  lemma DefaultCleanedPath(opts: Options)
    requires opts.output == ""
    ensures var (base, ext) := Splitext(opts.input);
      && Split(CleanedPath(opts)).0 == Split(opts.input).0
      && Split(opts.input).1 == Split(base).1 + ext
      && Split(CleanedPath(opts)).1 == Split(base).1 + "_cleaned" + ext
  {
    var (base, ext) := Splitext(opts.input);
    SplitextParts(opts.input);
    CleanedSuffixHasNoSlash();
    assert '/' !in "_cleaned" + ext;
    SplitAppend(base, "_cleaned" + ext);
    SplitAppend(base, ext);
    assert base + "_cleaned" + ext == base + ("_cleaned" + ext);
  }

  /** Without `--pretty-out` the text layout goes into the input's directory
      as `<name>_pretty.txt`. */
  lemma DefaultPrettyPath(opts: Options)
    requires opts.prettyOut == ""
    ensures var (baseDir, fileName) := Split(opts.input);
      Split(PrettyPath(opts)) == (baseDir, Splitext(fileName).0 + "_pretty.txt")
  {
    var (baseDir, fileName) := Split(opts.input);
    var name := Splitext(fileName).0;
    SplitTail(opts.input);
    SplitextParts(fileName);
    assert forall k :: 0 <= k < |name| ==> name[k] == fileName[k];
    CleanedSuffixHasNoSlash();
    assert '/' !in name + "_pretty.txt";
    SplitHeadShape(opts.input);
    SplitJoinTail(baseDir, name + "_pretty.txt");
    SplitJoinHead(baseDir, name + "_pretty.txt");
  }

  /** The second console print cannot fail once the first did not: dropping
      duplicates keeps at least one of a non-empty list of rows. */
  lemma CleanKeepsPrintable(f: Frame, opts: Options, toNumber: string -> Option<real>)
    requires WellFormed(f) && PrettyOk(f)
    ensures PrettyOk(Clean(f, opts, toNumber))
  {
    var normalized := f.(names := NormalizedNames(f.names));
    var detected := DetectNumeric(normalized, toNumber);
    var filled := StripFillStrings(detected, opts.fillStrings);
    var prepared := Prepared(f, opts, toNumber);
    if |filled.rows| > 0 {
      assert filled.rows[0] in prepared.rows;
    }
  }

  /** The cleaned frame has the normalised names; before the number filling
      its rows are free of duplicates and never more than the input's; no
      text column holds NaN, and with a fill value that is not blank no text
      cell is blank; zero filling leaves no NaN, so the integer cast cannot
      fail. */
  lemma CleanFacts(f: Frame, opts: Options, toNumber: string -> Option<real>)
    requires WellFormed(f)
    ensures var prepared, cleaned := Prepared(f, opts, toNumber), Clean(f, opts, toNumber);
      && cleaned.names == NormalizedNames(f.names)
      && Distinct(prepared.rows) && |prepared.rows| <= |f.rows| && |cleaned.rows| == |prepared.rows|
      && (forall i, j :: 0 <= i < |cleaned.rows| && 0 <= j < |f.names| && cleaned.kinds[j] == Text ==>
            !cleaned.rows[i][j].NaN? && (cleaned.rows[i][j].Str? && !IsBlank(opts.fillStrings) ==> !IsBlank(cleaned.rows[i][j].text)))
      && (opts.fillNumbers == ZeroFill ==> !NumericNaN(cleaned) && !CastFails(cleaned))
  {
    var normalized := f.(names := NormalizedNames(f.names));
    var detected := DetectNumeric(normalized, toNumber);
    var filled := StripFillStrings(detected, opts.fillStrings);
    var prepared := Prepared(f, opts, toNumber);
    var cleaned := Clean(f, opts, toNumber);
    DetectNumericFacts(normalized, toNumber);
    StripFillStringsFacts(detected, opts.fillStrings);
    DedupDistinct(filled.rows);
    assert forall i :: 0 <= i < |prepared.rows| ==> prepared.rows[i] in filled.rows;
    assert prepared.kinds == detected.kinds;
    if opts.fillNumbers == ZeroFill {
      ZeroFillFacts(prepared);
      assert !CastFails(cleaned) by {
        forall j | 0 <= j < |cleaned.names|
          ensures !IntCastFails(cleaned, j)
        {
        }
      }
    } else if opts.fillNumbers == MeanFill {
      MapColumnsCells(prepared, OfKind(prepared, Numeric), Numeric,
                      (j: nat, c: Cell) => match FillValue(prepared, j, MeanFill) case Some(v) => FillNumber(c, v) case None => c,
                      |prepared.names|);
    }
  }

  /** A run ends with status 0 or 1; it succeeds exactly when the input file
      exists and is read, the first console print gets through and the
      integer cast does not raise; a failed run writes nothing, and a
      successful one writes the cleaned table's layout to the pretty path
      first and, exactly when not previewing, the cleaned table to the output
      path. */
  lemma ScriptRunFacts(opts: Options, isFile: bool, table: Option<Frame>,
                       toNumber: string -> Option<real>, numText: real -> string)
    requires table.Some? ==> WellFormed(table.value)
    ensures var run := ScriptRun(opts, isFile, table, toNumber, numText);
      && (run.exitCode == 0 || run.exitCode == 1)
      && (run.exitCode == 1 ==> run.effects == [])
      && (run.exitCode == 0 <==>
            isFile && table.Some? && PrettyOk(table.value) && !CastFails(Clean(table.value, opts, toNumber)))
      && (run.exitCode == 0 ==>
            var cleaned := Clean(table.value, opts, toNumber);
            && |run.effects| > 0
            && run.effects[0] == WroteText(PrettyPath(opts), PrettyText(PrettyLines(cleaned, numText).value))
            && (WroteCsv(CleanedPath(opts), cleaned) in run.effects <==> !opts.preview))
  {
    if isFile && table.Some? && PrettyOk(table.value) {
      CleanKeepsPrintable(table.value, opts, toNumber);
    }
  }

  /** The script drops duplicates before it fills numbers, so rows that only
      become equal through the filling both stay: with zero filling, a NaN
      row and a 0 row end up as two 0 rows. */
  lemma DuplicatesAfterFilling(name: string, opts: Options, toNumber: string -> Option<real>)
    requires opts.fillNumbers == ZeroFill
    ensures var f := Frame([name], [Numeric], [[NaN], [Num(0.0)]]);
      Clean(f, opts, toNumber).rows == [[Num(0.0)], [Num(0.0)]]
  {
    var f := Frame([name], [Numeric], [[NaN], [Num(0.0)]]);
    var normalized := f.(names := NormalizedNames(f.names));
    MapColumnsNone(normalized, (j: nat) => Detects(normalized, j, toNumber), Numeric,
                   (j: nat, c: Cell) => Coerce(c, toNumber), 1);
    var detected := DetectNumeric(normalized, toNumber);
    MapColumnsNone(detected, OfKind(detected, Text), Text, (j: nat, c: Cell) => StripThenFill(c, opts.fillStrings), 1);
    var rows := [[NaN], [Num(0.0)]];
    assert rows[..1] == [[NaN]] && rows[..1][..0] == [];
    var prepared := Prepared(f, opts, toNumber);
    assert prepared.rows == rows;
    var cleaned := FillNumbers(prepared, ZeroFill);
    ZeroFillFacts(prepared);
    assert cleaned.rows[0] == [Num(0.0)] && cleaned.rows[1] == [Num(0.0)];
  }

  /** A numeric column with nothing but NaN makes the integer cast fail (so
      the run ends with status 1) unless numbers are filled with zero: its mean is NaN, so `fillna` leaves it,
      and a column without numbers counts as whole, so `astype(int)` meets
      the NaN. */
  lemma AllNaNColumnFails(name: string, opts: Options, toNumber: string -> Option<real>)
    requires opts.fillNumbers != ZeroFill
    ensures CastFails(Clean(Frame([name], [Numeric], [[NaN]]), opts, toNumber))
  {
    var f := Frame([name], [Numeric], [[NaN]]);
    var prepared := Prepared(f, opts, toNumber);
    AllNaNPrepared(name, opts, toNumber);
    var cleaned := Clean(f, opts, toNumber);
    if opts.fillNumbers == MeanFill {
      assert Column(prepared, 0) == [NaN];
      assert FillValue(prepared, 0, MeanFill) == None;
      MapColumnsCells(prepared, OfKind(prepared, Numeric), Numeric,
                      (j: nat, c: Cell) => match FillValue(prepared, j, MeanFill) case Some(v) => FillNumber(c, v) case None => c,
                      1);
    }
    assert cleaned.rows[0][0] == NaN;
    assert IntCastFails(cleaned, 0);
  }

  /** The single-NaN numeric column comes through the preparation as it is. */
  lemma AllNaNPrepared(name: string, opts: Options, toNumber: string -> Option<real>)
    ensures var prepared := Prepared(Frame([name], [Numeric], [[NaN]]), opts, toNumber);
      prepared.kinds == [Numeric] && prepared.rows == [[NaN]]
  {
    var f := Frame([name], [Numeric], [[NaN]]);
    var normalized := f.(names := NormalizedNames(f.names));
    MapColumnsNone(normalized, (j: nat) => Detects(normalized, j, toNumber), Numeric,
                   (j: nat, c: Cell) => Coerce(c, toNumber), 1);
    var detected := DetectNumeric(normalized, toNumber);
    MapColumnsNone(detected, OfKind(detected, Text), Text, (j: nat, c: Cell) => StripThenFill(c, opts.fillStrings), 1);
    assert [[NaN]][..0] == [];
  }
}
