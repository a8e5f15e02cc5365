/** The packaged CSV cleaner, src/cleaner.py: default output paths next to the
    input's parent directory, the cleaning pipeline, and what a run writes. */
module CsvCleaner {
  import opened Wrappers
  import opened PyStr
  import opened PosixPath
  import opened CsvRules
  import opened CsvFrame

  /** The command line; an empty `output` or `prettyOut` means the option was
      not given (`if not args.output_file`). */
  datatype Options = Options(
    input: string,
    output: string,
    fillStrings: string,
    fillNumbers: NumberFill,
    preview: bool,
    prettyOut: string)

  /** `os.path.splitext` of the input's file name. */
  function InputName(input: string): (string, string) {
    Splitext(Split(input).1)
  }

  /** `samples/output/` for an input under `samples/data/`: the directory
      `output` beside the input's directory. */
  function OutputDir(input: string): string {
    Join(Dirname(Split(input).0), "output")
  }

  /** `args.output_file` after its default is applied. */
  function CleanedPath(opts: Options): string {
    if opts.output != "" then opts.output
    else
      var (name, ext) := InputName(opts.input);
      Join(OutputDir(opts.input), name + "_cleaned" + ext)
  }

  /** `args.pretty_out` after its default is applied. */
  function PrettyPath(opts: Options): string {
    if opts.prettyOut != "" then opts.prettyOut
    else Join(OutputDir(opts.input), InputName(opts.input).0 + "_pretty.txt")
  }

  /** The cleaning pipeline of `main` up to the number filling: normalise the
      names, detect numeric columns, fill and strip text, drop duplicates. */
  function Prepared(f: Frame, opts: Options, toNumber: string -> Option<real>): (r: Frame)
    requires WellFormed(f)
    ensures WellFormed(r)
  {
    var normalized := f.(names := NormalizedNames(f.names));
    DropDuplicates(FillStrings(DetectNumeric(normalized, toNumber), opts.fillStrings))
  }

  /** The whole pipeline: numbers are filled last, unless the mode is `none`. */
  function Clean(f: Frame, opts: Options, toNumber: string -> Option<real>): (r: Frame)
    requires WellFormed(f)
    ensures WellFormed(r)
  {
    var prepared := Prepared(f, opts, toNumber);
    if opts.fillNumbers == NoFill then prepared else FillNumbers(prepared, opts.fillNumbers)
  }

  /** The console `pretty_print` raises on a frame with columns but no rows,
      and on a NaN in a numeric column (a float column, where `int(x)` of NaN
      raises). */
  predicate ConsolePrintable(f: Frame)
    requires WellFormed(f)
  {
    PrettyOk(f) && !NumericNaN(f)
  }

  /** `fill_numbers` casts every numeric column to `int`, which raises when a
      NaN is left: with mean filling, in a column that holds no number. */
  predicate NumberFillFails(f: Frame, mode: NumberFill)
    requires WellFormed(f)
  {
    mode != NoFill && NumericNaN(FillNumbers(f, mode))
  }

  /** A run of `main` under the `try`/`except` that turns any exception into
      exit status 1. `isFile` is `os.path.isfile(input)`, `table` what
      `read_csv` returns (`None` when pandas rejects the file). */
  function CleanerRun(opts: Options, isFile: bool, table: Option<Frame>,
                      toNumber: string -> Option<real>, numText: real -> string): Run
    requires table.Some? ==> WellFormed(table.value)
  {
    var made := [MadeDirs(OutputDir(opts.input))];
    if !isFile || table.None? then Run(1, made)
    else CleanRun(table.value, opts, made, toNumber, numText)
  }

  /** The part of `main` after `read_csv`: print, clean, save. */
  function CleanRun(f: Frame, opts: Options, made: seq<Effect>,
                    toNumber: string -> Option<real>, numText: real -> string): Run
    requires WellFormed(f)
  {
    if !ConsolePrintable(f) || NumberFillFails(Prepared(f, opts, toNumber), opts.fillNumbers) then Run(1, made)
    else SaveRun(Clean(f, opts, toNumber), PrettyPath(opts), CleanedPath(opts), opts.preview, made, numText)
  }

  /** The end of `main` once the default paths are filled in: print the
      cleaned frame, `save_pretty`, then `save_csv` unless previewing; each
      save first creates the file's directory, and `os.makedirs("")` raises. */
  function SaveRun(cleaned: Frame, pretty: string, output: string, preview: bool,
                   made: seq<Effect>, numText: real -> string): Run
    requires WellFormed(cleaned)
  {
    if !ConsolePrintable(cleaned) || Dirname(pretty) == "" then Run(1, made)
    else
      var saved := made + [MadeDirs(Dirname(pretty)), WroteText(pretty, PrettyText(PrettyLines(cleaned, numText).value))];
      if preview then Run(0, saved)
      else if Dirname(output) == "" then Run(1, saved)
      else Run(0, saved + [MadeDirs(Dirname(output)), WroteCsv(output, cleaned)])
  }

  /** `main`, step by step: the output directory is created before the input
      is even checked, the defaults are filled in, and the frame is cleaned in
      place. */
  method RunCleaner(opts: Options, isFile: bool, table: Option<Frame>,
                    toNumber: string -> Option<real>, numText: real -> string) returns (run: Run)
    requires table.Some? ==> WellFormed(table.value)
    ensures run == CleanerRun(opts, isFile, table, toNumber, numText)
  {
    var (baseDir, fileName) := Split(opts.input);
    var outputDir := Join(Dirname(baseDir), "output");
    var effects := [MadeDirs(outputDir)];
    if !isFile || table.None? || !ConsolePrintable(table.value) {
      return Run(1, effects);
    }
    var df := new DataFrame(table.value);
    var ok := CleanInPlace(df, opts, toNumber);
    if !ok {
      return Run(1, effects);
    }
    run := Save(df, opts, effects, numText);
  }

  /** The cleaning calls of `main` on the frame object; `false` when the
      integer cast of `fill_numbers` raises. */
  method CleanInPlace(df: DataFrame, opts: Options, toNumber: string -> Option<real>) returns (ok: bool)
    requires df.Valid()
    modifies df
    ensures df.Valid()
    ensures ok == !NumberFillFails(Prepared(old(df.State()), opts, toNumber), opts.fillNumbers)
    ensures ok ==> df.State() == Clean(old(df.State()), opts, toNumber)
  {
    df.NormalizeColumnNames();
    df.AutoDetectNumeric(toNumber);
    df.FillStringsInPlace(opts.fillStrings);
    df.RemoveDuplicates();
    if opts.fillNumbers != NoFill {
      df.FillNumbersInPlace(opts.fillNumbers);
      if NumericNaN(df.State()) {
        return false;
      }
    }
    return true;
  }

  /** The saving part of `main`, with the default paths filled in. */
  method Save(df: DataFrame, opts: Options, made: seq<Effect>, numText: real -> string) returns (run: Run)
    requires df.Valid()
    ensures run == SaveRun(df.State(), PrettyPath(opts), CleanedPath(opts), opts.preview, made, numText)
  {
    var (baseDir, fileName) := Split(opts.input);
    var (name, ext) := Splitext(fileName);
    var outputDir := Join(Dirname(baseDir), "output");
    var output, pretty := opts.output, opts.prettyOut;
    if output == "" {
      output := Join(outputDir, name + "_cleaned" + ext);
    }
    if pretty == "" {
      pretty := Join(outputDir, name + "_pretty.txt");
    }
    if !ConsolePrintable(df.State()) || Dirname(pretty) == "" {
      return Run(1, made);
    }
    var ok, text := df.PrettyFileText(numText);
    var effects := made + [MadeDirs(Dirname(pretty)), WroteText(pretty, text)];
    if !opts.preview {
      if Dirname(output) == "" {
        return Run(1, effects);
      }
      effects := effects + [MadeDirs(Dirname(output)), WroteCsv(output, df.State())];
    }
    return Run(0, effects);
  }

  // ---------------------------------------------------------------------------
  // Properties

  /** A slash-free file name joined to a directory that does not end in a
      slash splits back into the two. */
  lemma SplitJoined(dir: string, file: string)
    requires dir != [] && dir[|dir| - 1] != '/' && '/' !in file
    ensures Split(Join(dir, file)) == (dir, file)
  {
    SplitJoinTail(dir, file);
    SplitJoinHead(dir, file);
  }

  /** A directory that does not end in a slash, joined with a slash-free
      name and suffix, splits back into the two. */
  lemma SplitJoinedName(dir: string, name: string, suffix: string, ext: string)
    requires dir != [] && dir[|dir| - 1] != '/' && '/' !in name && '/' !in suffix && '/' !in ext
    ensures Split(Join(dir, name + suffix + ext)) == (dir, name + suffix + ext)
  {
    assert '/' !in name + suffix + ext;
    SplitJoined(dir, name + suffix + ext);
  }

  lemma SplitJoinedPair(dir: string, name: string, suffix: string)
    requires dir != [] && dir[|dir| - 1] != '/' && '/' !in name && '/' !in suffix
    ensures Split(Join(dir, name + suffix)) == (dir, name + suffix)
  {
    assert '/' !in name + suffix;
    SplitJoined(dir, name + suffix);
  }

  lemma SuffixesHaveNoSlash()
    ensures '/' !in "_pretty.txt" && '/' !in "_cleaned"
  {
  }

  /** The input's file name without its extension, and the extension, hold no
      slash. */
  lemma InputNameNoSlash(input: string)
    ensures '/' !in InputName(input).0 && '/' !in InputName(input).1
  {
    var base := Split(input).1;
    SplitTail(input);
    SplitextParts(base);
    var (name, ext) := Splitext(base);
    assert forall k :: 0 <= k < |name| ==> name[k] == base[k];
  }

  /** The default output directory is `output` inside the parent of the
      input's directory. */
  lemma OutputDirSplit(input: string)
    ensures var d := OutputDir(input);
      d != [] && d[|d| - 1] != '/' && Split(d) == (Dirname(Dirname(input)), "output")
  {
    assert "output" != [] && '/' !in "output";
    SiblingSplit(input, "output");
  }

  /** A slash-free name joined to the parent of the input's directory. */
  lemma SiblingSplit(input: string, name: string)
    requires name != [] && '/' !in name
    ensures var d := Join(Dirname(Dirname(input)), name);
      d != [] && d[|d| - 1] != '/' && Split(d) == (Dirname(Dirname(input)), name)
  {
    SplitHeadShape(Dirname(input));
    SplitJoin(Dirname(Dirname(input)), name);
  }

  /** Without `--out` the cleaned table goes to `<name>_cleaned<ext>` in the
      default output directory. */
  lemma DefaultCleanedPath(opts: Options)
    requires opts.output == ""
    ensures var (name, ext) := InputName(opts.input);
      Split(CleanedPath(opts)) == (OutputDir(opts.input), name + "_cleaned" + ext)
  {
    OutputDirSplit(opts.input);
    InputNameNoSlash(opts.input);
    SuffixesHaveNoSlash();
    var (name, ext) := InputName(opts.input);
    SplitJoinedName(OutputDir(opts.input), name, "_cleaned", ext);
  }

  /** Without `--pretty-out` the table layout goes to `<name>_pretty.txt` in
      the default output directory. */
  lemma DefaultPrettyPath(opts: Options)
    requires opts.prettyOut == ""
    ensures Split(PrettyPath(opts)) == (OutputDir(opts.input), InputName(opts.input).0 + "_pretty.txt")
  {
    OutputDirSplit(opts.input);
    InputNameNoSlash(opts.input);
    SuffixesHaveNoSlash();
    SplitJoinedPair(OutputDir(opts.input), InputName(opts.input).0, "_pretty.txt");
  }

  /** After a successful read the run is `CleanRun` on the table, after the
      output directory has been created. */
  lemma CleanerRunUnfold(opts: Options, isFile: bool, table: Option<Frame>,
                         toNumber: string -> Option<real>, numText: real -> string)
    requires table.Some? ==> WellFormed(table.value)
    ensures var made := [MadeDirs(OutputDir(opts.input))];
      CleanerRun(opts, isFile, table, toNumber, numText)
        == if !isFile || table.None? then Run(1, made) else CleanRun(table.value, opts, made, toNumber, numText)
  {
  }

  /** Saving keeps what was done before, ends with status 0 or 1, succeeds
      exactly when the cleaned frame prints and each file to save has a
      directory part; a successful save adds the pretty layout and, exactly
      when not previewing, the cleaned table, and a failed one never writes
      the table. */
  lemma SaveRunFacts(cleaned: Frame, pretty: string, output: string, preview: bool,
                     made: seq<Effect>, numText: real -> string)
    requires WellFormed(cleaned)
    ensures var run := SaveRun(cleaned, pretty, output, preview, made, numText);
      && (run.exitCode == 0 || run.exitCode == 1)
      && |made| <= |run.effects| && run.effects[..|made|] == made
      && (run.exitCode == 0 <==> ConsolePrintable(cleaned) && '/' in pretty && (preview || '/' in output))
      && (run.exitCode == 0 ==>
            run.effects[|made|..]
              == [MadeDirs(Dirname(pretty)), WroteText(pretty, PrettyText(PrettyLines(cleaned, numText).value))]
                 + (if preview then [] else [MadeDirs(Dirname(output)), WroteCsv(output, cleaned)]))
      && (run.exitCode == 1 ==> forall e :: e in run.effects[|made|..] ==> !e.WroteCsv?)
  {
    DirnameEmptyIff(pretty);
    DirnameEmptyIff(output);
  }

  /** After `read_csv` the run keeps what was done before and ends with
      status 0 or 1; a run that does not get past the console print or the
      number filling adds nothing. */
  lemma CleanRunPrefix(f: Frame, opts: Options, made: seq<Effect>,
                       toNumber: string -> Option<real>, numText: real -> string)
    requires WellFormed(f)
    ensures var run := CleanRun(f, opts, made, toNumber, numText);
      && (run.exitCode == 0 || run.exitCode == 1)
      && |made| <= |run.effects| && run.effects[..|made|] == made
      && (!ConsolePrintable(f) || NumberFillFails(Prepared(f, opts, toNumber), opts.fillNumbers) ==>
            run == Run(1, made))
  {
    if ConsolePrintable(f) && !NumberFillFails(Prepared(f, opts, toNumber), opts.fillNumbers) {
      SaveRunFacts(Clean(f, opts, toNumber), PrettyPath(opts), CleanedPath(opts), opts.preview, made, numText);
    }
  }

  /** Every run starts by creating the output directory and ends with status 0
      or 1; a missing or unreadable input fails without writing anything. */
  lemma CleanerRunStart(opts: Options, isFile: bool, table: Option<Frame>,
                        toNumber: string -> Option<real>, numText: real -> string)
    requires table.Some? ==> WellFormed(table.value)
    ensures var run := CleanerRun(opts, isFile, table, toNumber, numText);
      && (run.exitCode == 0 || run.exitCode == 1)
      && |run.effects| > 0 && run.effects[0] == MadeDirs(OutputDir(opts.input))
      && (!isFile || table.None? ==> run.exitCode == 1 && |run.effects| == 1)
  {
    CleanerRunUnfold(opts, isFile, table, toNumber, numText);
    var made := [MadeDirs(OutputDir(opts.input))];
    var run := CleanerRun(opts, isFile, table, toNumber, numText);
    if isFile && table.Some? {
      CleanRunPrefix(table.value, opts, made, toNumber, numText);
      assert run.effects[0] == run.effects[..|made|][0];
    }
  }

  /** What a run that either failed before saving or went on to save leaves
      behind. */
  lemma SavedOutcome(run: Run, failed: bool, cleaned: Frame, pretty: string, output: string, preview: bool,
                     made: seq<Effect>, numText: real -> string)
    requires WellFormed(cleaned)
    requires run == if failed then Run(1, made) else SaveRun(cleaned, pretty, output, preview, made, numText)
    ensures run.exitCode == 0 <==> !failed && ConsolePrintable(cleaned) && '/' in pretty && (preview || '/' in output)
    ensures run.exitCode == 0 ==>
      var added := run.effects[|made|..];
      && WroteText(pretty, PrettyText(PrettyLines(cleaned, numText).value)) in added
      && (WroteCsv(output, cleaned) in added <==> !preview)
  {
    if !failed {
      SaveRunFacts(cleaned, pretty, output, preview, made, numText);
      if run.exitCode == 0 {
        var added := run.effects[|made|..];
        assert added[1] == WroteText(pretty, PrettyText(PrettyLines(cleaned, numText).value));
        if preview {
          assert |added| == 2 && !added[0].WroteCsv? && !added[1].WroteCsv?;
        } else {
          assert added[3] == WroteCsv(output, cleaned);
        }
      }
    }
  }

  /** After `read_csv` the run succeeds exactly when both console prints and
      the number filling get through and each file to save has a directory
      part; it has then written, after what was done before, the cleaned
      table's layout to the pretty path and, exactly when not previewing, the
      cleaned table to the output path. */
  lemma CleanRunOutcome(f: Frame, opts: Options, made: seq<Effect>,
                        toNumber: string -> Option<real>, numText: real -> string)
    requires WellFormed(f)
    ensures var run := CleanRun(f, opts, made, toNumber, numText);
      && (run.exitCode == 0 <==>
            && ConsolePrintable(f)
            && !NumberFillFails(Prepared(f, opts, toNumber), opts.fillNumbers)
            && ConsolePrintable(Clean(f, opts, toNumber))
            && '/' in PrettyPath(opts)
            && (opts.preview || '/' in CleanedPath(opts)))
      && (run.exitCode == 0 ==>
            var cleaned, added := Clean(f, opts, toNumber), run.effects[|made|..];
            && WroteText(PrettyPath(opts), PrettyText(PrettyLines(cleaned, numText).value)) in added
            && (WroteCsv(CleanedPath(opts), cleaned) in added <==> !opts.preview))
  {
    var failed := !ConsolePrintable(f) || NumberFillFails(Prepared(f, opts, toNumber), opts.fillNumbers);
    SavedOutcome(CleanRun(f, opts, made, toNumber, numText), failed, Clean(f, opts, toNumber),
                 PrettyPath(opts), CleanedPath(opts), opts.preview, made, numText);
  }

  /** With the default paths each file to save has a directory part, so
      `os.makedirs` gets a non-empty name. */
  lemma DefaultPathsHaveDirectory(opts: Options)
    ensures opts.prettyOut == "" ==> '/' in PrettyPath(opts)
    ensures opts.output == "" ==> '/' in CleanedPath(opts)
  {
    OutputDirSplit(opts.input);
    if opts.prettyOut == "" {
      DefaultPrettyPath(opts);
      DirnameEmptyIff(PrettyPath(opts));
    }
    if opts.output == "" {
      DefaultCleanedPath(opts);
      DirnameEmptyIff(CleanedPath(opts));
    }
  }

  /** After cleaning, the names are the normalised ones, no text column holds
      NaN and each of its strings is stripped, the rows before number filling
      are free of duplicates and never more than the input's, and zero filling
      leaves no NaN in a numeric column. */
  lemma CleanFacts(f: Frame, opts: Options, toNumber: string -> Option<real>)
    requires WellFormed(f)
    ensures var prepared, cleaned := Prepared(f, opts, toNumber), Clean(f, opts, toNumber);
      && cleaned.names == NormalizedNames(f.names)
      && Distinct(prepared.rows) && |prepared.rows| <= |f.rows| && |cleaned.rows| == |prepared.rows|
      && (forall i, j :: 0 <= i < |cleaned.rows| && 0 <= j < |f.names| && cleaned.kinds[j] == Text ==>
            !cleaned.rows[i][j].NaN? && (cleaned.rows[i][j].Str? ==> Stripped(cleaned.rows[i][j].text)))
      && (opts.fillNumbers == ZeroFill ==> !NumericNaN(cleaned))
  {
    var normalized := f.(names := NormalizedNames(f.names));
    var detected := DetectNumeric(normalized, toNumber);
    var filled := FillStrings(detected, opts.fillStrings);
    var prepared := Prepared(f, opts, toNumber);
    DetectNumericFacts(normalized, toNumber);
    FillStringsFacts(detected, opts.fillStrings);
    DedupDistinct(filled.rows);
    assert forall i :: 0 <= i < |prepared.rows| ==> prepared.rows[i] in filled.rows;
    assert prepared.kinds == detected.kinds;
    if opts.fillNumbers == ZeroFill {
      ZeroFillFacts(prepared);
    } else if opts.fillNumbers == MeanFill {
      MapColumnsCells(prepared, OfKind(prepared, Numeric), Numeric,
                      (j: nat, c: Cell) => match FillValue(prepared, j, MeanFill) case Some(v) => FillNumber(c, v) case None => c,
                      |prepared.names|);
    }
  }

  /** Duplicates are dropped before the numbers are filled, so the cleaned
      table can hold two equal rows: a missing number and a 0 become 0 and 0. */
  lemma DuplicatesAfterFilling(name: string, opts: Options, toNumber: string -> Option<real>)
    requires opts.fillNumbers == ZeroFill
    ensures var f := Frame([name], [Numeric], [[NaN], [Num(0.0)]]);
      Clean(f, opts, toNumber).rows == [[Num(0.0)], [Num(0.0)]]
  {
    var f := Frame([name], [Numeric], [[NaN], [Num(0.0)]]);
    var normalized := f.(names := NormalizedNames(f.names));
    MapColumnsNone(normalized, (j: nat) => Detects(normalized, j, toNumber), Numeric,
                   (j: nat, c: Cell) => Coerce(c, toNumber), 1);
    var detected := DetectNumeric(normalized, toNumber);
    MapColumnsNone(detected, OfKind(detected, Text), Text, (j: nat, c: Cell) => FillThenStrip(c, opts.fillStrings), 1);
    var rows := [[NaN], [Num(0.0)]];
    assert rows[..1] == [[NaN]] && rows[..1][..0] == [];
    var prepared := Prepared(f, opts, toNumber);
    assert prepared.rows == rows;
    var cleaned := FillNumbers(prepared, ZeroFill);
    ZeroFillFacts(prepared);
    assert cleaned.rows[0] == [Num(0.0)] && cleaned.rows[1] == [Num(0.0)];
  }
}
