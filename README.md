# A verified model of a collection of small Python utilities

This project models, in Dafny, the core of a repository of small Python tools:

- **python-auto-file-organizer** (`auto_cleanup.py`): sorts the regular files
  of a folder into subfolders named after their extension or their
  modification date. `safe_move` never overwrites: it appends `_1`, `_2`, …
  to the stem until the name is free. `--reset` restores a demo folder to
  its five sample files.
- **csv-cleaner**, in both variants:
  - the packaged `src/cleaner.py`;
  - the stand-alone script `cleaner.py`.

  Both normalise column names, turn mostly-numeric text columns into numbers,
  fill and strip missing text, drop duplicate rows, fill missing numbers and
  write a fixed-width text table beside the cleaned CSV.
- **treasure_island** (`treasure.py`): the three choosers and the decision
  tree of the game.
- **tip_calculator** (`calculator.py`): the input stripping and the EU/US
  separator fallback of `parse_number`.
- **band-name-generator**: `generate_band_name`, and the `strip` of
  `get_user_input`.

## Modules

| file | module | what it holds |
|---|---|---|
| `wrappers.dfy` | `Wrappers` | `Option` |
| `pystr.dfy` | `PyStr` | Python `str` operations used by the tools: `strip`, `lower`, `count`, `replace`, `rfind`, `ljust`, `str(n)` and zero padding |
| `posixpath.dfy` | `PosixPath` | `os.path.split`, `dirname`, `basename`, `splitext`, `join` |
| `organizer_keys.dfy` | `OrganizerKeys` | pathlib `suffix` and `stem`, the extension key, the `YYYY-MM-DD` date key |
| `filesystem.dfy` | `FileTree` | a file tree as a value (`Fs`), its primitive operations, and the mutable `FileSystem` class the organizer works on |
| `auto_cleanup.dfy` | `AutoCleanup` | `safe_move`, the two organize loops, `reset_folder` and `main` |
| `csv_rules.dfy` | `CsvRules` | the per-cell and per-column rules both cleaners share |
| `csv_frame.dfy` | `CsvFrame` | the table (`Frame`), the cleaning steps as functions, the mutable `DataFrame` class, and the pretty-table layout |
| `csv_cleaner.dfy` | `CsvCleaner` | `main` of `csv-cleaner/src/cleaner.py` |
| `csv_script.dfy` | `CsvScript` | the script `csv-cleaner/cleaner.py` |
| `treasure.dfy` | `TreasureIsland` | the Treasure Island game |
| `tip_calculator.dfy` | `TipCalculator` | `parse_number` |
| `band_name.dfy` | `BandName` | the band name generator |

### The file organizer

The file system is a map from paths to entries (content bytes and
modification date) plus a set of directory paths. A path is a sequence of
components, and `[]` is the root. The organizer's imperative code runs
against a `FileSystem` object. Each of its methods is proved against a
function of the old state:
- `SafeMove` against `SafeMoveSpec`;
- `OrganizeFolder` against the fold `Organize`;
- `ResetFolder` against `Reset`.

Lemmas about those functions then state what the source promises:
- no overwrite;
- the least free counter;
- a dry run still creates the folder;
- nothing else changes;
- after a reset the folder holds exactly the samples;
- a reset is idempotent.

An exception that escapes `main` (from `mkdir` or `iterdir`) is modelled as
an unsuccessful outcome that stops the loop.

### The CSV cleaners

A table is a `Frame`: column names, a dtype per column (text or numeric) and
rows of cells. A cell is `Str`, `Num` or `NaN`. The loops over the columns are
methods of the `DataFrame` class. Each method is proved against the function
that specifies its step.

A run of either cleaner is a `Run`: the exit status and the sequence of file
effects (directories made, text written, CSV written). Two things are
parameters of the model:
- `pd.to_numeric`'s notion of "parses as a number" (`toNumber`);
- the text of a number (`numText`).

## Model

| member | source | states |
|---|---|---|
| `OrganizerKeys.Suffix` | python-auto-file-organizer/auto_cleanup.py:79 | pathlib's suffix is empty or a dot followed by at least one dot-free character, and it ends the name |
| `OrganizerKeys.Stem` | python-auto-file-organizer/auto_cleanup.py:67 | stem followed by suffix gives the name back |
| `OrganizerKeys.NoSuffixIff` | python-auto-file-organizer/auto_cleanup.py:79 | a name has no suffix exactly when it has no dot after its first character, or it ends with a dot |
| `OrganizerKeys.ExtensionKeyIsLastDotPart` | python-auto-file-organizer/auto_cleanup.py:79 | with a suffix, the key is the non-empty, dot-free text after the last dot, case preserved, and `stem + "." + key` is the name |
| `OrganizerKeys.ExtensionKeyExamples` | python-auto-file-organizer/auto_cleanup.py:79 | `a.tar.gz` gives `gz`, `Photo.JPG` gives `JPG`; `README`, `.bashrc` and `draft.` give `no_extension` |
| `OrganizerKeys.DateKey` | python-auto-file-organizer/auto_cleanup.py:88 | `%Y-%m-%d` is ten characters, with dashes at 4 and 7 and digits elsewhere |
| `OrganizerKeys.DateKeyRoundTrip` | python-auto-file-organizer/auto_cleanup.py:87-89 | parsing the date folder name gives the date back, so different dates never share a folder |
| `OrganizerKeys.DateKeyExample` | python-auto-file-organizer/auto_cleanup.py:88 | 5 March 2024 gives `2024-03-05` |
| `PyStr.DecimalValue` | python-auto-file-organizer/auto_cleanup.py:67 | reading back `str(n)` gives `n` |
| `PyStr.DecimalInjective` | python-auto-file-organizer/auto_cleanup.py:67 | different counters render differently |
| `PyStr.ZeroPadValue` | python-auto-file-organizer/auto_cleanup.py:88 | a zero-padded field reads back as the number |
| `FileTree.Mkdirs` | python-auto-file-organizer/auto_cleanup.py:63 | `mkdir(parents=True, exist_ok=True)` never touches a file |
| `FileTree.MkdirsFacts` | python-auto-file-organizer/auto_cleanup.py:63 | `mkdir` raises exactly when a regular file is at the folder or an ancestor; otherwise the tree stays well-formed, the folder is a directory, files are unchanged, no directory disappears and only ancestors of the folder are added |
| `FileTree.AncestorIsDir` | python-auto-file-organizer/auto_cleanup.py:77 | in a well-formed tree every proper ancestor of an entry is a directory |
| `FileTree.NothingInsideFile` | python-auto-file-organizer/auto_cleanup.py:63 | nothing lies inside a regular file |
| `FileTree.FileSystem.constructor` | python-auto-file-organizer/auto_cleanup.py:116 | the object holds the given well-formed tree |
| `FileTree.FileSystem.Mkdir` | python-auto-file-organizer/auto_cleanup.py:63 | the new state is `Mkdirs` of the old, and a failed `mkdir` changes nothing |
| `FileTree.FileSystem.Rename` | python-auto-file-organizer/auto_cleanup.py:72 | `shutil.move` onto a free path in an existing folder moves the one entry |
| `FileTree.FileSystem.Unlink` | python-auto-file-organizer/auto_cleanup.py:105 | `unlink` removes exactly that file |
| `FileTree.FileSystem.Rmtree` | python-auto-file-organizer/auto_cleanup.py:100 | `rmtree` removes the directory and everything inside it, and nothing else |
| `FileTree.FileSystem.Touch` | python-auto-file-organizer/auto_cleanup.py:111 | `touch` on a missing path adds one empty file dated now |
| `FileTree.FileSystem.IterDir` | python-auto-file-organizer/auto_cleanup.py:77 | `iterdir` lists every entry of the folder exactly once |
| `AutoCleanup.CandidateNameInjective` | python-auto-file-organizer/auto_cleanup.py:64-67 | different counters give different candidate names |
| `AutoCleanup.CandidateInjective` | python-auto-file-organizer/auto_cleanup.py:64-67 | different counters give different candidate paths |
| `AutoCleanup.CandidateSetStep` | python-auto-file-organizer/auto_cleanup.py:65-68 | one more loop turn adds exactly one candidate |
| `AutoCleanup.CandidateSetFresh` | python-auto-file-organizer/auto_cleanup.py:65-68 | the next candidate has not been tried yet |
| `AutoCleanup.CandidateSetSize` | python-auto-file-organizer/auto_cleanup.py:65-68 | after `n` turns, `n` distinct paths have been tried |
| `AutoCleanup.CandidatesBound` | python-auto-file-organizer/auto_cleanup.py:66 | if the first `n` candidates all exist, the tree has at least `n` entries, so the loop terminates |
| `AutoCleanup.SubsetCard` | python-auto-file-organizer/auto_cleanup.py:66 | a subset is no larger than its superset (the counting step of termination) |
| `AutoCleanup.FirstFree` | python-auto-file-organizer/auto_cleanup.py:65-68 | the search returns a free candidate, and every smaller counter's candidate is taken |
| `AutoCleanup.FirstFreeIsLeast` | python-auto-file-organizer/auto_cleanup.py:65-68 | the free candidate preceded only by taken ones is the one the loop finds |
| `AutoCleanup.ResolveFacts` | python-auto-file-organizer/auto_cleanup.py:64-68 | the chosen path does not exist and lies directly in the folder; the file's own name is used when free, otherwise `stem_k + suffix` for the least free `k >= 1` |
| `AutoCleanup.CandidateKeepsSuffix` | python-auto-file-organizer/auto_cleanup.py:67 | a counter-suffixed name keeps the suffix and the extension key |
| `AutoCleanup.SafeMoveFacts` | python-auto-file-organizer/auto_cleanup.py:61-73 | `safe_move` fails exactly when `mkdir` raises; the folder then exists even in a dry run; a dry run moves nothing; a real run moves the content to a path that did not exist, removes the old path and leaves every other file as it was |
| `AutoCleanup.FindFreeTarget` | python-auto-file-organizer/auto_cleanup.py:64-68 | the `while` loop ends on the resolved free path |
| `AutoCleanup.SafeMove` | python-auto-file-organizer/auto_cleanup.py:61-73 | the new state is `SafeMoveSpec` of the old; the target is the resolved path; a failure changes nothing |
| `AutoCleanup.OrganizeFolder` | python-auto-file-organizer/auto_cleanup.py:75-90 | `iterdir` raises on a non-directory and nothing changes; otherwise the loop visits each entry of the source once, and the new state is the fold `Organize` over that order, which moves regular files only, by extension or by date |
| `AutoCleanup.OrganizeEntry` | python-auto-file-organizer/auto_cleanup.py:78-90 | one turn of the loop: a regular file is moved under its key and a failed move stops the fold; anything else is skipped |
| `AutoCleanup.CardSwap` | python-auto-file-organizer/auto_cleanup.py:72 | a move keeps the number of files |
| `AutoCleanup.OrganizeFacts` | python-auto-file-organizer/auto_cleanup.py:75-90 | organizing keeps the tree well-formed, only adds directories, keeps the number of files, leaves unvisited files untouched and moves nothing in a dry run |
| `AutoCleanup.OrganizeMovesVisitedOut` | python-auto-file-organizer/auto_cleanup.py:77-81 | after a completed real run, a file directly in the source was there before and was not visited |
| `AutoCleanup.OrganizeClearsSource` | python-auto-file-organizer/auto_cleanup.py:75-90 | a completed real run over all entries leaves no regular file directly in the source, unless the source is a key folder of the destination |
| `AutoCleanup.PrunedStep` | python-auto-file-organizer/auto_cleanup.py:98-100 | one `rmtree` adds one child directory to the removed set |
| `AutoCleanup.PrunedChildDir` | python-auto-file-organizer/auto_cleanup.py:99 | a child is still a directory after pruning exactly when it was one and was not removed |
| `AutoCleanup.ChildDirsListed` | python-auto-file-organizer/auto_cleanup.py:98-99 | the directories in the listing are exactly the child directories |
| `AutoCleanup.DeleteSubfolders` | python-auto-file-organizer/auto_cleanup.py:98-100 | the first loop removes every subfolder with its contents |
| `AutoCleanup.SubfolderStep` | python-auto-file-organizer/auto_cleanup.py:98-100 | the entry the first loop looks at is a directory now exactly when it was one at the start, and removing it extends the set of removed subfolders by one |
| `AutoCleanup.UnlinkedStep` | python-auto-file-organizer/auto_cleanup.py:103-105 | one turn of the second loop unlinks the entry exactly when it is a stray file |
| `AutoCleanup.DeleteStrays` | python-auto-file-organizer/auto_cleanup.py:103-105 | the second loop unlinks every file whose name is not a sample name |
| `AutoCleanup.StrayStep` | python-auto-file-organizer/auto_cleanup.py:103-105 | one turn of the second loop unlinks the entry exactly when it is a regular file whose name is not a sample name |
| `AutoCleanup.StraysListed` | python-auto-file-organizer/auto_cleanup.py:103-105 | once every listed entry has been looked at, exactly the stray files are gone |
| `AutoCleanup.CreateSamples` | python-auto-file-organizer/auto_cleanup.py:108-111 | the third loop touches each missing sample name in list order |
| `AutoCleanup.ResetFolder` | python-auto-file-organizer/auto_cleanup.py:92-112 | the new state is `Reset` of the old; a raised `mkdir` or `iterdir` changes nothing |
| `AutoCleanup.PrunedWellFormed` | python-auto-file-organizer/auto_cleanup.py:100 | removing subfolders keeps the tree well-formed |
| `AutoCleanup.RemoveSubfoldersFacts` | python-auto-file-organizer/auto_cleanup.py:98-100 | after the first loop, everything inside the folder is a direct file |
| `AutoCleanup.RemoveSubfoldersKeeps` | python-auto-file-organizer/auto_cleanup.py:98-100 | the first loop keeps the folder's direct files and everything outside the folder, with their contents |
| `AutoCleanup.RemoveStraysFacts` | python-auto-file-organizer/auto_cleanup.py:103-105 | after the second loop every direct file has a sample name, and non-strays and the contents are kept |
| `AutoCleanup.AddSamplesFacts` | python-auto-file-organizer/auto_cleanup.py:108-111 | the third loop only adds empty files dated now with sample names, one for each missing name, and keeps the rest |
| `AutoCleanup.TouchFacts` | python-auto-file-organizer/auto_cleanup.py:109-111 | touching one sample name adds an empty file dated now when nothing is there, and keeps everything else |
| `AutoCleanup.ResetFailsIff` | python-auto-file-organizer/auto_cleanup.py:94-98 | `reset_folder` raises exactly when a regular file sits at the folder or an ancestor |
| `AutoCleanup.ResetStart` | python-auto-file-organizer/auto_cleanup.py:94-95 | the three loops start from a well-formed tree where the folder is a directory and the files are unchanged |
| `AutoCleanup.ChildIsFolderPlusName` | python-auto-file-organizer/auto_cleanup.py:109 | a child of the folder is `folder / name` |
| `AutoCleanup.ResetLeavesExactlySamples` | python-auto-file-organizer/auto_cleanup.py:92-112 | after a reset the folder holds exactly the five sample files and nothing else at any depth |
| `AutoCleanup.StagesLeaveSamples` | python-auto-file-organizer/auto_cleanup.py:97-111 | after the three loops, run on an existing folder, the folder holds only direct files with sample names and every sample name is present |
| `AutoCleanup.ResetSampleContents` | python-auto-file-organizer/auto_cleanup.py:108-111 | a sample that existed keeps its content and date, and a missing one is created empty |
| `AutoCleanup.ResetOutsideUnchanged` | python-auto-file-organizer/auto_cleanup.py:92-112 | outside the folder no file changes and no directory disappears |
| `AutoCleanup.PrunedNothing` | python-auto-file-organizer/auto_cleanup.py:98-100 | removing no subfolder changes nothing |
| `AutoCleanup.AddSamplesExisting` | python-auto-file-organizer/auto_cleanup.py:110 | touching names that all exist changes nothing |
| `AutoCleanup.NoSubfoldersToRemove` | python-auto-file-organizer/auto_cleanup.py:98-100 | a reset folder has no subfolder to remove |
| `AutoCleanup.NoStraysToRemove` | python-auto-file-organizer/auto_cleanup.py:103-105 | a reset folder has no stray file to unlink |
| `AutoCleanup.ResetOfReset` | python-auto-file-organizer/auto_cleanup.py:92-112 | resetting a folder that holds exactly the samples changes nothing |
| `AutoCleanup.ResetIdempotent` | python-auto-file-organizer/auto_cleanup.py:92-112 | a second reset, at any time, changes nothing |
| `AutoCleanup.RunCli` | python-auto-file-organizer/auto_cleanup.py:114-130 | `--reset` runs exactly `Reset` on the source; otherwise a source that is not a directory changes nothing; otherwise the organizer runs on the destination, which defaults to the source |
| `PyStr.TrimStart` | csv-cleaner/src/cleaner.py:55 | `lstrip` removes exactly the leading whitespace |
| `PyStr.TrimEnd` | csv-cleaner/src/cleaner.py:55 | `rstrip` removes exactly the trailing whitespace |
| `PyStr.Strip` | csv-cleaner/src/cleaner.py:55 | the result of `strip` has no whitespace at either end |
| `PyStr.StripOfStripped` | csv-cleaner/src/cleaner.py:55 | `strip` leaves a stripped string unchanged |
| `PyStr.StripIdempotent` | csv-cleaner/src/cleaner.py:55 | `strip` is idempotent |
| `PyStr.StripPadded` | csv-cleaner/tests/test_cleaner.py:19 | a word padded with one space on each side strips to the word |
| `PyStr.TrimStartSpaces` | band-name-generator/band_name_generator.py:12 | leading whitespace before a word is exactly what `lstrip` drops |
| `PyStr.TrimEndSpaces` | band-name-generator/band_name_generator.py:12 | trailing whitespace after a word is exactly what `rstrip` drops |
| `PyStr.StripSurrounded` | band-name-generator/band_name_generator.py:12 | a word surrounded by any whitespace strips to the word |
| `PyStr.StripAllSpace` | csv-cleaner/src/cleaner.py:55 | a whitespace-only string strips to `""` |
| `PyStr.Lower` | treasure_island/treasure.py:3 | `lower` keeps the length |
| `PyStr.LowerFacts` | treasure_island/treasure.py:3 | `lower` is idempotent and does not change which characters are whitespace |
| `PyStr.LowerKeepsStripped` | treasure_island/treasure.py:3 | lowering a stripped string keeps it stripped |
| `PyStr.LowerOfLower` | treasure_island/treasure.py:4 | a string without capitals is its own lower case |
| `PyStr.LowerTrimStart` | treasure_island/treasure.py:3 | lowering and `lstrip` commute |
| `PyStr.LowerTrimEnd` | treasure_island/treasure.py:3 | lowering and `rstrip` commute |
| `PyStr.LowerStrip` | treasure_island/treasure.py:3 | `s.strip().lower() == s.lower().strip()` |
| `PyStr.CountPositive` | tip_calculator/calculator.py:36-39 | a character is counted at least once exactly when it occurs |
| `PyStr.CountConcat` | tip_calculator/calculator.py:36-39 | counts add over concatenation |
| `PyStr.ReplaceCount` | tip_calculator/calculator.py:36-39 | after `replace(c, repl)`, each character occurs as often as before, except `c`, and `repl`'s characters once per replaced `c` |
| `PyStr.ReplaceConcat` | tip_calculator/calculator.py:36-39 | `replace` commutes with concatenation |
| `PyStr.ReplaceLength` | tip_calculator/calculator.py:39 | removing a character shortens the string by its count |
| `PyStr.ReplaceAbsent` | tip_calculator/calculator.py:39 | replacing an absent character changes nothing |
| `PyStr.RFind` | tip_calculator/calculator.py:32-33 | `rfind` returns -1 or an index holding the character, with none after it |
| `PyStr.Repeat` | csv-cleaner/src/cleaner.py:89 | `"-" * n` is `n` dashes |
| `PyStr.LJust` | csv-cleaner/src/cleaner.py:87 | `ljust(w)` keeps the string and pads it with spaces to at least `w` |
| `PosixPath.RStripSlashes` | csv-cleaner/cleaner.py:49 | the head loses exactly its trailing slashes |
| `PosixPath.SplitTail` | csv-cleaner/cleaner.py:49 | the tail of `split` holds no slash and ends the path |
| `PosixPath.SplitextParts` | csv-cleaner/cleaner.py:43 | root plus extension is the path; an extension is a dot followed by characters that are neither dots nor slashes |
| `PosixPath.SplitJoinTail` | csv-cleaner/cleaner.py:51 | splitting `join(a, b)` gives back the slash-free name `b` |
| `PosixPath.SplitJoinHead` | csv-cleaner/cleaner.py:51 | splitting `join(d, b)` gives back a directory that came from `split` |
| `PosixPath.SplitHeadShape` | csv-cleaner/cleaner.py:49 | the head of `split` has no trailing slash unless it is all slashes |
| `PosixPath.SplitJoin` | csv-cleaner/src/cleaner.py:112-119 | joining a directory and a plain name gives a non-empty path not ending in a slash, which `split` takes back apart into the same directory and name |
| `PosixPath.RFindAppend` | csv-cleaner/cleaner.py:44 | appending slash-free text does not move the last slash |
| `PosixPath.SplitAppend` | csv-cleaner/cleaner.py:44 | appending slash-free text keeps the directory and extends the file name |
| `PosixPath.JoinEndsWith` | csv-cleaner/src/cleaner.py:116 | the joined path ends with the name |
| `PosixPath.DirnameEmptyIff` | csv-cleaner/src/cleaner.py:80-84 | `dirname` is empty exactly for a path without a slash |
| `CsvRules.ReplaceSpaceKeepsEnds` | csv-cleaner/src/cleaner.py:38 | `replace(" ", "_")` maps each space to `_` and keeps every other character |
| `CsvRules.NormalizeNameShape` | csv-cleaner/src/cleaner.py:38 | a normalised name is stripped, has no space and no capital, and is as long as the stripped name |
| `CsvRules.UnderscoredShape` | csv-cleaner/src/cleaner.py:38 | replacing spaces by underscores in a stripped name keeps it stripped and as long, and leaves no space |
| `CsvRules.LowerKeepsNoSpace` | csv-cleaner/src/cleaner.py:38 | `lower` introduces no space |
| `CsvRules.NormalizeNameIdempotent` | csv-cleaner/src/cleaner.py:38 | normalising twice is normalising once |
| `CsvRules.NormalizePadded` | csv-cleaner/tests/test_cleaner.py:19-21 | a space-free word padded with spaces normalises to its lower case |
| `CsvRules.NormalizeNameExamples` | csv-cleaner/tests/test_cleaner.py:19-21 | `" Name "` and `" Age "` become `name` and `age` |
| `CsvRules.LowerName` | csv-cleaner/tests/test_cleaner.py:21 | `Name` lowers to `name` |
| `CsvRules.LowerAge` | csv-cleaner/tests/test_cleaner.py:21 | `Age` lowers to `age` |
| `CsvRules.ParsedAtMostNonEmpty` | csv-cleaner/src/cleaner.py:43-45 | only non-empty cells can parse |
| `CsvRules.ConvertsIffRatio` | csv-cleaner/src/cleaner.py:46 | the integer rule `5*parsed >= 4*nonEmpty` with `nonEmpty > 0` is exactly `parsed / nonEmpty >= 0.8` |
| `CsvRules.RatioRule` | csv-cleaner/src/cleaner.py:46 | `5p >= 4n` iff `p/n >= 0.8` |
| `CsvRules.MulMonotone` | csv-cleaner/src/cleaner.py:46 | multiplying by a positive number keeps the order |
| `CsvRules.AllParsedConverts` | csv-cleaner/tests/test_cleaner.py:24-26 | a column whose strings all parse is converted |
| `CsvRules.AllParsedCounts` | csv-cleaner/src/cleaner.py:44-45 | when every cell parses, both counts equal the length |
| `CsvRules.ThresholdExamples` | csv-cleaner/src/cleaner.py:46 | four numbers and one word converts; three and one does not; an all-blank column does not |
| `CsvRules.FillThenStripFacts` | csv-cleaner/src/cleaner.py:53-55 | after `fill_strings` a text cell is a stripped string; a missing or blank cell holds the stripped fill value |
| `CsvRules.StripThenFillFacts` | csv-cleaner/cleaner.py:77-78 | after strip-then-fill a cell is the fill value or a stripped non-blank string, and it is never blank unless the fill value is |
| `CsvRules.WhitespaceOnlyCell` | csv-cleaner/src/cleaner.py:53-55 | a whitespace-only cell becomes `""` when filling first, and the fill value when stripping first (csv-cleaner/cleaner.py:77-78) |
| `CsvRules.FillKeepsText` | csv-cleaner/src/cleaner.py:53-55 | a stripped non-blank cell is kept |
| `CsvRules.FillMissing` | csv-cleaner/src/cleaner.py:53-55 | a missing or blank cell becomes a stripped fill value |
| `CsvRules.KeptWhenStripped` | csv-cleaner/src/cleaner.py:55 | `strip` keeps a string without whitespace at its ends |
| `CsvRules.MeanBounds` | csv-cleaner/src/cleaner.py:62 | the column mean lies between the smallest and the largest number |
| `CsvRules.DivBounds` | csv-cleaner/src/cleaner.py:62 | dividing bounds by the count gives bounds on the mean |
| `CsvRules.SumBounds` | csv-cleaner/src/cleaner.py:62 | the sum lies between count times the lower and count times the upper bound |
| `CsvFrame.Column` | csv-cleaner/src/cleaner.py:43 | `df[col]` holds the column's cell of every row |
| `CsvFrame.MapRow` | csv-cleaner/src/cleaner.py:51-55 | rewriting a row keeps its length |
| `CsvFrame.MapColumns` | csv-cleaner/src/cleaner.py:42-47 | the column loop keeps names, row count and shape |
| `CsvFrame.SetColumn` | csv-cleaner/src/cleaner.py:47 | `df[col] = ...` keeps the frame well-formed |
| `CsvFrame.MapColumnsStep` | csv-cleaner/src/cleaner.py:42-47 | one more loop turn rewrites that column exactly when it is selected |
| `CsvFrame.MapColumnsNone` | csv-cleaner/src/cleaner.py:42 | a loop over no selected column changes nothing |
| `CsvFrame.MapColumnsCells` | csv-cleaner/src/cleaner.py:51-55 | selected columns hold the rewritten cells, and every other cell is unchanged |
| `CsvFrame.NormalizedNames` | csv-cleaner/src/cleaner.py:38 | the column count is kept |
| `CsvFrame.NormalizedNamesFacts` | csv-cleaner/src/cleaner.py:38 | each name is normalised in order, and a second pass changes nothing |
| `CsvFrame.NormalizedNamesExample` | csv-cleaner/tests/test_cleaner.py:19-21 | the columns `" Name "` and `" Age "` become `["name", "age"]` |
| `CsvFrame.DetectNumericFacts` | csv-cleaner/src/cleaner.py:41-48 | a column becomes numeric exactly when it was numeric or is a text column passing the threshold; a converted column holds only NaN and the parsed numbers; others are untouched |
| `CsvFrame.DetectNumericIdempotent` | csv-cleaner/src/cleaner.py:41-48 | a second detection changes nothing |
| `CsvFrame.FillStringsFacts` | csv-cleaner/src/cleaner.py:50-56 | after `fill_strings` no text cell is NaN, strings are stripped, missing or blank cells hold the stripped fill value, and numeric columns and dtypes are unchanged |
| `CsvFrame.StripFillStringsFacts` | csv-cleaner/cleaner.py:76-78 | after the strip-then-fill loop no text cell is NaN or, with a non-blank fill value, blank |
| `CsvFrame.ZeroFillFacts` | csv-cleaner/src/cleaner.py:63-64 | zero filling turns each numeric NaN into 0 and keeps every other cell |
| `CsvFrame.MeanFillFacts` | csv-cleaner/src/cleaner.py:61-62 | mean filling puts a value between the column's bounds into each NaN (or leaves NaN when there is no number) and keeps the other cells |
| `CsvFrame.NoFillKeeps` | csv-cleaner/src/cleaner.py:132-133 | the `none` mode changes nothing |
| `CsvFrame.ZeroFillExample` | csv-cleaner/tests/test_cleaner.py:34-36 | `[10, None, 20]` zero-fills to `[10, 0, 20]` |
| `CsvFrame.Dedup` | csv-cleaner/src/cleaner.py:77 | `drop_duplicates` never grows the table and keeps exactly the same set of rows |
| `CsvFrame.FirstIndex` | csv-cleaner/src/cleaner.py:77 | the first occurrence of a row |
| `CsvFrame.DedupDistinct` | csv-cleaner/src/cleaner.py:77 | no row is left twice |
| `CsvFrame.DedupKeepsFirstOrder` | csv-cleaner/src/cleaner.py:77 | the kept rows come in the order of their first occurrences |
| `CsvFrame.FirstIndexOfInit` | csv-cleaner/src/cleaner.py:77 | appending a row does not move earlier first occurrences |
| `CsvFrame.FirstIndexOfLast` | csv-cleaner/src/cleaner.py:77 | a new last row's first occurrence is itself |
| `CsvFrame.DedupOfDistinct` | csv-cleaner/src/cleaner.py:77 | a table without duplicates is left as it is |
| `CsvFrame.DedupIdempotent` | csv-cleaner/src/cleaner.py:77 | deduplicating twice is deduplicating once |
| `CsvFrame.DropDuplicates` | csv-cleaner/src/cleaner.py:77 | the result is well-formed |
| `CsvFrame.DropDuplicatesExample` | csv-cleaner/tests/test_cleaner.py:39-41 | `x = [1, 1, 2]` keeps two rows |
| `CsvFrame.MaxLen` | csv-cleaner/src/cleaner.py:86 | the maximum length bounds every cell and is attained, and it is 0 for no cell |
| `CsvFrame.RenderedColumn` | csv-cleaner/src/cleaner.py:86 | one string per row |
| `CsvFrame.RenderedRow` | csv-cleaner/src/cleaner.py:91 | one string per column |
| `CsvFrame.Widths` | csv-cleaner/src/cleaner.py:86 | one width per column |
| `CsvFrame.RowLines` | csv-cleaner/src/cleaner.py:90-92 | one line per row |
| `CsvFrame.PrettyTextSnoc` | csv-cleaner/src/cleaner.py:88-92 | writing one more line appends it and a newline |
| `CsvFrame.SegmentsLength` | csv-cleaner/src/cleaner.py:87 | a line of fitting cells is the sum of the widths long |
| `CsvFrame.SegmentsAt` | csv-cleaner/src/cleaner.py:87 | the cell of column `j` starts at the sum of the earlier widths |
| `CsvFrame.WidthsFit` | csv-cleaner/src/cleaner.py:86 | every name and cell is at least two shorter than its column's width |
| `CsvFrame.PrettyLineLengths` | csv-cleaner/src/cleaner.py:86-92 | the layout fails exactly when there are columns but no rows; otherwise it has the header, the rule and one line per row, every line is the sum of the widths long, and the rule is all dashes |
| `CsvFrame.PrettyLinesShape` | csv-cleaner/src/cleaner.py:87-92 | the lines are the header, the rule of dashes, then each row's line in order |
| `CsvFrame.RowFits` | csv-cleaner/src/cleaner.py:91 | each cell of a row fits its width |
| `CsvFrame.PrettyColumnsAligned` | csv-cleaner/src/cleaner.py:86-91 | in every line each name and each cell starts at its column's offset |
| `CsvFrame.HeaderAligned` | csv-cleaner/src/cleaner.py:86-87 | each column name starts at its column's offset in the header |
| `CsvFrame.RowAligned` | csv-cleaner/src/cleaner.py:86-91 | each cell starts at its column's offset in its row's line |
| `CsvFrame.DataFrame.constructor` | csv-cleaner/src/cleaner.py:35 | the object holds the frame `read_csv` returned |
| `CsvFrame.DataFrame.RewriteColumns` | csv-cleaner/src/cleaner.py:42-47 | the column loop, proved against `MapColumns` |
| `CsvFrame.DataFrame.NormalizeColumnNames` | csv-cleaner/src/cleaner.py:37-39 | only the names change, to `NormalizedNames` |
| `CsvFrame.DataFrame.AutoDetectNumeric` | csv-cleaner/src/cleaner.py:41-48 | the new state is `DetectNumeric` of the old |
| `CsvFrame.DataFrame.FillStringsInPlace` | csv-cleaner/src/cleaner.py:50-56 | the new state is `FillStrings` of the old |
| `CsvFrame.DataFrame.StripFillStringsInPlace` | csv-cleaner/cleaner.py:76-78 | the new state is `StripFillStrings` of the old |
| `CsvFrame.DataFrame.FillNumbersInPlace` | csv-cleaner/src/cleaner.py:60-64 | the new state is `FillNumbers` of the old |
| `CsvFrame.DataFrame.RemoveDuplicates` | csv-cleaner/src/cleaner.py:76-77 | the new state is `DropDuplicates` of the old |
| `CsvFrame.DataFrame.PrettyFileText` | csv-cleaner/src/cleaner.py:85-92 | the write loop succeeds exactly when the layout exists, and the text is its lines, each followed by a newline |
| `CsvFrame.PrettyTextStart` | csv-cleaner/src/cleaner.py:88-89 | the text written first is the header and the rule, each followed by a newline |
| `CsvFrame.PrettyTextRow` | csv-cleaner/src/cleaner.py:90-92 | each turn of the row loop adds that row's line and a newline |
| `CsvFrame.PrettyTextEnd` | csv-cleaner/src/cleaner.py:90-92 | after the last row the lines written are all the lines |
| `CsvCleaner.Prepared` | csv-cleaner/src/cleaner.py:128-131 | the pipeline up to deduplication keeps the frame well-formed |
| `CsvCleaner.Clean` | csv-cleaner/src/cleaner.py:128-133 | the whole pipeline keeps the frame well-formed |
| `CsvCleaner.RunCleaner` | csv-cleaner/src/cleaner.py:97-155 | the step-by-step `main` equals `CleanerRun` |
| `CsvCleaner.CleanInPlace` | csv-cleaner/src/cleaner.py:128-133 | the in-place cleaning fails exactly when the integer cast meets a NaN, and otherwise leaves `Clean` of the input |
| `CsvCleaner.Save` | csv-cleaner/src/cleaner.py:141-145 | the saving steps equal `SaveRun` with the default paths |
| `CsvCleaner.SplitJoined` | csv-cleaner/src/cleaner.py:116 | a name joined to a directory splits back into the two |
| `CsvCleaner.SplitJoinedName` | csv-cleaner/src/cleaner.py:116 | `<name>_cleaned<ext>` joined to a directory splits back |
| `CsvCleaner.SplitJoinedPair` | csv-cleaner/src/cleaner.py:119 | `<name>_pretty.txt` joined to a directory splits back |
| `CsvCleaner.SuffixesHaveNoSlash` | csv-cleaner/src/cleaner.py:116-119 | the suffixes hold no slash |
| `CsvCleaner.InputNameNoSlash` | csv-cleaner/src/cleaner.py:107-108 | the input's name and extension hold no slash |
| `CsvCleaner.OutputDirSplit` | csv-cleaner/src/cleaner.py:111-112 | the default output directory is `output` in the parent of the input's directory |
| `CsvCleaner.SiblingSplit` | csv-cleaner/src/cleaner.py:111-112 | joining a plain name onto the parent of the input's directory gives a path that `split` takes back apart into that parent and that name |
| `CsvCleaner.DefaultCleanedPath` | csv-cleaner/src/cleaner.py:115-116 | without `--out` the table goes to `<name>_cleaned<ext>` in the output directory |
| `CsvCleaner.DefaultPrettyPath` | csv-cleaner/src/cleaner.py:118-119 | without `--pretty-out` the layout goes to `<name>_pretty.txt` in the output directory |
| `CsvCleaner.CleanerRunUnfold` | csv-cleaner/src/cleaner.py:113-124 | the output directory is made first; a missing or unreadable input then fails |
| `CsvCleaner.SaveRunFacts` | csv-cleaner/src/cleaner.py:135-145 | saving ends 0 or 1, keeps earlier effects, and succeeds exactly when the cleaned frame prints and each file has a directory part; it then writes the layout and, exactly when not previewing, the CSV; a failure never writes the CSV |
| `CsvCleaner.CleanRunPrefix` | csv-cleaner/src/cleaner.py:124-136 | a run that fails at the first print or at the number cast adds nothing |
| `CsvCleaner.CleanerRunStart` | csv-cleaner/src/cleaner.py:113-124 | every run makes the output directory first and ends 0 or 1; a missing input fails with nothing else done |
| `CsvCleaner.CleanRunOutcome` | csv-cleaner/src/cleaner.py:124-155 | a run succeeds exactly when both prints and the number filling get through and the paths have a directory; it then wrote the layout and, exactly when not previewing, the cleaned CSV |
| `CsvCleaner.SavedOutcome` | csv-cleaner/src/cleaner.py:141-155 | a run that either failed before saving or went on to save succeeds exactly when it had not failed, the cleaned table prints and each path has a directory; it then wrote the layout and, exactly when not previewing, the CSV |
| `CsvCleaner.DefaultPathsHaveDirectory` | csv-cleaner/src/cleaner.py:112-119 | the default paths always have a directory part |
| `CsvCleaner.CleanFacts` | csv-cleaner/src/cleaner.py:128-133 | names are normalised; rows before filling are distinct and no more than the input's; text cells are stripped and not NaN; zero filling leaves no NaN |
| `CsvCleaner.DuplicatesAfterFilling` | csv-cleaner/src/cleaner.py:131-133 | deduplication runs before filling, so NaN and 0 rows both stay as two 0 rows |
| `CsvScript.Prepared` | csv-cleaner/cleaner.py:65-81 | the pipeline up to deduplication keeps the frame well-formed |
| `CsvScript.Clean` | csv-cleaner/cleaner.py:84-88 | the whole pipeline keeps the frame well-formed |
| `CsvScript.CheckCasts` | csv-cleaner/cleaner.py:84-92 | the loop finds an integer-cast failure exactly when `CastFails` |
| `CsvScript.RunScript` | csv-cleaner/cleaner.py:35-116 | the step-by-step script equals `ScriptRun` |
| `CsvScript.CleanedSuffixHasNoSlash` | csv-cleaner/cleaner.py:44-51 | the suffixes hold no slash |
| `CsvScript.DefaultCleanedPath` | csv-cleaner/cleaner.py:42-44 | without `--out` the table goes into the input's directory as `<name>_cleaned<ext>` |
| `CsvScript.DefaultPrettyPath` | csv-cleaner/cleaner.py:48-51 | without `--pretty-out` the layout goes into the input's directory as `<name>_pretty.txt` |
| `CsvScript.CleanKeepsPrintable` | csv-cleaner/cleaner.py:59-100 | if the first print succeeds, the second does too |
| `CsvScript.CleanFacts` | csv-cleaner/cleaner.py:65-94 | names are normalised; rows before filling are distinct; no text cell is NaN or, with a non-blank fill, blank; zero filling leaves no NaN and the cast cannot fail |
| `CsvScript.ScriptRunFacts` | csv-cleaner/cleaner.py:35-116 | a run ends 0 or 1; it succeeds exactly when the input exists and is read, the first print works and the cast does not fail; a failure writes nothing; a success writes the layout first and, exactly when not previewing, the CSV |
| `CsvScript.DuplicatesAfterFilling` | csv-cleaner/cleaner.py:81-88 | duplicates are dropped before filling, so a NaN and a 0 end as two 0 rows |
| `CsvScript.AllNaNColumnFails` | csv-cleaner/cleaner.py:85-92 | an all-NaN numeric column makes the cast fail unless zero filling is used |
| `CsvScript.AllNaNPrepared` | csv-cleaner/cleaner.py:65-81 | an all-NaN numeric column passes the preparation unchanged |
| `TreasureIsland.ChooseFirstPath` | treasure_island/treasure.py:2-4 | the result is `lake` or `hole`, and `lake` exactly when the normalised choice is `left` |
| `TreasureIsland.ChooseSecondPath` | treasure_island/treasure.py:6-8 | the result is `house` or `trout`, and `house` exactly when the normalised choice is `wait` |
| `TreasureIsland.ChooseDoor` | treasure_island/treasure.py:10-19 | the result is one of the four; `fire`, `beasts` and `treasure` exactly for `red`, `blue` and `yellow` |
| `TreasureIsland.NormalizeIdempotent` | treasure_island/treasure.py:3 | normalising twice is normalising once |
| `TreasureIsland.NormalizeOfLowerStrip` | treasure_island/treasure.py:3 | normalising `s.lower().strip()` gives the normal form of `s` |
| `TreasureIsland.FirstPathIgnoresCaseAndSpace` | treasure_island/treasure.py:3 | the first chooser gives the same answer for `s` and `s.lower().strip()` |
| `TreasureIsland.SecondPathIgnoresCaseAndSpace` | treasure_island/treasure.py:7 | the second chooser gives the same answer for `s` and `s.lower().strip()` |
| `TreasureIsland.DoorIgnoresCaseAndSpace` | treasure_island/treasure.py:11 | the door chooser gives the same answer for `s` and `s.lower().strip()` |
| `TreasureIsland.WinIff` | treasure_island/treasure.py:48-58 | the game is won exactly for left, wait and yellow |
| `TreasureIsland.EarlyEndings` | treasure_island/treasure.py:51-68 | a wrong first turn ends in the hole, and a wrong second one ends with the trout, whatever comes later |
| `TreasureIsland.NormalWord` | treasure_island/tests/test_treasure.py:6-18 | a lower-case word, padded or not, normalises to itself |
| `TreasureIsland.PaddedAnswers` | treasure_island/tests/test_treasure.py:6-18 | for any non-empty lower-case answer without surrounding blanks, the answer padded with spaces gets the same outcome as the bare answer: `left` and only it gives the lake, `wait` and only it the house, and `yellow` and only it the treasure |
| `TipCalculator.ParseNumberFacts` | tip_calculator/calculator.py:26-30 | the input is stripped first; `atof`'s result is used when it succeeds, and the separator fallback runs only when it raises |
| `TipCalculator.EuropeanFormCounts` | tip_calculator/calculator.py:35-36 | the EU form has one dot per input comma, no comma, and every other character as often as the input |
| `TipCalculator.UsFormCounts` | tip_calculator/calculator.py:39 | the US form drops the commas and keeps every other character as often as the input |
| `TipCalculator.SeparatorCleanFacts` | tip_calculator/calculator.py:32-40 | the cleaned string has no comma; its dots number the input's commas in the EU branch and the input's dots in the US branch |
| `TipCalculator.CleanPieceByPiece` | tip_calculator/calculator.py:36-39 | both rewritings commute with concatenation, so kept characters stay in order |
| `TipCalculator.NoSeparatorUnchanged` | tip_calculator/calculator.py:32-40 | a string with neither separator passes through unchanged |
| `TipCalculator.EuropeanExample` | tip_calculator/calculator.py:35-37 | `1.234,56` gives `1234.56` |
| `TipCalculator.UsExample` | tip_calculator/calculator.py:39-40 | `1,234.56` gives `1234.56` |
| `BandName.GenerateBandName` | band-name-generator/band_name_generator.py:14-18 | the name is the city, a space, then the pet name, with length `|city| + |pet| + 1` |
| `BandName.UserInput` | band-name-generator/band_name_generator.py:8-12 | the answer has no surrounding whitespace |
| `BandName.GenerateBandNameInjective` | band-name-generator/band_name_generator.py:18 | for cities without spaces, the name determines city and pet |
| `BandName.EmptyInputs` | band-name-generator/tests/test_band_name_generator.py:13 | two empty inputs give `" "` |
| `BandName.BasicCombination` | band-name-generator/tests/test_band_name_generator.py:7 | `Utrecht` and `Tony` give `Utrecht Tony` |
| `BandName.PaddedArgumentsKept` | band-name-generator/tests/test_band_name_generator.py:10 | `generate_band_name` on padded arguments does not give `Paris Luna` |
| `BandName.InputWhitespaceIgnored` | band-name-generator/band_name_generator.py:12-29 | the name built from typed answers is that of the stripped answers |
| `BandName.PaddedInputsTrimmed` | band-name-generator/band_name_generator.py:12-18 | any whitespace around the typed words is dropped from the name |
| `BandName.WhitespaceExample` | band-name-generator/band_name_generator.py:12-29 | typed `"  Paris  "` and `"  Luna  "` give `Paris Luna` |

## Left out

- Printing, console output and argparse are left out. Options arrive as
  values, and an empty `--out`, `--pretty-out` or `--destination` counts as
  absent, as `not args.x` does.
- The interactive `input()` parts of the treasure game and the band-name
  `main` are left out. The answers are parameters, and `Play` returns the
  ending that `main` prints.
- From `calculator.py`:
  - `calculate_tip`, `format_currency`, `get_float` and `get_int`, and the
    Flask app in `app.py`, are not part of this model. They are
    floating-point and interactive code.
  - `locale.atof` and `float` are oracle parameters of `ParseNumber`.
- The file system:
  - cross-device moves, symlinks, permissions and concurrent changes are not
    modelled;
  - `iterdir` is a snapshot in an arbitrary order;
  - the local-time conversion of `st_mtime` is replaced by the file's
    calendar date.
- `OrganizerKeys.DateKey`: always pads the year to four digits. Some C
  libraries print years below 1000 unpadded.
- `PyStr.Lower`: maps only ASCII capitals. Python's Unicode case mapping is
  not modelled.
- Pandas internals:
  - `pd.to_numeric`'s parsing is the oracle `toNumber`, and the text of a
    number is the oracle `numText`;
  - `read_csv` is an optional frame;
  - `to_csv` formatting is an effect holding the frame;
  - duplicate column names are not modelled.
- Numbers are exact reals, not floats:
  - the 0.8 threshold is compared exactly;
  - the mean is exact.
- `CsvFrame.DataFrame.FillNumbersInPlace`: does not model the `astype(int)`
  and `round(0)` value changes of `fill_numbers`
  (csv-cleaner/src/cleaner.py:66-71). The cast's failure on a remaining NaN
  is modelled as `NumberFillFails`.
- `CsvScript.Clean`: does not model `round(0).astype(int)` and `round(2)`
  (csv-cleaner/cleaner.py:89-94). The cast's failure on NaN is modelled as
  `CastFails`.
- The pretty table renders an integer column and a whole-valued float column
  through the same `numText`. The `iterrows` upcast of mixed rows is not
  modelled.
- `open()` failing on a missing directory in the script is not modelled. The
  packaged cleaner's `os.makedirs("")` error is modelled.

## Findings

| source | as written | input that shows it | evidently intended | confidence | as-written member | corrected member |
|---|---|---|---|---|---|---|
| band-name-generator/band_name_generator.py:14-18 | `generate_band_name` joins its arguments untrimmed, and only `get_user_input` strips; the whitespace case of band-name-generator/tests/test_band_name_generator.py:10 expects trimming | `generate_band_name("  Paris  ", "  Luna  ")` is `"  Paris     Luna  "`, not `"Paris Luna"` | surrounding whitespace does not reach the band name | not executed | `BandName.PaddedArgumentsKept` | `BandName.PaddedInputsTrimmed` |
