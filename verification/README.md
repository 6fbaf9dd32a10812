# excel-sheet-merger, modelled in Dafny

`merge.py` merges the first sheet of every `.xlsx` workbook in a directory into one
target workbook, one target sheet per source file. This project models its decision
logic as pure functions and proves what that logic guarantees:

- **settings** (`Arguments`): the target path's extension is normalised, and in
  `from_cell` naming the name cell must be given and must start like a cell reference
  (`re.match(r"[A-z]+\d+", …)`, anchored only at the start, with `[A-z]` spanning
  'A'..'z', punctuation between 'Z' and 'a' included);
- **listing** (`Listing`): only `.xlsx` entries are kept, in listing order, and an empty
  result is an error;
- **naming loop** (`Naming`): `sequential` gives `"Sheet " + (i+1)`, `from_sheet_name`
  takes the source's first sheet name and aborts on a repeat, `from_cell` takes the cell
  value verbatim; every file appends exactly one target sheet;
- **driver** (`Merge`): after the loop the first sheet titled `"Sheet"` (the blank sheet a
  new workbook starts with) is removed, and only then is the workbook saved.

Abstractions: a path is its parent plus its final component, and its suffix follows
pathlib's rule (text from the last `.` of the final component, provided that dot is
neither its first nor its last character, as in CPython 3.12; `Paths.Suffix`). A source workbook is the
pair (first sheet name, value of the name cell on its active sheet). The directory
listing is an input sequence of (path, workbook) entries in the order the filesystem
yields them. The target workbook is the sequence of its sheet titles, and
`create_sheet` is a plain append. Errors are the values of `Errors.MergeError`; a run
returns either an error or the `SavedWorkbook` it would write.

One edge case the model makes visible: a target whose final component is empty (`""`,
`"/"`) becomes `.xlsx` in the same directory, a name pathlib reads as having no suffix,
so normalisation is idempotent exactly for non-empty names (`Arguments.NormaliseIdempotent`).

Files: `wrappers.dfy` (Option, Result, error kinds), `paths.dfy`, `decimal.dfy`,
`arguments.dfy`, `listing.dfy`, `naming.dfy`, `merge.dfy`.

## Model

| member | source | states |
|---|---|---|
| Paths.Suffix | merge.py:50-51 | the suffix is non-empty exactly when the final component has a dot strictly inside it with no dot after it; then it is a proper tail of the name starting with its only dot |
| Paths.IsWorkbookPath | merge.py:68 | a path passes the ".xlsx" test exactly when its final component is a non-empty stem followed by ".xlsx" |
| Paths.SuffixAfterAppend | merge.py:54-56 | appending ".xlsx" to a non-empty name yields the suffix ".xlsx"; appended to the empty name it yields no suffix |
| Arguments.NormaliseTarget | merge.py:50-56 | fails exactly when the suffix is neither empty nor ".xlsx"; keeps the parent; keeps a ".xlsx" path unchanged, appends ".xlsx" to a suffix-less name; every success from a non-empty name carries the ".xlsx" suffix |
| Arguments.NormaliseIdempotent | merge.py:50-56 | a normalised target passes normalisation again unchanged if and only if its original final component is non-empty |
| Arguments.MatchesCellPattern | merge.py:63 | the decision agrees with the regular-expression semantics: true iff some prefix is one or more characters in 'A'..'z' followed by one or more digits |
| Arguments.CellPatternDecided | merge.py:63 | a prefix match exists iff the maximal leading run of 'A'..'z' characters is non-empty and is followed by a digit |
| Arguments.MatchSplitsAtColumnRun | merge.py:63 | every split of a match falls exactly at the end of the maximal 'A'..'z' run, since letters and digits are disjoint |
| Arguments.CellPatternExamples | merge.py:58-64 | "B7" and "B7x" are accepted, "12A", "" and "B" are refused, and "_9" is accepted because '_' lies inside [A-z] |
| Arguments.CheckNameCell | merge.py:58-64 | outside from_cell mode nothing is refused; in from_cell mode a missing cell gives MissingNameCell, and a present cell passes iff it matches the pattern and otherwise gives InvalidNameCell |
| Arguments.ResolveSettings | merge.py:50-64 | succeeds iff the extension is acceptable and, in from_cell mode, the cell is present and matches; the settings carry the normalised target, the mode and the cell; an extension error takes precedence, and otherwise the name-cell error is the one reported |
| Listing.KeepWorkbooks | merge.py:68 | an entry is kept iff it is in the listing and has suffix ".xlsx", with its full multiplicity, and the kept entries are a subsequence of the listing (order preserved) |
| Listing.FilterWorkbooks | merge.py:68-71 | fails with NoWorkbooks exactly when no entry has suffix ".xlsx"; otherwise yields the non-empty kept sequence |
| Decimal.DecimalString | merge.py:91 | the numeral is non-empty, all decimal digits, without a leading zero, and one digit long exactly for numbers below ten |
| Decimal.DecimalRoundTrip | merge.py:91 | reading back a rendered number gives the number |
| Decimal.DecimalStringInjective | merge.py:91 | two numbers render to the same numeral iff they are equal |
| Naming.SequentialName | merge.py:91 | the name is "Sheet " followed by the decimal numeral, without leading zero, of the one-based file number i+1 |
| Naming.ProposedName | merge.py:80-91 | from_cell takes the cell value verbatim, from_sheet_name the first sheet's name, sequential "Sheet " followed by the numeral, without leading zero, of the one-based file number, never the default title |
| Naming.SequentialNameInjective | merge.py:90-91 | "Sheet " + (i+1) equals "Sheet " + (j+1) iff i = j, and is never the default title "Sheet" |
| Naming.TargetSheetName | merge.py:80-91 | fails exactly in from_sheet_name mode when the first sheet name was used before, reporting that name; otherwise yields the cell value, the first sheet name or the sequential name |
| Naming.Step | merge.py:77-93 | one file appends exactly one sheet and removes none; the used-name set grows by the first sheet name in from_sheet_name mode and is otherwise unchanged |
| Naming.Run | merge.py:74-93 | on success the target holds the default sheet followed by one name per file in file order, and the used-name set equals the set of first sheet names (empty outside from_sheet_name mode); failures happen only in from_sheet_name mode |
| Naming.RunFailsIffRepeat | merge.py:83-89 | the loop fails iff the mode is from_sheet_name and two files share a first sheet name |
| Naming.FailureIsFinal | merge.py:85-88 | once the loop fails on a prefix of the files, the later files change nothing: the run ends with that same error |
| Naming.FirstDuplicateAborts | merge.py:83-89 | the run fails at the first file whose first sheet name repeats an earlier one and reports that name |
| Naming.RunPrefix | merge.py:77-93 | a successful run passed through every prefix: after k files the target is the default sheet plus the first k names |
| Naming.SequentialNamesDistinct | merge.py:90-91 | sequential names of all files are pairwise distinct |
| Naming.RunNamesDistinct | merge.py:83-91 | in sequential and from_sheet_name mode the created sheets of a successful run have pairwise distinct names |
| Naming.OnlySheetNameModeFails | merge.py:80-91 | sequential and from_cell runs never fail |
| Merge.MergeWorkbooks | merge.py:50-98 | a settings error ends the run with that error; a saved workbook goes to the normalised target and exists only if the listing step and the whole naming loop succeeded |
| Merge.RemoveDefaultSheet | merge.py:95-96 | a workbook without "Sheet" is unchanged; otherwise exactly one "Sheet" is removed and no other title (as a multiset) |
| Merge.RemovesFirstDefaultOnly | merge.py:95-96 | the removed sheet is the first one titled "Sheet" and every other sheet keeps its relative place |
| Merge.SavedIffEveryStageSucceeds | merge.py:50-98 | a workbook is saved iff the settings are valid, some entry has suffix ".xlsx" and, in from_sheet_name mode, the kept files' first sheet names are distinct |
| Merge.SavedWorkbookValue | merge.py:73-98 | the saved workbook is the normalised target with the names of the kept files, the default sheet removed |
| Merge.SavedSheets | merge.py:77-98 | a saved workbook holds exactly one sheet per kept file (at least one), the k-th named as the mode names file k |
| Merge.SequentialRunNames | merge.py:90-98 | in sequential mode the saved sheets are "Sheet 1", "Sheet 2", … in order |
| Merge.ErrorPrecedence | merge.py:50-71 | an extension error wins over everything, then a name-cell error, then an empty listing |
| Merge.DuplicateStopsRun | merge.py:83-89 | with valid settings in from_sheet_name mode the run ends with the first repeated first sheet name and saves nothing |

## Left out

- Command-line parsing and the `NameMode` parser: `name.py` is not part of this model; the mode arrives as a value of `Arguments.NameMode`.
- The source-directory checks (`is_dir`, `exists`, merge.py:44-48), `os.makedirs` and `iterdir`: filesystem I/O. The model starts after the directory checks have passed, and the listing is an input sequence.
- `load_workbook`, `Workbook()`, `save` and cell lookup: calls into openpyxl. A source file that cannot be opened (openpyxl raises) is not modelled; the save is the `SavedWorkbook` a successful run returns.
- `copy_sheet`: `utils.py` is not part of this model; the target sheet's cells are not represented.
- openpyxl's renaming of a duplicate title in `create_sheet`: library behaviour the script does not control; the model appends the title as given, so a `from_cell` or `from_sheet_name` title "Sheet" stays as it is (the removal still takes the default sheet, which comes first).
- Cell values that are not text (empty cells, numbers, dates): the model takes the name cell's value as a string.
- A name cell that passes the pattern but that openpyxl cannot look up (such as "B7x" or "[1"): the lookup is library behaviour.
- Arguments.MatchesCellPattern: `\d` is restricted to the ASCII digits '0'..'9'; Python's `re` on `str` also accepts the other Unicode decimal digits.
- Arguments.CheckNameCell: inherits the ASCII-only reading of `\d`.
- Paths.Suffix: models the suffix rule of CPython 3.12's `PurePath.suffix` on the final component, as an assumption about the library (later Python releases may treat a name ending in a dot differently); splitting a path string into parent and name is not modelled.
- Naming.Run: `create_sheet` is a plain append, so openpyxl's title check (a title containing any of `\ * ? : / [ ]` raises) is not modelled, nor are unreadable sources or failed cell lookups; a from_cell run the program aborts there succeeds in the model.
- Naming.RunFailsIffRepeat: for the same reason, "fails only on a repeated first sheet name" holds of the model, not of runs that openpyxl's title check, an unreadable source or a failed cell lookup aborts.
- Naming.OnlySheetNameModeFails: sequential and from_cell runs can still abort in the program through openpyxl (an invalid from_cell title, an unreadable source, a failed cell lookup); the model has no such failure.
- Merge.SavedIffEveryStageSucceeds: the "if" direction leaves out the openpyxl failures above (invalid from_cell title, unreadable source, failed cell lookup, a failed save), so some runs the model saves abort in the program.
- Merge.MergeWorkbooks: inherits the same omissions of openpyxl failures.
