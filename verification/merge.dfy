/**
 * The merge driver: resolve the settings, list the source workbooks, run the naming loop
 * (one target sheet per source, in listing order), drop the default sheet, and only then
 * save. Any error on the way ends the run with nothing saved.
 */
module Merge {
  import opened Wrappers
  import opened Errors
  import opened Paths
  import opened Arguments
  import opened Listing
  import opened Naming

  /** What the run writes: the resolved target path and the target sheets in order. */
  datatype SavedWorkbook = SavedWorkbook(path: Path, sheets: seq<string>)

  /** Removes the first sheet titled "Sheet", the one a workbook lookup by that title
      finds; a workbook without one is left as it is. */
  function RemoveDefaultSheet(sheets: seq<string>): (r: seq<string>)
    ensures DefaultSheet !in sheets ==> r == sheets
    ensures multiset(r) == multiset(sheets) - multiset{DefaultSheet}
  {
    if |sheets| == 0 then []
    else
      assert sheets == [sheets[0]] + sheets[1..];
      if sheets[0] == DefaultSheet then sheets[1..]
      else [sheets[0]] + RemoveDefaultSheet(sheets[1..])
  }

  /** Position of the first "Sheet" in a workbook that has one. */
  function FirstDefaultIndex(sheets: seq<string>): (k: nat)
    requires DefaultSheet in sheets
    ensures k < |sheets| && sheets[k] == DefaultSheet
    ensures forall i :: 0 <= i < k ==> sheets[i] != DefaultSheet
  {
    if sheets[0] == DefaultSheet then 0
    else
      assert sheets == [sheets[0]] + sheets[1..];
      1 + FirstDefaultIndex(sheets[1..])
  }

  /** The removal takes out exactly the first "Sheet" and keeps every other sheet in its
      place. */
  lemma {:induction false} RemovesFirstDefaultOnly(sheets: seq<string>)
    requires DefaultSheet in sheets
    ensures var k := FirstDefaultIndex(sheets);
            RemoveDefaultSheet(sheets) == sheets[..k] + sheets[k + 1..]
  {
    if sheets[0] != DefaultSheet {
      var tail := sheets[1..];
      assert sheets == [sheets[0]] + tail;
      RemovesFirstDefaultOnly(tail);
      var k := FirstDefaultIndex(tail);
      assert FirstDefaultIndex(sheets) == k + 1;
      assert sheets[..k + 1] == [sheets[0]] + tail[..k];
      assert sheets[k + 2..] == tail[k + 1..];
    }
  }

  /** The whole run. */
  function MergeWorkbooks(target: Path, mode: NameMode, nameCell: Option<string>, listing: seq<DirEntry>)
    : (r: Result<SavedWorkbook, MergeError>)
    ensures ResolveSettings(target, mode, nameCell).Failure? ==>
              r == Failure(ResolveSettings(target, mode, nameCell).error)
    ensures r.Success? ==> ResolveSettings(target, mode, nameCell).Success?
                           && r.value.path == NormaliseTarget(target).value
    ensures r.Success? ==> FilterWorkbooks(listing).Success? && Run(mode, Books(KeepWorkbooks(listing))).Success?
  {
    match ResolveSettings(target, mode, nameCell)
    case Failure(e) => Failure(e)
    case Success(settings) =>
      match FilterWorkbooks(listing)
      case Failure(e) => Failure(e)
      case Success(files) =>
        match Run(mode, Books(files))
        case Failure(e) => Failure(e)
        case Success(st) => Success(SavedWorkbook(settings.target, RemoveDefaultSheet(st.sheets)))
  }

  /** A run saves exactly when the settings are valid, the listing step finds a ".xlsx"
      entry and the naming loop gets through every file; in "sequential" and "from_cell"
      mode the loop always gets through, in "from_sheet_name" mode exactly when no two
      sources share a first sheet name. */
  lemma {:induction false} SavedIffEveryStageSucceeds(target: Path, mode: NameMode, nameCell: Option<string>, listing: seq<DirEntry>)
    ensures MergeWorkbooks(target, mode, nameCell, listing).Success? <==>
              && ResolveSettings(target, mode, nameCell).Success?
              && FilterWorkbooks(listing).Success?
              && (mode == FromSheetName ==> Distinct(FirstSheetNames(Books(KeepWorkbooks(listing)))))
  {
    RunFailsIffRepeat(mode, Books(KeepWorkbooks(listing)));
  }

  /** A saved workbook holds one sheet per ".xlsx" entry, named as the mode names the
      file at that position, in listing order, and nothing else: the default sheet is gone. */
  lemma {:induction false} SavedSheets(target: Path, mode: NameMode, nameCell: Option<string>, listing: seq<DirEntry>)
    ensures var run := MergeWorkbooks(target, mode, nameCell, listing);
            var files := KeepWorkbooks(listing);
            run.Success? ==>
            && |run.value.sheets| == |files| > 0
            && (forall k :: 0 <= k < |files| ==> run.value.sheets[k] == ProposedName(mode, k, files[k].book))
            && run.value.path == ResolveSettings(target, mode, nameCell).value.target
  {
    if MergeWorkbooks(target, mode, nameCell, listing).Success? {
      SavedWorkbookValue(target, mode, nameCell, listing);
    }
  }

  /** The saved workbook, spelled out: the normalised target and the proposed names of the
      kept files. */
  lemma {:induction false} SavedWorkbookValue(target: Path, mode: NameMode, nameCell: Option<string>, listing: seq<DirEntry>)
    ensures MergeWorkbooks(target, mode, nameCell, listing).Success? ==>
            MergeWorkbooks(target, mode, nameCell, listing).value
            == SavedWorkbook(ResolveSettings(target, mode, nameCell).value.target,
                             ProposedNames(mode, Books(KeepWorkbooks(listing))))
  {
    if MergeWorkbooks(target, mode, nameCell, listing).Success? {
      var files := KeepWorkbooks(listing);
      var st := Run(mode, Books(files)).value;
      assert RemoveDefaultSheet(st.sheets) == st.sheets[1..] by {
        assert st.sheets[0] == DefaultSheet;
      }
    }
  }

  /** In "sequential" mode the saved sheets are "Sheet 1", "Sheet 2", ... in order. */
  lemma SequentialRunNames(target: Path, nameCell: Option<string>, listing: seq<DirEntry>)
    ensures var run := MergeWorkbooks(target, Sequential, nameCell, listing);
            run.Success? ==>
            forall k :: 0 <= k < |run.value.sheets| ==> run.value.sheets[k] == "Sheet " + Decimal.DecimalString(k + 1)
  {
    SavedSheets(target, Sequential, nameCell, listing);
  }

  /** Errors surface in the order the checks run: the target extension, then the name
      cell, then the listing, then the naming loop. */
  lemma ErrorPrecedence(target: Path, mode: NameMode, nameCell: Option<string>, listing: seq<DirEntry>)
    ensures NormaliseTarget(target).Failure? ==>
              MergeWorkbooks(target, mode, nameCell, listing) == Failure(InvalidTargetExtension)
    ensures NormaliseTarget(target).Success? && CheckNameCell(mode, nameCell).Some? ==>
              MergeWorkbooks(target, mode, nameCell, listing) == Failure(CheckNameCell(mode, nameCell).value)
    ensures ResolveSettings(target, mode, nameCell).Success? && (forall e :: e in listing ==> !IsWorkbookEntry(e)) ==>
              MergeWorkbooks(target, mode, nameCell, listing) == Failure(NoWorkbooks)
  {
  }

  /** With valid settings in "from_sheet_name" mode, the run reports the first file whose
      first sheet name repeats an earlier one, and saves nothing. */
  lemma {:induction false} DuplicateStopsRun(target: Path, nameCell: Option<string>, listing: seq<DirEntry>, j: nat)
    ensures var books := Books(KeepWorkbooks(listing));
            && ResolveSettings(target, FromSheetName, nameCell).Success?
            && j < |books|
            && Distinct(FirstSheetNames(books[..j]))
            && books[j].firstSheetName in FirstSheetNames(books[..j])
            ==> MergeWorkbooks(target, FromSheetName, nameCell, listing)
                == Failure(DuplicateSheetName(books[j].firstSheetName))
  {
    var books := Books(KeepWorkbooks(listing));
    if j < |books| && Distinct(FirstSheetNames(books[..j])) && books[j].firstSheetName in FirstSheetNames(books[..j]) {
      FirstDuplicateAborts(books, j);
    }
  }
}
