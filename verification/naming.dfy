/**
 * The per-file naming fold: files are taken in listing order, each gets a target sheet
 * name from the naming mode, and each appends exactly one sheet to the target workbook,
 * which starts out holding the default sheet "Sheet". In "from_sheet_name" mode the names
 * used so far are remembered, and a repeated first sheet name aborts the run.
 */
module Naming {
  import opened Wrappers
  import opened Errors
  import opened Arguments
  import opened Listing
  import Decimal

  /** The blank sheet a new workbook is created with. */
  const DefaultSheet: string := "Sheet"

  const SequentialPrefix: string := "Sheet "

  /** "Sheet 1", "Sheet 2", ...: the name of the file at zero-based index `i`. */
  function SequentialName(i: nat): (name: string)
    ensures |name| > |SequentialPrefix| && name[..|SequentialPrefix|] == SequentialPrefix
    ensures Decimal.AllDigits(name[|SequentialPrefix|..])
    ensures Decimal.DecimalValue(name[|SequentialPrefix|..]) == i + 1
    ensures |name| == |SequentialPrefix| + 1 || name[|SequentialPrefix|] != '0'
  {
    Decimal.DecimalRoundTrip(i + 1);
    var name := SequentialPrefix + Decimal.DecimalString(i + 1);
    assert name[|SequentialPrefix|..] == Decimal.DecimalString(i + 1);
    name
  }

  /** Distinct indices give distinct sequential names, and none of them is the default
      sheet's name. */
  lemma SequentialNameInjective(i: nat, j: nat)
    ensures SequentialName(i) == SequentialName(j) <==> i == j
    ensures SequentialName(i) != DefaultSheet
  {
    if SequentialName(i) == SequentialName(j) {
      assert SequentialName(i)[|SequentialPrefix|..] == Decimal.DecimalString(i + 1);
      assert SequentialName(j)[|SequentialPrefix|..] == Decimal.DecimalString(j + 1);
      Decimal.DecimalStringInjective(i + 1, j + 1);
    }
    assert |SequentialName(i)| > |DefaultSheet|;
  }

  /** The name the mode gives the file at index `i`, before any duplicate check: the cell
      value verbatim, the first sheet's name, or the sequential name. */
  function ProposedName(mode: NameMode, i: nat, book: SourceBook): (name: string)
    ensures mode == FromCell ==> name == book.nameCellValue
    ensures mode == FromSheetName ==> name == book.firstSheetName
    ensures mode == Sequential ==>
              && name != DefaultSheet
              && |name| > |SequentialPrefix| && name[..|SequentialPrefix|] == SequentialPrefix
              && Decimal.AllDigits(name[|SequentialPrefix|..])
              && Decimal.DecimalValue(name[|SequentialPrefix|..]) == i + 1
              && (|name| == |SequentialPrefix| + 1 || name[|SequentialPrefix|] != '0')
  {
    match mode
    case FromCell => book.nameCellValue
    case FromSheetName => book.firstSheetName
    case Sequential => SequentialNameInjective(i, i); SequentialName(i)
  }

  function ProposedNames(mode: NameMode, books: seq<SourceBook>): (r: seq<string>)
    ensures |r| == |books|
    ensures forall k :: 0 <= k < |books| ==> r[k] == ProposedName(mode, k, books[k])
  {
    seq(|books|, k requires 0 <= k < |books| => ProposedName(mode, k, books[k]))
  }

  function FirstSheetNames(books: seq<SourceBook>): (r: seq<string>)
    ensures |r| == |books|
    ensures forall k :: 0 <= k < |books| ==> r[k] == books[k].firstSheetName
  {
    seq(|books|, k requires 0 <= k < |books| => books[k].firstSheetName)
  }

  ghost predicate Distinct(names: seq<string>)
  {
    forall i, j :: 0 <= i < j < |names| ==> names[i] != names[j]
  }

  /** The naming step for one file, given the names used so far. */
  function TargetSheetName(mode: NameMode, i: nat, book: SourceBook, used: set<string>): (r: Result<string, MergeError>)
    ensures r.Failure? <==> mode == FromSheetName && book.firstSheetName in used
    ensures r.Failure? ==> r.error == DuplicateSheetName(book.firstSheetName)
    ensures r.Success? ==> r.value == ProposedName(mode, i, book)
  {
    match mode
    case FromCell => Success(book.nameCellValue)
    case FromSheetName =>
      if book.firstSheetName in used then Failure(DuplicateSheetName(book.firstSheetName))
      else Success(book.firstSheetName)
    case Sequential => Success(SequentialName(i))
  }

  /** The target workbook's sheet names, and the first sheet names seen so far. */
  datatype RunState = RunState(sheets: seq<string>, used: set<string>)

  /** One iteration of the loop: name the file, record the name in "from_sheet_name" mode,
      and create one target sheet under that name. */
  function Step(mode: NameMode, i: nat, book: SourceBook, st: RunState): (r: Result<RunState, MergeError>)
    ensures r.Failure? <==> mode == FromSheetName && book.firstSheetName in st.used
    ensures r.Success? ==> r.value.sheets == st.sheets + [ProposedName(mode, i, book)]
    ensures r.Success? ==> r.value.used == if mode == FromSheetName then st.used + {book.firstSheetName} else st.used
  {
    match TargetSheetName(mode, i, book, st.used)
    case Failure(e) => Failure(e)
    case Success(name) =>
      var used := if mode == FromSheetName then st.used + {name} else st.used;
      Success(RunState(st.sheets + [name], used))
  }

  /** The loop over all files; the first failing step ends it. */
  function Run(mode: NameMode, books: seq<SourceBook>): (r: Result<RunState, MergeError>)
    decreases |books|
    ensures r.Success? ==> r.value.sheets == [DefaultSheet] + ProposedNames(mode, books)
    ensures r.Success? ==> r.value.used == if mode == FromSheetName then set n | n in FirstSheetNames(books) else {}
    ensures r.Failure? ==> mode == FromSheetName && r.error.DuplicateSheetName?
  {
    if |books| == 0 then Success(RunState([DefaultSheet], {}))
    else
      var n := |books| - 1;
      assert FirstSheetNames(books) == FirstSheetNames(books[..n]) + [books[n].firstSheetName];
      assert ProposedNames(mode, books) == ProposedNames(mode, books[..n]) + [ProposedName(mode, n, books[n])];
      match Run(mode, books[..n])
      case Failure(e) => Failure(e)
      case Success(st) => Step(mode, n, books[n], st)
  }

  /** The run over a non-empty list is the run over all but the last file, followed by
      the step for the last file. */
  lemma {:induction false} RunLastStep(mode: NameMode, books: seq<SourceBook>)
    requires |books| > 0
    ensures var n := |books| - 1;
            Run(mode, books) == match Run(mode, books[..n])
                                case Failure(e) => Failure(e)
                                case Success(st) => Step(mode, n, books[n], st)
  {
  }

  lemma DistinctAppend(names: seq<string>, x: string)
    ensures Distinct(names + [x]) <==> Distinct(names) && x !in names
  {
    var all := names + [x];
    if Distinct(names) && x !in names {
      forall i, j | 0 <= i < j < |all| ensures all[i] != all[j] {
        if j == |names| {
          assert all[i] == names[i];
        } else {
          assert all[i] == names[i] && all[j] == names[j];
        }
      }
    }
    if Distinct(all) {
      forall i, j | 0 <= i < j < |names| ensures names[i] != names[j] {
        assert all[i] == names[i] && all[j] == names[j];
      }
      forall i | 0 <= i < |names| ensures names[i] != x {
        assert all[i] == names[i] && all[|names|] == x;
      }
    }
  }

  /** The run fails exactly in "from_sheet_name" mode when two files share a first sheet
      name. */
  lemma {:induction false} RunFailsIffRepeat(mode: NameMode, books: seq<SourceBook>)
    ensures Run(mode, books).Failure? <==> mode == FromSheetName && !Distinct(FirstSheetNames(books))
  {
    if |books| > 0 {
      var n := |books| - 1;
      var names := FirstSheetNames(books[..n]);
      var x := books[n].firstSheetName;
      assert Distinct(FirstSheetNames(books)) <==> Distinct(names) && x !in names by {
        assert FirstSheetNames(books) == names + [x];
        DistinctAppend(names, x);
      }
      assert Run(mode, books).Failure? <==>
               Run(mode, books[..n]).Failure? || (mode == FromSheetName && x in names) by {
        RunLastStep(mode, books);
      }
      RunFailsIffRepeat(mode, books[..n]);
    }
  }

  /** Once the loop has failed on the first `k` files, the remaining files change nothing:
      they are never processed and the run ends with the same error. */
  lemma {:induction false} FailureIsFinal(mode: NameMode, books: seq<SourceBook>, k: nat)
    requires k <= |books|
    requires Run(mode, books[..k]).Failure?
    ensures Run(mode, books) == Run(mode, books[..k])
    decreases |books| - k
  {
    if k < |books| {
      var n := |books| - 1;
      assert books[..n][..k] == books[..k];
      FailureIsFinal(mode, books[..n], k);
      assert Run(mode, books[..n]).Failure?;
    } else {
      assert books[..k] == books;
    }
  }

  /** In "from_sheet_name" mode the run aborts at the first file whose first sheet name
      already belongs to an earlier file, and reports that name. */
  lemma {:induction false} FirstDuplicateAborts(books: seq<SourceBook>, j: nat)
    requires j < |books|
    requires Distinct(FirstSheetNames(books[..j]))
    requires books[j].firstSheetName in FirstSheetNames(books[..j])
    ensures Run(FromSheetName, books) == Failure(DuplicateSheetName(books[j].firstSheetName))
  {
    DuplicateAtLastFile(books, j);
    FailureIsFinal(FromSheetName, books, j + 1);
  }

  /** The prefix ending at the first repeating file fails on that file. */
  lemma {:induction false} DuplicateAtLastFile(books: seq<SourceBook>, j: nat)
    requires j < |books|
    requires Distinct(FirstSheetNames(books[..j]))
    requires books[j].firstSheetName in FirstSheetNames(books[..j])
    ensures Run(FromSheetName, books[..j + 1]) == Failure(DuplicateSheetName(books[j].firstSheetName))
  {
    var prefix := books[..j + 1];
    assert prefix[..j] == books[..j];
    var before := Run(FromSheetName, books[..j]);
    RunFailsIffRepeat(FromSheetName, books[..j]);
    assert books[j].firstSheetName in before.value.used;
    RunLastStep(FromSheetName, prefix);
  }

  /** A successful run passed through every prefix successfully: after `k` files the
      workbook holds the default sheet and the first `k` names, so each file appended
      exactly one sheet in file order and no sheet was removed on the way. */
  lemma {:induction false} RunPrefix(mode: NameMode, books: seq<SourceBook>, k: nat)
    requires k <= |books|
    ensures Run(mode, books).Success? ==>
              && Run(mode, books[..k]).Success?
              && Run(mode, books[..k]).value.sheets == Run(mode, books).value.sheets[..k + 1]
  {
    if Run(mode, books).Failure? {
      return;
    }
    RunFailsIffRepeat(mode, books);
    RunFailsIffRepeat(mode, books[..k]);
    if mode == FromSheetName {
      forall a, b | 0 <= a < b < k
        ensures FirstSheetNames(books[..k])[a] != FirstSheetNames(books[..k])[b]
      {
        assert FirstSheetNames(books[..k])[a] == FirstSheetNames(books)[a];
        assert FirstSheetNames(books[..k])[b] == FirstSheetNames(books)[b];
      }
    }
    var whole := Run(mode, books).value.sheets;
    assert whole[..k + 1] == [DefaultSheet] + ProposedNames(mode, books[..k]);
  }

  /** Sequential names of a run are pairwise distinct. */
  lemma SequentialNamesDistinct(books: seq<SourceBook>)
    ensures Distinct(ProposedNames(Sequential, books))
  {
    var names := ProposedNames(Sequential, books);
    forall i, j | 0 <= i < j < |names| ensures names[i] != names[j] {
      SequentialNameInjective(i, j);
    }
  }

  /** A successful run names its sheets pairwise distinctly in the two modes that
      guarantee it; "from_cell" names are taken verbatim and may repeat. */
  lemma RunNamesDistinct(mode: NameMode, books: seq<SourceBook>)
    requires mode != FromCell
    requires Run(mode, books).Success?
    ensures Distinct(Run(mode, books).value.sheets[1..])
  {
    var sheets := Run(mode, books).value.sheets;
    assert sheets[1..] == ProposedNames(mode, books);
    RunFailsIffRepeat(mode, books);
    if mode == Sequential {
      SequentialNamesDistinct(books);
    } else {
      assert ProposedNames(mode, books) == FirstSheetNames(books);
    }
  }

  /** "Sequential" and "from_cell" runs never fail. */
  lemma OnlySheetNameModeFails(mode: NameMode, books: seq<SourceBook>)
    requires mode != FromSheetName
    ensures Run(mode, books).Success?
  {
  }
}
