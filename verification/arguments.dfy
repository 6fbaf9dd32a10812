/**
 * Validation of the merger's settings once the command line is parsed: the target
 * path's extension is normalised, and in "from_cell" naming the name cell must be given
 * and must start like a cell reference.
 */
module Arguments {
  import opened Wrappers
  import opened Errors
  import opened Paths
  import Decimal

  /** How each target sheet is named; fixed for the whole run. */
  datatype NameMode = Sequential | FromSheetName | FromCell

  /** The settings a run proceeds with. */
  datatype Settings = Settings(target: Path, mode: NameMode, nameCell: Option<string>)

  /**
   * A name without suffix gets ".xlsx" appended in the same directory, a ".xlsx" name is
   * kept, and any other suffix is refused.
   */
  function NormaliseTarget(t: Path): (r: Result<Path, MergeError>)
    ensures r.Failure? <==> Suffix(t.name) !in {"", WorkbookSuffix}
    ensures r.Failure? ==> r.error == InvalidTargetExtension
    ensures r.Success? ==> r.value.parent == t.parent
    ensures Suffix(t.name) == WorkbookSuffix ==> r == Success(t)
    ensures Suffix(t.name) == "" ==> r == Success(Path(t.parent, t.name + WorkbookSuffix))
    ensures r.Success? && t.name != "" ==> IsWorkbookPath(r.value)
  {
    if Suffix(t.name) != "" then
      if Suffix(t.name) != WorkbookSuffix then Failure(InvalidTargetExtension) else Success(t)
    else
      SuffixAfterAppend(t.name);
      Success(Path(t.parent, t.name + WorkbookSuffix))
  }

  /**
   * A normalised target passes a second normalisation unchanged exactly when its final
   * component is non-empty: the empty name becomes ".xlsx", which pathlib reads as a
   * name without suffix, so it would grow a second ".xlsx".
   */
  lemma NormaliseIdempotent(t: Path)
    requires NormaliseTarget(t).Success?
    ensures NormaliseTarget(NormaliseTarget(t).value) == NormaliseTarget(t) <==> t.name != ""
  {
  }

  /** The characters `[A-z]` admits: the ASCII range 'A' (0x41) to 'z' (0x7A), which takes
      in the six punctuation characters between 'Z' and 'a'. */
  predicate IsColumnChar(c: char)
  {
    'A' <= c <= 'z'
  }

  predicate AllColumnChars(s: string)
  {
    forall k :: 0 <= k < |s| ==> IsColumnChar(s[k])
  }

  /** `re.match(r"[A-z]+\d+", s)` succeeds: some prefix of `s` is one or more column
      characters followed by one or more digits. The match is anchored only at the start. */
  ghost predicate CellPatternMatchesPrefix(s: string)
  {
    exists i, j :: 0 < i < j <= |s| && AllColumnChars(s[..i]) && Decimal.AllDigits(s[i..j])
  }

  /** Length of the longest prefix of `s` made of column characters. */
  function ColumnRun(s: string): (n: nat)
    ensures n <= |s|
    ensures forall k :: 0 <= k < n ==> IsColumnChar(s[k])
    ensures n < |s| ==> !IsColumnChar(s[n])
  {
    if |s| == 0 || !IsColumnChar(s[0]) then 0 else 1 + ColumnRun(s[1..])
  }

  /** Decides the name-cell pattern the way the regular expression engine would. */
  function MatchesCellPattern(s: string): (b: bool)
    ensures b <==> CellPatternMatchesPrefix(s)
  {
    var n := ColumnRun(s);
    CellPatternDecided(s);
    0 < n < |s| && Decimal.IsDigit(s[n])
  }

  /** Letters and digits are disjoint, so every match splits `s` right after its maximal
      run of column characters: the pattern holds iff that run is non-empty and a digit
      follows it. */
  lemma CellPatternDecided(s: string)
    ensures CellPatternMatchesPrefix(s) <==> var n := ColumnRun(s); 0 < n < |s| && Decimal.IsDigit(s[n])
  {
    var n := ColumnRun(s);
    if 0 < n < |s| && Decimal.IsDigit(s[n]) {
      assert AllColumnChars(s[..n]) && Decimal.AllDigits(s[n..n + 1]);
    }
    if CellPatternMatchesPrefix(s) {
      var i, j :| 0 < i < j <= |s| && AllColumnChars(s[..i]) && Decimal.AllDigits(s[i..j]);
      MatchSplitsAtColumnRun(s, i, j);
    }
  }

  /** Any split of a match falls exactly at the end of the maximal column run. */
  lemma MatchSplitsAtColumnRun(s: string, i: int, j: int)
    requires 0 < i < j <= |s| && AllColumnChars(s[..i]) && Decimal.AllDigits(s[i..j])
    ensures i == ColumnRun(s) && Decimal.IsDigit(s[i])
  {
    var n := ColumnRun(s);
    assert Decimal.IsDigit(s[i]) by {
      assert s[i..j][0] == s[i];
    }
  }

  /** The name-cell rule: enforced only in "from_cell" mode, where a missing cell and a
      cell that does not start like a reference are both refused. */
  function CheckNameCell(mode: NameMode, nameCell: Option<string>): (r: Option<MergeError>)
    ensures mode != FromCell ==> r == None
    ensures mode == FromCell && nameCell == None ==> r == Some(MissingNameCell)
    ensures mode == FromCell && nameCell.Some? ==>
              r == (if CellPatternMatchesPrefix(nameCell.value) then None else Some(InvalidNameCell))
    ensures r.Some? ==> r.value in {MissingNameCell, InvalidNameCell}
  {
    if mode == FromCell then
      if nameCell.None? then Some(MissingNameCell)
      else if !MatchesCellPattern(nameCell.value) then Some(InvalidNameCell)
      else None
    else None
  }

  /** Concrete cases: "B7" and "B7x" pass, "12A", "" and "B" do not, and characters
      between 'Z' and 'a' count as column characters. */
  lemma CellPatternExamples()
    ensures MatchesCellPattern("B7") && MatchesCellPattern("B7x")
    ensures !MatchesCellPattern("12A") && !MatchesCellPattern("")
    ensures MatchesCellPattern("_9") && !MatchesCellPattern("B")
  {
  }

  /** Validation of the settings in source order: the extension first, then the name cell. */
  function ResolveSettings(target: Path, mode: NameMode, nameCell: Option<string>): (r: Result<Settings, MergeError>)
    ensures r.Success? <==>
              && NormaliseTarget(target).Success?
              && (mode == FromCell ==> nameCell.Some? && CellPatternMatchesPrefix(nameCell.value))
    ensures r.Success? ==> r.value.mode == mode && r.value.nameCell == nameCell
    ensures r.Success? ==> r.value.target == NormaliseTarget(target).value
    ensures r.Success? ==> r.value.target.parent == target.parent
    ensures r.Success? && target.name != "" ==> IsWorkbookPath(r.value.target)
    ensures NormaliseTarget(target).Failure? ==> r == Failure(InvalidTargetExtension)
    ensures NormaliseTarget(target).Success? && CheckNameCell(mode, nameCell).Some? ==>
              r == Failure(CheckNameCell(mode, nameCell).value)
  {
    match NormaliseTarget(target)
    case Failure(e) => Failure(e)
    case Success(path) =>
      match CheckNameCell(mode, nameCell)
      case Some(e) => Failure(e)
      case None => Success(Settings(path, mode, nameCell))
  }
}
