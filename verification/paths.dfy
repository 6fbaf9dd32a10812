/**
 * Pure paths as pathlib sees them: the part before the final component and the
 * final component itself. The suffix rule is the one of `PurePath.suffix` in
 * CPython 3.12's pathlib: the text from the last '.' of the final component, provided that dot is neither
 * the first nor the last character of it; otherwise there is no suffix.
 */
module Paths {

  datatype Path = Path(parent: string, name: string)

  /** The only workbook extension the merger reads and writes. */
  const WorkbookSuffix: string := ".xlsx"

  /** Index of the last occurrence of `c` in `s`, or -1 when there is none. */
  function LastIndexOf(s: string, c: char): (r: int)
    ensures -1 <= r < |s|
    ensures r >= 0 ==> s[r] == c
    ensures forall j :: r < j < |s| ==> s[j] != c
  {
    if |s| == 0 then -1
    else if s[|s| - 1] == c then |s| - 1
    else LastIndexOf(s[..|s| - 1], c)
  }

  /** There is a dot strictly inside `name` with no dot after it. */
  ghost predicate HasInnerLastDot(name: string)
  {
    exists i :: 0 < i < |name| - 1 && name[i] == '.' && forall j :: i < j < |name| ==> name[j] != '.'
  }

  /** The suffix of a final path component ("" when it has none). */
  function Suffix(name: string): (r: string)
    ensures r != "" <==> HasInnerLastDot(name)
    ensures r != "" ==> 2 <= |r| < |name| && r[0] == '.' && r == name[|name| - |r|..]
    ensures forall k :: 1 <= k < |r| ==> r[k] != '.'
  {
    var i := LastIndexOf(name, '.');
    if 0 < i < |name| - 1 then name[i..] else ""
  }

  /** The `.xlsx` test: a path is a workbook exactly when its final component is a
      non-empty stem followed by ".xlsx". */
  function IsWorkbookPath(p: Path): (b: bool)
    ensures b <==> |p.name| > |WorkbookSuffix| && p.name[|p.name| - |WorkbookSuffix|..] == WorkbookSuffix
  {
    StemPlusSuffixIsWorkbook(p.name);
    Suffix(p.name) == WorkbookSuffix
  }

  /** A name ending in ".xlsx" after a non-empty stem has the suffix ".xlsx". */
  lemma StemPlusSuffixIsWorkbook(name: string)
    ensures |name| > |WorkbookSuffix| && name[|name| - |WorkbookSuffix|..] == WorkbookSuffix ==>
              Suffix(name) == WorkbookSuffix
  {
    var n := |name| - |WorkbookSuffix|;
    if n > 0 && name[n..] == WorkbookSuffix {
      assert name == name[..n] + WorkbookSuffix;
      SuffixAfterAppend(name[..n]);
    }
  }

  /** Appending ".xlsx" to a non-empty name gives it the suffix ".xlsx"; appended to the
      empty name it gives ".xlsx", a name that starts with its only dot and so has no suffix. */
  lemma SuffixAfterAppend(stem: string)
    ensures Suffix(stem + WorkbookSuffix) == (if stem == "" then "" else WorkbookSuffix)
  {
    var s := stem + WorkbookSuffix;
    assert s[|stem|] == '.';
    assert forall j :: |stem| < j < |s| ==> s[j] != '.' by {
      forall j | |stem| < j < |s| ensures s[j] != '.' {
        assert s[j] == WorkbookSuffix[j - |stem|];
      }
    }
    var i := LastIndexOf(s, '.');
    assert i == |stem|;
    if stem != "" {
      assert s[i..] == WorkbookSuffix;
    }
  }
}
