/**
 * The source directory as the merger sees it: a listing of entries in the order the
 * directory yields them, each with the workbook it would open to. Only ".xlsx" entries
 * are kept, in their listing order, and a listing without any is refused.
 */
module Listing {
  import opened Wrappers
  import opened Errors
  import opened Paths

  /** What the merger reads from one source workbook: the name of its first sheet and the
      value found at the configured name cell of its active sheet. */
  datatype SourceBook = SourceBook(firstSheetName: string, nameCellValue: string)

  datatype DirEntry = DirEntry(path: Path, book: SourceBook)

  predicate IsWorkbookEntry(e: DirEntry)
  {
    IsWorkbookPath(e.path)
  }

  /** `a` is `b` with some elements dropped and the rest in their original order. */
  predicate IsSubsequence<T(==)>(a: seq<T>, b: seq<T>)
  {
    if |a| == 0 then true
    else if |b| == 0 then false
    else if a[0] == b[0] then IsSubsequence(a[1..], b[1..])
    else IsSubsequence(a, b[1..])
  }

  /** The ".xlsx" entries of a listing, in listing order. */
  function KeepWorkbooks(entries: seq<DirEntry>): (r: seq<DirEntry>)
    ensures forall e :: e in r <==> e in entries && IsWorkbookEntry(e)
    ensures forall e :: multiset(r)[e] == if IsWorkbookEntry(e) then multiset(entries)[e] else 0
    ensures IsSubsequence(r, entries)
  {
    if |entries| == 0 then []
    else
      var first := entries[0];
      var rest := KeepWorkbooks(entries[1..]);
      assert entries == [first] + entries[1..];
      assert multiset(entries) == multiset{first} + multiset(entries[1..]);
      if IsWorkbookEntry(first) then
        assert multiset([first] + rest) == multiset{first} + multiset(rest);
        [first] + rest
      else rest
  }

  /** The listing step: the kept entries, or an error when there are none. */
  function FilterWorkbooks(entries: seq<DirEntry>): (r: Result<seq<DirEntry>, MergeError>)
    ensures r.Failure? <==> forall e :: e in entries ==> !IsWorkbookEntry(e)
    ensures r.Failure? ==> r.error == NoWorkbooks
    ensures r.Success? ==> |r.value| > 0 && r.value == KeepWorkbooks(entries)
  {
    var kept := KeepWorkbooks(entries);
    if |kept| == 0 then Failure(NoWorkbooks) else Success(kept)
  }

  /** The workbooks the kept entries open to, in order. */
  function Books(entries: seq<DirEntry>): (r: seq<SourceBook>)
    ensures |r| == |entries|
    ensures forall k :: 0 <= k < |entries| ==> r[k] == entries[k].book
  {
    seq(|entries|, k requires 0 <= k < |entries| => entries[k].book)
  }
}
