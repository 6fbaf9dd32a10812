/** Failure-carrying datatypes shared by the whole model. */
module Wrappers {

  /** A value that may be absent, as Python's `None` stands for "not given". */
  datatype Option<+T> = None | Some(value: T)

  /** The outcome of a step that either produces a value or aborts the run. */
  datatype Result<+T, +E> = Success(value: T) | Failure(error: E)
}

/** The reasons a merge run aborts. Every one of them ends the run before anything is saved. */
module Errors {

  datatype MergeError =
    | InvalidTargetExtension        // the target path carries a suffix other than ".xlsx"
    | MissingNameCell               // "from_cell" naming without a name cell
    | InvalidNameCell               // the name cell does not start like a cell reference
    | NoWorkbooks                   // the source directory holds no ".xlsx" entry
    | DuplicateSheetName(name: string)  // two sources share a first sheet name ("from_sheet_name")
}
