/** Failure-compatible wrappers and the ways a run of the script can abort. */
module Common {

  datatype Option<+T> = None | Some(value: T)

  datatype Result<+T, +E> = Ok(value: T) | Err(error: E)

  /** Why the script stops with an uncaught exception. */
  datatype Abort =
    | EndOfInput              // input() hit the end of standard input (EOFError)
    | UnknownCity(city: string)  // CITY_DATA.get returned None, so read_csv failed
    | MissingFile(file: string)  // read_csv could not open the city's file
    | NotInList(item: string)    // list.index raised ValueError
    | EmptyColumn(column: string) // mode()[0] or int(min()) on a column with no values
}
