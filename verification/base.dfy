/** Shared result types for the template builder model. */
module Base {

  datatype Option<+T> = None | Some(value: T)

  /** The conditions under which building the template aborts. Each one is an
      exception the script does not catch. */
  datatype Error =
    /** `{sheet}.csv` could not be opened, or had no header row. */
    | MissingHeaderRow(sheet: string)
    /** A column's normalised path is not a key of the field metadata. */
    | MissingMetadata(path: string)
    /** A field's `range` is empty, so its first character does not exist. */
    | EmptyRange(path: string)
    /** The open codelist at `url` could not be fetched. */
    | CodelistUnavailable(url: string)
    /** A component to delete is not a key of the schema's `properties`. */
    | MissingComponent(key: string)

  datatype Result<+T> = Ok(value: T) | Err(error: Error)
}
