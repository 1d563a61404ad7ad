/** The result codes shared by the database layer. */
module DatabaseResult {
  datatype DbaResult =
    | Ok
    | UnknownError
    | MemoryError
    | OsError
    | LibraryError
    | ConfigError
    | NetworkError
    | RemoteResourceError
    | ErrorArg
    | PoolBusy
    | ConnectionBusy
    | QueryStillProcessing
    | RsetStillLoading
    | RowStillFetching
    | RestReleasing
    | EndOfRsets
    | EndOfRows
    | Skipped
}
