/** Optional values and the failures the library raises, shared by every module. */
module Wrappers {
  datatype Option<T> = None | Some(value: T)

  /** The exceptions of the library and of the integration that the model keeps apart. */
  datatype Failure =
    | ReadOnlyValue                    // "Cannot write to read-only value"
    | NoPointIndex                     // GetPointIndex gave -1 for an implicit index
    | ValueOverflow                    // int.to_bytes: value outside [0, 256^width)
    | NotAByte                         // bytes(int_array): an entry outside [0, 256)
    | UnhandledModeValue(raw: Option<int>, deviceType: int)
    | UnhandledMode(deviceType: int)
    | BadScheduleTime(units: int)        // int('') or datetime.time out of range
    | MissingKey                       // a dictionary or index lookup that fails
    | MissingPrevious                  // program["Prev"] is None where a program is needed
    | ZoneNotFound(zoneId: int)        // "Unknown zone: <id>"
    | ServerError(status: int)         // "Error getting zones from home: <status>"
    | NoData
    | NoTimestamp
    | EmptySchedule                    // lastKey/firstKey on an empty dict
    | NoRefreshToken                   // "Don't have a token to refresh"
    | LoginFailed                      // "Unable to login."
    | RequestTimeout                   // requests.exceptions.Timeout from an HTTP call
    | AttributeNameNotString           // getattr with None as the attribute name (a TypeError)
    | SendFailed(message: string)      // any other error raised while sending

  datatype Result<T> = Ok(value: T) | Err(error: Failure)
}
