/** The exceptions the library raises, as values: the four geocoding
    status exceptions, the URL length exception and PHP's
    InvalidArgumentException, each with its message. */
module Errors {
  datatype GeoError =
    | QuotaLimitExceeded(message: string)
    | RequestDenied(message: string)
    | InvalidRequest(message: string)
    | UnknownError(message: string)
    | UrlLengthExceeded(message: string)
    | InvalidArgument(message: string)

  /** UrlLengthExceededException always carries this message. */
  const URL_LENGTH_MESSAGE: string := "The url length was exceeded"
}
