/** The exception hierarchy of the server. `AuthenticationError`,
    `GraphAPIError` and `RateLimitError` are the three subclasses of the
    package's base error; `OtherError` stands for any exception outside that
    hierarchy (a `KeyError`, a JSON decoding failure, a transport failure). */
module Errors {
  import opened Base

  datatype GraphError =
    | AuthenticationError(message: string)
    | GraphApiError(message: string, statusCode: Option<int>)
    | RateLimitError(message: string)
    | OtherError(message: string)
  {
    /** Whether the exception derives from the package's base error class. */
    predicate IsPackageError() {
      !OtherError?
    }
  }
}
