/**
 * The exceptions the client library throws, as values.  Messages are kept as
 * the source builds them, quoted input included.
 */
module Errors {
  import opened Wrappers

  /** What went wrong while exchanging client credentials for a token. */
  datatype RefreshFault =
    | IoFailure           // the token request itself could not be sent
    | MalformedJson       // the reply body is not a JSON object
    | MissingAccessToken  // no string "access_token" member
    | MissingExpiration   // neither "token_expires_date_time" nor "expires_in"
    | WrongValueType      // an expiry member of the wrong JSON type
    | UnparsableInstant   // "token_expires_date_time" is not an ISO-8601 instant

  /** The catch clause of refreshToken that reports a fault. */
  datatype RefreshStage = SendFailed | ParseFailed | Unexpected

  datatype Error =
    | NullPointer(message: string)                         // NullPointerException
    | IllegalArgument(message: string)                     // IllegalArgumentException
    | IllegalState(message: string)                        // IllegalStateException
    | TokenRefresh(stage: RefreshStage, fault: RefreshFault) // HttpTokenRefreshException
    | HttpRequestFailure(message: string, cause: Error)    // HttpRequestException
    | Completion(detail: Option<string>, cause: Error)     // CompletionException; None: the cause's own text
    | TransportFailure                                     // whatever the HTTP transport failed with
    | NullDereference                                      // a NullPointerException raised by the JVM itself
    | LibraryFailure(fault: RefreshFault)                  // what the JSON reader, Instant.parse or a cast throws
}
