/**
 * HTTP messages as immutable values: the parts of `HttpRequestMessage`,
 * `HttpContent` and `HttpResponseMessage` that the interceptor reads,
 * copies or creates, and the header and option collections' add operations.
 */
module Http {
  import opened Base

  /** Status 500 Internal Server Error (section 15.6.1 of RFC 9110). */
  const InternalServerError: int := 500

  /** A byte of a message body. */
  newtype byte = b: int | 0 <= b < 256

  /** The protocol version requested (`Version`), such as 1.1 or 2.0. */
  datatype HttpVersion = HttpVersion(major: nat, minor: nat)

  /**
   * A header collection: each name maps to its values in the order they
   * were added. The enumeration order of the names is not modelled.
   */
  type Headers = map<string, seq<string>>

  /** An entry of the `Options` property bag; only its identity matters. */
  datatype OptionValue = OptionValue(id: nat)

  /** A request body, as its bytes, with its content headers. */
  datatype Content = Content(body: seq<byte>, headers: Headers)

  /** A request: method (`verb`), URI, version, optional content, headers and options. */
  datatype Request = Request(
    verb: string,
    uri: Option<string>,
    version: HttpVersion,
    content: Option<Content>,
    headers: Headers,
    options: map<string, OptionValue>)

  /** A response: status code, reason phrase and the request it answers. */
  datatype Response = Response(status: int, reasonPhrase: Option<string>, requestMessage: Option<Request>)

  /**
   * What one call of the inner handler gives: a response, an
   * `HttpRequestException` with its message, or any other exception
   * (cancellation included) with its message.
   */
  datatype Outcome =
    | Responded(response: Response)
    | RequestFailed(message: string)
    | Faulted(message: string)
}
