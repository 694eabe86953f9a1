/** Results and the HTTP status codes with which the service reports failures. */
module Http {

  /** Status raised when the feed times out on every attempt. */
  const GatewayTimeout: nat := 504
  /** Status raised for any other transport-level failure, a non-2xx status included. */
  const ServiceUnavailable: nat := 503
  /** Status raised for any other failure while fetching or decoding the feed. */
  const InternalServerError: nat := 500
  /** Status raised by a query that finds nothing. */
  const NotFound: nat := 404

  /** The value an operation returns, or the status code of the exception it raises. */
  datatype Result<+T> = Ok(value: T) | Err(code: nat)
}
