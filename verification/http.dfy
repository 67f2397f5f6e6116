/** The slice of HTTP the router reads and writes. */
module Http {

  const MethodGet := "GET"
  const MethodPut := "PUT"
  const MethodPatch := "PATCH"
  const MethodOptions := "OPTIONS"

  const StatusOK := 200

  /** What the router reads from an incoming request: its method, its URL path
      and three request headers. An absent header reads as "", as with Go's
      `r.Header.Get`. */
  datatype Request = Request(
    httpMethod: string,
    path: string,
    origin: string,            // Origin
    requestMethod: string,     // Access-Control-Request-Method
    requestHeaders: string)    // Access-Control-Request-Headers
}
