/**
 * The slice of the browser `fetch` API the client uses. The network itself is
 * an oracle: every reply a call site receives is an input of the model.
 */
module Http {

  /** Header names to values, as a plain JavaScript object of headers. */
  type Headers = map<string, string>

  /** A request body: none, `JSON.stringify` of a string-valued object, or a `FormData`. */
  datatype Body = NoBody | Json(fields: map<string, string>) | Form(fields: map<string, string>)

  /** The `RequestInit` options of a `fetch` call; `verb` is its `method` field. */
  datatype Options = Options(verb: string, headers: Headers, body: Body)

  datatype Request = Request(url: string, options: Options)

  /** A response with its status and what the caller reads from its body: the parts of the
      parsed JSON it uses, whether the JSON parses at all, or an object URL made from the blob. */
  datatype Response<J> = Response(status: int, body: J)

  /** What one `fetch` produced: a rejection (network error) or a response. */
  datatype Reply<J> = NetworkError | Responded(response: Response<J>)

  /** `response.ok` */
  predicate IsOk(status: int) {
    200 <= status <= 299
  }

  /** A notification shown to the user (`toast`). */
  datatype Toast = Toast(title: string, description: string, destructive: bool)

  const ApplicationJson: string := "application/json"
  const ContentTypeHeader: string := "Content-Type"
  const AuthorizationHeader: string := "Authorization"
  const AuthBase: string := "http://127.0.0.1:8000/auth"
}
