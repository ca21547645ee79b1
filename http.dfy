/** Requests, responses and thrown errors as the serverless handlers see them. */
module Http {
  import opened Options
  import opened Js

  /**
   * What `JSON.parse` makes of a text: it throws (`NotJson`), or gives `null`,
   * an object, or another value (an array, a string, a number or a boolean),
   * none of which has a field the handlers read.
   */
  datatype Json = NotJson | JsonNull | JsonObject(fields: Fields) | JsonOther

  /**
   * `req.body`: absent or falsy, an already parsed object, or raw text together
   * with what `JSON.parse` makes of it.
   */
  datatype Body = NoBody | ObjectBody(fields: Fields) | TextBody(text: string, parsed: Json)

  /** `req.method` (as `httpMethod`), `req.query` and `req.body`. */
  datatype Request = Request(httpMethod: string, query: Fields, body: Body)

  /** An error thrown inside a handler: its `statusCode` when that is an integer, and its `message`. */
  datatype Failure = Failure(statusCode: Option<int>, message: string)

  /**
   * What a handler sends: the status, the `Allow` header if set, whether
   * `Cache-Control: no-store` is set, and the JSON body.
   */
  datatype Response<+B> = Response(status: int, allow: Option<string>, noStore: bool, body: B)

  /** What a call to the store yields: parsed JSON that is an array of rows, other JSON, or a thrown error. */
  datatype Reply<+R> = Rows(rows: seq<R>) | NotAnArray | Threw(failure: Failure)

  /** `Array.isArray(rows) && rows.length > 0 ? rows[0] : null` */
  function FirstRow<R>(reply: Reply<R>): (r: Option<R>)
    ensures r.Some? <==> reply.Rows? && |reply.rows| > 0
    ensures r.Some? ==> r.value == reply.rows[0]
  {
    if reply.Rows? && |reply.rows| > 0 then Some(reply.rows[0]) else None
  }

  /** `err?.statusCode && Number.isInteger(err.statusCode) ? err.statusCode : 500` */
  function FailureStatus(f: Failure): (s: int)
    ensures s != 0
    ensures f.statusCode.Some? && f.statusCode.value != 0 ==> s == f.statusCode.value
    ensures f.statusCode.None? || f.statusCode.value == 0 ==> s == 500
  {
    match f.statusCode
    case Some(c) => if c != 0 then c else 500
    case None => 500
  }

  /** The `TypeError` thrown by reading `property` of `null`, in V8's words; it has no `statusCode`. */
  function ReadOfNull(property: string): (f: Failure)
    ensures f.statusCode.None? && f.message != ""
  {
    Failure(None, "Cannot read properties of null (reading '" + property + "')")
  }

  /** `err?.message || 'Server error'` */
  function FailureMessage(f: Failure): (m: string)
    ensures m != ""
    ensures f.message != "" ==> m == f.message
  {
    if f.message != "" then f.message else "Server error"
  }
}
