/**
 * The comment endpoint of api/comments.js: GET lists the comments of a song,
 * POST stores one comment made of a song id, an author and a text.
 */
module Comments {
  import opened Options
  import opened Js
  import opened Http
  import Utils

  const MaxAuthorLength: nat := 30
  const MaxTextLength: nat := 500
  /** At most this many comments are listed. */
  const ListLimit: nat := 100
  /** The columns a listing selects. */
  const ListedColumns: seq<string> := ["author", "body", "created_at"]

  const Allow := "GET, POST"
  const InvalidSongId := "Missing or invalid song_id"
  const MissingText := "Missing author or body"
  const NotAllowed := "Method not allowed"

  /** A row the store returns, as its JSON fields. */
  type Row = Fields


  /** The one record a POST inserts: exactly these three columns. */
  datatype Record = Record(songId: string, author: string, text: string)

  /** The store calls the handler makes. */
  datatype Call =
    | SelectComments(songId: string, columns: seq<string>, newestFirst: bool, limit: nat)
      // GET /comments?select=author,body,created_at&song_id=eq.<id>&order=created_at.desc&limit=100
    | InsertComment(record: Record)
      // POST /comments [{ song_id, author, body }]

  /** The JSON bodies the handler sends. */
  datatype Payload =
    | CommentList(comments: seq<Row>)   // { comments }
    | Posted(comment: Option<Row>)      // { ok: true, comment }, None is null
    | Error(message: string)            // { error }

  /** `send(res, status, body)`: no cache header here. */
  function Send(status: int, body: Payload): Response<Payload> {
    Response(status, None, false, body)
  }

  /**
   * What the handler reads from a request: the method, the validated song id
   * (query string on GET, parsed body otherwise), the clamped author and
   * text of the body, and the error a POST throws when its body parses to
   * `null`.
   */
  datatype Intent = Intent(httpMethod: string, songId: Option<string>, author: string, text: string,
                           bodyFailure: Option<Failure>)

  function IntentOf(req: Request): (i: Intent)
    ensures i.httpMethod == req.httpMethod
    ensures |i.author| <= MaxAuthorLength && |i.text| <= MaxTextLength
    ensures i.bodyFailure.Some? <==> req.httpMethod == "POST" && Utils.ParseJsonBody(req.body).None?
    ensures i.bodyFailure.Some? ==> i.bodyFailure.value == ReadOfNull("song_id")
  {
    var body := Utils.ParseJsonBody(req.body);
    var fields := Utils.BodyFields(body);
    IntentFrom(req.httpMethod, Utils.GetSongId(req), Get(fields, "song_id"), Get(fields, "author"), Get(fields, "body"))
      .(bodyFailure := Utils.BodyFailure(req.httpMethod, body))
  }

  /** The intent read from the query's song id and the body's `song_id`, `author` and `body` fields. */
  function IntentFrom(httpMethod: string, querySongId: Option<string>, songId: Value, author: Value, text: Value): (i: Intent)
    ensures i.httpMethod == httpMethod && i.bodyFailure.None?
    ensures |i.author| <= MaxAuthorLength && |i.text| <= MaxTextLength
  {
    Intent(httpMethod,
           if httpMethod == "GET" then querySongId else Utils.ValidateSongId(songId),
           Utils.ClampText(author, MaxAuthorLength),
           Utils.ClampText(text, MaxTextLength),
           None)
  }

  /** A client's `image_url` field plays no part in what the handler reads. */
  lemma ImageUrlIgnored(req: Request, fields: Fields, imageUrl: Value)
    requires req.body == ObjectBody(fields)
    ensures IntentOf(req.(body := ObjectBody(fields["image_url" := imageUrl]))) == IntentOf(req)
  {
    assert |"image_url"| == 9;
    GetOtherField(fields, "image_url", imageUrl, "song_id");
    GetOtherField(fields, "image_url", imageUrl, "author");
    GetOtherField(fields, "image_url", imageUrl, "body");
  }

  predicate IsGetOrPost(i: Intent) {
    i.httpMethod == "GET" || i.httpMethod == "POST"
  }

  /** A POST whose body is `null` throws when it reads `body.song_id`. */
  predicate ThrowsOnBody(i: Intent) {
    i.httpMethod == "POST" && i.bodyFailure.Some?
  }

  /**
   * The store call the handler makes: none for another method or a bad id; on
   * GET the newest 100 comments of the song, author, body and time only; on
   * POST one insert, unless the author or the text is empty.
   */
  function CallFor(i: Intent): (c: Option<Call>)
    ensures c.Some? ==> IsGetOrPost(i) && i.songId.Some? && !ThrowsOnBody(i)
    ensures i.httpMethod == "GET" ==>
      (c.Some? <==> i.songId.Some?) &&
      (c.Some? ==> c.value == SelectComments(i.songId.value, ListedColumns, true, ListLimit))
    ensures i.httpMethod == "POST" ==>
      (c.Some? <==> i.bodyFailure.None? && i.songId.Some? && i.author != "" && i.text != "") &&
      (c.Some? ==> c.value == InsertComment(Record(i.songId.value, i.author, i.text)))
  {
    if !IsGetOrPost(i) || ThrowsOnBody(i) then None
    else match i.songId
      case None => None
      case Some(id) =>
        if i.httpMethod == "GET" then Some(SelectComments(id, ListedColumns, true, ListLimit))
        else if i.author == "" || i.text == "" then None
        else Some(InsertComment(Record(id, i.author, i.text)))
  }

  /** Every inserted record has a well-formed song id and a non-empty author and text within their limits. */
  lemma InsertedRecordIsValid(req: Request)
    requires CallFor(IntentOf(req)).Some? && CallFor(IntentOf(req)).value.InsertComment?
    ensures var r := CallFor(IntentOf(req)).value.record;
      && Utils.WellFormedSongId(r.songId)
      && 0 < |r.author| <= MaxAuthorLength
      && 0 < |r.text| <= MaxTextLength
  {
    var i := IntentOf(req);
    assert i.songId.Some? && Utils.WellFormedSongId(i.songId.value);
  }

  /** `Array.isArray(rows) ? rows : []` */
  function ListedRows(reply: Reply<Row>): (rows: seq<Row>)
    ensures reply.Rows? ==> rows == reply.rows
    ensures !reply.Rows? ==> rows == []
  {
    if reply.Rows? then reply.rows else []
  }

  /** The response to a store call once its reply is in. */
  function Respond(call: Call, reply: Reply<Row>): Response<Payload> {
    if reply.Threw? then Send(FailureStatus(reply.failure), Error(FailureMessage(reply.failure)))
    else match call
      case SelectComments(_, _, _, _) => Send(200, CommentList(ListedRows(reply)))
      case InsertComment(_) => Send(200, Posted(FirstRow(reply)))
  }

  /** The handler's decision for what it read from the request, given the reply of its store call. */
  function Decide(i: Intent, reply: Reply<Row>): (r: Response<Payload>)
    ensures !r.noStore
    ensures r.allow.Some? <==> !IsGetOrPost(i)
    ensures !IsGetOrPost(i) ==> r.status == 405 && r.allow == Some(Allow) && r.body == Error(NotAllowed)
    ensures ThrowsOnBody(i) ==>
      r.status == FailureStatus(i.bodyFailure.value) && r.body == Error(FailureMessage(i.bodyFailure.value))
    ensures IsGetOrPost(i) && !ThrowsOnBody(i) && i.songId.None? ==> r.status == 400 && r.body == Error(InvalidSongId)
    ensures i.httpMethod == "POST" && !ThrowsOnBody(i) && i.songId.Some? && (i.author == "" || i.text == "") ==>
      r.status == 400 && r.body == Error(MissingText)
    ensures CallFor(i).Some? && reply.Threw? ==>
      r.status == FailureStatus(reply.failure) && r.body == Error(FailureMessage(reply.failure))
    ensures i.httpMethod == "GET" && CallFor(i).Some? && !reply.Threw? ==>
      r.status == 200 && r.body == CommentList(ListedRows(reply))
    ensures i.httpMethod == "POST" && CallFor(i).Some? && !reply.Threw? ==>
      r.status == 200 && r.body == Posted(FirstRow(reply))
    ensures !reply.Threw? && !ThrowsOnBody(i) ==> (r.status == 400 <==> CallFor(i).None? && IsGetOrPost(i))
  {
    if !IsGetOrPost(i) then Response(405, Some(Allow), false, Error(NotAllowed))
    else if ThrowsOnBody(i) then Send(FailureStatus(i.bodyFailure.value), Error(FailureMessage(i.bodyFailure.value)))
    else if i.songId.None? then Send(400, Error(InvalidSongId))
    else match CallFor(i)
      case None => Send(400, Error(MissingText))
      case Some(call) => Respond(call, reply)
  }

  /** `handler(req, res)`, given the reply of the store call it makes (ignored when it makes none). */
  function Handle(req: Request, reply: Reply<Row>): (r: Response<Payload>)
    ensures !r.noStore
    ensures req.httpMethod != "GET" && req.httpMethod != "POST" ==> r.status == 405 && r.allow == Some(Allow)
    ensures req.httpMethod == "GET" && Utils.GetSongId(req).None? ==> r == Send(400, Error(InvalidSongId))
    ensures req.httpMethod == "POST" && Utils.ParseJsonBody(req.body).None? ==>
      r == Send(500, Error(ReadOfNull("song_id").message))
  {
    Decide(IntentOf(req), reply)
  }
}
