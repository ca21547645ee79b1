/**
 * The like/dislike endpoint of api/ratings.js, and the counter store behind
 * it whose `increment_rating` call applies both deltas in one step.
 */
module Ratings {
  import opened Options
  import opened Js
  import opened Http
  import Utils

  /** A row the store returns; `None` stands for a missing or null column. */
  datatype Row = Row(likes: Option<int>, dislikes: Option<int>)


  /** The store calls the handler makes. */
  datatype Call =
    | SelectCounts(songId: string)
      // GET /ratings?select=likes,dislikes&song_id=eq.<id>&limit=1
    | IncrementRating(songId: string, likeDelta: int, dislikeDelta: int)
      // POST /rpc/increment_rating { p_song_id, p_like_delta, p_dislike_delta }

  /** The JSON bodies the handler sends. */
  datatype Payload =
    | Counts(likes: int, dislikes: int)                  // { likes, dislikes }
    | Voted(newLikes: Option<int>, newDislikes: Option<int>)   // { ok: true, likes, dislikes }, None is null
    | Error(message: string)                             // { error }

  const Allow := "GET, POST"
  const InvalidSongId := "Missing or invalid song_id"
  const UpdateFailed := "Failed to update ratings"
  const NotAllowed := "Method not allowed"

  /** `send(res, status, body)`, which always sets `Cache-Control: no-store`. */
  function Send(status: int, body: Payload): Response<Payload> {
    Response(status, None, true, body)
  }

  /**
   * What the handler reads from a request before deciding anything: the
   * method, the validated song id (from the query string on GET, from the
   * parsed body otherwise), the two clamped deltas of the body, and the
   * error a POST throws when its body parses to `null`.
   */
  datatype Intent = Intent(httpMethod: string, songId: Option<string>, likeDelta: int, dislikeDelta: int,
                           bodyFailure: Option<Failure>)

  function IntentOf(req: Request): (i: Intent)
    ensures i.httpMethod == req.httpMethod
    ensures -1 <= i.likeDelta <= 1 && -1 <= i.dislikeDelta <= 1
    ensures i.bodyFailure.Some? <==> req.httpMethod == "POST" && Utils.ParseJsonBody(req.body).None?
    ensures i.bodyFailure.Some? ==> i.bodyFailure.value == ReadOfNull("song_id")
  {
    var body := Utils.ParseJsonBody(req.body);
    var fields := Utils.BodyFields(body);
    Intent(req.httpMethod,
           if req.httpMethod == "GET" then Utils.GetSongId(req) else Utils.ValidateSongId(Get(fields, "song_id")),
           Utils.ClampDelta(Get(fields, "likeDelta")),
           Utils.ClampDelta(Get(fields, "dislikeDelta")),
           Utils.BodyFailure(req.httpMethod, body))
  }

  predicate IsGetOrPost(i: Intent) {
    i.httpMethod == "GET" || i.httpMethod == "POST"
  }

  /** A POST whose body is `null` throws when it reads `body.song_id`. */
  predicate ThrowsOnBody(i: Intent) {
    i.httpMethod == "POST" && i.bodyFailure.Some?
  }

  /**
   * The store call the handler makes: none for another method or a bad id, a
   * select on GET, and on POST one `increment_rating` carrying the clamped
   * deltas unless both are 0.
   */
  function CallFor(i: Intent): (c: Option<Call>)
    ensures c.Some? ==> IsGetOrPost(i) && i.songId == Some(c.value.songId) && !ThrowsOnBody(i)
    ensures i.httpMethod == "GET" ==> (c.Some? <==> i.songId.Some?) && (c.Some? ==> c.value.SelectCounts?)
    ensures i.httpMethod == "POST" ==>
      (c.Some? <==> i.bodyFailure.None? && i.songId.Some? && (i.likeDelta != 0 || i.dislikeDelta != 0))
    ensures c.Some? && c.value.IncrementRating? ==>
      && i.httpMethod == "POST"
      && c.value.likeDelta == i.likeDelta && c.value.dislikeDelta == i.dislikeDelta
  {
    if !IsGetOrPost(i) || ThrowsOnBody(i) then None
    else match i.songId
      case None => None
      case Some(id) =>
        if i.httpMethod == "GET" then Some(SelectCounts(id))
        else if i.likeDelta == 0 && i.dislikeDelta == 0 then None
        else Some(IncrementRating(id, i.likeDelta, i.dislikeDelta))
  }

  /** `x ?? 0` */
  function OrZero(x: Option<int>): int {
    match x case Some(n) => n case None => 0
  }

  /** The likes of the first row, 0 when there is no row or the column is null. */
  function FirstLikes(reply: Reply<Row>): int {
    match FirstRow(reply) case Some(row) => OrZero(row.likes) case None => 0
  }

  /** The dislikes of the first row, 0 when there is no row or the column is null. */
  function FirstDislikes(reply: Reply<Row>): int {
    match FirstRow(reply) case Some(row) => OrZero(row.dislikes) case None => 0
  }

  /** The response to a store call once its reply is in. */
  function Respond(call: Call, reply: Reply<Row>): Response<Payload> {
    if reply.Threw? then Send(FailureStatus(reply.failure), Error(FailureMessage(reply.failure)))
    else match call
      case SelectCounts(_) => Send(200, Counts(FirstLikes(reply), FirstDislikes(reply)))
      case IncrementRating(_, _, _) =>
        if FirstRow(reply).None? then Send(500, Error(UpdateFailed))
        else Send(200, Voted(Some(FirstLikes(reply)), Some(FirstDislikes(reply))))
  }

  /** The handler's decision for what it read from the request, given the reply of its store call. */
  function Decide(i: Intent, reply: Reply<Row>): (r: Response<Payload>)
    ensures r.noStore
    ensures r.allow.Some? <==> !IsGetOrPost(i)
    ensures !IsGetOrPost(i) ==> r.status == 405 && r.allow == Some(Allow) && r.body == Error(NotAllowed)
    ensures ThrowsOnBody(i) ==>
      r.status == FailureStatus(i.bodyFailure.value) && r.body == Error(FailureMessage(i.bodyFailure.value))
    ensures IsGetOrPost(i) && !ThrowsOnBody(i) && i.songId.None? ==>
      r.status == 400 && r.body == Error(InvalidSongId) && CallFor(i).None?
    ensures IsGetOrPost(i) && !ThrowsOnBody(i) && i.songId.Some? && CallFor(i).None? ==>
      i.httpMethod == "POST" && i.likeDelta == 0 && i.dislikeDelta == 0 && r.status == 200 && r.body == Voted(None, None)
    ensures CallFor(i).Some? && reply.Threw? ==> r.status == FailureStatus(reply.failure)
    ensures i.httpMethod == "GET" && CallFor(i).Some? && !reply.Threw? ==>
      r.status == 200 && r.body == Counts(FirstLikes(reply), FirstDislikes(reply))
    ensures i.httpMethod == "POST" && CallFor(i).Some? && !reply.Threw? ==>
      && (r.status == 500 <==> FirstRow(reply).None?)
      && (FirstRow(reply).Some? ==> r.status == 200 && r.body == Voted(Some(FirstLikes(reply)), Some(FirstDislikes(reply))))
  {
    if !IsGetOrPost(i) then Response(405, Some(Allow), true, Error(NotAllowed))
    else if ThrowsOnBody(i) then Send(FailureStatus(i.bodyFailure.value), Error(FailureMessage(i.bodyFailure.value)))
    else if i.songId.None? then Send(400, Error(InvalidSongId))
    else match CallFor(i)
      case None => Send(200, Voted(None, None))
      case Some(call) => Respond(call, reply)
  }

  /**
   * `handler(req, res)`, given the reply of the store call it makes (ignored
   * when it makes none).
   */
  function Handle(req: Request, reply: Reply<Row>): (r: Response<Payload>)
    ensures r.noStore
    ensures req.httpMethod != "GET" && req.httpMethod != "POST" ==> r.status == 405 && r.allow == Some(Allow)
    ensures req.httpMethod == "GET" && Utils.GetSongId(req).None? ==> r == Send(400, Error(InvalidSongId))
    ensures req.httpMethod == "POST" && Utils.ParseJsonBody(req.body).None? ==>
      r == Send(500, Error(ReadOfNull("song_id").message))
  {
    Decide(IntentOf(req), reply)
  }

  /** A request that makes no store call is answered the same whatever the store would have said. */
  lemma NoCallIgnoresReply(i: Intent, a: Reply<Row>, b: Reply<Row>)
    requires CallFor(i).None?
    ensures Decide(i, a) == Decide(i, b)
  {
  }

  // ---------------------------------------------------------------- the store

  /** One record of the `ratings` table. */
  datatype Tally = Tally(likes: int, dislikes: int)

  /** The record of `id`, or (0, 0) before its first vote. */
  function TallyOf(counts: map<string, Tally>, id: string): Tally {
    if id in counts then counts[id] else Tally(0, 0)
  }

  function RowOf(t: Tally): Row {
    Row(Some(t.likes), Some(t.dislikes))
  }

  /**
   * The table after `increment_rating(id, likeDelta, dislikeDelta)`: both
   * deltas land on the record in the same step, the record is created on the
   * first vote, and no other record changes.
   */
  function Incremented(counts: map<string, Tally>, id: string, likeDelta: int, dislikeDelta: int): (m: map<string, Tally>)
    ensures id in m && m[id] == Tally(TallyOf(counts, id).likes + likeDelta, TallyOf(counts, id).dislikes + dislikeDelta)
    ensures forall k :: k != id ==> (k in m <==> k in counts) && (k in counts ==> m[k] == counts[k])
  {
    var t := TallyOf(counts, id);
    counts[id := Tally(t.likes + likeDelta, t.dislikes + dislikeDelta)]
  }

  /** Two increments of one record in a row add up: neither update is lost. */
  lemma {:induction false} IncrementsCompose(counts: map<string, Tally>, id: string, l1: int, d1: int, l2: int, d2: int)
    ensures Incremented(Incremented(counts, id, l1, d1), id, l2, d2) == Incremented(counts, id, l1 + l2, d1 + d2)
  {
    var lhs := Incremented(Incremented(counts, id, l1, d1), id, l2, d2);
    var rhs := Incremented(counts, id, l1 + l2, d1 + d2);
    assert lhs.Keys == rhs.Keys;
  }

  /** The store's reply to `call`; `outage` is a request that fails before reaching the table. */
  function StoreReply(counts: map<string, Tally>, call: Option<Call>, outage: Option<Failure>): Reply<Row> {
    if outage.Some? then Threw(outage.value)
    else match call
      case None => Rows([])
      case Some(SelectCounts(id)) => Rows(if id in counts then [RowOf(counts[id])] else [])
      case Some(IncrementRating(id, l, d)) => Rows([RowOf(Incremented(counts, id, l, d)[id])])
  }

  /** The table after `call`: only a successful `increment_rating` changes it. */
  function StoreAfter(counts: map<string, Tally>, call: Option<Call>, outage: Option<Failure>): map<string, Tally> {
    if outage.None? && call.Some? && call.value.IncrementRating? then
      Incremented(counts, call.value.songId, call.value.likeDelta, call.value.dislikeDelta)
    else counts
  }

  /** The `ratings` table as the handler reaches it through the REST API. */
  class RatingStore {
    var counts: map<string, Tally>

    constructor ()
      ensures counts == map[]
    {
      counts := map[];
    }

    /** `select=likes,dislikes&song_id=eq.<id>&limit=1` */
    method Select(songId: string) returns (reply: Reply<Row>)
      ensures reply == StoreReply(counts, Some(SelectCounts(songId)), None)
    {
      if songId in counts {
        reply := Rows([RowOf(counts[songId])]);
      } else {
        reply := Rows([]);
      }
    }

    /** `rpc/increment_rating`: one atomic step that applies both deltas and returns the new record. */
    method Increment(songId: string, likeDelta: int, dislikeDelta: int) returns (reply: Reply<Row>)
      modifies this
      ensures counts == Incremented(old(counts), songId, likeDelta, dislikeDelta)
      ensures reply == Rows([RowOf(counts[songId])])
    {
      var t := if songId in counts then counts[songId] else Tally(0, 0);
      counts := counts[songId := Tally(t.likes + likeDelta, t.dislikes + dislikeDelta)];
      reply := Rows([RowOf(counts[songId])]);
    }

    /** The handler's work once it has read `i` from the request: at most the one call `CallFor` names. */
    method ServeIntent(i: Intent, outage: Option<Failure>) returns (resp: Response<Payload>)
      modifies this
      ensures resp == Decide(i, StoreReply(old(counts), CallFor(i), outage))
      ensures counts == StoreAfter(old(counts), CallFor(i), outage)
    {
      var call := CallFor(i);
      var reply: Reply<Row> := Rows([]);
      if outage.Some? {
        reply := Threw(outage.value);
      } else if call.Some? {
        match call.value
        case SelectCounts(id) =>
          reply := Select(id);
        case IncrementRating(id, l, d) =>
          reply := Increment(id, l, d);
      }
      resp := Decide(i, reply);
    }

    /** Runs `handler` against this store. */
    method Serve(req: Request, outage: Option<Failure>) returns (resp: Response<Payload>)
      modifies this
      ensures resp == Handle(req, StoreReply(old(counts), CallFor(IntentOf(req)), outage))
      ensures counts == StoreAfter(old(counts), CallFor(IntentOf(req)), outage)
    {
      resp := ServeIntent(IntentOf(req), outage);
    }
  }

  /** Two likes on one song, served one after the other, raise its count by exactly two. */
  lemma TwoLikesCountTwice(counts: map<string, Tally>, like: Intent)
    requires like.httpMethod == "POST" && like.bodyFailure.None? && like.songId.Some?
    requires like.likeDelta == 1 && like.dislikeDelta == 0
    ensures var id := like.songId.value;
      TallyOf(StoreAfter(StoreAfter(counts, CallFor(like), None), CallFor(like), None), id)
        == Tally(TallyOf(counts, id).likes + 2, TallyOf(counts, id).dislikes)
  {
    IncrementsCompose(counts, like.songId.value, 1, 0, 1, 0);
  }

  /** A song nobody has voted on reads as zero likes and zero dislikes. */
  lemma FreshSongReadsZero(counts: map<string, Tally>, i: Intent)
    requires i.httpMethod == "GET" && i.songId.Some? && i.songId.value !in counts
    ensures Decide(i, StoreReply(counts, CallFor(i), None)) == Send(200, Counts(0, 0))
  {
  }
}
