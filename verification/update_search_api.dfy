/** The `POST /api/updateSearch` handler: validate the body, then count the trimmed term. */
module UpdateSearchApi {
  import opened Wrappers
  import opened JsValue
  import opened JsString
  import opened SearchCounter

  /** The JSON the handler answers with. */
  datatype JsonBody = ErrorBody(error: string, message: Option<string>) | MessageBody(text: string)

  /** The status, the JSON body, and the counter collection after the request. */
  datatype Reply = Reply(status: int, body: JsonBody, db: seq<Doc>)

  /** `!searchTerm || typeof searchTerm !== "string" || !movie || typeof movie !== "object"` fails. */
  function ValidBody(searchTerm: Value, movie: Value): (ok: bool)
    ensures ok <==> searchTerm.Str? && searchTerm.s != "" && (movie.Obj? || movie.Arr?)
  {
    Truthy(searchTerm) && TypeOf(searchTerm) == "string" && Truthy(movie) && TypeOf(movie) == "object"
  }

  /**
   * The handler.  A body that is `undefined` or `null` makes the
   * destructuring throw, which the catch turns into a 500.
   */
  function Handle(httpMethod: string, body: Value, db: seq<Doc>, fault: DbFault): (r: Reply)
    ensures r.status in {200, 400, 405, 500}
    ensures r.status != 200 ==> r.db == db
    ensures r.status == 405 <==> httpMethod != "POST"
    ensures r.status == 400 <==>
              && httpMethod == "POST" && body != Undefined && body != Null
              && !ValidBody(OptionalField(body, "searchTerm"), OptionalField(body, "movie"))
    ensures r.status == 200 <==>
              && httpMethod == "POST" && body != Undefined && body != Null
              && ValidBody(OptionalField(body, "searchTerm"), OptionalField(body, "movie"))
              && fault == NoFault
    ensures r.status == 200 ==>
              r.db == Upsert(db, Trim(OptionalField(body, "searchTerm").s), OptionalField(body, "movie"))
  {
    if httpMethod != "POST" then
      Reply(405, ErrorBody("Method Not Allowed", None), db)
    else
      var (ok1, searchTerm) := Destructure(body, "searchTerm");
      var (ok2, movie) := Destructure(body, "movie");
      if !ok1 || !ok2 then
        Reply(500, ErrorBody("Internal Server Error", None), db)
      else if !ValidBody(searchTerm, movie) then
        Reply(400, ErrorBody("Bad Request", Some("Missing or invalid parameters")), db)
      else
        match Store(db, Trim(searchTerm.s), movie, fault)
        case Some(db') => Reply(200, MessageBody("Search term updated successfully"), db')
        case None => Reply(500, ErrorBody("Internal Server Error", None), db)
  }

  /** The body the frontend's search logger posts. */
  function LogBody(term: string, movie: Value): (body: Value)
    ensures body != Undefined && body != Null
    ensures OptionalField(body, "searchTerm") == Str(term)
    ensures OptionalField(body, "movie") == movie
  {
    Obj(map["searchTerm" := Str(term), "movie" := movie])
  }

  /** A well-formed logging request succeeds and counts the trimmed term. */
  lemma LogRequestCounted(term: string, movie: Value, db: seq<Doc>)
    requires term != "" && (movie.Obj? || movie.Arr?)
    ensures Handle("POST", LogBody(term, movie), db, NoFault)
              == Reply(200, MessageBody("Search term updated successfully"), Upsert(db, Trim(term), movie))
  {
    assert OptionalField(LogBody(term, movie), "searchTerm") == Str(term);
    assert OptionalField(LogBody(term, movie), "movie") == movie;
  }

  /** A whitespace-only term passes validation and is counted under the empty key. */
  lemma BlankTermIsCounted(term: string, movie: Value, db: seq<Doc>)
    requires term != "" && IsBlank(term)
    requires movie.Obj?
    ensures var r := Handle("POST", LogBody(term, movie), db, NoFault);
            r.status == 200 && Tally(r.db, "") == Tally(db, "") + 1
  {
    LogRequestCounted(term, movie, db);
    UpsertTally(db, "", movie, "");
  }

  /**
   * Two successful requests whose terms agree after trimming, starting from
   * a collection without that term, leave one document for it, counted twice.
   */
  lemma TwoRequestsOneDocument(t1: string, t2: string, m1: Value, m2: Value, db: seq<Doc>)
    requires Trim(t1) == Trim(t2) && t1 != "" && t2 != ""
    requires m1.Obj? && m2.Obj?
    requires FirstMatch(db, Trim(t1)).None?
    ensures var r1 := Handle("POST", LogBody(t1, m1), db, NoFault);
            var r2 := Handle("POST", LogBody(t2, m2), r1.db, NoFault);
            && r1.status == 200 && r2.status == 200
            && r2.db == db + [NewDoc(Trim(t1), m1).(count := 2)]
            && Matches(r2.db, Trim(t1)) == 1
  {
    var key := Trim(t1);
    LogRequestCounted(t1, m1, db);
    LogRequestCounted(t2, m2, Upsert(db, key, m1));
    UpsertTwice(db, key, m1, m2);
  }
}
