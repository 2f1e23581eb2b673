/** `UpdateSearchTerm` of the frontend database service: the same update, but no error escapes. */
module AppwriteService {
  import opened Wrappers
  import opened JsValue
  import opened JsString
  import opened SearchCounter
  import UpdateSearchApi

  /** What the catch block reports to the console. */
  datatype Failure = InvalidArguments | DatabaseError

  /** The collection afterwards, and the failure that was caught, if any. */
  datatype Settled = Settled(db: seq<Doc>, caught: Option<Failure>)

  /** `typeof searchTerm !== "string" || searchTerm.trim() === "" || !movie || typeof movie !== "object"` fails. */
  function ValidArguments(searchTerm: Value, movie: Value): (ok: bool)
    ensures ok <==> searchTerm.Str? && !IsBlank(searchTerm.s) && (movie.Obj? || movie.Arr?)
  {
    TypeOf(searchTerm) == "string" && Trim(searchTerm.s) != "" && Truthy(movie) && TypeOf(movie) == "object"
  }

  /**
   * The service call.  Its result type has no error case: every failure is
   * caught and only reported.
   */
  function UpdateSearchTerm(searchTerm: Value, movie: Value, db: seq<Doc>, fault: DbFault): (r: Settled)
    ensures r.caught == Some(InvalidArguments) <==> !ValidArguments(searchTerm, movie)
    ensures r.caught == Some(DatabaseError) <==> ValidArguments(searchTerm, movie) && fault != NoFault
    ensures r.caught.Some? ==> r.db == db
    ensures r.caught.None? ==> r.db == Upsert(db, Trim(searchTerm.s), movie)
    ensures |db| <= |r.db| <= |db| + 1
  {
    if !ValidArguments(searchTerm, movie) then
      Settled(db, Some(InvalidArguments))
    else
      match Store(db, Trim(searchTerm.s), movie, fault)
      case Some(db') => Settled(db', None)
      case None => Settled(db, Some(DatabaseError))
  }

  /**
   * The frontend service is stricter than the backend endpoint: whatever it
   * accepts the endpoint accepts, while a whitespace-only term is accepted
   * only by the endpoint.
   */
  lemma ServiceStricterThanEndpoint(searchTerm: Value, movie: Value)
    ensures ValidArguments(searchTerm, movie) ==> UpdateSearchApi.ValidBody(searchTerm, movie)
    ensures searchTerm.Str? && searchTerm.s != "" && IsBlank(searchTerm.s) && movie.Obj? ==>
              UpdateSearchApi.ValidBody(searchTerm, movie) && !ValidArguments(searchTerm, movie)
  {
  }

  /** Both writers make the same change to the collection when both succeed. */
  lemma ServiceAgreesWithEndpoint(term: string, movie: Value, db: seq<Doc>)
    requires !IsBlank(term) && movie.Obj?
    ensures UpdateSearchTerm(Str(term), movie, db, NoFault).db
              == UpdateSearchApi.Handle("POST", UpdateSearchApi.LogBody(term, movie), db, NoFault).db
  {
    UpdateSearchApi.LogRequestCounted(term, movie, db);
  }
}
