/**
 * The browse/search controller of the frontend root component: its state
 * record, page navigation, the choice of fetch, how a fetch outcome
 * updates the state, and what the movie section renders.  Network calls
 * are replaced by their outcomes.
 */
module MovieBrowser {
  import opened Wrappers
  import opened JsString

  const NoMoviesMessage: string := "No movies found in the response. Please try again later!"
  const FetchFailedMessage: string := "Failed to fetch movies. Please try again later."

  /** Caps the controller applies to the reported page and result counts. */
  const PageCap: int := 50
  const ResultCap: int := 1000

  /** The component state; `error` is `null` when `None`. */
  datatype State<M> = State(
    movies: seq<M>,
    error: Option<string>,
    isLoading: bool,
    currentPage: int,
    totalPages: int,
    totalResults: int)

  /** The state on mount. */
  function Initial<M>(): (s: State<M>)
    ensures s.movies == [] && s.error.None? && !s.isLoading
    ensures s.currentPage == 1 && s.totalPages == 0 && s.totalResults == 0
  {
    State([], None, false, 1, 0, 0)
  }

  /** `1 <= currentPage <= max(1, totalPages)`. */
  predicate PageInRange<M>(s: State<M>) {
    1 <= s.currentPage && (s.currentPage <= 1 || s.currentPage <= s.totalPages)
  }

  /** `totalPages <= 50` and `totalResults <= 1000`. */
  predicate CountsCapped<M>(s: State<M>) {
    s.totalPages <= PageCap && s.totalResults <= ResultCap
  }

  /**
   * `loadMoreMovies(direction)`: one page back when not on the first page,
   * one page forward when before the last; anything else changes nothing.
   */
  function LoadMore<M>(s: State<M>, direction: string): (r: State<M>)
    ensures r == s.(currentPage := r.currentPage)
    ensures r.currentPage == s.currentPage - 1 <==> direction == "back" && s.currentPage > 1
    ensures r.currentPage == s.currentPage + 1 <==> direction == "forward" && s.currentPage < s.totalPages
    ensures r.currentPage == s.currentPage <==>
              !(direction == "back" && s.currentPage > 1) && !(direction == "forward" && s.currentPage < s.totalPages)
  {
    if direction == "back" && s.currentPage > 1 then s.(currentPage := s.currentPage - 1)
    else if direction == "forward" && s.currentPage < s.totalPages then s.(currentPage := s.currentPage + 1)
    else s
  }

  /** Navigation never leaves the page range. */
  lemma LoadMoreKeepsPageInRange<M>(s: State<M>, direction: string)
    requires PageInRange(s)
    ensures PageInRange(LoadMore(s, direction))
  {
  }

  /** The request the effect issues. */
  datatype Endpoint = Popular | Search(term: string)

  /** Endpoint, page, and whether an abort signal goes with the request. */
  datatype FetchPlan = FetchPlan(endpoint: Endpoint, page: int, abortable: bool)

  /**
   * The effect's decision: popular movies when the raw term trims to
   * nothing, otherwise a search for the untrimmed term; only a search can be
   * aborted.  The page is the current page in both cases.
   */
  function Plan(searchTerm: string, currentPage: int): (p: FetchPlan)
    ensures p.endpoint == Popular <==> IsBlank(searchTerm)
    ensures p.endpoint.Search? ==> p.endpoint.term == searchTerm
    ensures p.abortable <==> p.endpoint.Search?
    ensures p.page == currentPage
  {
    if Trim(searchTerm) == "" then FetchPlan(Popular, currentPage, false)
    else FetchPlan(Search(searchTerm), currentPage, true)
  }

  /** A response body as the controller reads it; `None` is an absent or null field. */
  datatype Page<M> = Page(results: Option<seq<M>>, page: Option<int>, totalPages: Option<int>, totalResults: Option<int>)

  /** How the awaited fetch ends: a parsed body, an `AbortError`, or any other error. */
  datatype Outcome<M> = Resolved(response: Page<M>) | Aborted | Failed

  /** How the awaited `logSearchTerm` call ends, when it is made. */
  datatype LogResult = LogOk | LogFailed

  /** The arguments `logSearchTerm` receives. */
  datatype LogCall<M> = LogCall(term: string, movie: M)

  /** The state after a fetch settles, and the logging call it made, if any. */
  datatype Step<M> = Step(state: State<M>, logged: Option<LogCall<M>>)

  /** `page || 1`. */
  function PageOrFirst(page: Option<int>): (r: int)
    ensures r != 0
    ensures page.Some? && page.value != 0 ==> r == page.value
    ensures page.None? || page.value == 0 ==> r == 1
  {
    if page.Some? && page.value != 0 then page.value else 1
  }

  /** `Math.min(count || 0, cap)`. */
  function CappedCount(count: Option<int>, cap: int): (r: int)
    ensures r <= cap
    ensures r == cap || r == count.GetOr(0)
    ensures count.GetOr(0) <= cap ==> r == count.GetOr(0)
  {
    var n := count.GetOr(0);
    if n < cap then n else cap
  }

  /** The synchronous start of `fetchMovies`: loading on, error cleared. */
  function BeginFetch<M>(s: State<M>): (r: State<M>)
    ensures r.isLoading && r.error.None?
    ensures r.(isLoading := s.isLoading, error := s.error) == s
  {
    s.(isLoading := true, error := None)
  }

  /**
   * The rest of `fetchMovies` once the fetch settles.  A body with
   * `results` (even an empty array) replaces the movies and counts; a
   * non-blank term with at least one result is then logged, and a failing
   * log lands in the same catch as a failing fetch.  A body without
   * `results` sets the "no movies" error.  An abort sets no error.  Loading
   * ends in every case.
   */
  function Settle<M>(s: State<M>, searchTerm: string, outcome: Outcome<M>, log: LogResult): (r: Step<M>)
    ensures !r.state.isLoading
    ensures r.logged.Some? <==>
              && outcome.Resolved? && outcome.response.results.Some?
              && |outcome.response.results.value| > 0 && !IsBlank(searchTerm)
    ensures r.logged.Some? ==> r.logged.value == LogCall(searchTerm, outcome.response.results.value[0])
    ensures outcome.Aborted? ==> r.state == s.(isLoading := false)
    ensures outcome.Failed? ==> r.state == s.(isLoading := false, error := Some(FetchFailedMessage))
    ensures outcome.Resolved? && outcome.response.results.None? ==>
              r.state == s.(isLoading := false, error := Some(NoMoviesMessage))
    ensures outcome.Resolved? && outcome.response.results.Some? ==>
              var p := outcome.response;
              && r.state.movies == p.results.value
              && r.state.currentPage == PageOrFirst(p.page)
              && r.state.totalPages == CappedCount(p.totalPages, PageCap)
              && r.state.totalResults == CappedCount(p.totalResults, ResultCap)
              && r.state.error == (if r.logged.Some? && log == LogFailed then Some(FetchFailedMessage) else s.error)
    ensures CountsCapped(s) ==> CountsCapped(r.state)
  {
    match outcome
    case Aborted => Step(s.(isLoading := false), None)
    case Failed => Step(s.(isLoading := false, error := Some(FetchFailedMessage)), None)
    case Resolved(p) =>
      match p.results
      case None => Step(s.(isLoading := false, error := Some(NoMoviesMessage)), None)
      case Some(results) =>
        var loaded := s.(
          movies := results,
          currentPage := PageOrFirst(p.page),
          totalPages := CappedCount(p.totalPages, PageCap),
          totalResults := CappedCount(p.totalResults, ResultCap));
        if Trim(searchTerm) != "" && |results| > 0 then
          var call := Some(LogCall(searchTerm, results[0]));
          if log == LogFailed then Step(loaded.(isLoading := false, error := Some(FetchFailedMessage)), call)
          else Step(loaded.(isLoading := false), call)
        else Step(loaded.(isLoading := false), None)
  }

  /** `fetchMovies` as a whole. */
  function FetchMovies<M>(s: State<M>, searchTerm: string, outcome: Outcome<M>, log: LogResult): (r: Step<M>)
    ensures !r.state.isLoading
    ensures outcome.Aborted? ==> r.state == s.(error := None, isLoading := false) && r.logged.None?
    ensures outcome.Failed? ==> r.state == s.(error := Some(FetchFailedMessage), isLoading := false)
    ensures outcome.Resolved? && outcome.response.results.None? ==>
              r.state == s.(error := Some(NoMoviesMessage), isLoading := false)
    ensures outcome.Resolved? && outcome.response.results.Some? ==>
              && r.state.movies == outcome.response.results.value
              && r.state.currentPage == PageOrFirst(outcome.response.page)
              && r.state.totalPages == CappedCount(outcome.response.totalPages, PageCap)
              && r.state.totalResults == CappedCount(outcome.response.totalResults, ResultCap)
              && (r.state.error.None? <==> r.logged.None? || log == LogOk)
              && (r.state.error.Some? ==> r.state.error.value == FetchFailedMessage)
    ensures r.logged.Some? <==>
              && outcome.Resolved? && outcome.response.results.Some?
              && |outcome.response.results.value| > 0 && !IsBlank(searchTerm)
    ensures r.logged.Some? ==> r.logged.value == LogCall(searchTerm, outcome.response.results.value[0])
    ensures CountsCapped(s) ==> CountsCapped(r.state)
  {
    Settle(BeginFetch(s), searchTerm, outcome, log)
  }

  /**
   * The effect firing: it plans the fetch for the raw term and the current
   * page, then applies that fetch's outcome.  A popular-movies fetch never
   * logs; a logging call always belongs to a search for the logged term.
   */
  function Effect<M>(s: State<M>, searchTerm: string, outcome: Outcome<M>, log: LogResult): (r: (FetchPlan, Step<M>))
    ensures r.0.page == s.currentPage
    ensures r.0.endpoint.Popular? ==> r.1.logged.None?
    ensures r.1.logged.Some? ==> r.0.endpoint == Search(r.1.logged.value.term) && r.0.abortable
  {
    (Plan(searchTerm, s.currentPage), FetchMovies(s, searchTerm, outcome, log))
  }

  /** An abort leaves no error behind, because the fetch cleared it first. */
  lemma AbortLeavesNoError<M>(s: State<M>, searchTerm: string, log: LogResult)
    ensures FetchMovies(s, searchTerm, Aborted, log).state == s.(error := None, isLoading := false)
  {
  }

  /** A successful response and log leave the error cleared. */
  lemma SuccessLeavesNoError<M>(s: State<M>, searchTerm: string, p: Page<M>)
    requires p.results.Some?
    ensures FetchMovies(s, searchTerm, Resolved(p), LogOk).state.error.None?
  {
  }

  /** What the movie section shows: exactly one of these. */
  datatype View<M> = Spinner | ErrorText(message: string) | MovieList(movies: seq<M>)

  /** Spinner while loading, else the error when it is truthy, else the list. */
  function Render<M>(s: State<M>): (v: View<M>)
    ensures v.Spinner? <==> s.isLoading
    ensures v.ErrorText? <==> !s.isLoading && s.error.Some? && s.error.value != ""
    ensures v.ErrorText? ==> v.message == s.error.value
    ensures v.MovieList? ==> v.movies == s.movies
  {
    if s.isLoading then Spinner
    else if s.error.Some? && s.error.value != "" then ErrorText(s.error.value)
    else MovieList(s.movies)
  }

  /** While a fetch is in flight only the spinner shows. */
  lemma SpinnerWhileFetching<M>(s: State<M>)
    ensures Render(BeginFetch(s)) == Spinner
  {
  }

  /**
   * After a fetch settles the section shows its outcome: the new results,
   * the failure message, the no-movies message, or, after an abort, the
   * movies already on screen.
   */
  lemma RenderAfterFetch<M>(s: State<M>, searchTerm: string, outcome: Outcome<M>, log: LogResult)
    ensures var r := FetchMovies(s, searchTerm, outcome, log);
            Render(r.state) ==
              match outcome
              case Aborted => MovieList(s.movies)
              case Failed => ErrorText(FetchFailedMessage)
              case Resolved(p) =>
                if p.results.None? then ErrorText(NoMoviesMessage)
                else if r.logged.Some? && log == LogFailed then ErrorText(FetchFailedMessage)
                else MovieList(p.results.value)
  {
  }

  /** The pagination bar: back button, "page / total" counter, forward button. */
  datatype Controls = Controls(showBack: bool, showCounter: bool, showForward: bool, enabled: bool)

  function Pagination<M>(s: State<M>): (c: Controls)
    ensures c.enabled <==> !s.isLoading
    ensures c.showCounter <==> s.totalPages > 0
    ensures c.showForward ==> c.showCounter
  {
    Controls(s.currentPage > 1, s.totalPages > 0, s.totalPages > 0 && s.currentPage < s.totalPages, !s.isLoading)
  }

  /** Within the page range a button is shown exactly when pressing it would move the page. */
  lemma ButtonsMatchNavigation<M>(s: State<M>)
    requires s.currentPage >= 1
    ensures Pagination(s).showBack <==> LoadMore(s, "back") != s
    ensures Pagination(s).showForward <==> LoadMore(s, "forward") != s
  {
  }

  /** Something the user or the network does to the controller. */
  datatype Event<M> =
    | Navigate(direction: string)
    | Fetch(searchTerm: string, outcome: Outcome<M>, log: LogResult)

  /**
   * One event: a page button press, or the effect firing for the current
   * raw term and page and its fetch settling.
   */
  function Apply<M>(s: State<M>, e: Event<M>): (r: State<M>)
    ensures e.Fetch? ==> !r.isLoading
    ensures e.Navigate? ==> r.isLoading == s.isLoading
  {
    match e
    case Navigate(direction) => LoadMore(s, direction)
    case Fetch(searchTerm, outcome, log) => Effect(s, searchTerm, outcome, log).1.state
  }

  function Run<M>(s: State<M>, events: seq<Event<M>>): State<M>
    decreases |events|
  {
    if events == [] then s else Run(Apply(s, events[0]), events[1..])
  }

  /** No sequence of navigation and fetches pushes the counts past their caps. */
  lemma {:induction false} RunKeepsCountsCapped<M>(s: State<M>, events: seq<Event<M>>)
    requires CountsCapped(s)
    ensures CountsCapped(Run(s, events))
    decreases |events|
  {
    if events != [] {
      assert CountsCapped(Apply(s, events[0]));
      RunKeepsCountsCapped(Apply(s, events[0]), events[1..]);
    }
  }

  /** Navigation alone never leaves the page range. */
  lemma {:induction false} NavigationKeepsPageInRange<M>(s: State<M>, events: seq<Event<M>>)
    requires PageInRange(s)
    requires forall k :: 0 <= k < |events| ==> events[k].Navigate?
    ensures PageInRange(Run(s, events))
    decreases |events|
  {
    if events != [] {
      LoadMoreKeepsPageInRange(s, events[0].direction);
      NavigationKeepsPageInRange(Apply(s, events[0]), events[1..]);
    }
  }

  /** The initial state satisfies both invariants. */
  lemma InitialInvariants<M>()
    ensures PageInRange(Initial<M>()) && CountsCapped(Initial<M>())
  {
  }
}

/** How the controller's popular-movies fetch meets the popular endpoint's page bound. */
module PageBounds {
  import opened Wrappers
  import opened MovieBrowser
  import TmdbProxy
  import PopularApi

  /**
   * In a state whose page is in range and whose counts are capped, the page
   * a popular fetch asks for passes the endpoint's check, so the endpoint
   * calls upstream for exactly that page.
   */
  lemma PlannedPageAccepted<M, B>(s: State<M>, searchTerm: string, upstream: TmdbProxy.Upstream<B>)
    requires PageInRange(s) && CountsCapped(s)
    ensures PopularApi.ValidPage(Some(Plan(searchTerm, s.currentPage).page))
    ensures PopularApi.Handle("GET", Some(Plan(searchTerm, s.currentPage).page), upstream).called
              == Some(TmdbProxy.Discover(s.currentPage))
  {
  }
}

/** How the controller's logging call reaches the counter endpoint. */
module SearchLogging {
  import opened JsValue
  import opened JsString
  import opened SearchCounter
  import MovieBrowser
  import UpdateSearchApi

  /**
   * Every logging call the controller makes carries a term the endpoint
   * accepts; with a working database the endpoint answers 200 and the
   * trimmed term's total goes up by one.
   */
  lemma LoggedSearchIsCounted(
    s: MovieBrowser.State<Value>, searchTerm: string, outcome: MovieBrowser.Outcome<Value>,
    log: MovieBrowser.LogResult, db: seq<Doc>)
    requires MovieBrowser.FetchMovies(s, searchTerm, outcome, log).logged.Some?
    requires MovieBrowser.FetchMovies(s, searchTerm, outcome, log).logged.value.movie.Obj?
    ensures var call := MovieBrowser.FetchMovies(s, searchTerm, outcome, log).logged.value;
            var r := UpdateSearchApi.Handle("POST", UpdateSearchApi.LogBody(call.term, call.movie), db, NoFault);
            r.status == 200 && Tally(r.db, Trim(searchTerm)) == Tally(db, Trim(searchTerm)) + 1
  {
    var call := MovieBrowser.FetchMovies(s, searchTerm, outcome, log).logged.value;
    assert call.term == searchTerm && searchTerm != "";
    UpdateSearchApi.LogRequestCounted(call.term, call.movie, db);
    UpsertTally(db, Trim(searchTerm), call.movie, Trim(searchTerm));
  }
}
