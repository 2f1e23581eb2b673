# Movie discovery app: a Dafny model of its decision logic

The application is a single-page movie browser backed by serverless
endpoints. The endpoints proxy a third-party movie metadata service and keep
search-term counters in a hosted document database. Once network and
database effects become data, four pieces of sequential decision logic
remain. This project models them and proves their properties:

1. **The browse/search controller** of the frontend root component
   (`MovieBrowser`). Its state record is `{movies, error, isLoading,
   currentPage, totalPages, totalResults}`. It has page navigation, the
   effect that chooses between a popular-movies fetch and a search fetch, the
   way a fetch outcome (`Resolved(body) | Aborted | Failed`) updates the
   state and decides whether to log the search term, and what the movie
   section renders.
2. **The search-term counters** (`SearchCounter`). The collection is a
   `seq<Doc>` of `{searchTerm, count, movie_id, poster_url}` documents, with
   a find-or-create-then-increment update keyed on the trimmed term. Two
   writers use it. The `POST /api/updateSearch` endpoint is
   `UpdateSearchApi`. The frontend database service `UpdateSearchTerm` is
   `AppwriteService`. The two validate their input differently and fail
   differently.
3. **The proxy endpoints** `GET /api/popular` (`PopularApi`) and
   `GET /api/search` (`SearchApi`). Each is a pure function of the method,
   the query parameters and the upstream outcome. It returns the status,
   the JSON body and the upstream request it made, if any. `TmdbProxy`
   holds what they share.
4. **The movie card derivations** (`MovieCard`): the poster source, the
   rating label and the release year (`release_date.split("-")[0]`).

Supporting modules:

- `JsValue` models JavaScript values as a parsed JSON body holds them, with
  truthiness, `typeof`, `||`, optional chaining, destructuring and
  template-literal text.
- `JsString` models `String.prototype.trim` over the ECMAScript whitespace
  set, and `split`/`join` on one character.
- `Tmdb` holds the w500 poster URL prefix.
- `Wrappers` holds `Option`.
- `SearchLogging` connects the controller's logging call to the counter
  endpoint.
- `PageBounds` connects the controller's page to the popular endpoint's
  page check.
- `ProxyClientView` relates the proxies' statuses to their bodies as the
  frontend's `response.ok` test sees them.

Behaviour kept as the code has it:

- An empty `results` array counts as success.
- `isLoading` is cleared even after an abort.
- A failing `logSearchTerm` surfaces as the generic fetch error, after the
  new movies and counts have already been stored.
- Switching between popular and search mode does not reset the page.
- The search endpoint never forwards `page` (`SearchApi.OnlyQueryMatters`).
  Every page of a search therefore issues the same upstream request.

## Model

| member | source | states |
|---|---|---|
| `JsString.Trim` | frontend/src/App.jsx:84 | the trimmed text is empty exactly when the input is all whitespace; otherwise it neither starts nor ends with whitespace; it is the input with a blank prefix and a blank suffix removed |
| `JsString.TrimCharacterised` | frontend/src/App.jsx:47 | any split into blank prefix, whitespace-free-ended core and blank suffix determines the trimmed text as that core |
| `JsString.TrimIdempotent` | backend/api/updateSearch.js:37 | trimming an already trimmed term changes nothing |
| `JsString.TrimIgnoresPadding` | backend/api/updateSearch.js:37-48 | terms that differ only by surrounding whitespace trim to the same key |
| `JsString.Split` | src/components/MovieCard.jsx:38 | split yields at least one piece; no piece contains the separator; a string without the separator is its own single piece |
| `JsString.JoinSplit` | src/components/MovieCard.jsx:38 | joining the pieces of a split with the separator gives back the original string |
| `JsString.SplitJoin` | src/components/MovieCard.jsx:38 | splitting a join of separator-free pieces gives back the pieces |
| `Tmdb.PosterUrl` | src/components/MovieCard.jsx:19 | a poster URL is the w500 prefix followed by the path, and the path can be read back from it |
| `MovieCard.PosterSrc` | src/components/MovieCard.jsx:18-20 | the poster source is an image-service URL exactly when the poster path is non-empty, and the path is then recoverable; it is the placeholder exactly when the path is null, missing or empty |
| `MovieCard.PosterSrcInjective` | src/components/MovieCard.jsx:18-20 | two movies with posters get the same source only when their poster paths are equal |
| `MovieCard.RatingLabel` | src/components/MovieCard.jsx:29 | the label is "N/A" exactly when the vote average is null, undefined or 0; otherwise it carries the average |
| `MovieCard.RatingLabelDistinguishes` | src/components/MovieCard.jsx:29 | two averages get the same label exactly when both are unrated (null, missing or 0) or both are the same non-zero average |
| `MovieCard.Year` | src/components/MovieCard.jsx:38 | the year contains no dash, is a prefix of the release date, and is followed in the date by a dash when shorter than the date |
| `MovieCard.YearOfDashedDate` | src/components/MovieCard.jsx:38 | for `y + "-" + rest` with a dash-free `y`, the year is `y` |
| `MovieCard.YearOfUndashedDate` | src/components/MovieCard.jsx:38 | a date without a dash is its own year |
| `MovieCard.Render` | src/components/MovieCard.jsx:14-43 | the card copies the title and language; shows the w500 URL of a non-empty poster path and the placeholder exactly when the path is null, missing or empty; shows the average itself when it is present and non-zero; shows "N/A" exactly when the average is null, missing or 0; and shows as year the dash-free prefix of the release date that ends at its first dash |
| `SearchCounter.FirstMatch` | backend/api/updateSearch.js:36-40 | the lookup finds nothing exactly when no document has the key; otherwise it returns the first document with that key |
| `SearchCounter.FirstMatchAppended` | backend/api/updateSearch.js:39-49 | after a document is created for an unseen key, it is the first match for that key |
| `SearchCounter.MovieIdOf` | backend/api/updateSearch.js:50 | the stored movie id is the movie's truthy `id` field or null |
| `SearchCounter.PosterUrlOf` | backend/api/updateSearch.js:51 | the stored poster URL is empty exactly when `poster_path` is falsy; for a string path it is the w500 prefix followed by the path |
| `SearchCounter.NewDoc` | backend/api/updateSearch.js:47-52 | a created document holds the key and count 1; its movie id is the movie's truthy `id` or null; its poster URL is empty exactly when `poster_path` is falsy, and is the w500 URL of a string path otherwise |
| `SearchCounter.Upsert` | backend/api/updateSearch.js:36-53 | with a match, the first match's count rises by one and every other document is unchanged; without a match, exactly one document is appended, with the key, count 1, and the defaulted movie id and poster URL |
| `SearchCounter.UpsertTally` | backend/api/updateSearch.js:39-53 | each update adds exactly one to the total count of its key and leaves every other key's total unchanged |
| `SearchCounter.UpsertMatches` | backend/api/updateSearch.js:39-53 | an update creates a document for its key only when none existed, and never changes how many documents other keys have |
| `SearchCounter.UpsertTwice` | backend/api/updateSearch.js:36-53 | two updates of an unseen key leave a single document for it, created by the first update, with count 2 |
| `SearchCounter.UpsertPreservesInvariants` | backend/api/updateSearch.js:39-53 | updates never store a term twice and never leave a count below one |
| `UpdateSearchApi.ValidBody` | backend/api/updateSearch.js:27-33 | the body passes exactly when `searchTerm` is a non-empty string and `movie` is an object or array; a whitespace-only term passes |
| `UpdateSearchApi.Handle` | backend/api/updateSearch.js:17-59 | a non-POST gives 405, an invalid body gives 400, and a thrown error gives 500, all with the collection unchanged; success gives 200 and the trimmed-term update |
| `UpdateSearchApi.LogBody` | frontend/src/services/apis.js:59-62 | the logging request body is an object whose `searchTerm` reads back as the term and whose `movie` reads back as the movie |
| `UpdateSearchApi.LogRequestCounted` | backend/api/updateSearch.js:27-54 | a POST with a non-empty term and an object movie gets 200, and the collection is updated under the trimmed term |
| `UpdateSearchApi.BlankTermIsCounted` | backend/api/updateSearch.js:28-48 | a whitespace-only term is accepted and counted under the empty key |
| `UpdateSearchApi.TwoRequestsOneDocument` | backend/api/updateSearch.js:36-53 | two successful requests whose terms agree after trimming, starting with no match, leave one document for the term with count 2 |
| `AppwriteService.ValidArguments` | frontend/src/services/appwrite.js:17-19 | the arguments pass exactly when the term is a string that is not all whitespace and the movie is an object or array |
| `AppwriteService.UpdateSearchTerm` | frontend/src/services/appwrite.js:14-45 | invalid arguments and database errors are caught and leave the collection unchanged; otherwise the trimmed-term update is applied; the collection grows by at most one document; no error escapes |
| `AppwriteService.ServiceStricterThanEndpoint` | frontend/src/services/appwrite.js:17-19 | whatever the service accepts the endpoint accepts; a whitespace-only term is accepted by the endpoint only |
| `AppwriteService.ServiceAgreesWithEndpoint` | frontend/src/services/appwrite.js:22-40 | for a term that is not all whitespace, the service and the endpoint make the same change to the collection |
| `TmdbProxy.Forward` | backend/api/popular.js:32-56 | the upstream is called once; a non-ok status is forwarded unchanged; an ok response with a JSON body gives 200 and that body; a network or parse error gives 500 |
| `PopularApi.Handle` | backend/api/popular.js:9-57 | 204 exactly for OPTIONS; 405 without an upstream call for any method other than GET and OPTIONS; 400 without a call for a page outside 1..50 or unparsable; otherwise the upstream call for that page is forwarded |
| `SearchApi.Handle` | backend/api/search.js:12-54 | a missing, empty or non-string `query` gives 400 without an upstream call; otherwise the title search for `query` is forwarded |
| `SearchApi.OnlyQueryMatters` | backend/api/search.js:12-27 | the reply depends only on `query`; the method and the `page` parameter make no difference |
| `ProxyClientView.ForwardOkIffPassthrough` | backend/api/popular.js:32-56 | a forwarded reply has an ok status exactly when it carries the upstream data |
| `ProxyClientView.PopularOkIffPassthrough` | backend/api/popular.js:9-57 | the popular endpoint's reply is ok exactly when it is the OPTIONS preflight or carries the upstream data |
| `ProxyClientView.SearchOkIffPassthrough` | backend/api/search.js:12-54 | the search endpoint's reply is ok exactly when it carries the upstream data |
| `MovieBrowser.Initial` | frontend/src/App.jsx:18-26 | the mount state has no movies, no error, no fetch in flight, page 1 and zero counts |
| `MovieBrowser.LoadMore` | frontend/src/App.jsx:75-81 | back moves one page down exactly when the page is above 1; forward moves one page up exactly when the page is below the total; everything else, including any other direction, changes nothing; no other field changes |
| `MovieBrowser.LoadMoreKeepsPageInRange` | frontend/src/App.jsx:75-81 | navigation keeps `1 <= currentPage <= max(1, totalPages)` |
| `MovieBrowser.Plan` | frontend/src/App.jsx:83-91 | a term that is all whitespace gives a popular fetch; any other term gives a search for the untrimmed term; only a search carries an abort signal; the page is the current page |
| `MovieBrowser.PageOrFirst` | frontend/src/App.jsx:41 | the page is the reported one, or 1 when it is missing or 0 |
| `MovieBrowser.CappedCount` | frontend/src/App.jsx:43-44 | a count is at most its cap, and equals the reported count (0 when missing) when that is within the cap |
| `MovieBrowser.BeginFetch` | frontend/src/App.jsx:34-35 | starting a fetch turns loading on and clears the error, and nothing else changes |
| `MovieBrowser.Settle` | frontend/src/App.jsx:37-61 | loading ends in every case. A body with `results` replaces the movies, sets the page and the capped counts, and logs once when the term is not blank and there is a result, with the untrimmed term and the first result; a failed log sets the failure error. A body without `results` sets the no-movies error and changes nothing else. An abort changes nothing but loading. A failure sets the failure error |
| `MovieBrowser.FetchMovies` | frontend/src/App.jsx:33-62 | a fetch always ends with loading off and keeps the counts capped; an abort leaves the state as it was apart from clearing the error and logs nothing; a failure sets the failure error; a body without `results` sets the no-movies error and changes nothing else; a body with `results` stores them, sets the page to the reported page or 1 and the counts to the reported ones capped at 50 and 1000, logs exactly when the term is not blank and there is a result, with the untrimmed term and the first result, and leaves the error null exactly when no log was made or the log worked, and otherwise sets the failure error |
| `MovieBrowser.Effect` | frontend/src/App.jsx:83-91 | the fetch uses the current page; a popular fetch never logs; a logging call belongs to an abortable search for the logged term |
| `MovieBrowser.AbortLeavesNoError` | frontend/src/App.jsx:54-61 | after an abort the error is null and loading is off, with everything else unchanged |
| `MovieBrowser.SuccessLeavesNoError` | frontend/src/App.jsx:35-49 | a body with `results` and a working log leave the error null |
| `MovieBrowser.Render` | frontend/src/App.jsx:131-141 | the spinner shows exactly while loading; otherwise the error text shows exactly when there is a non-empty error; otherwise the movie list shows |
| `MovieBrowser.SpinnerWhileFetching` | frontend/src/App.jsx:131-132 | while a fetch is in flight only the spinner shows |
| `MovieBrowser.RenderAfterFetch` | frontend/src/App.jsx:33-61 | after a fetch settles, the section shows the new results, the failure text, the no-movies text, or, after an abort, the movies already on screen |
| `MovieBrowser.Pagination` | frontend/src/App.jsx:144-162 | the buttons are enabled exactly when not loading; the page counter shows exactly when there is at least one page, and the forward button only appears with it |
| `MovieBrowser.ButtonsMatchNavigation` | frontend/src/App.jsx:144-162 | from page 1 upwards, each button is shown exactly when pressing it would change the page |
| `MovieBrowser.Apply` | frontend/src/App.jsx:75-91 | a fetch event always ends with loading off; navigation does not touch loading |
| `MovieBrowser.RunKeepsCountsCapped` | frontend/src/App.jsx:42-45 | no sequence of navigation and fetches makes `totalPages` exceed 50 or `totalResults` exceed 1000 |
| `MovieBrowser.NavigationKeepsPageInRange` | frontend/src/App.jsx:75-81 | any sequence of navigation alone keeps the page in range |
| `MovieBrowser.InitialInvariants` | frontend/src/App.jsx:18-26 | the mount state satisfies both invariants |
| `PageBounds.PlannedPageAccepted` | frontend/src/App.jsx:83-86 | in any state with the page in range and the counts capped, the page the controller asks for passes the popular endpoint's 1..50 check, so the endpoint calls upstream for exactly that page |
| `SearchLogging.LoggedSearchIsCounted` | frontend/src/App.jsx:47-48 | each logging call the controller makes, sent to the counter endpoint with an object movie and a working database, gets 200 and adds one to the trimmed term's total |

## Left out

- Debounce timing, `AbortController` cancellation, React's effect scheduling and cleanup, and the state-update batching are not modelled. The same goes for the effect re-running when `setCurrentPage` changes its dependency. These are timing and concurrency. An abort is only an `Outcome` value, and a `Fetch` event stands for one firing of the effect.
- `MovieBrowser.Apply`: the functional page update `prevPage => prevPage ± 1` is modelled as an update of the rendered `currentPage`. The two differ only when several clicks land before a re-render, which is timing.
- The fetch wrappers in frontend/src/services/apis.js and src/services/moviesApis.js are not modelled. `Outcome` (`Resolved | Aborted | Failed`) and `LogResult` stand for them.
- Trending reads are not modelled: backend/api/trending.js and `getTrendingMovies`. Their ordering and limit are done by the database's query engine. Trending-section rendering is left out with them.
- The earlier mount-only root component src/App.jsx is not modelled; its logic is a subset of the controller's outcome handling. The search box, the build configuration, CSS, CORS headers and console logging are not modelled either.
- `MovieCard.RatingLabel`: `toFixed(1)` formatting of a present average is not modelled. The label only carries the average. NaN averages are not represented.
- `parseInt` is not modelled. The popular endpoint takes the parsed page as `Option<int>`, with `None` standing for NaN.
- Response bodies are typed. `Page` fields are `Option<int>` and `Option<seq<M>>`. Non-numeric `page`/`total_pages` values, which `Math.min` would turn into NaN, and non-array truthy `results` are not represented. A `null` body behaves like a body without `results`.
- `JsValue.TemplateText`: numbers are integers in `Value`, so the template literal's rendering of fractional numbers, and the exponent form of integers of 10^21 or more, are not modelled. This only matters for a numeric `poster_path`.
- `JsValue.OptionalField`: only the keys the handlers read are meaningful. Built-in properties of primitives and arrays are not modelled.
- Strings are sequences of Unicode code points, not UTF-16 code units. All whitespace `trim` removes lies in the Basic Multilingual Plane, so trimming is unaffected.
- `SearchCounter.FirstMatch`: the database's `Query.equal` is taken to be exact string equality. "First" means first in the collection's listing order. Collation rules of the hosted database are not modelled.
- The read-then-write race between concurrent counter updates is not modelled, since the increment is not atomic in the database. Each call is applied on its own.
- `TmdbProxy.Forward`: reading an error response's text is assumed to succeed. Upstream statuses outside the HTTP range, which the response object might reject, are not modelled.
- Request bodies that fail JSON parsing before the handler runs are not modelled.
- `MovieBrowser.Effect`: the fetch outcome is over-approximated. An abort is allowed for a popular fetch too, although the popular branch (frontend/src/App.jsx:85) passes no abort signal, so such an outcome cannot arise there.
- `MovieCard.Year`: a null or missing `release_date` is not represented. The field is a string, and the card's `split` would throw on such a date and break the render.
