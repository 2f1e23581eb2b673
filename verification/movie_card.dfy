/** Image URLs of the movie metadata service, shared by the card and the search counters. */
module Tmdb {

  /** Prefix of every w500 poster URL. */
  const PosterBase: string := "https://image.tmdb.org/t/p/w500"

  /** The w500 poster URL for a poster path; the path is recoverable from it. */
  function PosterUrl(path: string): (url: string)
    ensures |url| == |PosterBase| + |path|
    ensures url[..|PosterBase|] == PosterBase && url[|PosterBase|..] == path
  {
    PosterBase + path
  }
}

/**
 * The display values a movie card derives from one movie of a result page:
 * the poster source, the rating label and the release year.
 */
module MovieCard {
  import opened Wrappers
  import opened JsString
  import Tmdb

  /** Placeholder image shown when a movie has no poster. */
  const NoPoster: string := "/src/assets/images/no-poster.png"

  /** The movie fields a card reads; `None` is a null or missing field. */
  datatype Movie = Movie(
    title: string,
    posterPath: Option<string>,
    voteAverage: Option<real>,
    originalLanguage: string,
    releaseDate: string)

  /** The rating label: "N/A", or the average printed with one decimal. */
  datatype Rating = NotAvailable | OneDecimal(average: real)

  datatype Card = Card(posterSrc: string, title: string, rating: Rating, language: string, year: string)

  /** The poster `src`: the w500 URL when the path is truthy, else the placeholder. */
  function PosterSrc(posterPath: Option<string>): (src: string)
    ensures IsPosterUrl(src) <==> posterPath.Some? && posterPath.value != ""
    ensures IsPosterUrl(src) ==> src[|Tmdb.PosterBase|..] == posterPath.value
    ensures src == NoPoster <==> !(posterPath.Some? && posterPath.value != "")
  {
    assert NoPoster[0] != Tmdb.PosterBase[0];
    assert !IsPosterUrl(NoPoster);
    match posterPath
    case Some(p) => if p != "" then Tmdb.PosterUrl(p) else NoPoster
    case None => NoPoster
  }

  /** `src` points at the image service rather than at the placeholder. */
  predicate IsPosterUrl(src: string) {
    |src| >= |Tmdb.PosterBase| && src[..|Tmdb.PosterBase|] == Tmdb.PosterBase
  }

  /** Two movies with posters get the same `src` only when their poster paths agree. */
  lemma PosterSrcInjective(p: string, q: string)
    requires p != "" && q != ""
    requires PosterSrc(Some(p)) == PosterSrc(Some(q))
    ensures p == q
  {
  }

  /** The rating label: "N/A" exactly when the average is null, missing or zero. */
  function RatingLabel(voteAverage: Option<real>): (r: Rating)
    ensures r.NotAvailable? <==> voteAverage.None? || voteAverage.value == 0.0
    ensures r.OneDecimal? ==> r.average == voteAverage.value
  {
    match voteAverage
    case Some(v) => if v != 0.0 then OneDecimal(v) else NotAvailable
    case None => NotAvailable
  }

  /**
   * The label tells rated movies apart by their average and loses only the
   * difference between a null, a missing and a zero average.
   */
  lemma RatingLabelDistinguishes(a: Option<real>, b: Option<real>)
    ensures RatingLabel(a) == RatingLabel(b) <==>
              || ((a.None? || a.value == 0.0) && (b.None? || b.value == 0.0))
              || (a.Some? && b.Some? && a.value != 0.0 && a.value == b.value)
  {
  }

  /** `release_date.split("-")[0]`. */
  function Year(releaseDate: string): (y: string)
    ensures '-' !in y
    ensures |y| <= |releaseDate| && releaseDate[..|y|] == y
    ensures |y| < |releaseDate| ==> releaseDate[|y|] == '-'
  {
    var parts := Split(releaseDate, '-');
    JoinSplit(releaseDate, '-');
    assert |parts| > 1 ==> releaseDate == parts[0] + ['-'] + Join(parts[1..], '-');
    parts[0]
  }

  /** A date "y-rest" with a dash-free `y` has year `y`, whatever `rest` holds. */
  lemma YearOfDashedDate(y: string, rest: string)
    requires '-' !in y
    ensures Year(y + "-" + rest) == y
  {
    var d := y + "-" + rest;
    var r := Year(d);
    assert d[|y|] == '-';
    assert forall k :: 0 <= k < |y| ==> d[k] == y[k];
    assert |r| <= |y| ==> r == d[..|r|] == y[..|r|];
  }

  /** A date without a dash is its own year. */
  lemma YearOfUndashedDate(d: string)
    requires '-' !in d
    ensures Year(d) == d
  {
  }

  /** Everything a card displays for one movie. */
  function Render(m: Movie): (c: Card)
    ensures c.title == m.title && c.language == m.originalLanguage
    ensures c.posterSrc == NoPoster <==> m.posterPath.None? || m.posterPath.value == ""
    ensures m.posterPath.Some? && m.posterPath.value != "" ==> c.posterSrc == Tmdb.PosterBase + m.posterPath.value
    ensures c.rating.NotAvailable? <==> m.voteAverage.None? || m.voteAverage.value == 0.0
    ensures c.rating.OneDecimal? ==> c.rating.average == m.voteAverage.value
    ensures '-' !in c.year && |c.year| <= |m.releaseDate| && m.releaseDate[..|c.year|] == c.year
    ensures |c.year| < |m.releaseDate| ==> m.releaseDate[|c.year|] == '-'
  {
    Card(PosterSrc(m.posterPath), m.title, RatingLabel(m.voteAverage), m.originalLanguage, Year(m.releaseDate))
  }
}
