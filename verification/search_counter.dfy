/**
 * The search-term counter collection and the find-or-create-then-increment
 * update both writers perform on it.  The collection is a sequence of
 * documents in the order the database lists them.
 */
module SearchCounter {
  import opened Wrappers
  import opened JsValue
  import Tmdb

  /** One counter document: `{searchTerm, count, movie_id, poster_url}`. */
  datatype Doc = Doc(searchTerm: string, count: int, movieId: Value, posterUrl: string)

  /**
   * Which database call, if any, throws: the listing query, or the update
   * or create that follows it.  A throwing call changes nothing.
   */
  datatype DbFault = NoFault | ListFails | WriteFails

  /** Index of the first document whose term equals `key`, as `listDocuments(...)[0]` picks it. */
  function FirstMatch(db: seq<Doc>, key: string): (r: Option<nat>)
    ensures r.None? <==> forall i :: 0 <= i < |db| ==> db[i].searchTerm != key
    ensures r.Some? ==> r.value < |db| && db[r.value].searchTerm == key
    ensures r.Some? ==> forall i :: 0 <= i < r.value ==> db[i].searchTerm != key
  {
    if db == [] then None
    else if db[0].searchTerm == key then Some(0)
    else match FirstMatch(db[1..], key)
      case None => None
      case Some(i) => Some(i + 1)
  }

  /** Appending a document for a key not yet stored makes it the first match. */
  lemma FirstMatchAppended(db: seq<Doc>, d: Doc, key: string)
    requires FirstMatch(db, key).None? && d.searchTerm == key
    ensures FirstMatch(db + [d], key) == Some(|db|)
  {
    var r := FirstMatch(db + [d], key);
    assert (db + [d])[|db|].searchTerm == key;
  }

  /** `movie?.id || null`. */
  function MovieIdOf(movie: Value): (id: Value)
    ensures Truthy(id) || id == Null
    ensures Truthy(id) ==> movie.Obj? && "id" in movie.fields && movie.fields["id"] == id
    ensures Truthy(OptionalField(movie, "id")) ==> id == OptionalField(movie, "id")
    ensures !Truthy(OptionalField(movie, "id")) ==> id == Null
  {
    Or(OptionalField(movie, "id"), Null)
  }

  /** `movie?.poster_path ? <w500 prefix>${movie.poster_path} : ""`. */
  function PosterUrlOf(movie: Value): (url: string)
    ensures url == "" <==> !Truthy(OptionalField(movie, "poster_path"))
    ensures OptionalField(movie, "poster_path").Str? && url != "" ==>
              url == Tmdb.PosterBase + OptionalField(movie, "poster_path").s
  {
    var path := OptionalField(movie, "poster_path");
    if Truthy(path) then Tmdb.PosterUrl(TemplateText(path)) else ""
  }

  /** The document created for a term seen for the first time. */
  function NewDoc(key: string, movie: Value): (d: Doc)
    ensures d.searchTerm == key && d.count == 1
    ensures Truthy(OptionalField(movie, "id")) ==> d.movieId == movie.fields["id"]
    ensures !Truthy(OptionalField(movie, "id")) ==> d.movieId == Null
    ensures d.posterUrl == "" <==> !Truthy(OptionalField(movie, "poster_path"))
    ensures OptionalField(movie, "poster_path").Str? && d.posterUrl != "" ==>
              d.posterUrl == Tmdb.PosterBase + OptionalField(movie, "poster_path").s
  {
    Doc(key, 1, MovieIdOf(movie), PosterUrlOf(movie))
  }

  /**
   * Find-or-create-then-increment on an already trimmed key: the first
   * matching document's count goes up by one, or a fresh document with
   * count 1 is appended.
   */
  function Upsert(db: seq<Doc>, key: string, movie: Value): (r: seq<Doc>)
    ensures FirstMatch(db, key).Some? ==>
              var i := FirstMatch(db, key).value;
              && |r| == |db|
              && r[i] == db[i].(count := db[i].count + 1)
              && forall j :: 0 <= j < |db| && j != i ==> r[j] == db[j]
    ensures FirstMatch(db, key).None? ==>
              && |r| == |db| + 1
              && r[..|db|] == db
              && r[|db|].searchTerm == key && r[|db|].count == 1
              && r[|db|].movieId == MovieIdOf(movie) && r[|db|].posterUrl == PosterUrlOf(movie)
  {
    match FirstMatch(db, key)
    case Some(i) => db[i := db[i].(count := db[i].count + 1)]
    case None => db + [NewDoc(key, movie)]
  }

  /**
   * The list-then-write sequence against the live database: `None` when
   * one of the calls throws, in which case nothing was written.
   */
  function Store(db: seq<Doc>, key: string, movie: Value, fault: DbFault): (r: Option<seq<Doc>>)
    ensures r.None? <==> fault != NoFault
    ensures r.Some? ==> r.value == Upsert(db, key, movie)
  {
    if fault == NoFault then Some(Upsert(db, key, movie)) else None
  }

  /** A document's share of the total count recorded for `key`. */
  function Share(d: Doc, key: string): int {
    if d.searchTerm == key then d.count else 0
  }

  /** Total count recorded for `key` across all its documents. */
  function Tally(db: seq<Doc>, key: string): int {
    if db == [] then 0 else Share(db[0], key) + Tally(db[1..], key)
  }

  /** Number of documents whose term is `key`. */
  function Matches(db: seq<Doc>, key: string): nat {
    if db == [] then 0 else (if db[0].searchTerm == key then 1 else 0) + Matches(db[1..], key)
  }

  /** No term is stored twice. */
  predicate Unique(db: seq<Doc>) {
    forall i, j :: 0 <= i < j < |db| ==> db[i].searchTerm != db[j].searchTerm
  }

  /** Every stored count is at least one. */
  predicate CountsPositive(db: seq<Doc>) {
    forall i :: 0 <= i < |db| ==> db[i].count >= 1
  }

  lemma {:induction false} TallyAppend(db: seq<Doc>, d: Doc, key: string)
    ensures Tally(db + [d], key) == Tally(db, key) + Share(d, key)
  {
    if db != [] {
      assert (db + [d])[1..] == db[1..] + [d];
      TallyAppend(db[1..], d, key);
    }
  }

  lemma {:induction false} TallyReplace(db: seq<Doc>, i: nat, d: Doc, key: string)
    requires i < |db|
    ensures Tally(db[i := d], key) == Tally(db, key) - Share(db[i], key) + Share(d, key)
  {
    if i > 0 {
      assert db[i := d][1..] == db[1..][i - 1 := d];
      TallyReplace(db[1..], i - 1, d, key);
    }
  }

  lemma {:induction false} MatchesAppend(db: seq<Doc>, d: Doc, key: string)
    ensures Matches(db + [d], key) == Matches(db, key) + (if d.searchTerm == key then 1 else 0)
  {
    if db != [] {
      assert (db + [d])[1..] == db[1..] + [d];
      MatchesAppend(db[1..], d, key);
    }
  }

  lemma {:induction false} MatchesReplace(db: seq<Doc>, i: nat, d: Doc, key: string)
    requires i < |db| && d.searchTerm == db[i].searchTerm
    ensures Matches(db[i := d], key) == Matches(db, key)
  {
    if i > 0 {
      assert db[i := d][1..] == db[1..][i - 1 := d];
      MatchesReplace(db[1..], i - 1, d, key);
    }
  }

  lemma {:induction false} NoMatchesWithoutMatch(db: seq<Doc>, key: string)
    requires FirstMatch(db, key).None?
    ensures Matches(db, key) == 0
  {
    if db != [] {
      NoMatchesWithoutMatch(db[1..], key);
    }
  }

  /** Each update adds exactly one to the total of its own key and nothing to any other. */
  lemma UpsertTally(db: seq<Doc>, key: string, movie: Value, other: string)
    ensures Tally(Upsert(db, key, movie), key) == Tally(db, key) + 1
    ensures other != key ==> Tally(Upsert(db, key, movie), other) == Tally(db, other)
  {
    match FirstMatch(db, key)
    case Some(i) =>
      var d := db[i].(count := db[i].count + 1);
      TallyReplace(db, i, d, key);
      TallyReplace(db, i, d, other);
    case None =>
      TallyAppend(db, NewDoc(key, movie), key);
      TallyAppend(db, NewDoc(key, movie), other);
  }

  /**
   * An update leaves exactly one more document for its key when there was
   * none, and otherwise leaves the number of documents per key unchanged.
   */
  lemma UpsertMatches(db: seq<Doc>, key: string, movie: Value, other: string)
    ensures Matches(Upsert(db, key, movie), key) == if FirstMatch(db, key).None? then 1 else Matches(db, key)
    ensures other != key ==> Matches(Upsert(db, key, movie), other) == Matches(db, other)
  {
    match FirstMatch(db, key)
    case Some(i) =>
      var d := db[i].(count := db[i].count + 1);
      MatchesReplace(db, i, d, key);
      MatchesReplace(db, i, d, other);
    case None =>
      NoMatchesWithoutMatch(db, key);
      MatchesAppend(db, NewDoc(key, movie), key);
      MatchesAppend(db, NewDoc(key, movie), other);
  }

  /**
   * Counting a new key twice leaves a single document for it, created by
   * the first update and counted by the second.
   */
  lemma UpsertTwice(db: seq<Doc>, key: string, m1: Value, m2: Value)
    requires FirstMatch(db, key).None?
    ensures Upsert(Upsert(db, key, m1), key, m2) == db + [NewDoc(key, m1).(count := 2)]
    ensures Matches(Upsert(Upsert(db, key, m1), key, m2), key) == 1
  {
    var r1 := db + [NewDoc(key, m1)];
    FirstMatchAppended(db, NewDoc(key, m1), key);
    var r2 := r1[|db| := r1[|db|].(count := 2)];
    assert Upsert(r1, key, m2) == r2;
    assert r2 == db + [NewDoc(key, m1).(count := 2)];
    UpsertMatches(db, key, m1, key);
    MatchesReplace(r1, |db|, r1[|db|].(count := 2), key);
  }

  /** Updates never store a term twice and never make a count smaller than one. */
  lemma UpsertPreservesInvariants(db: seq<Doc>, key: string, movie: Value)
    requires Unique(db) && CountsPositive(db)
    ensures Unique(Upsert(db, key, movie)) && CountsPositive(Upsert(db, key, movie))
  {
    var r := Upsert(db, key, movie);
    if FirstMatch(db, key).None? {
      assert forall i :: 0 <= i < |db| ==> r[i] == db[i];
    }
  }
}
