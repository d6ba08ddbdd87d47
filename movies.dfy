/** The older `MovieController`: it loads the `media` list once into its
    `movies` field and answers lookups, searches and filters from that
    field. */
module Movies {
  import opened Seqs
  import opened Text
  import opened Db

  /** The `filter` predicate of `loadMovies`: type equality ignoring case. */
  function TypeMatches(wanted: string): MediaItem -> bool
  {
    (m: MediaItem) => Lower(m.mediaType) == Lower(wanted)
  }

  /** The `filter` predicate of `searchMovies`, for an already lower-cased query. */
  function TitleOrDescription(lowerQuery: string): MediaItem -> bool
  {
    (m: MediaItem) => Contains(Lower(m.title), lowerQuery) || Contains(Lower(m.description), lowerQuery)
  }

  /** The genre step of `filterMovies`: the single `genre` string, ignoring case. */
  function GenreIs(genre: string): MediaItem -> bool
  {
    (m: MediaItem) => Lower(m.genre) == Lower(genre)
  }

  /** The rating step of `filterMovies`. */
  function RatingAtLeast(minRating: real): MediaItem -> bool
  {
    (m: MediaItem) => m.rating >= minRating
  }

  /** What `filterMovies` asks of a movie in one go: each filter that is
      active holds. The genre filter is active when a genre is given, the
      rating filter when `minRating` is not zero. */
  function PassesFilters(genre: Option<string>, minRating: real): MediaItem -> bool
  {
    (m: MediaItem) =>
      (Given(genre) ==> Lower(m.genre) == Lower(genre.value)) &&
      (minRating != 0.0 ==> m.rating >= minRating)
  }

  class MovieController {
    /** `this.movies`; `None` is `undefined`, which a no-type load of a
        document without a `media` key leaves behind. */
    var movies: Option<seq<MediaItem>>

    /** The constructor starts from `[]` and loads every item, of any type. */
    constructor (stored: Stored)
      ensures stored.Unreadable? ==> movies == Some([])
      ensures stored.Readable? ==> movies == stored.doc.media
    {
      movies := Some([]);
      new;
      LoadMovies(stored, "");
    }

    /** `loadMovies(type)`: with a non-empty type, the stored items whose type
        matches ignoring case (none when the document has no `media` list,
        as the `filter` call then throws); with the empty type, the stored
        `media` value as it is; after a failed read or parse, the empty list. */
    method LoadMovies(stored: Stored, wanted: string)
      modifies this
      ensures stored.Unreadable? ==> movies == Some([])
      ensures stored.Readable? && wanted == "" ==> movies == stored.doc.media
      ensures stored.Readable? && wanted != "" && stored.doc.media.None? ==> movies == Some([])
      ensures stored.Readable? && wanted != "" && stored.doc.media.Some? ==>
        var media := stored.doc.media.value;
        && movies == Some(Filter(media, TypeMatches(wanted)))
        && IsSubsequence(movies.value, media)
        && (forall m :: m in movies.value ==> Lower(m.mediaType) == Lower(wanted))
        && (forall i :: 0 <= i < |media| && Lower(media[i].mediaType) == Lower(wanted) ==> media[i] in movies.value)
    {
      match stored
      case Unreadable =>
        movies := Some([]);
      case Readable(dbData) =>
        if wanted != "" {
          match dbData.media
          case None =>
            movies := Some([]);
          case Some(media) =>
            movies := Some(Filter(media, TypeMatches(wanted)));
        } else {
          movies := dbData.media;
        }
    }

    /** `getAllMovies`: the loaded list; `undefined` is sent as an empty body. */
    function GetAllMovies(): (r: Outcome<seq<MediaItem>>)
      reads this
      ensures r.Ok? || r.NoBody?
      ensures r.NoBody? <==> movies.None?
      ensures r.Ok? ==> r.value == movies.value
    {
      match movies
      case Some(ms) => Ok(ms)
      case None => NoBody
    }

    /** `getMovieById`: the first loaded movie with the id, or 404; 500 when
        `movies` is `undefined`, since `find` then throws. */
    function GetMovieById(id: Option<int>): (r: Outcome<MediaItem>)
      reads this
      ensures r.Ok? || r.NotFound? || r.ServerError?
      ensures Status(r) in {200, 404, 500}
      ensures r.ServerError? <==> movies.None?
      ensures movies.Some? ==>
        var ms := movies.value;
        r.NotFound? <==> forall i :: 0 <= i < |ms| ==> id != Some(ms[i].id)
      ensures r.Ok? ==>
        var ms := movies.value;
        exists i :: 0 <= i < |ms| && ms[i] == r.value && id == Some(ms[i].id) &&
                    forall j :: 0 <= j < i ==> id != Some(ms[j].id)
    {
      match movies
      case None => ServerError
      case Some(ms) =>
        match FindFirst(ms, IdIs(id))
        case Some(m) => Ok(m)
        case None => NotFound
    }

    /** `searchMovies`: the loaded movies whose lower-cased title or
        description contains the lower-cased query `q`, in loaded order. An
        absent or empty query keeps every movie. 500 when `movies` is
        `undefined`. */
    function SearchMovies(q: Option<string>): (r: Outcome<seq<MediaItem>>)
      reads this
      ensures r.Ok? || r.ServerError?
      ensures Status(r) in {200, 500}
      ensures r.ServerError? <==> movies.None?
      ensures r.Ok? ==>
        var ms := movies.value;
        var lq := Lower(QueryText(q));
        && r.value == Filter(ms, TitleOrDescription(lq))
        && IsSubsequence(r.value, ms)
        && (forall x :: x in r.value ==> Contains(Lower(x.title), lq) || Contains(Lower(x.description), lq))
        && (forall i :: 0 <= i < |ms| && TitleOrDescription(lq)(ms[i]) ==> ms[i] in r.value)
      ensures movies.Some? && QueryText(q) == "" ==> r == Ok(movies.value)
    {
      match movies
      case None => ServerError
      case Some(ms) =>
        var lq := Lower(QueryText(q));
        EmptyQueryMatchesAll(ms, lq);
        Ok(Filter(ms, TitleOrDescription(lq)))
    }

    /** `filterMovies`: the genre filter, then the rating filter, each only
        when active. The result is the single filter by every active
        condition, a subsequence of the loaded movies. When `movies` is
        `undefined`, an active filter throws (500) and no active filter sends
        an empty body. */
    method FilterMovies(genre: Option<string>, minRating: real) returns (r: Outcome<seq<MediaItem>>)
      ensures Status(r) in {200, 500}
      ensures movies.None? ==> r == if Given(genre) || minRating != 0.0 then ServerError else NoBody
      ensures movies.Some? ==>
        var ms := movies.value;
        && r.Ok?
        && r.value == Filter(ms, PassesFilters(genre, minRating))
        && IsSubsequence(r.value, ms)
        && (forall x :: x in r.value ==> Given(genre) ==> Lower(x.genre) == Lower(genre.value))
        && (forall x :: x in r.value ==> minRating != 0.0 ==> x.rating >= minRating)
        && (forall i :: 0 <= i < |ms| && PassesFilters(genre, minRating)(ms[i]) ==> ms[i] in r.value)
      ensures movies.Some? && !Given(genre) && minRating == 0.0 ==> r == Ok(movies.value)
    {
      var filtered := movies;
      if Given(genre) {
        if filtered.None? {
          return ServerError;
        }
        filtered := Some(Filter(filtered.value, GenreIs(genre.value)));
      }
      if minRating != 0.0 {
        if filtered.None? {
          return ServerError;
        }
        filtered := Some(Filter(filtered.value, RatingAtLeast(minRating)));
      }
      if filtered.None? {
        return NoBody;
      }
      r := Ok(filtered.value);
      ghost var ms := movies.value;
      ghost var all := PassesFilters(genre, minRating);
      if Given(genre) && minRating != 0.0 {
        FilterTwice(ms, GenreIs(genre.value), RatingAtLeast(minRating), all);
      } else if Given(genre) {
        FilterSamePredicate(ms, GenreIs(genre.value), all);
      } else if minRating != 0.0 {
        FilterSamePredicate(ms, RatingAtLeast(minRating), all);
      } else {
        FilterKeepsAll(ms, all);
      }
    }
  }

  /** Every title contains the empty query, so searching for it keeps every movie. */
  lemma EmptyQueryMatchesAll(ms: seq<MediaItem>, lq: string)
    ensures lq == "" ==> Filter(ms, TitleOrDescription(lq)) == ms
  {
    if lq == "" {
      forall i | 0 <= i < |ms| ensures TitleOrDescription(lq)(ms[i]) {
        ContainsEmpty(Lower(ms[i].title));
      }
      FilterKeepsAll(ms, TitleOrDescription(lq));
    }
  }
}
