/** The media query handlers of `MediaController`: listing with pagination,
    lookup by id, listing by type and by genre, and search by name. Each
    handler reads the document afresh and answers with an `Outcome`. */
module Media {
  import opened Seqs
  import opened Text
  import opened Db

  const DefaultPage := 1
  const DefaultLimit := 8

  /** `loadMedia`: the stored `media` list; a failed read or parse, or a
      document without a `media` key, gives the empty list. */
  function LoadMedia(stored: Stored): (r: seq<MediaItem>)
    ensures stored.Readable? && stored.doc.media.Some? ==> r == stored.doc.media.value
    ensures stored.Unreadable? || stored.doc.media.None? ==> r == []
  {
    match stored
    case Readable(Document(Some(media), _)) => media
    case _ => []
  }

  /** A `page` or `limit` query parameter: the default when absent,
      otherwise the parsed value raised to at least 1 (`Math.max(v, 1)`). */
  function ClampedParam(q: Option<int>, default: int): (r: int)
    requires default >= 1
    ensures r >= 1
    ensures q.None? ==> r == default
    ensures q.Some? && q.value >= 1 ==> r == q.value
    ensures q.Some? && q.value < 1 ==> r == 1
  {
    match q
    case None => default
    case Some(v) => if v < 1 then 1 else v
  }

  function Min(a: int, b: int): int
  {
    if a <= b then a else b
  }

  /** `data` is page `page` of `items` with `limit` items per page: the
      contiguous run starting at offset `(page - 1) * limit`, as long as the
      page size allows and `items` reaches; empty past the end. */
  ghost predicate IsPage<T>(data: seq<T>, items: seq<T>, page: int, limit: int)
  {
    var start := (page - 1) * limit;
    |data| == (if start >= |items| then 0 else Min(limit, |items| - start)) &&
    forall i :: 0 <= i < |data| ==> 0 <= start + i < |items| && data[i] == items[start + i]
  }

  /** `items.slice(start, start + limit)` with `start = (page - 1) * limit`. */
  function Paginate<T(==)>(items: seq<T>, page: int, limit: int): (r: seq<T>)
    requires page >= 1 && limit >= 1
    ensures IsPage(r, items, page, limit)
    ensures |r| <= limit
    ensures IsSubsequence(r, items)
  {
    var start := (page - 1) * limit;
    assert start >= 0 by {
      assert page - 1 >= 0;
    }
    if start >= |items| then []
    else
      var end := Min(start + limit, |items|);
      SliceIsSubsequence(items, start, end);
      items[start..end]
  }

  /** Every item is reachable: item `i` sits on page `i / limit + 1`, at
      position `i % limit`. */
  lemma ItemOnItsPage<T>(items: seq<T>, limit: int, i: int)
    requires limit >= 1 && 0 <= i < |items|
    ensures var page := i / limit + 1;
            i % limit < |Paginate(items, page, limit)| && Paginate(items, page, limit)[i % limit] == items[i]
  {
    var page := i / limit + 1;
    var start := (page - 1) * limit;
    assert start + i % limit == i;
    assert start <= i;
  }

  /** The body of a paginated answer: the size of the whole matching set and
      the page of it that was asked for. */
  datatype PageBody = PageBody(totalItems: nat, data: seq<MediaItem>)

  /** `getAllMedia`: one page of the whole collection, with the size of the
      whole collection (not of the page) as `totalItems`. */
  function GetAllMedia(stored: Stored, page: Option<int>, limit: Option<int>): (r: Outcome<PageBody>)
    ensures r.Ok?
    ensures r.value.totalItems == |LoadMedia(stored)|
    ensures IsPage(r.value.data, LoadMedia(stored), ClampedParam(page, DefaultPage), ClampedParam(limit, DefaultLimit))
    ensures |r.value.data| <= ClampedParam(limit, DefaultLimit)
    ensures |r.value.data| <= r.value.totalItems
  {
    var media := LoadMedia(stored);
    Ok(PageBody(|media|, Paginate(media, ClampedParam(page, DefaultPage), ClampedParam(limit, DefaultLimit))))
  }

  /** `getMediaById`: the first item with the requested id, or 404. */
  function GetMediaById(stored: Stored, id: Option<int>): (r: Outcome<MediaItem>)
    ensures r.Ok? || r.NotFound?
    ensures Status(r) in {200, 404}
    ensures var media := LoadMedia(stored);
            r.NotFound? <==> forall i :: 0 <= i < |media| ==> id != Some(media[i].id)
    ensures var media := LoadMedia(stored);
            r.Ok? ==> exists i :: 0 <= i < |media| && media[i] == r.value && id == Some(media[i].id) &&
                                  forall j :: 0 <= j < i ==> id != Some(media[j].id)
  {
    match FindFirst(LoadMedia(stored), IdIs(id))
    case Some(m) => Ok(m)
    case None => NotFound
  }

  /** The path segment of `getMediaByType` mapped to the stored type wanted. */
  function TypeLabel(segment: string): (r: Option<string>)
    ensures segment == "movies" ==> r == Some("Movie")
    ensures segment == "tv-shows" ==> r == Some("TV Show")
    ensures r.Some? ==> segment == "movies" || segment == "tv-shows"
  {
    if segment == "movies" then Some("Movie")
    else if segment == "tv-shows" then Some("TV Show")
    else None
  }

  /** The `filter` predicate of `getMediaByType`: exact type equality. */
  function TypeIs(wanted: string): MediaItem -> bool
  {
    (m: MediaItem) => m.mediaType == wanted
  }

  /** `getMediaByType`: 400 for a segment other than `movies` or `tv-shows`;
      otherwise a page of the items of the mapped type, in stored order, with
      the number of such items as `totalItems`. */
  function GetMediaByType(stored: Stored, segment: string, page: Option<int>, limit: Option<int>): (r: Outcome<PageBody>)
    ensures r.Ok? || r.BadRequest?
    ensures Status(r) in {200, 400}
    ensures r.BadRequest? <==> segment != "movies" && segment != "tv-shows"
    ensures r.Ok? ==>
      var wanted := if segment == "movies" then "Movie" else "TV Show";
      var matching := Filter(LoadMedia(stored), TypeIs(wanted));
      && r.value.totalItems == |matching|
      && IsPage(r.value.data, matching, ClampedParam(page, DefaultPage), ClampedParam(limit, DefaultLimit))
      && |r.value.data| <= r.value.totalItems
      && (forall x :: x in r.value.data ==> x.mediaType == wanted)
      && IsSubsequence(r.value.data, LoadMedia(stored))
  {
    match TypeLabel(segment)
    case None => BadRequest
    case Some(wanted) =>
      var media := LoadMedia(stored);
      var matching := Filter(media, TypeIs(wanted));
      var data := Paginate(matching, ClampedParam(page, DefaultPage), ClampedParam(limit, DefaultLimit));
      SubsequenceTransitive(data, matching, media);
      SubsequenceAll(data, matching, TypeIs(wanted));
      Ok(PageBody(|matching|, data))
  }

  /** The `filter` predicate of `searchMedia`, for an already lower-cased query. */
  function NameMatches(lowerQuery: string): MediaItem -> bool
  {
    (m: MediaItem) => Contains(Lower(m.movieName), lowerQuery)
  }

  /** `searchMedia`: the whole collection when the query is absent or empty;
      otherwise the items whose lower-cased name contains the lower-cased
      query, in stored order. Both cases agree with one filter, because
      every name contains the empty query. */
  function SearchMedia(stored: Stored, query: Option<string>): (r: Outcome<seq<MediaItem>>)
    ensures r.Ok?
    ensures query.None? || query.value == "" ==> r.value == LoadMedia(stored)
    ensures r.value == Filter(LoadMedia(stored), NameMatches(Lower(QueryText(query))))
    ensures IsSubsequence(r.value, LoadMedia(stored))
    ensures forall x :: x in r.value ==> Contains(Lower(x.movieName), Lower(QueryText(query)))
    ensures var media := LoadMedia(stored);
            forall i :: 0 <= i < |media| && Contains(Lower(media[i].movieName), Lower(QueryText(query))) ==>
                          media[i] in r.value
  {
    var media := LoadMedia(stored);
    if query.None? || query.value == "" then
      EmptyQueryMatchesAll(media);
      FilterKeepsAll(media, NameMatches(Lower(QueryText(query))));
      Ok(media)
    else
      Ok(Filter(media, NameMatches(Lower(query.value))))
  }

  /** Every name contains the empty query. */
  lemma EmptyQueryMatchesAll(media: seq<MediaItem>)
    ensures forall i :: 0 <= i < |media| ==> NameMatches(Lower(""))(media[i])
  {
    forall i | 0 <= i < |media| ensures NameMatches(Lower(""))(media[i]) {
      ContainsEmpty(Lower(media[i].movieName));
    }
  }

  /** Lengthening a search query can only narrow the result: the items found
      for `q + more` are a subsequence of those found for `q`. */
  lemma SearchNarrows(stored: Stored, q: string, more: string)
    ensures IsSubsequence(SearchMedia(stored, Some(q + more)).value, SearchMedia(stored, Some(q)).value)
  {
    LowerAppend(q, more);
    forall m: MediaItem | NameMatches(Lower(q + more))(m) ensures NameMatches(Lower(q))(m) {
      ContainsPrefixOfNeedle(Lower(m.movieName), Lower(q), Lower(more));
    }
    FilterMonotone(LoadMedia(stored), NameMatches(Lower(q + more)), NameMatches(Lower(q)));
  }

  /** The `filter` predicate of `getMediaByGenre`: some genre of the item
      equals the requested one, ignoring case. */
  function HasGenre(genre: string): MediaItem -> bool
  {
    (m: MediaItem) => exists g :: g in m.genres && Lower(g) == Lower(genre)
  }

  /** `getMediaByGenre`: a page of the items having the genre, ignoring case,
      in stored order, with the number of such items as `totalItems`. */
  function GetMediaByGenre(stored: Stored, genre: string, page: Option<int>, limit: Option<int>): (r: Outcome<PageBody>)
    ensures r.Ok?
    ensures var matching := Filter(LoadMedia(stored), HasGenre(genre));
            && r.value.totalItems == |matching|
            && IsPage(r.value.data, matching, ClampedParam(page, DefaultPage), ClampedParam(limit, DefaultLimit))
    ensures |r.value.data| <= r.value.totalItems
    ensures forall x :: x in r.value.data ==> exists g :: g in x.genres && Lower(g) == Lower(genre)
    ensures IsSubsequence(r.value.data, LoadMedia(stored))
  {
    var media := LoadMedia(stored);
    var matching := Filter(media, HasGenre(genre));
    var data := Paginate(matching, ClampedParam(page, DefaultPage), ClampedParam(limit, DefaultLimit));
    SubsequenceTransitive(data, matching, media);
    SubsequenceAll(data, matching, HasGenre(genre));
    Ok(PageBody(|matching|, data))
  }
}
