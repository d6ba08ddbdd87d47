/** The flat-file database: the JSON document with its `media` and `user`
    collections, the state of the file that holds it, and the outcomes the
    handlers answer with. */
module Db {
  import opened Seqs

  /** One entry of the `media` collection. The two controllers read
      different fields of the same records: `MediaController` reads
      `movie_name`, `type` and `genres`; `MovieController` reads `title`,
      `description`, `type`, the single `genre` string and `rating`. */
  datatype MediaItem = MediaItem(
    id: int,
    movieName: string,
    title: string,
    description: string,
    mediaType: string,
    genres: seq<string>,
    genre: string,
    rating: real)

  /** One entry of the `user` collection; the password is stored as given. */
  datatype User = User(name: string, email: string, password: string)

  /** The parsed document. Either top-level key may be missing. */
  datatype Document = Document(media: Option<seq<MediaItem>>, user: Option<seq<User>>)

  /** What reading the file yields: a parsed document, or a failure of
      `readFile` or of `JSON.parse`. */
  datatype Stored = Readable(doc: Document) | Unreadable

  /** The HTTP answer of a handler: the status and, on success, the JSON body.
      `NoBody` is a 200 whose body is `res.json(undefined)`. */
  datatype Outcome<T> =
    | Ok(value: T)
    | Created(value: T)
    | NoBody
    | BadRequest
    | Unauthorized
    | NotFound
    | Conflict
    | ServerError

  /** The HTTP status code each outcome is sent with. */
  function Status<T>(o: Outcome<T>): (code: int)
    ensures 200 <= code < 600
    ensures code == 200 <==> o.Ok? || o.NoBody?
    ensures code == 500 <==> o.ServerError?
  {
    match o
    case Ok(_) => 200
    case Created(_) => 201
    case NoBody => 200
    case BadRequest => 400
    case Unauthorized => 401
    case NotFound => 404
    case Conflict => 409
    case ServerError => 500
  }

  /** The `find` predicate of both id lookups (`m.id === id`). An
      unparsable id (`NaN`, here `None`) is equal to no id. */
  function IdIs(id: Option<int>): MediaItem -> bool
  {
    (m: MediaItem) => id == Some(m.id)
  }

  /** A search query: an absent query reads as the empty one. */
  function QueryText(query: Option<string>): string
  {
    match query
    case None => ""
    case Some(q) => q
  }

  /** A request field is given when it is present and not the empty
      string (JavaScript truthiness of a string). */
  predicate Given(field: Option<string>)
  {
    field.Some? && field.value != ""
  }

  /** The shared file `data/db.json`. Every request reads it afresh; a
      mutation overwrites it as a whole. */
  class DbFile {
    var contents: Stored

    constructor (initial: Stored)
      ensures contents == initial
    {
      contents := initial;
    }
  }
}
