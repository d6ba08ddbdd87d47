# Media catalog API over a JSON flat file: a Dafny model

The repository is a small Express server for a catalog of movies and TV
shows, with user login and registration. All of its data lives in one JSON
document, `data/db.json`, with two top-level collections: `media` and `user`.
Each handler of `MediaController` and `AuthController` reads the whole
document afresh, computes its answer with `filter`/`find`/`slice` on the
arrays, and, for `register`, writes the whole document back.
`MovieController` instead answers from its `movies` field, which its
constructor loads from the file once.

This project models the decision logic of three controllers:

- `Media` (`src/controllers/MediaController.ts`): listing with page and
  limit, lookup by id, listing by type (`movies` / `tv-shows`), search by name
  and listing by genre. Each handler is a function from the stored file and
  the request parameters to an `Outcome`.
- `Auth` (`src/controllers/authController.ts`): `Login`, a function that
  makes the ordered checks and strips the password, and `Register`, a method
  that reads the shared file (`Db.DbFile`), appends the new user and writes
  the whole document back.
- `Movies` (`src/controllers/MovieController.ts`): the older controller, a
  class whose `movies` field is loaded once (`LoadMovies`). Lookups and
  searches are functions that read that field. `FilterMovies` is a method
  that applies its two optional filters one after the other.

The shared pieces are in their own modules. `Db` holds the records, the
document, the file state and the outcome. `Seqs` holds JavaScript's
`filter` and `find` as `Filter` and `FindFirst`, and the order-preserving
subsequence relation. `Text` holds `toLowerCase` and `includes` as `Lower`
and `Contains`.

Modelling conventions:

- The file is `Stored`: either `Readable(doc)` or `Unreadable`, which stands
  for a failed `readFile` or `JSON.parse`. A `Document` may lack either
  top-level key (`Option`), because the fallbacks treat a missing key on
  purpose.
- Request parameters are already parsed. An `Option` is `None` when the
  parameter is absent. For an id, `None` is the `NaN` that `parseInt` gives
  for text that is not a number; `NaN` equals no id.
- A string field is `Given` when it is present and not empty. This is
  JavaScript truthiness for strings.
- An `Outcome` is the status and the JSON body. `NoBody` is a 200 sent by
  `res.json(undefined)`.
- Whether the file write succeeds is the `writeSucceeds` parameter of
  `Register`. `writeFile` truncates the file before writing, so what a
  failed write leaves in the file is the unconstrained `afterFailure`
  parameter.
- `MovieController.movies` is `None` when it is `undefined`. That happens
  when the constructor loads, with no type, a readable document that has no
  `media` key. Then a `find` or `filter` on it throws, and the handler
  answers 500.

Behaviour of the handlers worth noting:

- `getMediaByType` answers 400 for every segment other than `movies` and
  `tv-shows`.
- `getMediaByGenre` is paginated, with `totalItems`.
- `searchMedia` answers with a bare array, not a paginated body.
- When the file cannot be read, `register` still goes ahead. It starts from
  the fallback document `{ media: [], user: [] }`, so a successful write
  replaces the stored media with an empty list. `Auth.Register` states this
  through `LoadData`.

## Model

| member | source | states |
|---|---|---|
| `Text.Lower` | src/controllers/MediaController.ts:104 | `toLowerCase` keeps the length and folds each character on its own |
| `Text.Contains` | src/controllers/MediaController.ts:106 | the position-by-position scan used for `includes` holds exactly when the needle occurs at some offset of the string |
| `Text.ContainsPrefixOfNeedle` | src/controllers/MediaController.ts:104-107 | a string containing `a + b` contains `a`, so longer queries match fewer names |
| `Seqs.Filter` | src/controllers/MediaController.ts:105-107 | `filter` keeps only elements satisfying the predicate, keeps every such element, keeps stored order (subsequence) and never grows the list |
| `Seqs.FilterCounts` | src/controllers/MediaController.ts:105-107 | `filter` keeps each passing element exactly as many times as it occurs and drops every failing one, counted as a multiset |
| `Seqs.FindFirst` | src/controllers/MediaController.ts:52 | `find` gives none exactly when no element satisfies the predicate; otherwise it gives the element at some index that satisfies it, with no earlier index satisfying it |
| `Seqs.FindFirstAfterAppend` | src/controllers/authController.ts:83-84 | when no element of a list satisfies the predicate, `find` on the list with `x` appended gives `x`, provided `x` satisfies it |
| `Seqs.SliceIsSubsequence` | src/controllers/MediaController.ts:37 | a contiguous slice is an order-preserving subsequence of its list |
| `Seqs.SubsequenceTransitive` | src/controllers/MediaController.ts:80-81 | a page of a filtered list is still a subsequence of the whole list |
| `Seqs.FilterKeepsAll` | src/controllers/MovieController.ts:60-64 | a filter that every element passes gives back the list unchanged |
| `Seqs.FilterTwice` | src/controllers/MovieController.ts:76-86 | filtering by one predicate and then another equals a single filter by their conjunction |
| `Seqs.FilterMonotone` | src/controllers/MediaController.ts:105-107 | a stricter predicate's result is a subsequence of a weaker one's |
| `Media.LoadMedia` | src/controllers/MediaController.ts:17-27 | a failed read, or a document without `media`, gives the empty list; otherwise the stored list |
| `Media.ClampedParam` | src/controllers/MediaController.ts:32-34 | page and limit are at least 1: the default (1 and 8) when absent, the value when it is at least 1, and 1 otherwise |
| `Media.Paginate` | src/controllers/MediaController.ts:36-37 | the page starts at offset `(page - 1) * limit`, holds at most `limit` consecutive items, is empty past the end, and is a subsequence of the list |
| `Media.ItemOnItsPage` | src/controllers/MediaController.ts:36-37 | every item can be reached: item `i` is at position `i % limit` of page `i / limit + 1` |
| `Media.GetAllMedia` | src/controllers/MediaController.ts:32-41 | always succeeds; `totalItems` is the size of the whole collection, and `data` is the requested page, no longer than the limit or the total |
| `Media.GetMediaById` | src/controllers/MediaController.ts:50-57 | answers the first item with the parsed id; 404 exactly when no item has it, always when the id did not parse |
| `Media.TypeLabel` | src/controllers/MediaController.ts:75 | `movies` maps to `Movie` and `tv-shows` to `TV Show`; no other segment maps to anything |
| `Media.GetMediaByType` | src/controllers/MediaController.ts:68-87 | 400 exactly for a segment other than `movies` or `tv-shows`; otherwise every item of the page has the mapped type, `totalItems` is the number of items of that type and at least the page size, and the page is a subsequence of the collection |
| `Media.SearchMedia` | src/controllers/MediaController.ts:97-108 | an absent or empty query gives the whole collection; otherwise exactly the items whose lower-cased name contains the lower-cased query, in stored order; the short cut agrees with the filter |
| `Media.SearchNarrows` | src/controllers/MediaController.ts:104-107 | the items found for a longer query (`q + more`) are a subsequence of those found for `q` |
| `Media.EmptyQueryMatchesAll` | src/controllers/MediaController.ts:99-101 | every name contains the empty query, so every item passes it |
| `Media.GetMediaByGenre` | src/controllers/MediaController.ts:118-134 | every item of the page has some genre equal to the requested one ignoring case; `totalItems` is the number of such items and at least the page size; the page is a subsequence of the collection |
| `Auth.LoadUsers` | src/controllers/authController.ts:17-26 | a failed read or a missing `user` key gives the empty list; otherwise the stored users |
| `Auth.LoadData` | src/controllers/authController.ts:27-35 | a failed read gives `{ media: [], user: [] }`; otherwise the stored document |
| `Auth.UsersOf` | src/controllers/authController.ts:75 | the users of the loaded document: its `user` list, or the empty list when the key is missing |
| `Auth.LoadersAgree` | src/controllers/authController.ts:21 | `login`'s and `register`'s views of the users agree, a failed read included |
| `Auth.Login` | src/controllers/authController.ts:38-58 | 400 exactly when the email or the password is missing; else 404 exactly when no user has the email; 401 only when the first user with the email has another password; success only with that user's name and email and no password |
| `Auth.RegisteredUserCanLogin` | src/controllers/authController.ts:83-86 | after a user under a fresh email is appended, logging in with that email and password gives back that user's record |
| `Auth.Register` | src/controllers/authController.ts:66-90 | 400 for a missing field and 409 for a taken email, both with the file unchanged; otherwise the record `{name, email, password}` is appended after the unchanged earlier users with `media` untouched; the count is one higher and the new user can log in; a failed write gives 500 and leaves the file as the interrupted write left it; only the codes 201, 400, 409 and 500 occur |
| `Movies.MovieController.constructor` | src/controllers/MovieController.ts:12-17 | starts from `[]` and loads every stored item, of every type |
| `Movies.MovieController.LoadMovies` | src/controllers/MovieController.ts:19-33 | with a type, exactly the stored items whose type matches ignoring case, in stored order; with no type, the stored `media` value; on a failed read, or a typed load of a document without `media`, the empty list |
| `Movies.MovieController.GetAllMovies` | src/controllers/MovieController.ts:35-41 | answers the loaded list; `undefined` is sent as a body-less 200 |
| `Movies.MovieController.GetMovieById` | src/controllers/MovieController.ts:43-56 | the first loaded movie with the id; 404 exactly when none has it; 500 exactly when `movies` is `undefined` |
| `Movies.MovieController.SearchMovies` | src/controllers/MovieController.ts:58-69 | exactly the loaded movies whose lower-cased title or description contains the lower-cased query, in loaded order; an absent or empty query keeps every movie; 500 exactly when `movies` is `undefined` |
| `Movies.EmptyQueryMatchesAll` | src/controllers/MovieController.ts:60 | the default empty query keeps every movie |
| `Movies.MovieController.FilterMovies` | src/controllers/MovieController.ts:73-88 | the result equals one filter by every active condition: the genre, ignoring case, only when a genre is given; `rating >= minRating` only when `minRating` is not zero. It is a subsequence of the loaded movies, and with no active filter it is all of them; with `movies` `undefined`, an active filter gives 500 and no active filter a body-less 200 |

## Left out

- File I/O and serialisation (`readFile`, `readFileSync`, `writeFile`, `JSON.parse`, `JSON.stringify`) and `console` logging: the file is the `Stored` value; a failed read or parse is `Unreadable`, and whether the write succeeds is a parameter.
- The Express request and response objects: parameters are already extracted, and the answer is an `Outcome` with its status (`Db.Status`). The `success` flag and the text of the messages in the bodies are not modelled.
- `parseInt` and `parseFloat` on page, limit and rating: they are taken as parsed numbers. `NaN` is modelled only for the id. A `NaN` page or limit (`Math.max(NaN, 1)` is `NaN`) is not modelled.
- JavaScript numbers are doubles; the offset `(page - 1) * limit` is computed with unbounded integers, and ratings are reals.
- `Text.Lower`: `toLowerCase` is a Unicode mapping; the model folds the ASCII letters only, one character at a time. Only `Media.SearchNarrows` depends on that: it uses that lower-casing a concatenation lower-cases each part, which context-dependent Unicode rules (the Greek final sigma) break.
- Records with missing or wrongly typed fields are not modelled; the model assumes every record has all of its fields with their types. Where a handler calls a method on such a field, it throws and answers 500: `item.movie_name` in `searchMedia` (src/controllers/MediaController.ts:106), `item.genres` in `getMediaByGenre` (:126), `movie.title` and `movie.description` in `searchMovies` (src/controllers/MovieController.ts:62-63) and `movie.genre` in `filterMovies` when a genre is given (:80). Elsewhere a bad field throws nothing: a user record without a usable `email` fails `u.email === email` and is skipped by the `find` of both `login` and `register` (src/controllers/authController.ts:45, :76); `m.type === formattedType` in `getMediaByType` is just false; and a bad `movie.type` in a typed `loadMovies` throws inside its `try`, which leaves `movies` as `[]` (src/controllers/MovieController.ts:25-31).
- The file is assumed to parse to a JSON object. A file holding `null` makes `register` throw at `dbData.user` and answer 500; a file holding an array gets a 201 from `register`, but `JSON.stringify` drops the added `user` property, so the new user is not stored. Request fields are strings or absent; an Express query parameter given twice (an array) is not modelled.
- The JSON document's other top-level keys and records' other fields are not modelled. The login answer keeps the name and email of the record, the two fields besides the password that registration writes.
- The 500 answers of `MediaController` and `AuthController` come only from unexpected exceptions, which the assumptions above rule out. The exception is a failed write in `Register`, which is modelled.
- Route and server wiring (`src/server.ts`, `src/routes/mediaRoutes.ts`, `src/routes/authRoutes.ts`, static files), the upload middleware (`src/middleware/upload.ts`), the response helper and its type (`src/utils/respone.ts`, `src/types/Respone.ts`), and the compiled `dist/controllers/MovieController.js`, which is an older build of the same controller.
- Creating, updating and deleting media, id assignment and the author filter are not modelled: none of the three controllers implements them.
- Concurrency: each handler is one sequential step. The lost-update problem between two requests that both read and then write the file is not modelled.
