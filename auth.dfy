/** The decisions of `AuthController`: `login` checks an email and a
    plaintext password against the stored users; `register` appends a new
    user to the document and writes the whole document back. */
module Auth {
  import opened Seqs
  import opened Db

  /** `loadUsers`: the stored `user` list; a missing `user` key or a failed
      read or parse gives the empty list. */
  function LoadUsers(stored: Stored): (r: seq<User>)
    ensures stored.Readable? && stored.doc.user.Some? ==> r == stored.doc.user.value
    ensures stored.Unreadable? || stored.doc.user.None? ==> r == []
  {
    match stored
    case Readable(Document(_, Some(users))) => users
    case _ => []
  }

  /** `loadData`: the parsed document; a failed read or parse gives the
      empty document `{ media: [], user: [] }`. */
  function LoadData(stored: Stored): (r: Document)
    ensures stored.Readable? ==> r == stored.doc
    ensures stored.Unreadable? ==> r.media == Some([]) && r.user == Some([])
  {
    match stored
    case Readable(doc) => doc
    case Unreadable => Document(Some([]), Some([]))
  }

  /** The users of a document, as `dbData.user || []` reads them. */
  function UsersOf(doc: Document): (r: seq<User>)
    ensures doc.user.Some? ==> r == doc.user.value
    ensures doc.user.None? ==> r == []
  {
    match doc.user
    case Some(users) => users
    case None => []
  }

  /** Both fallbacks see the same users, a failed read included. */
  lemma LoadersAgree(stored: Stored)
    ensures UsersOf(LoadData(stored)) == LoadUsers(stored)
  {
    match stored
    case Readable(doc) =>
    case Unreadable =>
  }

  /** The `find` predicate of both handlers: strict equality of emails. */
  function EmailIs(email: string): User -> bool
  {
    (u: User) => u.email == email
  }

  /** A user record with the password stripped: what `login` sends back. */
  datatype PublicUser = PublicUser(name: string, email: string)

  /** `login`: 400 when the email or the password is missing, before any
      lookup; 404 when no user has the email; 401 when the first user with
      the email has another password; otherwise that user's record with
      every field but the password. */
  function Login(stored: Stored, email: Option<string>, password: Option<string>): (r: Outcome<PublicUser>)
    ensures r.Ok? || r.BadRequest? || r.NotFound? || r.Unauthorized?
    ensures Status(r) in {200, 400, 401, 404}
    ensures r.BadRequest? <==> !Given(email) || !Given(password)
    ensures var users := LoadUsers(stored);
            r.NotFound? <==> Given(email) && Given(password) &&
                             forall i :: 0 <= i < |users| ==> users[i].email != email.value
    ensures var users := LoadUsers(stored);
            r.Unauthorized? ==>
              exists i :: 0 <= i < |users| && users[i].email == email.value && users[i].password != password.value &&
                          forall j :: 0 <= j < i ==> users[j].email != email.value
    ensures var users := LoadUsers(stored);
            r.Ok? ==>
              exists i :: 0 <= i < |users| && users[i].email == email.value && users[i].password == password.value &&
                          r.value == PublicUser(users[i].name, users[i].email) &&
                          forall j :: 0 <= j < i ==> users[j].email != email.value
  {
    if !Given(email) || !Given(password) then BadRequest
    else
      match FindFirst(LoadUsers(stored), EmailIs(email.value))
      case None => NotFound
      case Some(user) =>
        if password.value != user.password then Unauthorized
        else Ok(PublicUser(user.name, user.email))
  }

  /** A user who has just been appended under a fresh email can log in with
      the password they registered, and gets their own record back. */
  lemma RegisteredUserCanLogin(media: Option<seq<MediaItem>>, users: seq<User>, u: User)
    requires u.email != "" && u.password != ""
    requires forall i :: 0 <= i < |users| ==> users[i].email != u.email
    ensures Login(Readable(Document(media, Some(users + [u]))), Some(u.email), Some(u.password))
            == Ok(PublicUser(u.name, u.email))
  {
    FindFirstAfterAppend(users, u, EmailIs(u.email));
  }

  /** `register` against the file `db`. A missing field gives 400 and a
      taken email 409, and the file is left as it was. Otherwise the new
      record `{name, email, password}` is appended after the existing users
      and the whole document is written back: 201 when the write succeeds
      (`writeSucceeds`), 500 when it fails. `writeFile` truncates the file
      before it writes, so a failed write may leave the old contents, an
      empty or partial file, or anything between: that is `afterFailure`,
      which the model does not constrain. */
  method Register(db: DbFile, name: Option<string>, email: Option<string>, password: Option<string>,
                  writeSucceeds: bool, afterFailure: Stored)
    returns (r: Outcome<User>)
    modifies db
    ensures Status(r) in {201, 400, 409, 500}
    ensures !Given(name) || !Given(email) || !Given(password) ==> r == BadRequest && db.contents == old(db.contents)
    ensures Given(name) && Given(email) && Given(password) ==>
      var before := LoadData(old(db.contents));
      var users := UsersOf(before);
      var user := User(name.value, email.value, password.value);
      if exists i :: 0 <= i < |users| && users[i].email == email.value then
        r == Conflict && db.contents == old(db.contents)
      else if !writeSucceeds then
        r == ServerError && db.contents == afterFailure
      else
        && r == Created(user)
        && db.contents == Readable(Document(before.media, Some(users + [user])))
        && |LoadUsers(db.contents)| == |users| + 1
        && LoadUsers(db.contents)[..|users|] == users
        && LoadUsers(db.contents)[|users|] == user
        && Login(db.contents, email, password) == Ok(PublicUser(user.name, user.email))
  {
    if !Given(name) || !Given(email) || !Given(password) {
      return BadRequest;
    }
    var dbData := LoadData(db.contents);
    var users := UsersOf(dbData);
    var existingUser := FindFirst(users, EmailIs(email.value));
    if existingUser.Some? {
      return Conflict;
    }
    var newUser := User(name.value, email.value, password.value);
    ghost var before := users;
    users := users + [newUser];
    dbData := dbData.(user := Some(users));
    if !writeSucceeds {
      db.contents := afterFailure;
      return ServerError;
    }
    db.contents := Readable(dbData);
    RegisteredUserCanLogin(dbData.media, before, newUser);
    assert users[..|before|] == before;
    r := Created(newUser);
  }
}
