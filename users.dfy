/** Routes/users.routes.js: registration, login, the password-free reads,
    the allow-listed profile updates, the profile picture upload and account
    deletion. Password hashing and comparison, token signing, e-mail format
    validation and the image uploader are function parameters. */
module Users {
  import opened Common
  import opened Models

  const REGISTER_MIN_PASSWORD_LENGTH: nat := 8

  const USERNAME_REQUIRED_MESSAGE: string := "username is required"
  const INVALID_EMAIL_MESSAGE: string := "Invalid email format"
  const PASSWORD_TOO_SHORT_MESSAGE: string := "Password must be at least 8 characters long"
  const EMAIL_IN_USE_MESSAGE: string := "Email already in use"
  const USER_NOT_FOUND_MESSAGE: string := "User not found"
  const INVALID_PASSWORD_MESSAGE: string := "Invalid password"
  const UNAUTHORIZED_MESSAGE: string := "Unauthorized"
  const IMAGE_REQUIRED_MESSAGE: string := "Image file is required"
  const USER_DELETED_MESSAGE: string := "User deleted successfully"
  /** The error the store raises when a write would break the unique email index. */
  const DUPLICATE_KEY_MESSAGE: string := "E11000 duplicate key error"

  /** The keys UpdateProfile copies from the body. */
  const PROFILE_FIELDS: seq<string> := ["username", "email", "bio"]
  /** The keys update/:id copies from the body. */
  const ACCOUNT_FIELDS: seq<string> := ["username", "email"]

  /** An opaque signed token carrying `{ id }`. */
  type Token = string

  /** A user as the reads answer it, after `.select("-password")`: there is
      no field for the password. */
  datatype PublicUser = PublicUser(
    id: Id, username: string, email: string, profilePicture: string, bio: string, createdAt: nat)

  datatype RegisterReply =
    | Registered(token: Token)              // 201
    | ValidationErrors(errors: seq<string>) // 400 with `errors.array()`, keeping each entry's `msg` only
    | Rejected(code: nat, message: string)

  datatype LoginReply = LoginReply(token: Token, id: Id, email: string)

  // ---------------------------------------------------------------------------
  // Registration

  /** The messages of the register route's three validators, in their order. */
  function RegistrationErrors(username: string, email: string, password: string,
                              isEmail: string -> bool): (errs: seq<string>)
    ensures errs == [] <==> username != "" && isEmail(email) && |password| >= REGISTER_MIN_PASSWORD_LENGTH
    ensures USERNAME_REQUIRED_MESSAGE in errs <==> username == ""
    ensures INVALID_EMAIL_MESSAGE in errs <==> !isEmail(email)
    ensures PASSWORD_TOO_SHORT_MESSAGE in errs <==> |password| < REGISTER_MIN_PASSWORD_LENGTH
  {
    (if username == "" then [USERNAME_REQUIRED_MESSAGE] else [])
    + (if !isEmail(email) then [INVALID_EMAIL_MESSAGE] else [])
    + (if |password| < REGISTER_MIN_PASSWORD_LENGTH then [PASSWORD_TOO_SHORT_MESSAGE] else [])
  }

  /** The schema refuses a new user exactly when its trimmed username or
      email is empty or the stored hash is shorter than `minlength`: the
      schema's bound applies to the hash, not to the clear-text password. */
  lemma NewUserSchemaFailure(id: Id, username: string, email: string, passwordHash: string, now: nat)
    ensures !SatisfiesUserSchema(NewUser(id, username, email, passwordHash, now)) <==>
              Trim(username) == "" || Trim(email) == "" || |passwordHash| < SCHEMA_MIN_PASSWORD_LENGTH
  {
  }

  /** A username of white space only passes the route's `notEmpty` check but
      trims to "", so the save fails the schema (register's 500 answer). */
  lemma BlankUsernamePassesRouteFailsSchema(email: string, password: string, isEmail: string -> bool,
                                            hash: string -> string, id: Id, now: nat)
    requires isEmail(email) && |password| >= REGISTER_MIN_PASSWORD_LENGTH
    ensures RegistrationErrors("  ", email, password, isEmail) == []
    ensures !SatisfiesUserSchema(NewUser(id, "  ", email, hash(password), now))
  {
    assert Trim("  ") == "" by {
      assert IsJsWhitespace(' ');
    }
  }

  /** `User.findOne({ email })`, with the email trimmed as the schema's
      setter does to the filter. */
  function UserWithEmail(users: seq<User>, email: string): (r: Option<nat>)
    ensures r.Some? ==> r.value < |users| && users[r.value].email == Trim(email)
    ensures r.None? <==> forall j :: 0 <= j < |users| ==> users[j].email != Trim(email)
  {
    FirstIndex(users, (u: User) => u.email == Trim(email))
  }

  // ---------------------------------------------------------------------------
  // Login

  /** login: 404 when no user has the email, 401 when the password does not
      match the stored hash; a token for the found user only on a match. */
  function Login(users: seq<User>, email: string, password: string,
                 compare: (string, string) -> bool, sign: Id -> Token): (o: Outcome<LoginReply>)
    ensures UserWithEmail(users, email).None? <==> o == Failure(NOT_FOUND, USER_NOT_FOUND_MESSAGE)
    ensures var i := UserWithEmail(users, email);
            i.Some? ==>
              && (!compare(password, users[i.value].password) <==> o == Failure(UNAUTHORIZED, INVALID_PASSWORD_MESSAGE))
              && (compare(password, users[i.value].password) ==>
                    o == Success(OK, LoginReply(sign(users[i.value].id), users[i.value].id, users[i.value].email)))
    ensures o.Success? ==> exists j :: 0 <= j < |users| && users[j].email == Trim(email)
                                       && compare(password, users[j].password) && o.value.id == users[j].id
  {
    match UserWithEmail(users, email)
    case None => Failure(NOT_FOUND, USER_NOT_FOUND_MESSAGE)
    case Some(i) =>
      if !compare(password, users[i].password) then Failure(UNAUTHORIZED, INVALID_PASSWORD_MESSAGE)
      else Success(OK, LoginReply(sign(users[i].id), users[i].id, users[i].email))
  }

  // ---------------------------------------------------------------------------
  // Password-free reads

  function Public(u: User): PublicUser
  {
    PublicUser(u.id, u.username, u.email, u.profilePicture, u.bio, u.createdAt)
  }

  /** The public view keeps every field but the password: two users look
      the same exactly when they differ at most in their password. */
  lemma PublicForgetsOnlyPassword(u: User, w: User)
    ensures Public(u) == Public(w) <==> u.(password := w.password) == w
  {
  }

  /** `User.findById(id).select("-password")`, as the profile route (with the
      caller's id) and the get-by-id route answer it. */
  function PublicById(users: seq<User>, id: Id): (o: Outcome<PublicUser>)
    ensures o.Failure? <==> forall j :: 0 <= j < |users| ==> users[j].id != id
    ensures o.Failure? ==> o == Failure(NOT_FOUND, USER_NOT_FOUND_MESSAGE)
    ensures o.Success? ==> o.code == OK && exists j :: 0 <= j < |users| && users[j].id == id
                                                       && o.value == Public(users[j])
  {
    match UserIndex(users, id)
    case None => Failure(NOT_FOUND, USER_NOT_FOUND_MESSAGE)
    case Some(i) => Success(OK, Public(users[i]))
  }

  /** The list route: every user, in the store's order, without passwords. */
  function ListUsers(users: seq<User>): (r: seq<PublicUser>)
    ensures |r| == |users|
    ensures forall i :: 0 <= i < |r| ==> r[i] == Public(users[i])
  {
    seq(|users|, i requires 0 <= i < |users| => Public(users[i]))
  }

  // ---------------------------------------------------------------------------
  // Allow-listed updates

  /** The `updates` object the handlers build: the allowed keys whose body
      value is truthy, with those values. */
  function AllowedUpdates(allowed: seq<string>, body: map<string, string>): (u: map<string, string>)
    ensures forall k :: k in u <==> k in allowed && k in body && body[k] != ""
    ensures forall k :: k in u ==> u[k] == body[k]
  {
    map k | k in body && k in allowed && body[k] != "" :: body[k]
  }

  /** The `allowedUpdates.forEach` loop that fills `updates`. */
  method CollectUpdates(allowed: seq<string>, body: map<string, string>) returns (updates: map<string, string>)
    ensures updates == AllowedUpdates(allowed, body)
  {
    updates := map[];
    for n := 0 to |allowed|
      invariant forall k :: k in updates <==> k in allowed[..n] && k in body && body[k] != ""
      invariant forall k :: k in updates ==> updates[k] == body[k]
    {
      var key := allowed[n];
      if key in body && body[key] != "" {
        updates := updates[key := body[key]];
      }
    }
    assert allowed[..|allowed|] == allowed;
  }

  /** The document after `findByIdAndUpdate(id, updates)`: each schema path
      named in `updates` is set (the trimmed ones trimmed); a field changes
      only when its key is present. Validators do not run here. */
  function ApplyUpdates(u: User, updates: map<string, string>): (r: User)
    ensures r.id == u.id && r.createdAt == u.createdAt
    ensures "username" !in updates ==> r.username == u.username
    ensures "email" !in updates ==> r.email == u.email
    ensures "bio" !in updates ==> r.bio == u.bio
    ensures "password" !in updates ==> r.password == u.password
    ensures "profilePicture" !in updates ==> r.profilePicture == u.profilePicture
    ensures "username" in updates ==> r.username == Trim(updates["username"]) && IsTrimmed(r.username)
    ensures "email" in updates ==> r.email == Trim(updates["email"]) && IsTrimmed(r.email)
    ensures "bio" in updates ==> r.bio == Trim(updates["bio"]) && IsTrimmed(r.bio)
    ensures "password" in updates ==> r.password == updates["password"]
    ensures "profilePicture" in updates ==> r.profilePicture == updates["profilePicture"]
  {
    u.(username := if "username" in updates then Trim(updates["username"]) else u.username,
       email := if "email" in updates then Trim(updates["email"]) else u.email,
       bio := if "bio" in updates then Trim(updates["bio"]) else u.bio,
       password := if "password" in updates then updates["password"] else u.password,
       profilePicture := if "profilePicture" in updates then updates["profilePicture"] else u.profilePicture)
  }

  /** Some user other than the one at position `i` has the email `e`. */
  predicate EmailUsedByOther(users: seq<User>, i: nat, e: string)
  {
    exists j :: 0 <= j < |users| && j != i && users[j].email == e
  }

  /** The answer of `findByIdAndUpdate` and the collection after it. */
  datatype Patched = Patched(outcome: Outcome<PublicUser>, users: seq<User>)

  /** `findByIdAndUpdate(id, updates, { new: true }).select("-password")`:
      404 when no such user; 400 when the new email is another user's (the
      unique index refuses the write); otherwise that one user is updated
      and returned without its password. Email uniqueness is kept. */
  function FindByIdAndUpdate(users: seq<User>, id: Id, updates: map<string, string>): (r: Patched)
    ensures UserIndex(users, id).None? ==> r == Patched(Failure(NOT_FOUND, USER_NOT_FOUND_MESSAGE), users)
    ensures var i := UserIndex(users, id);
            i.Some? && "email" in updates && EmailUsedByOther(users, i.value, Trim(updates["email"])) ==>
              r == Patched(Failure(BAD_REQUEST, DUPLICATE_KEY_MESSAGE), users)
    ensures var i := UserIndex(users, id);
            i.Some? && !("email" in updates && EmailUsedByOther(users, i.value, Trim(updates["email"]))) ==>
              r.outcome.Success?
    ensures r.outcome.Failure? ==> r.users == users
    ensures r.outcome.Success? ==>
              && UserIndex(users, id).Some?
              && var i := UserIndex(users, id).value;
                 && r.users == users[i := ApplyUpdates(users[i], updates)]
                 && r.outcome == Success(OK, Public(r.users[i]))
    ensures EmailsUnique(users) ==> EmailsUnique(r.users)
  {
    match UserIndex(users, id)
    case None => Patched(Failure(NOT_FOUND, USER_NOT_FOUND_MESSAGE), users)
    case Some(i) =>
      if "email" in updates && EmailUsedByOther(users, i, Trim(updates["email"])) then
        Patched(Failure(BAD_REQUEST, DUPLICATE_KEY_MESSAGE), users)
      else
        var updated := users[i := ApplyUpdates(users[i], updates)];
        Patched(Success(OK, Public(updated[i])), updated)
  }

  /** Through UpdateProfile's allow-list no password and no picture ever change. */
  lemma ProfileUpdateKeepsCredentials(users: seq<User>, id: Id, body: map<string, string>, j: nat)
    requires j < |users|
    ensures var r := FindByIdAndUpdate(users, id, AllowedUpdates(PROFILE_FIELDS, body));
            |r.users| == |users| && r.users[j].password == users[j].password
            && r.users[j].profilePicture == users[j].profilePicture
  {
    var u := AllowedUpdates(PROFILE_FIELDS, body);
    assert "password" !in u && "profilePicture" !in u;
  }

  /** Through update/:id's allow-list the bio, the password and the picture never change. */
  lemma AccountUpdateKeepsBio(users: seq<User>, id: Id, body: map<string, string>, j: nat)
    requires j < |users|
    ensures var r := FindByIdAndUpdate(users, id, AllowedUpdates(ACCOUNT_FIELDS, body));
            |r.users| == |users| && r.users[j].bio == users[j].bio
            && r.users[j].password == users[j].password
            && r.users[j].profilePicture == users[j].profilePicture
  {
    var u := AllowedUpdates(ACCOUNT_FIELDS, body);
    assert "bio" !in u && "password" !in u && "profilePicture" !in u;
  }

  /** An empty or absent value is a no-op: a body whose allowed values are
      all empty leaves the user as it was. */
  lemma EmptyValuesChangeNothing(users: seq<User>, id: Id, body: map<string, string>)
    requires forall k :: k in body ==> body[k] == ""
    ensures FindByIdAndUpdate(users, id, AllowedUpdates(PROFILE_FIELDS, body)).users == users
  {
    var u := AllowedUpdates(PROFILE_FIELDS, body);
    assert u == map[];
    match UserIndex(users, id)
    case None =>
    case Some(i) =>
      assert ApplyUpdates(users[i], u) == users[i];
  }

  /** Validators do not run on updates: a whitespace-only username is
      truthy, passes the allow-list and is stored trimmed to "", leaving a
      user the schema would refuse on save. */
  lemma BlankUsernameUpdateBreaksSchema(users: seq<User>, id: Id)
    requires UserIndex(users, id).Some?
    ensures var i := UserIndex(users, id).value;
            var r := FindByIdAndUpdate(users, id, AllowedUpdates(PROFILE_FIELDS, map["username" := " "]));
            r.outcome.Success? && r.users[i].username == "" && !SatisfiesUserSchema(r.users[i])
  {
    var u := AllowedUpdates(PROFILE_FIELDS, map["username" := " "]);
    assert "username" in u && "email" !in u;
    assert Trim(" ") == "";
  }

  // ---------------------------------------------------------------------------
  // The collection

  /** The user collection's invariant: ids are distinct and below the
      counter, and emails are unique. */
  ghost predicate UsersValid(users: seq<User>, nextId: Id)
  {
    && (forall i :: 0 <= i < |users| ==> users[i].id < nextId)
    && (forall i, j :: 0 <= i < j < |users| ==> users[i].id != users[j].id)
    && EmailsUnique(users)
  }

  /** Registering a user under the counter's id with an email nobody has
      keeps the invariant. */
  lemma AppendKeepsUsersValid(users: seq<User>, nextId: Id, u: User)
    requires UsersValid(users, nextId) && u.id == nextId
    requires forall j :: 0 <= j < |users| ==> users[j].email != u.email
    ensures UsersValid(users + [u], nextId + 1)
  {
    var s := users + [u];
    forall i, j | 0 <= i < j < |s| ensures s[i].id != s[j].id && s[i].email != s[j].email {
      if j == |users| {
        assert s[i] == users[i] && s[j] == u;
      } else {
        assert s[i] == users[i] && s[j] == users[j];
      }
    }
  }

  class UserCollection {
    /** The stored users, in insertion order. */
    var docs: seq<User>
    /** The id the next registered user receives. */
    var nextId: Id

    ghost predicate Valid()
      reads this
    {
      UsersValid(docs, nextId)
    }

    constructor ()
      ensures Valid() && docs == [] && nextId == 0
    {
      docs := [];
      nextId := 0;
    }

    /** register: the validators' messages with 400; 400 for an email
        already in use; 500 when the trimmed document fails the schema; each
        leaving the collection unchanged. Otherwise exactly one user is
        added, with the hashed password, and a token for it is returned. */
    method Register(username: string, email: string, password: string, isEmail: string -> bool,
                    hash: string -> string, sign: Id -> Token, now: nat)
      returns (reply: RegisterReply)
      requires Valid()
      modifies this
      ensures Valid()
      ensures RegistrationErrors(username, email, password, isEmail) != [] ==>
                && reply == ValidationErrors(RegistrationErrors(username, email, password, isEmail))
                && docs == old(docs) && nextId == old(nextId)
      ensures RegistrationErrors(username, email, password, isEmail) == []
              && UserWithEmail(old(docs), email).Some? ==>
                reply == Rejected(BAD_REQUEST, EMAIL_IN_USE_MESSAGE) && docs == old(docs) && nextId == old(nextId)
      ensures RegistrationErrors(username, email, password, isEmail) == []
              && UserWithEmail(old(docs), email).None?
              && !SatisfiesUserSchema(NewUser(old(nextId), username, email, hash(password), now)) ==>
                reply == Rejected(SERVER_ERROR, USER_VALIDATION_FAILED) && docs == old(docs) && nextId == old(nextId)
      ensures RegistrationErrors(username, email, password, isEmail) == []
              && UserWithEmail(old(docs), email).None?
              && SatisfiesUserSchema(NewUser(old(nextId), username, email, hash(password), now)) ==>
                && reply == Registered(sign(old(nextId)))
                && docs == old(docs) + [NewUser(old(nextId), username, email, hash(password), now)]
                && nextId == old(nextId) + 1
    {
      var errs := RegistrationErrors(username, email, password, isEmail);
      if errs != [] {
        return ValidationErrors(errs);
      }
      if UserWithEmail(docs, email).Some? {
        return Rejected(BAD_REQUEST, EMAIL_IN_USE_MESSAGE);
      }
      var user := NewUser(nextId, username, email, hash(password), now);
      if !SatisfiesUserSchema(user) {
        return Rejected(SERVER_ERROR, USER_VALIDATION_FAILED);
      }
      AppendKeepsUsersValid(docs, nextId, user);
      docs := docs + [user];
      nextId := nextId + 1;
      reply := Registered(sign(user.id));
    }

    /** UpdateProfile: the caller's own document, patched with the
        allow-listed username, email and bio. */
    method UpdateProfile(caller: Id, body: map<string, string>) returns (o: Outcome<PublicUser>)
      requires Valid()
      modifies this
      ensures Valid() && nextId == old(nextId)
      ensures var r := FindByIdAndUpdate(old(docs), caller, AllowedUpdates(PROFILE_FIELDS, body));
              o == r.outcome && docs == r.users
    {
      var updates := CollectUpdates(PROFILE_FIELDS, body);
      var r := FindByIdAndUpdate(docs, caller, updates);
      docs := r.users;
      o := r.outcome;
    }

    /** update/:id: 403 unless the caller is that user, before any lookup and
        with nothing changed; otherwise the document patched with the
        allow-listed username and email only. */
    method UpdateById(caller: Id, id: Id, body: map<string, string>) returns (o: Outcome<PublicUser>)
      requires Valid()
      modifies this
      ensures Valid() && nextId == old(nextId)
      ensures caller != id ==> o == Failure(FORBIDDEN, UNAUTHORIZED_MESSAGE) && docs == old(docs)
      ensures caller == id ==>
                var r := FindByIdAndUpdate(old(docs), id, AllowedUpdates(ACCOUNT_FIELDS, body));
                o == r.outcome && docs == r.users
    {
      if caller != id {
        return Failure(FORBIDDEN, UNAUTHORIZED_MESSAGE);
      }
      var updates := CollectUpdates(ACCOUNT_FIELDS, body);
      var r := FindByIdAndUpdate(docs, id, updates);
      docs := r.users;
      o := r.outcome;
    }

    /** profilePicture: 400 without a file, 400 with the uploader's message
        when it fails; otherwise the caller's picture, if the caller still
        exists, becomes the uploaded URL, and the URL is answered with 200
        whether or not a document was updated. */
    method ProfilePicture(caller: Id, file: Option<ImageFile>, upload: ImageFile -> UploadResult)
      returns (o: Outcome<string>)
      requires Valid()
      modifies this
      ensures Valid() && nextId == old(nextId)
      ensures file.None? ==> o == Failure(BAD_REQUEST, IMAGE_REQUIRED_MESSAGE)
      ensures file.Some? && upload(file.value).UploadFailed? ==>
                o == Failure(BAD_REQUEST, upload(file.value).message)
      ensures file.Some? && upload(file.value).Uploaded? ==> o == Success(OK, upload(file.value).url)
      ensures o.Failure? ==> docs == old(docs)
      ensures o.Success? ==>
                && file.Some? && upload(file.value) == Uploaded(o.value) && o.code == OK
                && match UserIndex(old(docs), caller)
                   case None => docs == old(docs)
                   case Some(i) => docs == old(docs)[i := old(docs)[i].(profilePicture := o.value)]
    {
      if file.None? {
        return Failure(BAD_REQUEST, IMAGE_REQUIRED_MESSAGE);
      }
      var uploaded := upload(file.value);
      if uploaded.UploadFailed? {
        return Failure(BAD_REQUEST, uploaded.message);
      }
      var idx := UserIndex(docs, caller);
      if idx.Some? {
        var i := idx.value;
        docs := docs[i := docs[i].(profilePicture := uploaded.url)];
      }
      o := Success(OK, uploaded.url);
    }

    /** delete/:id: 403 unless the caller is that user, 404 when it does not
        exist, both with nothing changed; otherwise exactly that user is
        removed (its posts and comments stay). */
    method DeleteById(caller: Id, id: Id) returns (o: Outcome<string>)
      requires Valid()
      modifies this
      ensures Valid() && nextId == old(nextId)
      ensures caller != id ==> o == Failure(FORBIDDEN, UNAUTHORIZED_MESSAGE) && docs == old(docs)
      ensures caller == id && UserIndex(old(docs), id).None? ==>
                o == Failure(NOT_FOUND, USER_NOT_FOUND_MESSAGE) && docs == old(docs)
      ensures caller == id && UserIndex(old(docs), id).Some? ==>
                o == Success(OK, USER_DELETED_MESSAGE)
                && docs == RemoveAt(old(docs), UserIndex(old(docs), id).value)
    {
      if caller != id {
        return Failure(FORBIDDEN, UNAUTHORIZED_MESSAGE);
      }
      var idx := UserIndex(docs, id);
      if idx.None? {
        return Failure(NOT_FOUND, USER_NOT_FOUND_MESSAGE);
      }
      docs := RemoveAt(docs, idx.value);
      o := Success(OK, USER_DELETED_MESSAGE);
    }
  }
}
