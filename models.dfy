/** The three stored records: users and posts as the Mongoose schemas in
    modules/user.js and modules/postes.js declare them, and comments as the
    route handlers use them (text, author, post, creation time). */
module Models {
  import opened Common

  /** The placeholder picture a new user starts with. */
  const DEFAULT_PROFILE_PICTURE: string := "https://example.com/default-profile-picture.png"

  /** The user schema's `minlength` for the stored (hashed) password. */
  const SCHEMA_MIN_PASSWORD_LENGTH: nat := 6

  /** Message of the error `save` throws when a user document breaks the schema. */
  const USER_VALIDATION_FAILED: string := "User validation failed"

  // ---------------------------------------------------------------------------
  // String.prototype.trim, which the schema's `trim: true` applies on write

  /** ECMAScript white space and line terminators. */
  predicate IsJsWhitespace(c: char)
  {
    c == ' ' || c == '\t' || c == '\n' || c == '\r' || c == '\U{B}' || c == '\U{C}'
    || c == '\U{A0}' || c == '\U{1680}' || ('\U{2000}' <= c <= '\U{200A}')
    || c == '\U{2028}' || c == '\U{2029}' || c == '\U{202F}' || c == '\U{205F}'
    || c == '\U{3000}' || c == '\U{FEFF}'
  }

  /** Neither end of `s` is white space. */
  predicate IsTrimmed(s: string)
  {
    s == [] || (!IsJsWhitespace(s[0]) && !IsJsWhitespace(s[|s| - 1]))
  }

  function TrimStart(s: string): (r: string)
    ensures |r| <= |s| && r == s[|s| - |r|..]
    ensures forall i :: 0 <= i < |s| - |r| ==> IsJsWhitespace(s[i])
    ensures r != [] ==> !IsJsWhitespace(r[0])
  {
    if s != [] && IsJsWhitespace(s[0]) then TrimStart(s[1..]) else s
  }

  function TrimEnd(s: string): (r: string)
    ensures |r| <= |s| && r == s[..|r|]
    ensures forall i :: |r| <= i < |s| ==> IsJsWhitespace(s[i])
    ensures r != [] ==> !IsJsWhitespace(r[|r| - 1])
  {
    if s != [] && IsJsWhitespace(s[|s| - 1]) then TrimEnd(s[..|s| - 1]) else s
  }

  /** `r` is `s[i..j]`, and everything of `s` outside that slice is white space. */
  predicate SliceWithinWhitespace(s: string, r: string, i: nat, j: nat)
  {
    && i <= j <= |s| && r == s[i..j]
    && (forall k :: 0 <= k < i ==> IsJsWhitespace(s[k]))
    && (forall k :: j <= k < |s| ==> IsJsWhitespace(s[k]))
  }

  /** `s` without its leading and trailing white space: the result is a
      slice of `s` with only white space outside it, it has no white space at
      either end, and a string that has none is left as it is (so trimming
      twice is trimming once). */
  function Trim(s: string): (r: string)
    ensures |r| <= |s|
    ensures exists i: nat, j: nat :: SliceWithinWhitespace(s, r, i, j)
    ensures IsTrimmed(r)
    ensures IsTrimmed(s) ==> r == s
  {
    var t := TrimStart(s);
    var r := TrimEnd(t);
    TrimIsSlice(s, t, r);
    r
  }

  /** A suffix `t` of `s` past leading white space, cut to a prefix `r`
      before trailing white space, is a slice of `s` with only white space
      outside it: what TrimStart and then TrimEnd leave. */
  lemma TrimIsSlice(s: string, t: string, r: string)
    requires |t| <= |s| && t == s[|s| - |t|..]
    requires forall k :: 0 <= k < |s| - |t| ==> IsJsWhitespace(s[k])
    requires |r| <= |t| && r == t[..|r|]
    requires forall k :: |r| <= k < |t| ==> IsJsWhitespace(t[k])
    ensures SliceWithinWhitespace(s, r, |s| - |t|, |s| - |t| + |r|)
  {
    var i := |s| - |t|;
    var j := i + |r|;
    assert r == s[i..j];
    forall k | j <= k < |s| ensures IsJsWhitespace(s[k]) {
      assert s[k] == t[k - i];
    }
  }

  // ---------------------------------------------------------------------------
  // Users

  /** A user document. `password` holds the hash, never the clear text. */
  datatype User = User(
    id: Id,
    username: string,
    email: string,
    password: string,
    profilePicture: string,
    bio: string,
    createdAt: nat)

  /** The document `new User({ username, email, password })` builds: the
      trimmed fields are stored trimmed, the others take their defaults. */
  function NewUser(id: Id, username: string, email: string, passwordHash: string, now: nat): (u: User)
    ensures u.id == id && u.password == passwordHash && u.createdAt == now
    ensures u.username == Trim(username) && u.email == Trim(email)
    ensures IsTrimmed(u.username) && IsTrimmed(u.email) && IsTrimmed(u.bio)
    ensures u.profilePicture == DEFAULT_PROFILE_PICTURE && u.bio == ""
  {
    User(id, Trim(username), Trim(email), passwordHash, DEFAULT_PROFILE_PICTURE, "", now)
  }

  /** The schema's validators, which run on `save`: `required` refuses an
      empty string, and the password must be at least six characters long. */
  predicate SatisfiesUserSchema(u: User)
  {
    u.username != "" && u.email != "" && u.password != ""
    && |u.password| >= SCHEMA_MIN_PASSWORD_LENGTH
  }

  /** No two users share an email (the schema's unique index). */
  predicate EmailsUnique(users: seq<User>)
  {
    forall i, j :: 0 <= i < j < |users| ==> users[i].email != users[j].email
  }

  // ---------------------------------------------------------------------------
  // Posts

  /** A post document. `authorId` is required and refers to a user; `likes`
      holds user ids and `comments` comment ids; the text fields and the
      image URL are optional. */
  datatype Post = Post(
    id: Id,
    title: Option<string>,
    description: Option<string>,
    image: Option<string>,
    authorId: Id,
    likes: seq<Id>,
    comments: seq<Id>,
    createdAt: nat)

  /** The document `Post.create` stores: both id lists start empty and
      `createdAt` defaults to the creation time. */
  function NewPost(id: Id, title: Option<string>, description: Option<string>, image: Option<string>,
                   authorId: Id, now: nat): (p: Post)
    ensures p.id == id && p.authorId == authorId
    ensures p.title == title && p.description == description && p.image == image
    ensures p.likes == [] && p.comments == [] && p.createdAt == now
  {
    Post(id, title, description, image, authorId, [], [], now)
  }

  // ---------------------------------------------------------------------------
  // Comments

  /** A comment document: its text, its author (`userId`) and the post it
      refers to (`postId`); the reference is not checked against the posts. */
  datatype Comment = Comment(id: Id, text: Option<string>, userId: Id, postId: Id, createdAt: nat)

  // ---------------------------------------------------------------------------
  // Lookups by id

  function UserIndex(users: seq<User>, id: Id): (r: Option<nat>)
    ensures r.Some? ==> r.value < |users| && users[r.value].id == id
    ensures r.None? <==> forall j :: 0 <= j < |users| ==> users[j].id != id
  {
    FirstIndex(users, (u: User) => u.id == id)
  }

  function PostIndex(posts: seq<Post>, id: Id): (r: Option<nat>)
    ensures r.Some? ==> r.value < |posts| && posts[r.value].id == id
    ensures r.None? <==> forall j :: 0 <= j < |posts| ==> posts[j].id != id
  {
    FirstIndex(posts, (p: Post) => p.id == id)
  }

  function CommentIndex(comments: seq<Comment>, id: Id): (r: Option<nat>)
    ensures r.Some? ==> r.value < |comments| && comments[r.value].id == id
    ensures r.None? <==> forall j :: 0 <= j < |comments| ==> comments[j].id != id
  {
    FirstIndex(comments, (c: Comment) => c.id == id)
  }
}
