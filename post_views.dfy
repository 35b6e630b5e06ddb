/** The read side of Routes/posts.routes.js: `attachComments`, and the
    allPosts, paginationPost, search, singlePost and user/:userId handlers.
    Each is a function of the collections' contents (in the store's natural,
    insertion order) and of the request's parameters. */
module PostViews {
  import opened Common
  import opened Models
  import opened Ordering

  const POST_NOT_FOUND_MESSAGE: string := "Post not found"
  const QUERY_REQUIRED_MESSAGE: string := "Query parameter is required"
  const SERVER_ERROR_MESSAGE: string := "Server error"
  const DEFAULT_PAGE: int := 1
  const DEFAULT_LIMIT: int := 10

  /** The author fields `populate("userId", ...)` puts in place of a comment's
      `userId`; the picture only when the projection asks for it. */
  datatype AuthorSummary = AuthorSummary(id: Id, username: string, profilePicture: Option<string>)

  /** A comment as a read returns it: its own fields, with `userId` populated
      (null when the author no longer exists). */
  datatype CommentView = CommentView(comment: Comment, user: Option<AuthorSummary>)

  /** `{ ...post.toObject(), comments }`: every field of the post, with its
      `comments` field replaced by the attached comment views. `post.comments`
      still holds the stored id list that the spread overwrites; a reader of
      the answer sees `comments` instead. */
  datatype PostView = PostView(post: Post, comments: seq<CommentView>)

  /** A page of the feed as paginationPost answers it. */
  datatype PageView = PageView(posts: seq<PostView>, currentPage: int, totalPages: int, totalPosts: nat)

  function PostTime(p: Post): nat { p.createdAt }

  function CommentTime(c: Comment): nat { c.createdAt }

  // ---------------------------------------------------------------------------
  // attachComments

  /** The populated author of a comment written by `id`. */
  function Author(users: seq<User>, id: Id, withPicture: bool): (a: Option<AuthorSummary>)
    ensures a.Some? <==> UserIndex(users, id).Some?
    ensures a.Some? ==> a.value.id == id
                        && a.value.username == users[UserIndex(users, id).value].username
    ensures a.Some? ==> (a.value.profilePicture.Some? <==> withPicture)
    ensures a.Some? && withPicture ==>
              a.value.profilePicture == Some(users[UserIndex(users, id).value].profilePicture)
  {
    match UserIndex(users, id)
    case None => None
    case Some(i) =>
      Some(AuthorSummary(id, users[i].username,
                         if withPicture then Some(users[i].profilePicture) else None))
  }

  /** `Comment.find({ postId }).sort({ createdAt: -1 })`: exactly the
      comments on the post, each as often as the collection holds it,
      newest first. */
  function PostComments(postId: Id, comments: seq<Comment>): (r: seq<Comment>)
    ensures NewestFirst(r, CommentTime)
    ensures forall c :: c in r <==> c in comments && c.postId == postId
    ensures forall c :: multiset(r)[c] == if c.postId == postId then multiset(comments)[c] else 0
  {
    SortNewest(Filter(comments, (c: Comment) => c.postId == postId), CommentTime)
  }

  /** The comments `cs`, each with its author populated. */
  function Populate(cs: seq<Comment>, users: seq<User>, withPicture: bool): (r: seq<CommentView>)
    ensures |r| == |cs|
    ensures forall i :: 0 <= i < |r| ==> r[i].comment == cs[i]
    ensures forall i :: 0 <= i < |r| ==> r[i].user == Author(users, cs[i].userId, withPicture)
  {
    seq(|cs|, i requires 0 <= i < |cs| => CommentView(cs[i], Author(users, cs[i].userId, withPicture)))
  }

  /** The comments carried by a view. */
  function CommentsOf(v: PostView): (r: seq<Comment>)
    ensures |r| == |v.comments|
    ensures forall i :: 0 <= i < |r| ==> r[i] == v.comments[i].comment
  {
    seq(|v.comments|, i requires 0 <= i < |v.comments| => v.comments[i].comment)
  }

  /** Both `attachComments` helpers; `withPicture` is their one difference,
      the fields populated for each comment's author. */
  function Attach(post: Post, comments: seq<Comment>, users: seq<User>, withPicture: bool): (v: PostView)
    ensures v.post == post
    ensures CommentsOf(v) == PostComments(post.id, comments)
    ensures NewestFirst(CommentsOf(v), CommentTime)
    ensures forall c :: c in CommentsOf(v) <==> c in comments && c.postId == post.id
    ensures forall i :: 0 <= i < |v.comments| ==>
              v.comments[i].user == Author(users, v.comments[i].comment.userId, withPicture)
  {
    var v := PostView(post, Populate(PostComments(post.id, comments), users, withPicture));
    assert CommentsOf(v) == PostComments(post.id, comments);
    v
  }

  /** `attachComments` of Routes/posts.routes.js: the post with exactly its
      comments, newest first, authors populated with username and picture. */
  function AttachComments(post: Post, comments: seq<Comment>, users: seq<User>): (v: PostView)
    ensures v.post == post
    ensures NewestFirst(CommentsOf(v), CommentTime)
    ensures forall c :: c in CommentsOf(v) <==> c in comments && c.postId == post.id
    ensures forall c :: multiset(CommentsOf(v))[c] == if c.postId == post.id then multiset(comments)[c] else 0
    ensures forall i :: 0 <= i < |v.comments| ==>
              v.comments[i].user == Author(users, v.comments[i].comment.userId, true)
    ensures forall i :: 0 <= i < |v.comments| ==>
              (v.comments[i].user.Some? <==> UserIndex(users, v.comments[i].comment.userId).Some?)
    ensures forall i :: 0 <= i < |v.comments| ==> v.comments[i].user.Some? ==>
              v.comments[i].user.value.id == v.comments[i].comment.userId
              && v.comments[i].user.value.profilePicture.Some?
  {
    Attach(post, comments, users, true)
  }

  /** `Promise.all(posts.map(attachComments))`. */
  function AttachAll(posts: seq<Post>, comments: seq<Comment>, users: seq<User>): (r: seq<PostView>)
    ensures |r| == |posts|
    ensures forall i :: 0 <= i < |r| ==> r[i] == AttachComments(posts[i], comments, users)
  {
    seq(|posts|, i requires 0 <= i < |posts| => AttachComments(posts[i], comments, users))
  }

  /** The posts shown by a list of views. */
  function PostsOf(vs: seq<PostView>): (r: seq<Post>)
    ensures |r| == |vs|
    ensures forall i :: 0 <= i < |r| ==> r[i] == vs[i].post
  {
    seq(|vs|, i requires 0 <= i < |vs| => vs[i].post)
  }

  lemma PostsOfAttachAll(posts: seq<Post>, comments: seq<Comment>, users: seq<User>)
    ensures PostsOf(AttachAll(posts, comments, users)) == posts
  {
  }

  // ---------------------------------------------------------------------------
  // allPosts and singlePost

  /** allPosts: every post once, newest first, each with its comments attached. */
  function AllPosts(posts: seq<Post>, comments: seq<Comment>, users: seq<User>): (r: seq<PostView>)
    ensures |r| == |posts|
    ensures multiset(PostsOf(r)) == multiset(posts)
    ensures NewestFirst(PostsOf(r), PostTime)
    ensures forall i :: 0 <= i < |r| ==> r[i] == AttachComments(r[i].post, comments, users)
  {
    var sorted := SortNewest(posts, PostTime);
    PostsOfAttachAll(sorted, comments, users);
    AttachAll(sorted, comments, users)
  }

  /** singlePost/:id: 404 for an unknown id, otherwise that post with its comments. */
  function SinglePost(id: Id, posts: seq<Post>, comments: seq<Comment>, users: seq<User>): (o: Outcome<PostView>)
    ensures o.Failure? <==> (forall j :: 0 <= j < |posts| ==> posts[j].id != id)
    ensures o.Failure? ==> o == Failure(NOT_FOUND, POST_NOT_FOUND_MESSAGE)
    ensures o.Success? ==> o.code == OK && o.value.post in posts && o.value.post.id == id
                           && o.value == AttachComments(o.value.post, comments, users)
  {
    match PostIndex(posts, id)
    case None => Failure(NOT_FOUND, POST_NOT_FOUND_MESSAGE)
    case Some(i) => Success(OK, AttachComments(posts[i], comments, users))
  }

  // ---------------------------------------------------------------------------
  // user/:userId

  /** `Post.find({ authorId })`: each of the user's posts as often as the
      store holds it, in the store's order. */
  function PostsByAuthor(posts: seq<Post>, userId: Id): (r: seq<Post>)
    ensures forall p :: p in r <==> p in posts && p.authorId == userId
    ensures forall p :: multiset(r)[p] == if p.authorId == userId then multiset(posts)[p] else 0
  {
    Filter(posts, (p: Post) => p.authorId == userId)
  }

  /** user/:userId: the author's posts in the store's natural order, each
      with its comments attached. */
  function UserPosts(userId: Id, posts: seq<Post>, comments: seq<Comment>, users: seq<User>): (r: seq<PostView>)
    ensures PostsOf(r) == PostsByAuthor(posts, userId)
    ensures forall p :: p in PostsOf(r) <==> p in posts && p.authorId == userId
    ensures forall i :: 0 <= i < |r| ==> r[i] == AttachComments(r[i].post, comments, users)
  {
    PostsOfAttachAll(PostsByAuthor(posts, userId), comments, users);
    AttachAll(PostsByAuthor(posts, userId), comments, users)
  }

  // ---------------------------------------------------------------------------
  // paginationPost

  /** `parseInt(param) || default`: a parse failure (NaN, given here as None)
      and 0 are falsy and give the default; any other integer is kept. */
  function PageParam(parsed: Option<int>, default: int): (r: int)
    requires default != 0
    ensures r != 0
    ensures (parsed.None? || parsed.value == 0) ==> r == default
    ensures parsed.Some? && parsed.value != 0 ==> r == parsed.value
  {
    if parsed.None? || parsed.value == 0 then default else parsed.value
  }

  function Abs(x: int): nat { if x < 0 then -x else x }

  /** `(page - 1) * limit`. */
  function Skip(page: int, limit: int): int
  {
    (page - 1) * limit
  }

  function Min(a: int, b: int): int { if a <= b then a else b }

  /** `Math.ceil(n / d)` for a non-negative count and a non-zero divisor. */
  function CeilDiv(n: nat, d: int): (r: int)
    requires d != 0
    ensures d > 0 ==> (r - 1) * d < n <= r * d
    ensures d < 0 ==> r * d <= n < (r - 1) * d
  {
    if d > 0 then
      var q := (n + d - 1) / d;
      assert q * d <= n + d - 1 < q * d + d;
      q
    else
      var q := n / (-d);
      assert q * (-d) <= n < q * (-d) + (-d);
      assert -q * d == q * (-d);
      -q
  }

  /** `.skip(skip).limit(count)` on an ordered result: at most `count`
      elements, taken from position `skip` on. */
  function Window<T>(s: seq<T>, skip: nat, count: nat): (r: seq<T>)
    ensures |r| == if skip >= |s| then 0 else Min(count, |s| - skip)
    ensures forall i :: 0 <= i < |r| ==> r[i] == s[skip + i]
  {
    if skip >= |s| then [] else s[skip..Min(skip + count, |s|)]
  }

  /** paginationPost. Page and limit default to 1 and 10; `skip` is
      `(page - 1) * limit`. A negative skip is refused by the store (answered
      500); a negative limit is taken by the driver as its absolute value.
      The page is the window of the newest-first listing at `skip`, and the
      page count is the ceiling of total / limit. */
  function Paginate(page: Option<int>, limit: Option<int>,
                    posts: seq<Post>, comments: seq<Comment>, users: seq<User>): (o: Outcome<PageView>)
    ensures var p, l := PageParam(page, DEFAULT_PAGE), PageParam(limit, DEFAULT_LIMIT);
            var skip := Skip(p, l);
            && (o.Failure? <==> skip < 0)
            && (o.Failure? ==> o == Failure(SERVER_ERROR, SERVER_ERROR_MESSAGE))
            && (o.Success? ==>
                  && o.code == OK
                  && o.value.currentPage == p
                  && o.value.totalPosts == |posts|
                  && o.value.totalPages == CeilDiv(|posts|, l)
                  && |o.value.posts| == (if skip >= |posts| then 0 else Min(Abs(l), |posts| - skip))
                  && forall i :: 0 <= i < |o.value.posts| ==>
                       o.value.posts[i] == AllPosts(posts, comments, users)[skip + i])
  {
    var p, l := PageParam(page, DEFAULT_PAGE), PageParam(limit, DEFAULT_LIMIT);
    var skip := Skip(p, l);
    if skip < 0 then Failure(SERVER_ERROR, SERVER_ERROR_MESSAGE)
    else
      var sorted := SortNewest(posts, PostTime);
      var shown := Window(sorted, skip, Abs(l));
      Success(OK, PageView(AttachAll(shown, comments, users), p, CeilDiv(|posts|, l), |posts|))
  }

  /** With 25 posts and a limit of 10, page 1 holds 10 posts, page 3 holds
      the last 5, and there are 3 pages. */
  lemma PaginationOfTwentyFive(posts: seq<Post>, comments: seq<Comment>, users: seq<User>)
    requires |posts| == 25
    ensures Paginate(Some(1), Some(10), posts, comments, users).Success?
    ensures |Paginate(Some(1), Some(10), posts, comments, users).value.posts| == 10
    ensures Paginate(Some(3), Some(10), posts, comments, users).Success?
    ensures |Paginate(Some(3), Some(10), posts, comments, users).value.posts| == 5
    ensures Paginate(Some(3), Some(10), posts, comments, users).value.totalPages == 3
  {
    var three := Paginate(Some(3), Some(10), posts, comments, users);
    assert three.value.totalPages == 3 by {
      var t := three.value.totalPages;
      assert (t - 1) * 10 < 25 <= t * 10;
    }
  }

  /** Absent parameters behave as page 1 with a limit of 10. */
  lemma PaginationDefaults(posts: seq<Post>, comments: seq<Comment>, users: seq<User>)
    ensures Paginate(None, None, posts, comments, users) == Paginate(Some(1), Some(10), posts, comments, users)
    ensures Paginate(Some(0), Some(0), posts, comments, users) == Paginate(Some(1), Some(10), posts, comments, users)
  {
  }

  /** Position j is on page j / limit + 1 (counting from 1), at offset j % limit. */
  lemma PageOfPosition(j: nat, limit: int)
    requires limit > 0
    ensures Skip(j / limit + 1, limit) == j - j % limit
    ensures 0 <= j % limit < limit
  {
    assert j == (j / limit) * limit + j % limit;
  }

  /** On page p with a positive limit, offset k shows the post at position
      skip + k of the newest-first listing, when the listing is that long. */
  lemma PageEntry(posts: seq<Post>, comments: seq<Comment>, users: seq<User>, p: int, limit: int, k: nat)
    requires p >= 1 && limit > 0 && k < limit
    requires 0 <= Skip(p, limit) && Skip(p, limit) + k < |posts|
    ensures var o := Paginate(Some(p), Some(limit), posts, comments, users);
            o.Success? && k < |o.value.posts|
            && o.value.posts[k] == AllPosts(posts, comments, users)[Skip(p, limit) + k]
  {
    assert PageParam(Some(p), DEFAULT_PAGE) == p;
    assert PageParam(Some(limit), DEFAULT_LIMIT) == limit;
  }

  /** With a positive limit, the post at position j of the newest-first
      listing is shown on page j / limit + 1, at position j % limit. */
  lemma PagesCoverListing(posts: seq<Post>, comments: seq<Comment>, users: seq<User>, j: nat, limit: int)
    requires j < |posts| && limit > 0
    ensures var o := Paginate(Some(j / limit + 1), Some(limit), posts, comments, users);
            o.Success? && j % limit < |o.value.posts|
            && o.value.posts[j % limit] == AllPosts(posts, comments, users)[j]
  {
    var p, k := j / limit + 1, j % limit;
    PageOfPosition(j, limit);
    assert p >= 1 && Skip(p, limit) + k == j;
    PageEntry(posts, comments, users, p, limit, k);
  }

  // ---------------------------------------------------------------------------
  // search

  /** Case folding as the literal model of the regex `i` flag: ASCII letters only. */
  function LowerChar(c: char): char
  {
    if 'A' <= c <= 'Z' then (c as int + 32) as char else c
  }

  function Lower(s: string): (r: string)
    ensures |r| == |s|
    ensures forall i :: 0 <= i < |s| ==> r[i] == LowerChar(s[i])
  {
    seq(|s|, i requires 0 <= i < |s| => LowerChar(s[i]))
  }

  /** `q` occurs in `text` at position `i`, ignoring case. */
  predicate MatchesAt(text: string, q: string, i: nat)
  {
    i + |q| <= |text| && Lower(text[i..i + |q|]) == Lower(q)
  }

  /** Unanchored, case-insensitive occurrence of `q` in `text`, tried at
      each starting position in turn. */
  predicate ContainsIgnoringCase(text: string, q: string)
    decreases |text|
  {
    |q| <= |text| && (Lower(text[..|q|]) == Lower(q) || ContainsIgnoringCase(text[1..], q))
  }

  /** `q` occurs in `text`, ignoring case, exactly when it occurs at some position. */
  lemma {:induction false} ContainsIgnoringCaseIff(text: string, q: string)
    ensures ContainsIgnoringCase(text, q) <==> exists i: nat :: MatchesAt(text, q, i)
    decreases |text|
  {
    if |q| <= |text| {
      assert text[0..0 + |q|] == text[..|q|];
      if Lower(text[..|q|]) == Lower(q) {
        assert MatchesAt(text, q, 0);
      } else {
        ContainsIgnoringCaseIff(text[1..], q);
        if ContainsIgnoringCase(text[1..], q) {
          var i: nat :| MatchesAt(text[1..], q, i);
          assert text[1..][i..i + |q|] == text[i + 1..i + 1 + |q|];
          assert MatchesAt(text, q, i + 1);
        } else {
          forall i: nat ensures !MatchesAt(text, q, i) {
            if i > 0 && i + |q| <= |text| {
              assert text[1..][i - 1..i - 1 + |q|] == text[i..i + |q|];
              assert !MatchesAt(text[1..], q, i - 1);
            }
          }
        }
      }
    } else {
      forall i: nat ensures !MatchesAt(text, q, i) { }
    }
  }

  /** Two strings of the same length differing, after folding, at one
      position fold to different strings. */
  lemma FoldedDiffer(w: string, q: string, k: nat)
    requires k < |w| == |q| && LowerChar(w[k]) != LowerChar(q[k])
    ensures Lower(w) != Lower(q)
  {
    assert Lower(w)[k] != Lower(q)[k];
  }

  /** The search filter: the title or the description contains the query. */
  predicate MatchesQuery(p: Post, q: string)
  {
    (p.title.Some? && ContainsIgnoringCase(p.title.value, q))
    || (p.description.Some? && ContainsIgnoringCase(p.description.value, q))
  }

  /** The `find` with the `$or` filter: each matching post as often as the
      store holds it, in the store's order. */
  function MatchingPosts(posts: seq<Post>, q: string): (r: seq<Post>)
    ensures forall p :: p in r <==> p in posts && MatchesQuery(p, q)
    ensures forall p :: multiset(r)[p] == if MatchesQuery(p, q) then multiset(posts)[p] else 0
  {
    Filter(posts, (p: Post) => MatchesQuery(p, q))
  }

  /** search: an absent or empty query is refused with 400; otherwise
      exactly the matching posts, in the store's natural order, each with
      its comments attached. */
  function Search(q: Option<string>, posts: seq<Post>, comments: seq<Comment>, users: seq<User>): (o: Outcome<seq<PostView>>)
    ensures !Truthy(q) <==> o == Failure(BAD_REQUEST, QUERY_REQUIRED_MESSAGE)
    ensures Truthy(q) ==> o.Success?
    ensures o.Success? ==> o.code == OK && PostsOf(o.value) == MatchingPosts(posts, q.value)
    ensures o.Success? ==> forall p :: p in PostsOf(o.value) <==> p in posts && MatchesQuery(p, q.value)
    ensures o.Success? ==> forall i :: 0 <= i < |o.value| ==> o.value[i] == AttachComments(o.value[i].post, comments, users)
  {
    if !Truthy(q) then Failure(BAD_REQUEST, QUERY_REQUIRED_MESSAGE)
    else
      PostsOfAttachAll(MatchingPosts(posts, q.value), comments, users);
      Success(OK, AttachAll(MatchingPosts(posts, q.value), comments, users))
  }

  /** "cat" occurs, ignoring case, in "Cats are great" and "I love cats". */
  lemma CatOccurs()
    ensures ContainsIgnoringCase("Cats are great", "cat")
    ensures ContainsIgnoringCase("I love cats", "cat")
  {
    var t1, t2 := "Cats are great", "I love cats";
    assert t1[..3] == "Cat";
    assert Lower("Cat") == "cat" == Lower("cat");
    assert t2[7..10] == "cat";
    assert MatchesAt(t2, "cat", 7);
    ContainsIgnoringCaseIff(t2, "cat");
  }

  /** "cat" occurs neither in "Dogs" nor in "rule". */
  lemma CatAbsent()
    ensures !ContainsIgnoringCase("Dogs", "cat")
    ensures !ContainsIgnoringCase("rule", "cat")
  {
    var d, r := "Dogs", "rule";
    ContainsIgnoringCaseIff(d, "cat");
    ContainsIgnoringCaseIff(r, "cat");
    forall i: nat ensures !MatchesAt(d, "cat", i) && !MatchesAt(r, "cat", i) {
      if i == 0 {
        assert d[0..3] == "Dog" && r[0..3] == "rul";
        FoldedDiffer("Dog", "cat", 0);
        FoldedDiffer("rul", "cat", 0);
      } else if i == 1 {
        assert d[1..4] == "ogs" && r[1..4] == "ule";
        FoldedDiffer("ogs", "cat", 0);
        FoldedDiffer("ule", "cat", 0);
      }
    }
  }

  /** "cat" finds a post titled "Cats are great" and one described
      "I love cats", and not a post with neither text. */
  lemma SearchForCat()
    ensures MatchesQuery(Post(0, Some("Cats are great"), None, None, 9, [], [], 0), "cat")
    ensures MatchesQuery(Post(1, None, Some("I love cats"), None, 9, [], [], 0), "cat")
    ensures !MatchesQuery(Post(2, Some("Dogs"), Some("rule"), None, 9, [], [], 0), "cat")
  {
    CatOccurs();
    CatAbsent();
  }
}
